/**
  The words of the s-expression language of the game's configuration files, as a
  grammar of longest runs. The scanner of `Parser` works through a graph of states
  one character at a time; here every form is described by where its runs end.

  Characters are the bytes of the file, and letters and digits are the ASCII ones.
*/
module Lexer {

  // -------------------------------------------------------------- characters

  predicate Digit(c: char) { '0' <= c <= '9' }

  predicate Letter(c: char) { 'a' <= c <= 'z' || 'A' <= c <= 'Z' }

  predicate Alnum(c: char) { Digit(c) || Letter(c) }

  predicate Sign(c: char) { c == '+' || c == '-' }

  predicate ExponentMark(c: char) { c == 'd' || c == 'D' || c == 'e' || c == 'E' }

  predicate BlankChar(c: char) { c == ' ' || c == '\t' || c == '\r' || c == '\n' }

  predicate WordStart(c: char) { c == '*' || c == '/' || c == '_' || Letter(c) }

  /** The kinds of characters that come in runs. */
  datatype Alphabet = Digital | Octal | Hexa | WordPart | Commented | Plain(quote: char) | Only(quote: char) {
    predicate Has(c: char) {
      match this
      case Digital => Digit(c)
      case Octal => '0' <= c <= '7'
      case Hexa => Digit(c) || 'a' <= c <= 'f' || 'A' <= c <= 'F'
      case WordPart => Alnum(c) || Sign(c) || c == '*' || c == '/' || c == '.' || c == '_'
      case Commented => c != '\0' && c != '\n'
      case Plain(quote) => c != '\0' && c != '\r' && c != '\n' && c != quote
      case Only(quote) => c == quote
    }
  }

  // -------------------------------------------------------------------- runs

  /** Where the longest run of such characters starting at `i` ends. */
  function Run(s: string, i: nat, a: Alphabet): (j: nat)
    requires i <= |s|
    ensures i <= j <= |s|
    decreases |s| - i
  {
    if i < |s| && a.Has(s[i]) then Run(s, i + 1, a) else i
  }

  /** It is a run, it is the longest, and there is only one. */
  lemma {:induction false} RunIsLongest(s: string, i: nat, j: nat, a: Alphabet)
    requires i <= j <= |s|
    ensures Run(s, i, a) == j <==> (forall k :: i <= k < j ==> a.Has(s[k])) && (j < |s| ==> !a.Has(s[j]))
    decreases j - i
  {
    if i < j {
      RunIsLongest(s, i + 1, j, a);
    }
  }

  // -------------------------------------------------------- words and numbers

  datatype Form = Word | Whole | Decimal | Wrong

  datatype Lexeme = Lexeme(form: Form, end: nat)

  /** A number may not run into a letter or a digit of another kind. */
  function Stop(s: string, i: nat, form: Form): Lexeme
    requires i <= |s|
  {
    if i < |s| && Alnum(s[i]) then Lexeme(Wrong, i + 1) else Lexeme(form, i)
  }

  function ExponentDigits(s: string, i: nat): (r: Lexeme)
    requires i <= |s|
    ensures i <= r.end <= |s|
  {
    var j := Run(s, i, Digital);
    if j == i then Lexeme(Wrong, i) else Stop(s, j, Decimal)
  }

  function Exponent(s: string, i: nat): (r: Lexeme)
    requires i <= |s|
    ensures i <= r.end <= |s|
  {
    ExponentDigits(s, if i < |s| && Sign(s[i]) then i + 1 else i)
  }

  function FractionDigits(s: string, i: nat): (r: Lexeme)
    requires i <= |s|
    ensures i <= r.end <= |s|
  {
    var j := Run(s, i, Digital);
    if j < |s| && ExponentMark(s[j]) then Exponent(s, j + 1) else Stop(s, j, Decimal)
  }

  function Fraction(s: string, i: nat): (r: Lexeme)
    requires i <= |s|
    ensures i <= r.end <= |s|
  {
    if Run(s, i, Digital) == i then Lexeme(Wrong, i) else FractionDigits(s, i)
  }

  function Digits(s: string, i: nat): (r: Lexeme)
    requires i <= |s|
    ensures i <= r.end <= |s|
  {
    var j := Run(s, i, Digital);
    if j < |s| && s[j] == '.' then
      Fraction(s, j + 1)
    else if j < |s| && ExponentMark(s[j]) then
      Exponent(s, j + 1)
    else
      Stop(s, j, Whole)
  }

  function Zero(s: string, i: nat): (r: Lexeme)
    requires i <= |s|
    ensures i <= r.end <= |s|
  {
    if i < |s| && (s[i] == 'x' || s[i] == 'X') then
      Stop(s, Run(s, i + 1, Hexa), Whole)
    else if i < |s| && s[i] == '.' then
      Fraction(s, i + 1)
    else
      Stop(s, Run(s, i, Octal), Whole)
  }

  function Signed(s: string, i: nat): (r: Lexeme)
    requires i <= |s|
    ensures i <= r.end <= |s|
  {
    if i < |s| && s[i] == '0' then
      Zero(s, i + 1)
    else if i < |s| && s[i] == '.' then
      Fraction(s, i + 1)
    else if i < |s| && Digit(s[i]) then
      Digits(s, i + 1)
    else
      Stop(s, i, Word)
  }

  /** The word or number that starts at `i`. */
  function Bare(s: string, i: nat): (r: Lexeme)
    requires i < |s|
    ensures i < r.end <= |s|
  {
    if Sign(s[i]) then
      Signed(s, i + 1)
    else if Digit(s[i]) || s[i] == '.' then
      Signed(s, i)
    else if WordStart(s[i]) then
      Lexeme(Word, Run(s, i + 1, WordPart))
    else
      Lexeme(Wrong, i + 1)
  }

  // ----------------------------------------------------------------- strings

  datatype Quoted = Closed(text: string, end: nat) | Unclosed(end: nat)

  /**
    A string that opened just before `i` goes on to its first run of quotes. The last
    quote of that run closes it, and the others belong to the text.
  */
  function Quotation(s: string, i: nat, quote: char): (r: Quoted)
    requires i <= |s|
    ensures i <= r.end <= |s|
  {
    var j := Run(s, i, Plain(quote));
    var k := Run(s, j, Only(quote));
    if j == k then Unclosed(j) else Closed(s[i..k - 1], k)
  }

  // ------------------------------------------------------------------ tokens

  datatype Kind = End | Open | Close | Str | Int | Flt | Bad

  /** A token, the text of an atom, and where reading goes on. */
  datatype Token = Token(kind: Kind, text: string, end: nat)

  predicate Atomic(kind: Kind) { kind == Str || kind == Int || kind == Flt }

  /** Past blanks and comments; a comment ends before the end of its line. */
  function Skip(s: string, i: nat): (j: nat)
    requires i <= |s|
    ensures i <= j <= |s|
    ensures j < |s| ==> !BlankChar(s[j]) && s[j] != ';'
    decreases |s| - i
  {
    if i < |s| && BlankChar(s[i]) then
      Skip(s, i + 1)
    else if i < |s| && s[i] == ';' then
      Skip(s, Run(s, i + 1, Commented))
    else
      i
  }

  function OfQuoted(r: Quoted): Token {
    if r.Closed? then Token(Str, r.text, r.end) else Token(Bad, "", r.end)
  }

  function OfLexeme(s: string, i: nat, r: Lexeme): Token
    requires i <= r.end <= |s|
  {
    match r.form
    case Word => Token(Str, s[i..r.end], r.end)
    case Whole => Token(Int, s[i..r.end], r.end)
    case Decimal => Token(Flt, s[i..r.end], r.end)
    case Wrong => Token(Bad, "", r.end)
  }

  /** The token that starts at `i`, where there is neither a blank nor a comment. */
  function TokenAt(s: string, i: nat): Token
    requires i <= |s|
  {
    if i == |s| || s[i] == '\0' then
      Token(End, "", i)
    else if s[i] == '(' then
      Token(Open, "", i + 1)
    else if s[i] == ')' then
      Token(Close, "", i + 1)
    else if s[i] == '"' || s[i] == '\'' then
      OfQuoted(Quotation(s, i + 1, s[i]))
    else
      OfLexeme(s, i, Bare(s, i))
  }

  /**
    The next token at or after `i`. Every token but the end mark takes up characters of
    its own, so a reader that goes on from `end` comes to the end of the text.
  */
  function Lex(s: string, i: nat): (t: Token)
    requires i <= |s|
    ensures i <= t.end <= |s|
    ensures t.kind != End ==> Skip(s, i) < t.end
    ensures t.kind == End ==> t.end == |s| || s[t.end] == '\0'
  {
    TokenAt(s, Skip(s, i))
  }

  // --------------------------------------------------------- the end of the text

  /** A text that goes on behind a NUL. */
  predicate Ended(s: string, t: string) {
    |s| < |t| && s == t[..|s|] && t[|s|] == '\0'
  }

  lemma {:induction false} RunEnds(s: string, t: string, i: nat, a: Alphabet)
    requires Ended(s, t) && i <= |s| && !a.Has('\0')
    ensures Run(t, i, a) == Run(s, i, a)
    decreases |s| - i
  {
    assert forall k | 0 <= k < |s| :: t[k] == s[k];
    if i < |s| && a.Has(s[i]) {
      RunEnds(s, t, i + 1, a);
    }
  }

  lemma StopEnds(s: string, t: string, i: nat, form: Form)
    requires Ended(s, t) && i <= |s|
    ensures Stop(t, i, form) == Stop(s, i, form)
  {
    assert i < |s| ==> t[i] == s[i];
  }

  lemma FractionEnds(s: string, t: string, i: nat)
    requires Ended(s, t) && i <= |s|
    ensures Fraction(t, i) == Fraction(s, i) && Exponent(t, i) == Exponent(s, i)
  {
    hide Run, Stop;
    forall k | 0 <= k < |s| ensures t[k] == s[k] {
    }
    forall k | 0 <= k <= |s| ensures Run(t, k, Digital) == Run(s, k, Digital) && Stop(t, k, Decimal) == Stop(s, k, Decimal) {
      RunEnds(s, t, k, Digital);
      StopEnds(s, t, k, Decimal);
    }
  }

  lemma SignedEnds(s: string, t: string, i: nat)
    requires Ended(s, t) && i <= |s|
    ensures Signed(t, i) == Signed(s, i)
  {
    hide Run, Stop, Fraction, Exponent;
    forall k | 0 <= k < |s| ensures t[k] == s[k] {
    }
    forall k, form | 0 <= k <= |s| ensures Stop(t, k, form) == Stop(s, k, form) {
      StopEnds(s, t, k, form);
    }
    forall k, a: Alphabet | 0 <= k <= |s| && !a.Has('\0') ensures Run(t, k, a) == Run(s, k, a) {
      RunEnds(s, t, k, a);
    }
    forall k | 0 <= k <= |s| ensures Fraction(t, k) == Fraction(s, k) && Exponent(t, k) == Exponent(s, k) {
      FractionEnds(s, t, k);
    }
  }

  lemma {:induction false} SkipEnds(s: string, t: string, i: nat)
    requires Ended(s, t) && i <= |s|
    ensures Skip(t, i) == Skip(s, i)
    decreases |s| - i
  {
    if i < |s| {
      assert t[i] == s[i];
      if BlankChar(s[i]) {
        SkipEnds(s, t, i + 1);
      } else if s[i] == ';' {
        RunEnds(s, t, i + 1, Commented);
        SkipEnds(s, t, Run(s, i + 1, Commented));
      }
    }
  }

  lemma BareEnds(s: string, t: string, i: nat)
    requires Ended(s, t) && i < |s|
    ensures Bare(t, i) == Bare(s, i) && OfLexeme(t, i, Bare(t, i)) == OfLexeme(s, i, Bare(s, i))
  {
    hide Run, Signed;
    assert t[i] == s[i];
    SignedEnds(s, t, i);
    SignedEnds(s, t, i + 1);
    RunEnds(s, t, i + 1, WordPart);
    var j := Bare(s, i).end;
    assert s[i..j] == t[..|s|][i..j] == t[i..j];
  }

  lemma QuotationEnds(s: string, t: string, i: nat, quote: char)
    requires Ended(s, t) && i <= |s| && quote != '\0'
    ensures Quotation(t, i, quote) == Quotation(s, i, quote)
  {
    hide Run;
    RunEnds(s, t, i, Plain(quote));
    var j := Run(s, i, Plain(quote));
    RunEnds(s, t, j, Only(quote));
    var k := Run(s, j, Only(quote));
    assert j < k ==> s[i..k - 1] == t[..|s|][i..k - 1] == t[i..k - 1];
  }

  /** Up to a NUL every token is what it would be if the text ended there. */
  lemma TokensEnd(s: string, t: string, i: nat)
    requires Ended(s, t) && i <= |s|
    ensures Lex(t, i) == Lex(s, i)
  {
    hide Run, Skip, Bare, Quotation, OfLexeme;
    SkipEnds(s, t, i);
    var j := Skip(s, i);
    if j < |s| {
      assert t[j] == s[j];
      BareEnds(s, t, j);
      if s[j] == '"' || s[j] == '\'' {
        QuotationEnds(s, t, j + 1, s[j]);
      }
    }
  }

  // ------------------------------------------------------------------- lines

  /** The line ends between two places of the text. */
  function Lines(s: string, i: nat, j: nat): nat
    requires i <= j <= |s|
    decreases j - i
  {
    if i == j then 0 else Lines(s, i, j - 1) + if s[j - 1] == '\n' then 1 else 0
  }

  function LineEnds(s: string, i: nat, j: nat): set<int>
    requires i <= j <= |s|
  {
    set k | i <= k < j && s[k] == '\n'
  }

  lemma {:induction false} LinesAreCounted(s: string, i: nat, j: nat)
    requires i <= j <= |s|
    ensures Lines(s, i, j) == |LineEnds(s, i, j)|
    decreases j - i
  {
    if i == j {
      assert LineEnds(s, i, j) == {};
    } else {
      LinesAreCounted(s, i, j - 1);
      assert LineEnds(s, i, j) == LineEnds(s, i, j - 1) + if s[j - 1] == '\n' then {j - 1} else {};
    }
  }

  lemma {:induction false} LinesAdd(s: string, i: nat, j: nat, k: nat)
    requires i <= j <= k <= |s|
    ensures Lines(s, i, k) == Lines(s, i, j) + Lines(s, j, k)
    decreases k - j
  {
    if j < k {
      LinesAdd(s, i, j, k - 1);
    }
  }

  lemma {:induction false} RunIsOnOneLine(s: string, i: nat, a: Alphabet)
    requires i <= |s| && !a.Has('\n')
    ensures Lines(s, i, Run(s, i, a)) == 0
    decreases |s| - i
  {
    if i < |s| && a.Has(s[i]) {
      RunIsOnOneLine(s, i + 1, a);
      LinesAdd(s, i, i + 1, Run(s, i, a));
    }
  }
}
