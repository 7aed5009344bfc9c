/**
  Configuration files as they are written: words, quoted texts, numbers in any of the
  notations and lists, with any blanks and comments between them; and that the reader
  makes of a file what its author meant.
*/
module Layouts {
  import opened Lexer
  import opened Reader

  /** What can stand in a file. An integer has the prefix `0` when it is octal and `0x` when it is hexadecimal. */
  datatype Item =
    | Unquoted(text: string)
    | InQuotes(text: string, mark: char)
    | Integer(sign: string, prefix: string, digits: string)
    | Floating(sign: string, whole: string, part: string, exponent: string)
    | Group(content: Content)

  /** Items with what stands before each of them, and behind the last. */
  datatype Content = Nothing(gap: string) | More(gap: string, item: Item, rest: Content)

  // ----------------------------------------------------------- what is written

  function TextOf(c: Content): string {
    match c
    case Nothing(gap) => gap
    case More(gap, item, rest) => gap + (Spelling(item) + TextOf(rest))
  }

  function Spelling(item: Item): string {
    match item
    case Unquoted(text) => text
    case InQuotes(text, mark) => [mark] + text + [mark]
    case Integer(sign, prefix, digits) => sign + (prefix + digits)
    case Floating(sign, whole, part, exponent) => sign + (whole + (Pointed(part) + exponent))
    case Group(content) => "(" + (TextOf(content) + ")")
  }

  function Pointed(part: string): string {
    if part == "" then "" else "." + part
  }

  // --------------------------------------------------------- what can be written

  predicate DecimalDigits(t: string) { forall c <- t :: '0' <= c <= '9' }

  predicate OctalDigits(t: string) { forall c <- t :: '0' <= c <= '7' }

  predicate HexaDigits(t: string) { forall c <- t :: '0' <= c <= '9' || 'a' <= c <= 'f' || 'A' <= c <= 'F' }

  /** A letter or one of three marks, and then letters, digits and some marks; or a sign alone. */
  predicate IsWord(t: string) {
    || t == "+" || t == "-"
    || (t != ""
        && ('a' <= t[0] <= 'z' || 'A' <= t[0] <= 'Z' || t[0] == '*' || t[0] == '/' || t[0] == '_')
        && forall c <- t[1..] ::
             || 'a' <= c <= 'z' || 'A' <= c <= 'Z' || '0' <= c <= '9'
             || c == '+' || c == '-' || c == '*' || c == '/' || c == '.' || c == '_')
  }

  predicate IsSign(t: string) { t == "" || t == "+" || t == "-" }

  /** A decimal number without superfluous zeros in front. */
  predicate IsWhole(t: string) { t != "" && DecimalDigits(t) && (t[0] == '0' ==> t == "0") }

  predicate IsExponent(t: string) {
    && t != "" && (t[0] == 'e' || t[0] == 'E' || t[0] == 'd' || t[0] == 'D')
    && var rest := if |t| > 1 && (t[1] == '+' || t[1] == '-') then t[2..] else t[1..];
       rest != "" && DecimalDigits(rest)
  }

  /** Blanks, and comments that go on to the end of their line. */
  predicate IsGap(g: string, inComment: bool, last: bool) {
    if g == "" then !inComment || last
    else if inComment then g[0] != '\0' && IsGap(g[1..], g[0] != '\n', last)
    else if g[0] == ';' then IsGap(g[1..], true, last)
    else (g[0] == ' ' || g[0] == '\t' || g[0] == '\r' || g[0] == '\n') && IsGap(g[1..], false, last)
  }

  /** Something stands between a word or number and the next item, unless that is a list. */
  predicate Detached(c: Content) {
    c.Nothing? || c.gap != "" || c.item.Group?
  }

  /** The last comment of a file, but not of a list, may end with the file. */
  predicate WellWritten(c: Content, last: bool) {
    match c
    case Nothing(gap) => IsGap(gap, false, last)
    case More(gap, item, rest) =>
      IsGap(gap, false, false) && WellSpelled(item) && WellWritten(rest, last) && (item.Group? || Detached(rest))
  }

  predicate WellSpelled(item: Item) {
    match item
    case Unquoted(text) => IsWord(text)
    case InQuotes(_, mark) => mark == '"' || mark == '\''
    case Integer(sign, prefix, digits) =>
      && IsSign(sign)
      && (if prefix == "" then IsWhole(digits)
          else if prefix == "0" then digits != "" && OctalDigits(digits)
          else (prefix == "0x" || prefix == "0X") && HexaDigits(digits))
    case Floating(sign, whole, part, exponent) =>
      && IsSign(sign) && DecimalDigits(part) && (exponent == "" || IsExponent(exponent))
      && if part != "" then whole == "" || IsWhole(whole) else IsWhole(whole) && whole[0] != '0' && exponent != ""
    case Group(content) => WellWritten(content, false)
  }

  // --------------------------------------------------------------- what is meant

  function BaseOf(prefix: string): nat {
    if prefix == "" then 10 else if prefix == "0" then 8 else 16
  }

  function Meaning(item: Item): Tree {
    match item
    case Unquoted(text) => Chars(text)
    case InQuotes(text, _) => Chars(text)
    case Integer(sign, prefix, digits) =>
      var n := Value(digits, BaseOf(prefix));
      Number(Narrow(if sign == "-" then 0 - n else n))
    case Floating(_, _, _, _) => Real(Spelling(item))
    case Group(content) => List(Meanings(content))
  }

  function Meanings(c: Content): seq<Tree> {
    match c
    case Nothing(_) => []
    case More(_, item, rest) => [Meaning(item)] + Meanings(rest)
  }

  /** In quoted texts there is no NUL, CR or LF, and quotes stand at the end only. */
  predicate TextsHold(c: Content) {
    c.More? ==> ItemHolds(c.item) && TextsHold(c.rest)
  }

  predicate ItemHolds(item: Item) {
    match item
    case InQuotes(text, mark) =>
      && (forall c <- text :: c != '\0' && c != '\r' && c != '\n')
      && (forall j, k | 0 <= j < k < |text| :: text[j] == mark ==> text[k] == mark)
    case Group(content) => TextsHold(content)
    case _ => true
  }

  // ------------------------------------------------------------------- gaps

  lemma {:induction false} GapIsSkipped(s: string, i: nat, g: string, inComment: bool, last: bool)
    requires Occurs(s, i, g) && IsGap(g, inComment, last) && (last ==> i + |g| == |s|)
    ensures Skip(s, if inComment then Run(s, i, Commented) else i) == Skip(s, i + |g|)
    decreases |g|
  {
    if g == "" {
      assert inComment ==> i == |s|;
    } else {
      OccursAt(s, i, g, 0);
      OccursRest(s, i, g);
      GapIsSkipped(s, i + 1, g[1..], if inComment then g[0] != '\n' else g[0] == ';', last);
    }
  }

  lemma OccursRest(s: string, i: nat, t: string)
    requires Occurs(s, i, t) && t != ""
    ensures Occurs(s, i + 1, t[1..])
  {
    forall k | 0 <= k < |t[1..]| ensures s[i + 1 + k] == t[1..][k] {
      assert s[i + (k + 1)] == t[k + 1];
    }
  }

  /** Reading skips a gap. */
  lemma GapReads(s: string, i: nat, g: string, last: bool)
    requires Occurs(s, i, g) && IsGap(g, false, last) && (last ==> i + |g| == |s|)
    ensures ReadList(s, i) == ReadList(s, i + |g|)
  {
    GapIsSkipped(s, i, g, false, last);
    hide Skip, TokenAt;
    assert Lex(s, i) == Lex(s, i + |g|);
  }

  // ------------------------------------------------------- words and numbers

  lemma RunOver(s: string, i: nat, t: string, a: Alphabet)
    requires Occurs(s, i, t) && (forall c <- t :: a.Has(c))
    requires i + |t| < |s| ==> !a.Has(s[i + |t|])
    ensures Run(s, i, a) == i + |t|
  {
    forall k | i <= k < i + |t| ensures a.Has(s[k]) {
      assert s[i + (k - i)] == t[k - i] && t[k - i] in t;
    }
    RunIsLongest(s, i, i + |t|, a);
  }

  lemma TokenOfBare(s: string, i: nat, t: string, form: Form)
    requires Occurs(s, i, t) && t != "" && form != Wrong && Bare(s, i) == Lexeme(form, i + |t|)
    requires t[0] != '"' && t[0] != '\'' && t[0] != '(' && t[0] != ')' && t[0] != ';' && t[0] != '\0' && !BlankChar(t[0])
    ensures Lex(s, i) == Token(match form case Word => Str case Whole => Int case Decimal => Flt, t, i + |t|)
  {
    hide Bare, Quotation, Run;
    OccursAt(s, i, t, 0);
    assert s[i..i + |t|] == t;
  }

  /** A word before a blank, a comment, a parenthesis or the end is one token. */
  lemma WordReads(s: string, i: nat, t: string)
    requires IsWord(t) && Occurs(s, i, t) && Boundary(s, i + |t|)
    ensures Lex(s, i) == Token(Str, t, i + |t|)
  {
    OccursAt(s, i, t, 0);
    if t == "+" || t == "-" {
      assert Bare(s, i) == Stop(s, i + 1, Word);
    } else {
      OccursRest(s, i, t);
      RunOver(s, i + 1, t[1..], WordPart);
    }
    TokenOfBare(s, i, t, Word);
  }

  lemma DecimalReads(s: string, j: nat, digits: string)
    requires IsWhole(digits) && Occurs(s, j, digits) && Boundary(s, j + |digits|)
    ensures Digit(s[j]) && Signed(s, j) == Lexeme(Whole, j + |digits|)
  {
    OccursAt(s, j, digits, 0);
    assert digits[0] in digits;
    if digits == "0" {
      OccursRest(s, j, digits);
      RunOver(s, j + 1, "", Octal);
    } else {
      WholeRuns(s, j, digits);
    }
    hide Run, Fraction, Exponent;
  }

  lemma OctalReads(s: string, j: nat, digits: string)
    requires digits != "" && OctalDigits(digits) && Occurs(s, j, "0" + digits) && Boundary(s, j + 1 + |digits|)
    ensures Digit(s[j]) && Signed(s, j) == Lexeme(Whole, j + 1 + |digits|)
  {
    OccursSplit(s, j, "0", digits);
    OccursAt(s, j, "0", 0);
    OccursAt(s, j + 1, digits, 0);
    assert digits[0] in digits;
    RunOver(s, j + 1, digits, Octal);
    hide Run, Fraction, Exponent;
  }

  lemma HexaReads(s: string, j: nat, prefix: string, digits: string)
    requires (prefix == "0x" || prefix == "0X") && HexaDigits(digits)
    requires Occurs(s, j, prefix + digits) && Boundary(s, j + 2 + |digits|)
    ensures Digit(s[j]) && Signed(s, j) == Lexeme(Whole, j + 2 + |digits|)
  {
    OccursSplit(s, j, prefix, digits);
    OccursAt(s, j, prefix, 0);
    OccursAt(s, j, prefix, 1);
    RunOver(s, j + 2, digits, Hexa);
    hide Run, Fraction, Exponent;
  }

  lemma UnsignedIntegerReads(s: string, j: nat, prefix: string, digits: string)
    requires WellSpelled(Integer("", prefix, digits))
    requires Occurs(s, j, prefix + digits) && Boundary(s, j + |prefix + digits|)
    ensures prefix + digits != "" && Digit(s[j]) && Signed(s, j) == Lexeme(Whole, j + |prefix + digits|)
  {
    hide Signed, Occurs, Boundary;
    if prefix == "" {
      assert prefix + digits == digits;
      DecimalReads(s, j, digits);
    } else if prefix == "0" {
      OctalReads(s, j, digits);
    } else {
      HexaReads(s, j, prefix, digits);
    }
  }

  lemma IntegerReads(s: string, i: nat, sign: string, prefix: string, digits: string)
    requires WellSpelled(Integer(sign, prefix, digits)) && IsSign(sign)
    requires Occurs(s, i, sign + (prefix + digits)) && Boundary(s, i + |sign + (prefix + digits)|)
    ensures Lex(s, i) == Token(Int, sign + (prefix + digits), i + |sign + (prefix + digits)|)
  {
    assert WellSpelled(Integer("", prefix, digits));
    hide *;
    OccursSplit(s, i, sign, prefix + digits);
    UnsignedIntegerReads(s, i + |sign|, prefix, digits);
    SignedIsToken(s, i, sign, prefix + digits, Whole);
  }

  lemma SignedIsToken(s: string, i: nat, sign: string, unsigned: string, form: Form)
    requires IsSign(sign) && Occurs(s, i, sign + unsigned) && unsigned != "" && form != Wrong
    requires i + |sign| < |s| && (Digit(s[i + |sign|]) || s[i + |sign|] == '.')
    requires Signed(s, i + |sign|) == Lexeme(form, i + |sign + unsigned|)
    ensures Lex(s, i) == Token(match form case Word => Str case Whole => Int case Decimal => Flt,
                               sign + unsigned, i + |sign + unsigned|)
  {
    hide Signed, Bare, Lex, Occurs;
    OccursSplit(s, i, sign, unsigned);
    SignInFront(s, i, sign, form, i + |sign + unsigned|);
    OccursAt(s, i, sign + unsigned, 0);
    TokenOfBare(s, i, sign + unsigned, form);
  }

  lemma SignInFront(s: string, i: nat, sign: string, form: Form, end: nat)
    requires IsSign(sign) && Occurs(s, i, sign) && i + |sign| < |s|
    requires Digit(s[i + |sign|]) || s[i + |sign|] == '.'
    requires Signed(s, i + |sign|) == Lexeme(form, end)
    ensures Bare(s, i) == Lexeme(form, end) && (Sign(s[i]) || Digit(s[i]) || s[i] == '.')
  {
    hide Signed;
    if sign != "" {
      OccursAt(s, i, sign, 0);
    }
  }

  lemma ExponentReads(s: string, k: nat, t: string)
    requires IsExponent(t) && Occurs(s, k, t) && Boundary(s, k + |t|)
    ensures ExponentMark(s[k]) && Exponent(s, k + 1) == Lexeme(Decimal, k + |t|)
  {
    OccursAt(s, k, t, 0);
    OccursAt(s, k, t, 1);
    OccursRest(s, k, t);
    if t[1] == '+' || t[1] == '-' {
      OccursRest(s, k + 1, t[1..]);
      assert t[1..][1..] == t[2..];
      RunOver(s, k + 2, t[2..], Digital);
    } else {
      assert t[1] in t[1..];
      RunOver(s, k + 1, t[1..], Digital);
    }
  }

  /** What stands behind the point. */
  lemma PartReads(s: string, k: nat, part: string, exponent: string)
    requires part != "" && DecimalDigits(part) && (exponent == "" || IsExponent(exponent))
    requires Occurs(s, k, part + exponent) && Boundary(s, k + |part| + |exponent|)
    ensures Fraction(s, k) == Lexeme(Decimal, k + |part| + |exponent|)
  {
    OccursSplit(s, k, part, exponent);
    hide Exponent;
    if exponent != "" {
      ExponentReads(s, k + |part|, exponent);
    }
    RunOver(s, k, part, Digital);
  }

  lemma UnsignedFloatingReads(s: string, j: nat, whole: string, part: string, exponent: string)
    requires WellSpelled(Floating("", whole, part, exponent))
    requires Occurs(s, j, whole + (Pointed(part) + exponent)) && Boundary(s, j + |whole| + |Pointed(part)| + |exponent|)
    ensures Digit(s[j]) || s[j] == '.'
    ensures Signed(s, j) == Lexeme(Decimal, j + |whole| + |Pointed(part)| + |exponent|)
  {
    hide Fraction, Exponent, Occurs, Boundary, Run, IsExponent;
    var k := j + |whole|;
    OccursSplit(s, j, whole, Pointed(part) + exponent);
    BehindWhole(s, k, part, exponent);
    if whole != "" {
      OccursAt(s, j, whole, 0);
      assert whole[0] in whole;
      if whole != "0" {
        WholeRuns(s, j, whole);
      }
    }
  }

  lemma WholeRuns(s: string, j: nat, whole: string)
    requires whole != "" && DecimalDigits(whole) && Occurs(s, j, whole) && (j + |whole| < |s| ==> !Digit(s[j + |whole|]))
    ensures Run(s, j + 1, Digital) == j + |whole|
  {
    OccursRest(s, j, whole);
    assert forall c <- whole[1..] :: c in whole;
    RunOver(s, j + 1, whole[1..], Digital);
  }

  /** Behind the whole part comes a point or an exponent. */
  lemma BehindWhole(s: string, k: nat, part: string, exponent: string)
    requires DecimalDigits(part) && (exponent == "" || IsExponent(exponent)) && (part != "" || exponent != "")
    requires Occurs(s, k, Pointed(part) + exponent) && Boundary(s, k + |Pointed(part)| + |exponent|)
    ensures k < |s| && (if part == "" then ExponentMark(s[k]) else s[k] == '.')
    ensures part == "" ==> Exponent(s, k + 1) == Lexeme(Decimal, k + |exponent|)
    ensures part != "" ==> Fraction(s, k + 1) == Lexeme(Decimal, k + |Pointed(part)| + |exponent|)
  {
    if part == "" {
      assert Pointed(part) + exponent == exponent;
      ExponentReads(s, k, exponent);
    } else {
      assert Pointed(part) + exponent == "." + (part + exponent);
      OccursSplit(s, k, ".", part + exponent);
      OccursAt(s, k, ".", 0);
      PartReads(s, k + 1, part, exponent);
    }
  }

  lemma FloatingReads(s: string, i: nat, sign: string, whole: string, part: string, exponent: string)
    requires WellSpelled(Floating(sign, whole, part, exponent)) && IsSign(sign)
    requires var t := sign + (whole + (Pointed(part) + exponent)); Occurs(s, i, t) && Boundary(s, i + |t|)
    ensures var t := sign + (whole + (Pointed(part) + exponent)); Lex(s, i) == Token(Flt, t, i + |t|)
  {
    assert WellSpelled(Floating("", whole, part, exponent));
    NonemptyFloating(whole, part, exponent);
    var unsigned := whole + (Pointed(part) + exponent);
    hide *;
    OccursSplit(s, i, sign, unsigned);
    UnsignedFloatingReads(s, i + |sign|, whole, part, exponent);
    SignedIsToken(s, i, sign, unsigned, Decimal);
  }

  lemma NonemptyFloating(whole: string, part: string, exponent: string)
    requires WellSpelled(Floating("", whole, part, exponent))
    ensures whole + (Pointed(part) + exponent) != ""
  {
  }

  // ---------------------------------------------------------- what is refused

  /** What begins a word, a number, a text or a list, ends a list or the file, or is skipped. */
  predicate Begins(c: char) {
    || 'a' <= c <= 'z' || 'A' <= c <= 'Z' || '0' <= c <= '9' || c == '*' || c == '/' || c == '_' || c == '+' || c == '-' || c == '.'
    || c == '"' || c == '\'' || c == '(' || c == ')' || c == '\0' || c == ';' || c == ' ' || c == '\t' || c == '\r' || c == '\n'
  }

  lemma StrayCharacterFails(s: string, i: nat)
    requires i < |s| && !Begins(s[i])
    ensures ReadList(s, i).Failed?
  {
    assert Skip(s, i) == i;
    hide Signed, Quotation, Run;
    assert Bare(s, i).form == Wrong;
  }

  /** A number that runs into a letter that does not belong to it, or an octal one into an eight or a nine. */
  lemma RunningOnFails(s: string, i: nat, digits: string)
    requires IsWhole(digits) && Occurs(s, i, digits) && i + |digits| < |s|
    requires var c := s[i + |digits|];
      if digits == "0" then
        c == '8' || c == '9' || ('a' <= c <= 'z' && c != 'x') || ('A' <= c <= 'Z' && c != 'X')
      else
        ('a' <= c <= 'z' && c != 'd' && c != 'e') || ('A' <= c <= 'Z' && c != 'D' && c != 'E')
    ensures ReadList(s, i).Failed?
  {
    hide Signed, Quotation, Run, Occurs;
    OccursAt(s, i, digits, 0);
    assert digits[0] in digits;
    if digits == "0" {
      ZeroRunsOn(s, i);
    } else {
      WholeRuns(s, i, digits);
      DigitsRunOn(s, i, i + |digits|);
    }
    assert Bare(s, i) == Signed(s, i);
    assert Lex(s, i).kind == Bad;
  }

  lemma ZeroRunsOn(s: string, i: nat)
    requires i + 1 < |s| && s[i] == '0' && Alnum(s[i + 1]) && !('0' <= s[i + 1] <= '7') && s[i + 1] != 'x' && s[i + 1] != 'X'
    ensures Signed(s, i).form == Wrong
  {
    hide Fraction, Digits;
  }

  lemma DigitsRunOn(s: string, i: nat, j: nat)
    requires i < j < |s| && '1' <= s[i] <= '9' && Run(s, i + 1, Digital) == j && Alnum(s[j]) && !ExponentMark(s[j])
    ensures Signed(s, i).form == Wrong
  {
    hide Fraction, Exponent, Run;
  }

  /** A point without a digit behind it. */
  lemma PointAloneFails(s: string, i: nat)
    requires i < |s| && s[i] == '.' && (i + 1 < |s| ==> !('0' <= s[i + 1] <= '9'))
    ensures ReadList(s, i).Failed?
  {
    assert Lex(s, i).kind == Bad;
  }

  /** A quoted text that its line, or the file, ends before it is closed. */
  lemma UnclosedFails(s: string, i: nat, text: string)
    requires i < |s| && (s[i] == '"' || s[i] == '\'') && Occurs(s, i + 1, text)
    requires forall c <- text :: c != s[i] && c != '\0' && c != '\r' && c != '\n'
    requires var j := i + 1 + |text|; j < |s| ==> s[j] == '\0' || s[j] == '\r' || s[j] == '\n'
    ensures ReadList(s, i).Failed?
  {
    RunOver(s, i + 1, text, Plain(s[i]));
    hide Bare;
    assert Lex(s, i).kind == Bad;
  }

  // ------------------------------------------------------ and nothing else is

  lemma RunHas(s: string, i: nat, a: Alphabet)
    requires i <= |s|
    ensures forall c <- s[i..Run(s, i, a)] :: a.Has(c)
  {
    var j := Run(s, i, a);
    RunIsLongest(s, i, j, a);
    forall k | 0 <= k < j - i ensures a.Has(s[i..j][k]) {
      assert a.Has(s[i + k]);
    }
  }

  lemma Cut(s: string, i: nat, j: nat, k: nat)
    requires i <= j <= k <= |s|
    ensures s[i..j] + s[j..k] == s[i..k]
  {
  }

  lemma ExponentIsSpelled(s: string, k: nat)
    requires k < |s| && ExponentMark(s[k]) && Exponent(s, k + 1).form == Decimal
    ensures k + 2 <= Exponent(s, k + 1).end && IsExponent(s[k..Exponent(s, k + 1).end])
  {
    var from := if k + 1 < |s| && Sign(s[k + 1]) then k + 2 else k + 1;
    var end := Exponent(s, k + 1).end;
    assert end == Run(s, from, Digital) > from;
    RunHas(s, from, Digital);
    var t := s[k..end];
    assert (if |t| > 1 && (t[1] == '+' || t[1] == '-') then t[2..] else t[1..]) == s[from..end];
  }

  /** Digits behind the point, and an exponent or none. */
  lemma PartIsSpelled(s: string, k: nat) returns (part: string, exponent: string)
    requires k <= |s| && Fraction(s, k).form == Decimal
    ensures part != "" && DecimalDigits(part) && (exponent == "" || IsExponent(exponent))
    ensures part + exponent == s[k..Fraction(s, k).end]
  {
    var j, end := Run(s, k, Digital), Fraction(s, k).end;
    RunHas(s, k, Digital);
    part, exponent := s[k..j], s[j..end];
    if j < |s| && ExponentMark(s[j]) {
      ExponentIsSpelled(s, j);
    }
    hide Run, Exponent;
    assert j <= end;
    Cut(s, k, j, end);
  }

  /** A number spelled without a sign, from `j` to where its token ends. */
  predicate SpellsOut(item: Item, s: string, j: nat, r: Lexeme)
    requires j <= r.end <= |s|
  {
    && (r.form == Whole || r.form == Decimal)
    && (if r.form == Whole then item.Integer? else item.Floating?)
    && item.sign == "" && WellSpelled(item) && Spelling(item) == s[j..r.end]
  }

  lemma ZeroIsSpelled(s: string, j: nat) returns (item: Item)
    requires j < |s| && s[j] == '0' && Zero(s, j + 1).form != Wrong
    ensures SpellsOut(item, s, j, Zero(s, j + 1))
  {
    hide Fraction, Run, WellSpelled, Spelling;
    var end := Zero(s, j + 1).end;
    if j + 1 < |s| && (s[j + 1] == 'x' || s[j + 1] == 'X') {
      RunHas(s, j + 2, Hexa);
      item := Integer("", s[j..j + 2], s[j + 2..end]);
      HexaBehind(s[j..j + 2], s[j + 2..end]);
      Cut(s, j, j + 2, end);
    } else if j + 1 < |s| && s[j + 1] == '.' {
      FractionHasForm(s, j + 2);
      var part, exponent := PartIsSpelled(s, j + 2);
      item := Floating("", "0", part, exponent);
      Cut(s, j, j + 2, end);
      assert s[j..j + 2] == "0" + ".";
      assert ("0" + ".") + (part + exponent) == "0" + ("." + (part + exponent));
      PointBehind("0", part, exponent);
    } else {
      RunHas(s, j + 1, Octal);
      Cut(s, j, j + 1, end);
      assert s[j..j + 1] == "0";
      NothingBehind("0");
      if end > j + 1 {
        OctalBehind(s[j + 1..end]);
      }
      item := if end == j + 1 then Integer("", "", "0") else Integer("", "0", s[j + 1..end]);
    }
  }

  lemma FractionHasForm(s: string, k: nat)
    requires k <= |s|
    ensures Fraction(s, k).form == Decimal || Fraction(s, k).form == Wrong
    ensures Exponent(s, k).form == Decimal || Exponent(s, k).form == Wrong
  {
  }

  lemma DigitsAreSpelled(s: string, j: nat) returns (item: Item)
    requires j < |s| && '1' <= s[j] <= '9' && Digits(s, j + 1).form != Wrong
    ensures SpellsOut(item, s, j, Digits(s, j + 1))
  {
    hide Fraction, Exponent, Run, IsExponent, WellSpelled, Spelling;
    var k, end := Run(s, j + 1, Digital), Digits(s, j + 1).end;
    RunHas(s, j + 1, Digital);
    var whole := s[j..k];
    Cut(s, j, j + 1, k);
    assert whole[0] == s[j] && IsWhole(whole);
    if k < |s| && s[k] == '.' {
      FractionHasForm(s, k + 1);
      var part, exponent := PartIsSpelled(s, k + 1);
      item := Floating("", whole, part, exponent);
      Cut(s, j, k, end);
      Cut(s, k, k + 1, end);
      assert s[k..k + 1] == ".";
      PointBehind(whole, part, exponent);
    } else if k < |s| && ExponentMark(s[k]) {
      FractionHasForm(s, k + 1);
      ExponentIsSpelled(s, k);
      item := Floating("", whole, "", s[k..end]);
      Cut(s, j, k, end);
      ExponentBehind(whole, s[k..end]);
    } else {
      item := Integer("", "", whole);
      NothingBehind(whole);
    }
  }

  lemma PointBehind(whole: string, part: string, exponent: string)
    requires IsWhole(whole) && part != "" && DecimalDigits(part) && (exponent == "" || IsExponent(exponent))
    ensures var item := Floating("", whole, part, exponent);
      WellSpelled(item) && Spelling(item) == whole + ("." + (part + exponent))
  {
    hide IsWhole, IsExponent, DecimalDigits;
    assert "." + (part + exponent) == Pointed(part) + exponent;
  }

  lemma ExponentBehind(whole: string, exponent: string)
    requires IsWhole(whole) && whole[0] != '0' && exponent != "" && IsExponent(exponent)
    ensures var item := Floating("", whole, "", exponent); WellSpelled(item) && Spelling(item) == whole + exponent
  {
    hide IsExponent;
    assert Pointed("") + exponent == exponent;
  }

  lemma HexaBehind(prefix: string, digits: string)
    requires (prefix == "0x" || prefix == "0X") && HexaDigits(digits)
    ensures WellSpelled(Integer("", prefix, digits)) && Spelling(Integer("", prefix, digits)) == prefix + digits
  {
  }

  lemma OctalBehind(digits: string)
    requires digits != "" && OctalDigits(digits)
    ensures WellSpelled(Integer("", "0", digits)) && Spelling(Integer("", "0", digits)) == "0" + digits
  {
  }

  lemma NothingBehind(whole: string)
    requires IsWhole(whole)
    ensures WellSpelled(Integer("", "", whole)) && Spelling(Integer("", "", whole)) == whole
  {
  }

  lemma UnsignedIsSpelled(s: string, j: nat) returns (item: Item)
    requires j < |s| && (Signed(s, j).form == Whole || Signed(s, j).form == Decimal)
    ensures SpellsOut(item, s, j, Signed(s, j))
  {
    hide Fraction, Zero, Digits, Run, WellSpelled;
    if s[j] == '0' {
      item := ZeroIsSpelled(s, j);
    } else if s[j] == '.' {
      FractionHasForm(s, j + 1);
      var part, exponent := PartIsSpelled(s, j + 1);
      item := Floating("", "", part, exponent);
      PointInFront(part, exponent);
      Cut(s, j, j + 1, Signed(s, j).end);
      assert s[j..j + 1] == ".";
    } else {
      item := DigitsAreSpelled(s, j);
    }
  }

  lemma PointInFront(part: string, exponent: string)
    requires part != "" && DecimalDigits(part) && (exponent == "" || IsExponent(exponent))
    ensures WellSpelled(Floating("", "", part, exponent)) && Spelling(Floating("", "", part, exponent)) == "." + (part + exponent)
  {
  }

  lemma SignMayStand(item: Item, sign: string)
    requires (item.Integer? || item.Floating?) && item.sign == "" && WellSpelled(item) && IsSign(sign)
    ensures WellSpelled(item.(sign := sign)) && Spelling(item.(sign := sign)) == sign + Spelling(item)
  {
    hide IsWhole, IsExponent, DecimalDigits, OctalDigits, HexaDigits, Pointed, IsSign;
    var rest := if item.Integer? then item.prefix + item.digits else item.whole + (Pointed(item.part) + item.exponent);
    assert Spelling(item) == "" + rest == rest;
  }

  lemma BareIsSpelled(s: string, i: nat)
    requires i < |s|
    ensures var r, t := Bare(s, i), s[i..Bare(s, i).end];
      && (r.form == Word ==> IsWord(t))
      && (r.form == Whole ==> exists item: Item :: item.Integer? && WellSpelled(item) && Spelling(item) == t)
      && (r.form == Decimal ==> exists item: Item :: item.Floating? && WellSpelled(item) && Spelling(item) == t)
  {
    hide Signed, Run, WellSpelled, Spelling;
    var r := Bare(s, i);
    var t := s[i..r.end];
    if r.form == Word {
      WordIsSpelled(s, i);
    } else if r.form != Wrong {
      var j := if Sign(s[i]) then i + 1 else i;
      SignedHasForm(s, j);
      var item := UnsignedIsSpelled(s, j);
      Cut(s, i, j, r.end);
      SignMayStand(item, s[i..j]);
      var whole := item.(sign := s[i..j]);
      assert Spelling(whole) == t;
    }
  }

  lemma SignedHasForm(s: string, j: nat)
    requires j <= |s|
    ensures Signed(s, j).form == Whole || Signed(s, j).form == Decimal ==> j < |s|
    ensures Signed(s, j).form == Word ==> Signed(s, j).end == j && (j < |s| ==> !Digit(s[j]) && s[j] != '.')
  {
    hide Fraction, Exponent, Run;
    if j < |s| {
      FractionHasForm(s, j + 1);
      BehindDigits(s, j + 1);
    }
  }

  lemma BehindDigits(s: string, j: nat)
    requires j <= |s|
    ensures Digits(s, j).form != Word && Zero(s, j).form != Word
  {
  }

  lemma WordIsSpelled(s: string, i: nat)
    requires i < |s| && Bare(s, i).form == Word
    ensures IsWord(s[i..Bare(s, i).end])
  {
    hide Signed, Run;
    SignedHasForm(s, i);
    SignedHasForm(s, i + 1);
    if WordStart(s[i]) {
      RunHas(s, i + 1, WordPart);
      var end := Bare(s, i).end;
      assert s[i..end][1..] == s[i + 1..end];
    }
  }

  /** No token without quotes is spelled in any other way than the ones described here. */
  lemma TokensAreSpelled(s: string, i: nat)
    requires i <= |s|
    ensures var t := Lex(s, i);
      && (t.kind == Int ==> exists item: Item :: item.Integer? && WellSpelled(item) && Spelling(item) == t.text)
      && (t.kind == Flt ==> exists item: Item :: item.Floating? && WellSpelled(item) && Spelling(item) == t.text)
      && (t.kind == Str ==> IsWord(t.text) || var j := Skip(s, i); j < |s| && (s[j] == '"' || s[j] == '\''))
  {
    hide Bare, Skip, WellSpelled, Spelling, IsWord, Quotation;
    var j := Skip(s, i);
    if j < |s| {
      BareIsSpelled(s, j);
    }
  }

  // ------------------------------------------------------------------ values

  lemma {:induction false} ZeroInFront(digits: string, base: nat)
    ensures Value("0" + digits, base) == Value(digits, base)
  {
    var t := "0" + digits;
    if digits == "" {
      assert t[..|t| - 1] == "";
      assert Value(t, base) == Value("", base) * base + DigitValue('0');
    } else {
      assert t[..|t| - 1] == "0" + digits[..|digits| - 1];
      ZeroInFront(digits[..|digits| - 1], base);
    }
  }

  /** An integer means what its digits say in its notation. */
  lemma IntegerMeans(item: Item)
    requires item.Integer? && WellSpelled(item)
    ensures Number(IntegerOf(Spelling(item))) == Meaning(item)
  {
    var t, unsigned := Spelling(item), item.prefix + item.digits;
    MagnitudeMeans(item.prefix, item.digits);
    hide Magnitude, Value;
    if item.sign == "" {
      assert t == unsigned;
    } else {
      assert t[1..] == unsigned;
    }
  }

  lemma MagnitudeMeans(prefix: string, digits: string)
    requires WellSpelled(Integer("", prefix, digits))
    ensures Magnitude(prefix + digits) == Value(digits, BaseOf(prefix))
    ensures prefix + digits != "" && '0' <= (prefix + digits)[0] <= '9'
  {
    var t := prefix + digits;
    if prefix == "" {
      assert t == digits && digits[0] in digits;
      ZeroIsZero();
    } else if prefix == "0" {
      assert t[1] == digits[0] && digits[0] in digits;
      ZeroInFront(digits, 8);
      hide Value;
    } else {
      assert t[2..] == digits;
      hide Value;
    }
  }

  lemma ZeroIsZero()
    ensures Value("0", 8) == 0 == Value("0", 10)
  {
    ZeroInFront("", 8);
    ZeroInFront("", 10);
    assert "0" + "" == "0";
  }

  function DigitOf(k: nat): (c: char)
    requires k < 16
    ensures DigitValue(c) == k
  {
    "0123456789abcdef"[k]
  }

  lemma CapitalsCount(k: nat)
    requires k < 6
    ensures DigitValue("ABCDEF"[k]) == 10 + k
  {
  }

  lemma QuotientAndRest(n: nat, base: nat)
    requires base >= 2
    ensures n == (n / base) * base + n % base && n % base < base
    ensures if n < base then n / base == 0 else n / base < n
  {
  }

  function Numeral(n: nat, base: nat): string
    requires 2 <= base <= 16
    decreases n
  {
    QuotientAndRest(n, base);
    (if n < base then "" else Numeral(n / base, base)) + [DigitOf(n % base)]
  }

  lemma ValueOfLonger(t: string, c: char, base: nat)
    ensures Value(t + [c], base) == Value(t, base) * base + DigitValue(c)
  {
    assert (t + [c])[..|t|] == t;
  }

  /** The digits of a number in a base have that number as their value. */
  lemma {:induction false} ValueOfNumeral(n: nat, base: nat)
    requires 2 <= base <= 16
    ensures Value(Numeral(n, base), base) == n
    decreases n
  {
    hide DigitValue, DigitOf;
    QuotientAndRest(n, base);
    var front := if n < base then "" else Numeral(n / base, base);
    ValueOfLonger(front, DigitOf(n % base), base);
    if n >= base {
      ValueOfNumeral(n / base, base);
    }
  }

  /** Numbers that fit are kept; others are kept modulo 2^32, up to where a C `long` ends. */
  lemma NarrowKeeps(x: int)
    ensures -0x8000_0000 <= x < 0x8000_0000 ==> Narrow(x) == x
    ensures -0x8000_0000_0000_0000 <= x < 0x8000_0000_0000_0000 ==> (x - Narrow(x)) % 0x1_0000_0000 == 0
    ensures x >= 0x8000_0000_0000_0000 ==> Narrow(x) == -1
    ensures x < -0x8000_0000_0000_0000 ==> Narrow(x) == 0
  {
  }

  // ------------------------------------------------------------------- files

  lemma {:induction false} HoldsIsQuotable(text: string, mark: char)
    requires mark == '"' || mark == '\''
    ensures ItemHolds(InQuotes(text, mark)) <==> Quotable(text, mark)
  {
    QuotableIff(text, mark);
  }

  /** One word, text or number. */
  lemma AtomIsRead(s: string, i: nat, item: Item)
    requires !item.Group? && WellSpelled(item) && Occurs(s, i, Spelling(item)) && Boundary(s, i + |Spelling(item)|)
    ensures ItemHolds(item) ==> ReadList(s, i) == Before(Meaning(item), ReadList(s, i + |Spelling(item)|))
    ensures !ItemHolds(item) ==> !Leads(Meaning(item), ReadList(s, i))
  {
    hide Lex, Quotable, IntegerOf, Occurs, IsWord;
    match item
    case Unquoted(text) => WordReads(s, i, text);
    case InQuotes(text, mark) =>
      HoldsIsQuotable(text, mark);
      hide ItemHolds;
      TextReads(s, i, text, mark);
    case Integer(sign, prefix, digits) =>
      IntegerReads(s, i, sign, prefix, digits);
      IntegerMeans(item);
    case Floating(sign, whole, part, exponent) => FloatingReads(s, i, sign, whole, part, exponent);
  }

  /** Behind an atom comes a boundary. */
  lemma DetachedIsBoundary(s: string, j: nat, c: Content, last: bool)
    requires Occurs(s, j, TextOf(c)) && WellWritten(c, last) && Detached(c)
    requires if last then j + |TextOf(c)| == |s| else j + |TextOf(c)| < |s| && s[j + |TextOf(c)|] == ')'
    ensures Boundary(s, j)
  {
    if TextOf(c) != "" {
      OccursAt(s, j, TextOf(c), 0);
    }
  }

  lemma {:induction false} ItemIsRead(s: string, i: nat, item: Item)
    requires WellSpelled(item) && Occurs(s, i, Spelling(item)) && (item.Group? || Boundary(s, i + |Spelling(item)|))
    ensures ItemHolds(item) ==> ReadList(s, i) == Before(Meaning(item), ReadList(s, i + |Spelling(item)|))
    ensures !ItemHolds(item) ==> !Leads(Meaning(item), ReadList(s, i))
    decreases item, 0
  {
    hide Lex, ReadList, TextOf, Occurs, WellWritten;
    if item.Group? {
      var content := item.content;
      OccursSplit(s, i, "(", TextOf(content) + ")");
      OccursSplit(s, i + 1, TextOf(content), ")");
      OccursAt(s, i, "(", 0);
      OccursAt(s, i + 1 + |TextOf(content)|, ")", 0);
      OpenReads(s, i);
      ContentIsRead(s, i + 1, content, false);
    } else {
      AtomIsRead(s, i, item);
    }
  }

  lemma {:induction false} ContentIsRead(s: string, i: nat, c: Content, last: bool)
    requires WellWritten(c, last) && Occurs(s, i, TextOf(c))
    requires if last then i + |TextOf(c)| == |s| else i + |TextOf(c)| < |s| && s[i + |TextOf(c)|] == ')'
    ensures TextsHold(c) ==> ReadList(s, i) == Items(Meanings(c), i + |TextOf(c)| + if last then 0 else 1)
    ensures !TextsHold(c) ==> ReadList(s, i).Failed? || ReadList(s, i).items != Meanings(c)
    decreases c, 1
  {
    hide Lex, ReadList, Spelling, Occurs, WellSpelled, IsGap, ItemHolds, Detached, Boundary;
    match c
    case Nothing(gap) =>
      GapReads(s, i, gap, last);
      if last {
        EndReads(s);
      } else {
        CloseReads(s, i + |gap|);
      }
    case More(gap, item, rest) =>
      var j := i + |gap|;
      var k := j + |Spelling(item)|;
      OccursSplit(s, i, gap, Spelling(item) + TextOf(rest));
      OccursSplit(s, j, Spelling(item), TextOf(rest));
      assert k + |TextOf(rest)| == i + |TextOf(c)|;
      hide TextOf, WellWritten;
      GapReads(s, i, gap, false);
      if !item.Group? {
        DetachedIsBoundary(s, k, rest, last);
      }
      ItemIsRead(s, j, item);
      ContentIsRead(s, k, rest, last);
      assert Meanings(c)[0] == Meaning(item) && Meanings(c)[1..] == Meanings(rest);
  }

  /**
    A file in any layout is read as what it means exactly when no quoted text has a quote in
    its midst, or a character that ends the line or the file.
  */
  lemma FileReadsBackIff(c: Content)
    requires WellWritten(c, true)
    ensures ReadList(TextOf(c), 0) == Items(Meanings(c), |TextOf(c)|) <==> TextsHold(c)
  {
    hide *;
    Everywhere(TextOf(c));
    ContentIsRead(TextOf(c), 0, c, true);
  }
}
