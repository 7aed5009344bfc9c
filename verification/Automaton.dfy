/**
  The states through which the scanner goes inside a word or a number, and the proof that
  they recognize the grammar of `Lexer`.
*/
module Automaton {
  import opened Lexer

  datatype State =
    | InWord | AfterSign | AfterZero | InOctal | InHexa | InDigits
    | AfterDot | InFraction | AfterMark | AfterMarkSign | InExponent

  /** Take the character and go on, take it and fail, or leave it and be done. */
  datatype Move = Go(next: State) | Reject | Leave(form: Form)

  function OnLetter(c: char, form: Form): Move {
    if Alnum(c) then Reject else Leave(form)
  }

  function Step(state: State, c: char): Move {
    match state
    case InWord =>
      if c == '+' || c == '-' || c == '*' || c == '/' || c == '.' || c == '_' || Alnum(c) then
        Go(InWord)
      else
        Leave(Word)
    case AfterSign =>
      if c == '0' then Go(AfterZero)
      else if c == '.' then Go(AfterDot)
      else if Digit(c) then Go(InDigits)
      else OnLetter(c, Word)
    case AfterZero =>
      if c == 'x' || c == 'X' then Go(InHexa)
      else if c == '8' || c == '9' then Reject
      else if c == '.' then Go(AfterDot)
      else if Digit(c) then Go(InOctal)
      else OnLetter(c, Whole)
    case InOctal =>
      if c == '8' || c == '9' then Reject
      else if Digit(c) then Go(InOctal)
      else OnLetter(c, Whole)
    case InHexa =>
      if Hexa.Has(c) then Go(InHexa) else OnLetter(c, Whole)
    case InDigits =>
      if c == '.' then Go(AfterDot)
      else if ExponentMark(c) then Go(AfterMark)
      else if Digit(c) then Go(InDigits)
      else OnLetter(c, Whole)
    case AfterDot =>
      if Digit(c) then Go(InFraction) else Leave(Wrong)
    case InFraction =>
      if ExponentMark(c) then Go(AfterMark)
      else if Digit(c) then Go(InFraction)
      else OnLetter(c, Decimal)
    case AfterMark =>
      if Sign(c) then Go(AfterMarkSign)
      else if Digit(c) then Go(InExponent)
      else Leave(Wrong)
    case AfterMarkSign =>
      if Digit(c) then Go(InExponent) else Leave(Wrong)
    case InExponent =>
      if Digit(c) then Go(InExponent) else OnLetter(c, Decimal)
  }

  /** What the word is when the text ends in a state. */
  function Finish(state: State): Form {
    match state
    case InWord => Word
    case AfterSign => Word
    case AfterZero => Whole
    case InOctal => Whole
    case InHexa => Whole
    case InDigits => Whole
    case AfterDot => Wrong
    case InFraction => Decimal
    case AfterMark => Wrong
    case AfterMarkSign => Wrong
    case InExponent => Decimal
  }

  /** What the grammar says about the rest of a word, in a state. */
  function Expected(state: State, s: string, i: nat): Lexeme
    requires i <= |s|
  {
    match state
    case InWord => Lexeme(Word, Run(s, i, WordPart))
    case AfterSign => Signed(s, i)
    case AfterZero => Zero(s, i)
    case InOctal => Stop(s, Run(s, i, Octal), Whole)
    case InHexa => Stop(s, Run(s, i, Hexa), Whole)
    case InDigits => Digits(s, i)
    case AfterDot => Fraction(s, i)
    case InFraction => FractionDigits(s, i)
    case AfterMark => Exponent(s, i)
    case AfterMarkSign => ExponentDigits(s, i)
    case InExponent => Stop(s, Run(s, i, Digital), Decimal)
  }

  /** Running the automaton from a state to where it stops. */
  function Scan(state: State, s: string, i: nat): (r: Lexeme)
    requires i <= |s|
    ensures i <= r.end <= |s|
    decreases |s| - i
  {
    if i == |s| then
      Lexeme(Finish(state), i)
    else
      match Step(state, s[i])
      case Go(next) => Scan(next, s, i + 1)
      case Reject => Lexeme(Wrong, i + 1)
      case Leave(form) => Lexeme(form, i)
  }

  lemma ScanUnfolds(state: State, s: string, i: nat)
    requires i <= |s|
    ensures Scan(state, s, i) ==
            if i == |s| then Lexeme(Finish(state), i)
            else match Step(state, s[i])
                 case Go(next) => Scan(next, s, i + 1)
                 case Reject => Lexeme(Wrong, i + 1)
                 case Leave(form) => Lexeme(form, i)
  {
  }

  predicate Fractional(state: State) {
    state.AfterDot? || state.InFraction? || state.AfterMark? || state.AfterMarkSign? || state.InExponent?
  }

  predicate ExpectedMoves(state: State, s: string, i: nat)
    requires i < |s|
  {
    Expected(state, s, i) == match Step(state, s[i])
                             case Go(next) => Expected(next, s, i + 1)
                             case Reject => Lexeme(Wrong, i + 1)
                             case Leave(form) => Lexeme(form, i)
  }

  lemma FractionMoves(state: State, s: string, i: nat)
    requires i < |s| && Fractional(state)
    ensures ExpectedMoves(state, s, i)
  {
  }

  lemma WholeMoves(state: State, s: string, i: nat)
    requires i < |s| && !Fractional(state)
    ensures ExpectedMoves(state, s, i)
  {
    if state.InWord? || state.InOctal? || state.InHexa? {
      RunMoves(state, s, i);
    } else {
      NumberMoves(state, s, i);
    }
  }

  lemma RunMoves(state: State, s: string, i: nat)
    requires i < |s| && (state.InWord? || state.InOctal? || state.InHexa?)
    ensures ExpectedMoves(state, s, i)
  {
    hide Signed, Digits, Zero, Fraction, Exponent, FractionDigits, ExponentDigits;
  }

  lemma NumberMoves(state: State, s: string, i: nat)
    requires i < |s| && (state.AfterSign? || state.AfterZero? || state.InDigits?)
    ensures ExpectedMoves(state, s, i)
  {
    hide Fraction, Exponent;
  }

  /** From every state, the automaton recognizes what the grammar expects there. */
  lemma {:induction false} AutomatonFollowsGrammar(state: State, s: string, i: nat)
    requires i <= |s|
    ensures Scan(state, s, i) == Expected(state, s, i)
    decreases |s| - i
  {
    if i == |s| {
      assert Expected(state, s, i) == Lexeme(Finish(state), i);
    } else {
      hide Expected, Step, Fractional;
      if Fractional(state) {
        FractionMoves(state, s, i);
      } else {
        WholeMoves(state, s, i);
      }
      if Step(state, s[i]).Go? {
        AutomatonFollowsGrammar(Step(state, s[i]).next, s, i + 1);
      }
    }
  }

  /** The state after the first character of a word or number. */
  function Enter(c: char): Move {
    if Sign(c) then Go(AfterSign)
    else if c == '0' then Go(AfterZero)
    else if c == '.' then Go(AfterDot)
    else if c == '*' || c == '/' || c == '_' then Go(InWord)
    else if Digit(c) then Go(InDigits)
    else if Alnum(c) then Go(InWord)
    else Reject
  }

  /** A word or number is what the automaton makes of it from its first character on. */
  lemma ScanningIsBare(s: string, i: nat)
    requires i < |s|
    ensures Enter(s[i]).Go? ==> Scan(Enter(s[i]).next, s, i + 1) == Bare(s, i)
    ensures !Enter(s[i]).Go? ==> Bare(s, i) == Lexeme(Wrong, i + 1)
  {
    if Enter(s[i]).Go? {
      AutomatonFollowsGrammar(Enter(s[i]).next, s, i + 1);
    }
  }

  // ----------------------------------------------------------------- strings

  function After(t: string, r: Quoted): Quoted {
    if r.Closed? then Closed(t + r.text, r.end) else r
  }

  lemma AfterAfter(t: string, u: string, r: Quoted)
    ensures After(t, After(u, r)) == After(t + u, r)
  {
    if r.Closed? {
      assert t + (u + r.text) == (t + u) + r.text;
    }
  }

  lemma AfterNothing(r: Quoted)
    ensures After("", r) == r
  {
    if r.Closed? {
      assert "" + r.text == r.text;
    }
  }

  lemma AfterEnd(t: string, i: nat)
    ensures After(t, Closed("", i)) == Closed(t, i)
    ensures After(t, Unclosed(i)) == Unclosed(i)
  {
    assert t + "" == t;
  }

  /**
    The loop over a string. A quote before another quote is collected and not left
    behind, so the second one is read again as a quote of its own.
  */
  function Collect(s: string, i: nat, quote: char): (r: Quoted)
    requires i <= |s|
    decreases |s| - i
  {
    if i == |s| || s[i] == '\0' || s[i] == '\r' || s[i] == '\n' then
      Unclosed(i)
    else if s[i] == quote && (i + 1 == |s| || s[i + 1] != quote) then
      Closed("", i + 1)
    else
      After([s[i]], Collect(s, i + 1, quote))
  }

  lemma CollectUnfolds(s: string, i: nat, quote: char)
    requires i <= |s|
    ensures Collect(s, i, quote) ==
            if i == |s| || s[i] == '\0' || s[i] == '\r' || s[i] == '\n' then Unclosed(i)
            else if s[i] == quote && (i + 1 == |s| || s[i + 1] != quote) then Closed("", i + 1)
            else After([s[i]], Collect(s, i + 1, quote))
  {
  }

  lemma {:induction false} CollectingQuotes(s: string, i: nat, quote: char)
    requires i < |s| && s[i] == quote
    requires quote != '\0' && quote != '\r' && quote != '\n'
    ensures var k := Run(s, i, Only(quote)); i < k && Collect(s, i, quote) == Closed(s[i..k - 1], k)
    decreases |s| - i
  {
    var k := Run(s, i, Only(quote));
    if i + 1 < |s| && s[i + 1] == quote {
      CollectingQuotes(s, i + 1, quote);
      assert s[i..k - 1] == [s[i]] + s[i + 1..k - 1];
    }
  }

  /** Looking one character ahead finds the whole first run of quotes. */
  lemma {:induction false} CollectingIsQuotation(s: string, i: nat, quote: char)
    requires i <= |s|
    requires quote != '\0' && quote != '\r' && quote != '\n'
    ensures Collect(s, i, quote) == Quotation(s, i, quote)
    decreases |s| - i
  {
    if i < |s| && s[i] == quote {
      CollectingQuotes(s, i, quote);
    } else if i < |s| && Plain(quote).Has(s[i]) {
      CollectingIsQuotation(s, i + 1, quote);
      var r := Quotation(s, i + 1, quote);
      assert r.Closed? ==> s[i..r.end - 1] == [s[i]] + s[i + 1..r.end - 1];
    }
  }

  // ------------------------------------------------------------------- lines

  lemma {:induction false} ScanIsOnOneLine(state: State, s: string, i: nat)
    requires i <= |s|
    ensures Lines(s, i, Scan(state, s, i).end) == 0
    decreases |s| - i
  {
    if i < |s| {
      assert Step(state, '\n').Leave?;
      if Step(state, s[i]).Go? {
        ScanIsOnOneLine(Step(state, s[i]).next, s, i + 1);
        LinesAdd(s, i, i + 1, Scan(state, s, i).end);
      }
    }
  }

  lemma QuotationIsOnOneLine(s: string, i: nat, quote: char)
    requires i <= |s| && quote != '\n'
    ensures Lines(s, i, Quotation(s, i, quote).end) == 0
  {
    var j := Run(s, i, Plain(quote));
    RunIsOnOneLine(s, i, Plain(quote));
    RunIsOnOneLine(s, j, Only(quote));
    LinesAdd(s, i, j, Run(s, j, Only(quote)));
  }

  /** Only what is skipped can contain line ends, so counting them there counts them all. */
  lemma TokenIsOnOneLine(s: string, i: nat)
    requires i <= |s|
    ensures Lines(s, Skip(s, i), Lex(s, i).end) == 0
  {
    hide Bare, Quotation, Scan;
    var j := Skip(s, i);
    if j < |s| {
      if s[j] == '"' || s[j] == '\'' {
        QuotationIsOnOneLine(s, j + 1, s[j]);
      } else {
        ScanningIsBare(s, j);
        if Enter(s[j]).Go? {
          ScanIsOnOneLine(Enter(s[j]).next, s, j + 1);
        }
      }
      LinesAdd(s, j, j + 1, if Lex(s, i).end == j then j + 1 else Lex(s, i).end);
    }
  }
}
