/**
  What a text of the configuration language means: the recursive reader, the printer of
  trees, and when a printed tree reads back as itself.
*/
module Reader {
  import opened Lexer

  datatype Tree = Chars(text: string) | Number(value: int32) | Real(text: string) | List(items: seq<Tree>)

  type int32 = x: int | -0x8000_0000 <= x < 0x8000_0000

  // ---------------------------------------------------------------- integers

  function DigitValue(c: char): nat {
    if '0' <= c <= '9' then
      (c - '0') as nat
    else if 'a' <= c <= 'f' then
      (c - 'a') as nat + 10
    else if 'A' <= c <= 'F' then
      (c - 'A') as nat + 10
    else
      0
  }

  function Value(digits: string, base: nat): nat {
    if digits == "" then 0 else Value(digits[..|digits| - 1], base) * base + DigitValue(digits[|digits| - 1])
  }

  /** A C `long` saturates; storing it in an `int` drops the upper half. */
  function Narrow(x: int): int32 {
    var long := if x < -0x8000_0000_0000_0000 then -0x8000_0000_0000_0000
                else if x > 0x7fff_ffff_ffff_ffff then 0x7fff_ffff_ffff_ffff
                else x;
    (long + 0x8000_0000) % 0x1_0000_0000 - 0x8000_0000
  }

  /** Hexadecimal after `0x`, octal after `0`, decimal otherwise. */
  function Magnitude(text: string): nat {
    if |text| >= 2 && text[0] == '0' && (text[1] == 'x' || text[1] == 'X') then
      Value(text[2..], 16)
    else if |text| >= 1 && text[0] == '0' then
      Value(text, 8)
    else
      Value(text, 10)
  }

  function IntegerOf(text: string): int32 {
    if text != "" && text[0] == '-' then
      Narrow(0 - Magnitude(text[1..]))
    else if text != "" && text[0] == '+' then
      Narrow(Magnitude(text[1..]))
    else
      Narrow(Magnitude(text))
  }

  // ----------------------------------------------------------------- reading

  /** The elements read up to the closing parenthesis, or the end of the text, that `end` lies behind. */
  datatype Reading = Items(items: seq<Tree>, end: nat) | Failed(end: nat)

  function Before(x: Tree, r: Reading): Reading {
    if r.Failed? then r else Items([x] + r.items, r.end)
  }

  function AtomOf(t: Token): Tree
    requires Atomic(t.kind)
  {
    match t.kind
    case Str => Chars(t.text)
    case Int => Number(IntegerOf(t.text))
    case Flt => Real(t.text)
  }

  /**
    The reader does not ask for balance: the end of the text closes every open list, and
    a closing parenthesis too many ends the outermost one.
  */
  function ReadList(s: string, i: nat): (r: Reading)
    requires i <= |s|
    ensures i <= r.end <= |s|
    decreases |s| - i
  {
    var t := Lex(s, i);
    match t.kind
    case End => Items([], t.end)
    case Close => Items([], t.end)
    case Bad => Failed(t.end)
    case Open =>
      var child := ReadList(s, t.end);
      if child.Failed? then child else Before(List(child.items), ReadList(s, child.end))
    case _ => Before(AtomOf(t), ReadList(s, t.end))
  }

  // ---------------------------------------------------------------- printing

  function DecimalText(n: nat): (t: string)
    ensures t != "" && forall c <- t :: Digit(c)
    ensures n > 0 ==> t[0] != '0'
  {
    (if n < 10 then "" else DecimalText(n / 10)) + [(n % 10) as char + '0']
  }

  function IntegerText(n: int32): string {
    if n < 0 then "-" + DecimalText(0 - n) else DecimalText(n)
  }

  function Hundredths(negative: bool, whole: nat, part: string): string {
    (if negative then "-" else "") + (DecimalText(whole) + ("." + part))
  }

  /** The printer writes a floating point number with two digits behind the point. */
  ghost predicate HasTwoPlaces(text: string) {
    exists negative, whole, part ::
      |part| == 2 && Digit(part[0]) && Digit(part[1]) && text == Hundredths(negative, whole, part)
  }

  /** Floating point numbers are texts here, and stand in trees as they are printed. */
  ghost predicate Printable(v: Tree) {
    && (v.Real? ==> HasTwoPlaces(v.text))
    && (v.List? ==> forall x <- v.items :: Printable(x))
  }

  /** A tree at a depth of printing; from level six on, what is left of a list becomes dots. */
  function Show(v: Tree, level: nat): string
    requires Printable(v)
    decreases v, 0
  {
    match v
    case Chars(text) => "\"" + text + "\""
    case Number(value) => IntegerText(value)
    case Real(text) => text
    case List(items) => if items == [] then "()" else "(" + ShowItems(items, level)
  }

  /** A list without its opening parenthesis. */
  function ShowItems(items: seq<Tree>, level: nat): string
    requires items != [] && forall x <- items :: Printable(x)
    decreases items, 1
  {
    if level >= 6 then
      "...)"
    else if |items| == 1 then
      Show(items[0], level + 1) + ")"
    else
      Show(items[0], level + 5) + " " + ShowItems(items[1..], level + 1)
  }

  // --------------------------------------------------- reading undoes printing

  /** Plain characters first, and nothing but quotes after the first quote. */
  predicate Quotable(text: string, quote: char) {
    Run(text, Run(text, 0, Plain(quote)), Only(quote)) == |text|
  }

  /** That is: no NUL, CR or LF, and no quote before a character that is none. */
  lemma QuotableIff(text: string, quote: char)
    requires quote != '\0' && quote != '\r' && quote != '\n'
    ensures Quotable(text, quote) <==>
      && (forall c <- text :: c != '\0' && c != '\r' && c != '\n')
      && (forall j, k | 0 <= j < k < |text| :: text[j] == quote ==> text[k] == quote)
  {
    var f := Run(text, 0, Plain(quote));
    var g := Run(text, f, Only(quote));
    RunIsLongest(text, 0, f, Plain(quote));
    RunIsLongest(text, f, g, Only(quote));
    if Quotable(text, quote) {
      forall c | c in text ensures c != '\0' && c != '\r' && c != '\n' {
        var k :| 0 <= k < |text| && text[k] == c;
        assert k < f ==> Plain(quote).Has(text[k]);
        assert f <= k ==> Only(quote).Has(text[k]);
      }
      forall j, k | 0 <= j < k < |text| && text[j] == quote ensures text[k] == quote {
        assert j < f ==> Plain(quote).Has(text[j]);
        assert f <= k ==> Only(quote).Has(text[k]);
      }
    } else if (forall c <- text :: c != '\0' && c != '\r' && c != '\n') {
      assert text[g] in text && text[f] in text;
      assert !Plain(quote).Has(text[f]);
      assert f < g && text[f] == quote && text[g] != quote;
    }
  }

  /** Texts can be quoted, and no list is deep or long enough to be cut short. */
  predicate Readable(v: Tree, level: nat)
    decreases v, 0
  {
    match v
    case Chars(text) => Quotable(text, '"')
    case Number(_) => true
    case Real(_) => true
    case List(items) => ReadableItems(items, level)
  }

  predicate ReadableItems(items: seq<Tree>, level: nat)
    decreases items, 1
  {
    if items == [] then
      true
    else if |items| == 1 then
      level < 6 && Readable(items[0], level + 1)
    else
      level < 6 && Readable(items[0], level + 5) && ReadableItems(items[1..], level + 1)
  }

  /** Element k of a list is printed one level down for each element before it, and one more, or five when others follow. */
  predicate ReadableAt(items: seq<Tree>, level: nat, k: nat)
    requires k < |items|
  {
    level + k < 6 && Readable(items[k], level + k + if k == |items| - 1 then 1 else 5)
  }

  lemma {:induction false} ReadableItemsIff(items: seq<Tree>, level: nat)
    ensures ReadableItems(items, level) <==> forall k | 0 <= k < |items| :: ReadableAt(items, level, k)
    decreases |items|
  {
    if items != [] {
      assert ReadableAt(items, level, 0) <==> level < 6 && Readable(items[0], level + if |items| == 1 then 1 else 5);
      var rest, up := items[1..], level + 1;
      ReadableItemsIff(rest, up);
      forall k | 1 <= k < |items| ensures ReadableAt(rest, up, k - 1) <==> ReadableAt(items, level, k) {
      }
      if !ReadableItems(rest, up) {
        var k :| 0 <= k < |rest| && !ReadableAt(rest, up, k);
        assert !ReadableAt(items, level, k + 1);
      }
    }
  }

  lemma {:induction false} ValueOfDecimal(n: nat)
    ensures Value(DecimalText(n), 10) == n
  {
    var t := DecimalText(n);
    var last := |t| - 1;
    assert DigitValue(t[last]) == n % 10;
    if n < 10 {
      assert t[..last] == "";
    } else {
      ValueOfDecimal(n / 10);
      assert t[..last] == DecimalText(n / 10);
    }
  }

  lemma MagnitudeOfDecimal(n: nat)
    ensures Magnitude(DecimalText(n)) == n
  {
    var t := DecimalText(n);
    ValueOfDecimal(n);
    if n == 0 {
      assert t == "0" && t[..|t| - 1] == "";
      assert Value(t, 8) == Value("", 8) * 8 + DigitValue('0') == 0;
    } else {
      assert t[0] != '0';
    }
  }

  lemma IntegerTextMeansItself(n: int32)
    ensures IntegerOf(IntegerText(n)) == n
  {
    hide DecimalText, Magnitude;
    var m := if n < 0 then 0 - n else n;
    var t := DecimalText(m);
    MagnitudeOfDecimal(m);
    assert Digit(t[0]) && t[0] != '-' && t[0] != '+';
    if n < 0 {
      assert ("-" + t)[1..] == t;
    }
  }

  /** What may follow a word or a number: a blank, a comment, a parenthesis or the end. */
  predicate Boundary(s: string, j: nat) {
    j < |s| ==> s[j] == ' ' || s[j] == '\t' || s[j] == '\r' || s[j] == '\n' || s[j] == ';' || s[j] == '(' || s[j] == ')'
  }

  predicate Occurs(s: string, i: nat, part: string) {
    i + |part| <= |s| && forall k :: 0 <= k < |part| ==> s[i + k] == part[k]
  }

  lemma OccursAt(s: string, i: nat, part: string, k: nat)
    requires Occurs(s, i, part) && k < |part|
    ensures s[i + k] == part[k]
  {
  }

  lemma OccursSplit(s: string, i: nat, a: string, b: string)
    requires Occurs(s, i, a + b)
    ensures Occurs(s, i, a) && Occurs(s, i + |a|, b)
  {
    forall k | 0 <= k < |a| ensures s[i + k] == a[k] {
      assert (a + b)[k] == a[k];
    }
    forall k | 0 <= k < |b| ensures s[i + |a| + k] == b[k] {
      assert (a + b)[|a| + k] == b[k];
    }
  }

  /** A run through a part of the text is a run through that part, or through all of it and on. */
  lemma {:induction false} RunInside(s: string, a: nat, part: string, f: nat, p: Alphabet)
    requires Occurs(s, a, part) && f <= |part|
    ensures Run(s, a + f, p) == var r := Run(part, f, p); if r < |part| then a + r else Run(s, a + |part|, p)
    decreases |part| - f
  {
    if f < |part| {
      RunInside(s, a, part, f + 1, p);
    }
  }

  lemma DigitsRun(s: string, i: nat, d: string)
    requires d != "" && (forall c <- d :: Digit(c)) && Occurs(s, i, d)
    requires i + |d| < |s| ==> !Digit(s[i + |d|])
    ensures Digit(s[i]) && Run(s, i + 1, Digital) == i + |d|
  {
    forall k | i <= k < i + |d| ensures Digit(s[k]) {
      assert s[i + (k - i)] == d[k - i] && d[k - i] in d;
    }
    RunIsLongest(s, i + 1, i + |d|, Digital);
  }

  lemma UnsignedReads(s: string, i: nat, n: nat)
    requires Occurs(s, i, DecimalText(n)) && Boundary(s, i + |DecimalText(n)|)
    ensures Digit(s[i]) && Signed(s, i) == Lexeme(Whole, i + |DecimalText(n)|)
  {
    hide Fraction, Exponent, Occurs;
    var d := DecimalText(n);
    var j := i + |d|;
    OccursAt(s, i, d, 0);
    DigitsRun(s, i, d);
    assert Run(s, j, Digital) == j && Run(s, j, Octal) == j;
    hide Run;
    if n == 0 {
      assert d == "0";
    }
  }

  lemma NumberReads(s: string, i: nat, n: int32)
    requires Occurs(s, i, IntegerText(n)) && Boundary(s, i + |IntegerText(n)|)
    ensures Lex(s, i) == Token(Int, IntegerText(n), i + |IntegerText(n)|)
  {
    hide DecimalText, Signed, Quotation, Run;
    var t := IntegerText(n);
    assert s[i + 0] == t[0];
    if n < 0 {
      OccursSplit(s, i, "-", DecimalText(0 - n));
      UnsignedReads(s, i + 1, 0 - n);
    } else {
      UnsignedReads(s, i, n);
    }
    assert Bare(s, i) == Lexeme(Whole, i + |t|);
    assert s[i..i + |t|] == t;
  }

  /** Digits behind a point, up to a boundary. */
  lemma FractionReads(s: string, j: nat, part: string)
    requires |part| == 2 && Digit(part[0]) && Digit(part[1]) && Occurs(s, j, part) && Boundary(s, j + 2)
    ensures Fraction(s, j) == Lexeme(Decimal, j + 2)
  {
    OccursAt(s, j, part, 0);
    OccursAt(s, j, part, 1);
    assert s[j + 0] == part[0];
    RunIsLongest(s, j, j + 2, Digital);
    hide Run, Exponent;
  }

  lemma UnsignedFloatReads(s: string, i: nat, whole: nat, part: string)
    requires |part| == 2 && Digit(part[0]) && Digit(part[1])
    requires Occurs(s, i, DecimalText(whole) + ("." + part)) && Boundary(s, i + |DecimalText(whole)| + 3)
    ensures Digit(s[i]) && Signed(s, i) == Lexeme(Decimal, i + |DecimalText(whole)| + 3)
  {
    hide Fraction, Exponent, Run, Occurs;
    var d := DecimalText(whole);
    var j := i + |d|;
    OccursSplit(s, i, d, "." + part);
    OccursSplit(s, j, ".", part);
    OccursAt(s, j, ".", 0);
    OccursAt(s, i, d, 0);
    FractionReads(s, j + 1, part);
    DigitsRun(s, i, d);
    if whole == 0 {
      assert d == "0";
    }
  }

  lemma BareFloat(s: string, i: nat, negative: bool, whole: nat, part: string)
    requires |part| == 2 && Digit(part[0]) && Digit(part[1])
    requires var t := Hundredths(negative, whole, part); Occurs(s, i, t) && Boundary(s, i + |t|)
    ensures Bare(s, i) == Lexeme(Decimal, i + |Hundredths(negative, whole, part)|)
    ensures Sign(s[i]) || Digit(s[i])
  {
    hide DecimalText, Signed;
    var t, unsigned := Hundredths(negative, whole, part), DecimalText(whole) + ("." + part);
    OccursAt(s, i, t, 0);
    if negative {
      OccursSplit(s, i, "-", unsigned);
      UnsignedFloatReads(s, i + 1, whole, part);
    } else {
      assert t == unsigned;
      UnsignedFloatReads(s, i, whole, part);
    }
  }

  /** A number as it is printed with two places is one token. */
  lemma FloatReads(s: string, i: nat, text: string)
    requires HasTwoPlaces(text) && Occurs(s, i, text) && Boundary(s, i + |text|)
    ensures Lex(s, i) == Token(Flt, text, i + |text|)
  {
    var negative, whole, part :|
      |part| == 2 && Digit(part[0]) && Digit(part[1]) && text == Hundredths(negative, whole, part);
    hide Hundredths, HasTwoPlaces, Bare, Quotation, Run;
    BareFloat(s, i, negative, whole, part);
    assert s[i..i + |text|] == text;
  }

  lemma ClosingQuote(s: string, b: nat, quote: char)
    requires Occurs(s, b, [quote]) && (b + 1 < |s| ==> s[b + 1] != quote)
    ensures Run(s, b, Plain(quote)) == b && Run(s, b, Only(quote)) == b + 1
  {
    assert s[b + 0] == [quote][0];
  }

  lemma QuotationReads(s: string, a: nat, text: string, quote: char)
    requires Occurs(s, a, text) && Occurs(s, a + |text|, [quote])
    requires a + |text| + 1 < |s| ==> s[a + |text| + 1] != quote
    ensures var f := Run(text, 0, Plain(quote)); var g := Run(text, f, Only(quote));
      && (g == |text| ==> Quotation(s, a, quote) == Closed(text, a + |text| + 1))
      && (g < |text| ==> Quotation(s, a, quote).Closed? ==> |Quotation(s, a, quote).text| < |text|)
  {
    hide Run;
    ClosingQuote(s, a + |text|, quote);
    RunInside(s, a, text, 0, Plain(quote));
    RunInside(s, a, text, Run(text, 0, Plain(quote)), Only(quote));
    assert s[a..a + |text|] == text;
  }

  lemma TextReads(s: string, i: nat, text: string, quote: char)
    requires quote == '"' || quote == '\''
    requires Occurs(s, i, [quote] + text + [quote]) && Boundary(s, i + |text| + 2)
    ensures Quotable(text, quote) ==> Lex(s, i) == Token(Str, text, i + |text| + 2)
    ensures !Quotable(text, quote) ==> Lex(s, i).kind == Bad || (Lex(s, i).kind == Str && Lex(s, i).text != text)
  {
    hide Run, Quotation, Bare;
    var whole := [quote] + text + [quote];
    assert whole == [quote] + (text + [quote]);
    OccursSplit(s, i, [quote], text + [quote]);
    OccursSplit(s, i + 1, text, [quote]);
    QuotationReads(s, i + 1, text, quote);
    assert s[i + 0] == whole[0];
    assert Lex(s, i) == OfQuoted(Quotation(s, i + 1, quote));
  }

  lemma BlankReads(s: string, i: nat)
    requires i < |s| && s[i] == ' '
    ensures ReadList(s, i) == ReadList(s, i + 1)
  {
    hide TokenAt;
    assert Lex(s, i) == Lex(s, i + 1);
  }

  lemma CloseReads(s: string, i: nat)
    requires i < |s| && s[i] == ')'
    ensures ReadList(s, i) == Items([], i + 1)
  {
    assert Lex(s, i) == Token(Close, "", i + 1);
  }

  lemma OpenReads(s: string, i: nat)
    requires i < |s| && s[i] == '('
    ensures var child := ReadList(s, i + 1);
            ReadList(s, i) == if child.Failed? then child else Before(List(child.items), ReadList(s, child.end))
  {
    assert Lex(s, i) == Token(Open, "", i + 1);
  }

  /** Three dots are no word of the language. */
  lemma DotsFail(s: string, i: nat, level: nat)
    requires Occurs(s, i, "...)")
    ensures ReadList(s, i).Failed?
  {
    OccursAt(s, i, "...)", 0);
    OccursAt(s, i, "...)", 1);
    assert Lex(s, i).kind == Bad;
  }

  /** The reading begins with `v`, or at least not with something else. */
  predicate Leads(v: Tree, r: Reading) {
    r.Items? && r.items != [] && r.items[0] == v
  }

  lemma AtomReads(s: string, i: nat, v: Tree)
    requires !v.List? && Printable(v)
    requires Occurs(s, i, Show(v, 0)) && Boundary(s, i + |Show(v, 0)|)
    ensures Readable(v, 0) ==> ReadList(s, i) == Before(v, ReadList(s, i + |Show(v, 0)|))
    ensures !Readable(v, 0) ==> !Leads(v, ReadList(s, i))
  {
    hide Lex, Quotable, IntegerOf, IntegerText, Occurs;
    if v.Chars? {
      TextReads(s, i, v.text, '"');
    } else if v.Real? {
      FloatReads(s, i, v.text);
    } else {
      NumberReads(s, i, v.value);
      IntegerTextMeansItself(v.value);
    }
  }

  /** A readable tree reads back and reading goes on behind it; any other reads as something else. */
  lemma {:induction false} ShowReads(s: string, i: nat, v: Tree, level: nat)
    requires Printable(v)
    requires Occurs(s, i, Show(v, level))
    requires Boundary(s, i + |Show(v, level)|)
    ensures Readable(v, level) ==> ReadList(s, i) == Before(v, ReadList(s, i + |Show(v, level)|))
    ensures !Readable(v, level) ==> !Leads(v, ReadList(s, i))
    decreases v, 0
  {
    hide Lex, ReadList, Quotable;
    match v
    case Chars(_) => AtomReads(s, i, v);
    case Number(_) => AtomReads(s, i, v);
    case Real(_) => AtomReads(s, i, v);
    case List(items) =>
      OccursAt(s, i, Show(v, level), 0);
      OpenReads(s, i);
      if items == [] {
        OccursAt(s, i, "()", 1);
        CloseReads(s, i + 1);
      } else {
        OccursSplit(s, i, "(", ShowItems(items, level));
        ShowItemsRead(s, i + 1, items, level);
      }
  }

  /** The rest of a list reads back as its elements exactly when they are readable. */
  lemma {:induction false} ShowItemsRead(s: string, i: nat, items: seq<Tree>, level: nat)
    requires items != [] && forall x <- items :: Printable(x)
    requires Occurs(s, i, ShowItems(items, level))
    ensures ReadableItems(items, level) ==> ReadList(s, i) == Items(items, i + |ShowItems(items, level)|)
    ensures !ReadableItems(items, level) ==> ReadList(s, i).Failed? || ReadList(s, i).items != items
    decreases items, 1
  {
    hide Lex, ReadList, Readable, Show, Occurs;
    if level >= 6 {
      DotsFail(s, i, level);
    } else if |items| == 1 {
      var head := Show(items[0], level + 1);
      OccursSplit(s, i, head, ")");
      OccursAt(s, i + |head|, ")", 0);
      CloseReads(s, i + |head|);
      ShowReads(s, i, items[0], level + 1);
    } else {
      var head := Show(items[0], level + 5);
      var tail := ShowItems(items[1..], level + 1);
      OccursSplit(s, i, head + " ", tail);
      OccursSplit(s, i, head, " ");
      OccursAt(s, i + |head|, " ", 0);
      BlankReads(s, i + |head|);
      ShowReads(s, i, items[0], level + 5);
      ShowItemsRead(s, i + |head| + 1, items[1..], level + 1);
      assert items == [items[0]] + items[1..];
    }
  }

  lemma Everywhere(s: string)
    ensures Occurs(s, 0, s) && Boundary(s, 0 + |s|)
  {
  }

  lemma ReadingMeans(v: Tree, s: string)
    ensures Before(v, Items([], |s|)) == Items([v], |s|)
    ensures forall r: Reading :: r == Items([v], |s|) ==> Leads(v, r)
  {
  }

  /** Exactly the readable trees come back from their printed text. */
  lemma PrintingReadsBackIff(v: Tree)
    requires Printable(v)
    ensures ReadList(Show(v, 0), 0) == Items([v], |Show(v, 0)|) <==> Readable(v, 0)
  {
    var s := Show(v, 0);
    EndReads(s);
    Everywhere(s);
    ReadingMeans(v, s);
    hide *;
    ShowReads(s, 0, v, 0);
  }

  // ----------------------------------------------------- lists printed in full

  /** A tree as a configuration file has it: atoms as the printer writes them, lists without dots. */
  function Full(v: Tree): string
    requires Printable(v)
    decreases v, 0
  {
    match v
    case Chars(text) => "\"" + text + "\""
    case Number(value) => IntegerText(value)
    case Real(text) => text
    case List(items) => if items == [] then "()" else "(" + FullItems(items)
  }

  /** A list without its opening parenthesis. */
  function FullItems(items: seq<Tree>): string
    requires items != [] && forall x <- items :: Printable(x)
    decreases items, 1
  {
    if |items| == 1 then Full(items[0]) + ")" else Full(items[0]) + " " + FullItems(items[1..])
  }

  /** Every text in the tree can be quoted. */
  predicate Plainly(v: Tree)
    decreases v, 0
  {
    match v
    case Chars(text) => Quotable(text, '"')
    case Number(_) => true
    case Real(_) => true
    case List(items) => PlainItems(items)
  }

  predicate PlainItems(items: seq<Tree>)
    decreases items, 1
  {
    items == [] || (Plainly(items[0]) && PlainItems(items[1..]))
  }

  /** A plain tree reads back and reading goes on behind it; any other reads as something else. */
  lemma {:induction false} FullReads(s: string, i: nat, v: Tree)
    requires Printable(v)
    requires Occurs(s, i, Full(v))
    requires Boundary(s, i + |Full(v)|)
    ensures Plainly(v) ==> ReadList(s, i) == Before(v, ReadList(s, i + |Full(v)|))
    ensures !Plainly(v) ==> !Leads(v, ReadList(s, i))
    decreases v, 0
  {
    hide Lex, ReadList, Quotable;
    match v
    case Chars(_) => AtomReads(s, i, v);
    case Number(_) => AtomReads(s, i, v);
    case Real(_) => AtomReads(s, i, v);
    case List(items) =>
      OccursAt(s, i, Full(v), 0);
      OpenReads(s, i);
      if items == [] {
        OccursAt(s, i, "()", 1);
        CloseReads(s, i + 1);
      } else {
        OccursSplit(s, i, "(", FullItems(items));
        FullItemsRead(s, i + 1, items);
      }
  }

  lemma {:induction false} FullItemsRead(s: string, i: nat, items: seq<Tree>)
    requires items != [] && forall x <- items :: Printable(x)
    requires Occurs(s, i, FullItems(items))
    ensures PlainItems(items) ==> ReadList(s, i) == Items(items, i + |FullItems(items)|)
    ensures !PlainItems(items) ==> ReadList(s, i).Failed? || ReadList(s, i).items != items
    decreases items, 1
  {
    hide Lex, ReadList, Plainly, Full, Occurs;
    var head := Full(items[0]);
    if |items| == 1 {
      OccursSplit(s, i, head, ")");
      OccursAt(s, i + |head|, ")", 0);
      CloseReads(s, i + |head|);
      FullReads(s, i, items[0]);
      assert items == [items[0]] && PlainItems(items[1..]);
    } else {
      var tail := FullItems(items[1..]);
      OccursSplit(s, i, head + " ", tail);
      OccursSplit(s, i, head, " ");
      OccursAt(s, i + |head|, " ", 0);
      BlankReads(s, i + |head|);
      FullReads(s, i, items[0]);
      FullItemsRead(s, i + |head| + 1, items[1..]);
      assert items == [items[0]] + items[1..];
    }
  }

  /** Reading undoes printing in full, however long and deep the lists, exactly for trees of plain texts. */
  lemma FullPrintingReadsBackIff(v: Tree)
    requires Printable(v)
    ensures ReadList(Full(v), 0) == Items([v], |Full(v)|) <==> Plainly(v)
  {
    var s := Full(v);
    EndReads(s);
    Everywhere(s);
    ReadingMeans(v, s);
    hide *;
    FullReads(s, 0, v);
  }

  lemma EndReads(s: string)
    ensures ReadList(s, |s|) == Items([], |s|)
  {
    assert Lex(s, |s|).kind == End;
  }

  /** A NUL ends the text: what stands behind it is not read. */
  lemma {:induction false} NulEndsText(s: string, more: string, i: nat)
    requires i <= |s|
    ensures ReadList(s + "\0" + more, i) == ReadList(s, i)
    decreases |s| - i
  {
    var whole, t := s + "\0" + more, Lex(s, i);
    TokensEnd(s, whole, i);
    hide Lex;
    match t.kind
    case End =>
    case Close =>
    case Bad =>
    case Open =>
      NulEndsText(s, more, t.end);
      NulEndsText(s, more, ReadList(s, t.end).end);
    case _ =>
      NulEndsText(s, more, t.end);
  }

  /** A quote inside of a text: printed as it is, it closes the text when it is read. */
  lemma QuoteInsideIsLost()
    ensures var v := Chars("a\"b"); var s := Show(v, 0);
      Lex(s, 0) == Token(Str, "a", 3) && ReadList(s, 0) != Items([v], |s|)
  {
    var text := "a\"b";
    assert Show(Chars(text), 0) == "\"a\"b\"";
    hide Show, Lex, Quotable;
    QuoteInsideCloses("\"a\"b\"");
    NotQuotable(text);
    PrintingReadsBackIff(Chars(text));
  }

  lemma QuoteInsideCloses(s: string)
    requires s == "\"a\"b\""
    ensures Lex(s, 0) == Token(Str, "a", 3)
  {
    hide Run;
    RunIsLongest(s, 1, 2, Plain('"'));
    RunIsLongest(s, 2, 3, Only('"'));
    assert s[1..2] == "a";
  }

  lemma NotQuotable(text: string)
    requires text == "a\"b"
    ensures !Quotable(text, '"')
  {
    hide Run;
    RunIsLongest(text, 0, 1, Plain('"'));
    RunIsLongest(text, 1, 2, Only('"'));
  }

  /** The printer cuts off the seventh element, so no list that has one reads back. */
  lemma {:induction false} LongListsAreCut(items: seq<Tree>, level: nat)
    requires items != []
    ensures ReadableItems(items, level) ==> level + |items| <= 6
    decreases items
  {
    if |items| > 1 {
      LongListsAreCut(items[1..], level + 1);
    }
  }
}
