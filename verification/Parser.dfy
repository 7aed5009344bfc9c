/**
  The parser object: a scanner that moves through the file, a recursive reader that
  appends to a list through its last cell, and a reader that keeps the open lists on a
  stack of cells and reverses each list in place when it closes.
*/
module Parsers {
  import opened Lexer
  import opened Automaton
  import opened Reader
  import opened Chains

  function Nesting(kind: Kind): int {
    if kind == Open then 1 else if kind == Close then -1 else 0
  }

  /** What was read before, in front of what is read from here on. */
  function Ahead(ts: seq<Tree>, r: Reading): Reading {
    if r.Failed? then r else Items(ts + r.items, r.end)
  }

  lemma AheadFromNothing(r: Reading)
    ensures Ahead([], r) == r
  {
    if r.Items? {
      assert [] + r.items == r.items;
    }
  }

  lemma AtomStep(ts: seq<Tree>, s: string, i: nat)
    requires i <= |s| && Atomic(Lex(s, i).kind)
    ensures Ahead(ts, ReadList(s, i)) == Ahead(ts + [AtomOf(Lex(s, i))], ReadList(s, Lex(s, i).end))
  {
    var x, r := AtomOf(Lex(s, i)), ReadList(s, Lex(s, i).end);
    assert ReadList(s, i) == Before(x, r);
    assert r.Items? ==> ts + ([x] + r.items) == (ts + [x]) + r.items;
  }

  lemma OpenStep(ts: seq<Tree>, s: string, i: nat)
    requires i <= |s| && Lex(s, i).kind == Open
    ensures var child := ReadList(s, Lex(s, i).end);
            Ahead(ts, ReadList(s, i)) ==
            if child.Failed? then child else Ahead(ts + [List(child.items)], ReadList(s, child.end))
  {
    var child := ReadList(s, Lex(s, i).end);
    if child.Items? {
      var x, r := List(child.items), ReadList(s, child.end);
      assert ReadList(s, i) == Before(x, r);
      assert r.Items? ==> ts + ([x] + r.items) == (ts + [x]) + r.items;
    }
  }

  lemma StopStep(ts: seq<Tree>, s: string, i: nat)
    requires i <= |s|
    ensures Lex(s, i).kind == End || Lex(s, i).kind == Close ==> Ahead(ts, ReadList(s, i)) == Items(ts, Lex(s, i).end)
    ensures Lex(s, i).kind == Bad ==> Ahead(ts, ReadList(s, i)) == Failed(Lex(s, i).end)
  {
    assert ts + [] == ts;
  }

  // --------------------------------------------------- reading with a stack

  /** What was read of every list that is still open, innermost first. */
  datatype Pile = Ground | Over(saved: seq<Tree>, below: Pile)

  /** What the recursive reader makes of the rest, when these lists are open. */
  function Unwind(pile: Pile, top: seq<Tree>, s: string, i: nat): Reading
    requires i <= |s|
    decreases pile
  {
    var r := Ahead(top, ReadList(s, i));
    if pile.Ground? || r.Failed? then r else Unwind(pile.below, pile.saved + [List(r.items)], s, r.end)
  }

  /** No token is wrong, no parenthesis closes what is not open, and none is left open at the end. */
  predicate Sound(s: string, i: nat, open: nat)
    requires i <= |s|
    decreases |s| - i
  {
    var t := Lex(s, i);
    match t.kind
    case End => open == 0
    case Bad => false
    case Open => Sound(s, t.end, open + 1)
    case Close => open > 0 && Sound(s, t.end, open - 1)
    case _ => Sound(s, t.end, open)
  }

  /**
    How the reader with a stack ends when it starts at some depth: earlier texts may have
    left the depth below zero or above. `Tripped` is the assertion that no list is open.
  */
  datatype Ending = Read | Refused | Tripped

  function EndingOf(s: string, i: nat, open: nat, start: int): Ending
    requires i <= |s|
    decreases |s| - i
  {
    var t := Lex(s, i);
    match t.kind
    case End => if start + open != 0 then Refused else if open == 0 then Read else Tripped
    case Bad => Refused
    case Open => EndingOf(s, t.end, open + 1, start)
    case Close => if open > 0 then EndingOf(s, t.end, open - 1, start) else if start > 0 then Read else Refused
    case _ => EndingOf(s, t.end, open, start)
  }

  lemma EndingUnfolds(s: string, i: nat, open: nat, start: int)
    requires i <= |s|
    ensures var t := Lex(s, i);
      EndingOf(s, i, open, start) == match t.kind
                                     case End => if start + open != 0 then Refused else if open == 0 then Read else Tripped
                                     case Bad => Refused
                                     case Open => EndingOf(s, t.end, open + 1, start)
                                     case Close => if open > 0 then EndingOf(s, t.end, open - 1, start)
                                                   else if start > 0 then Read else Refused
                                     case _ => EndingOf(s, t.end, open, start)
  {
  }

  // --------------------------------------------- the same, by counting parentheses

  /** Where the first tokens end. */
  function Place(s: string, i: nat, n: nat): (p: nat)
    requires i <= |s|
    ensures i <= p <= |s|
    decreases n
  {
    if n == 0 then i else Place(s, Lex(s, i).end, n - 1)
  }

  function KindAt(s: string, i: nat, n: nat): Kind
    requires i <= |s|
  {
    Lex(s, Place(s, i, n)).kind
  }

  /** How many more parentheses the first tokens open than they close. */
  function Balance(s: string, i: nat, n: nat): int
    requires i <= |s|
    decreases n
  {
    if n == 0 then 0 else Nesting(Lex(s, i).kind) + Balance(s, Lex(s, i).end, n - 1)
  }

  lemma {:induction false} TokensAdd(s: string, i: nat, n: nat, m: nat)
    requires i <= |s|
    ensures Place(s, i, n + m) == Place(s, Place(s, i, n), m)
    ensures Balance(s, i, n + m) == Balance(s, i, n) + Balance(s, Place(s, i, n), m)
    decreases n
  {
    hide Lex, Nesting;
    if n > 0 {
      var rest := Lex(s, i).end;
      TokensAdd(s, rest, n - 1, m);
      assert Place(s, i, n + m) == Place(s, rest, n + m - 1);
      assert Balance(s, i, n + m) == Nesting(Lex(s, i).kind) + Balance(s, rest, n + m - 1);
    }
  }

  /** From `i` to `j` there are that many tokens, parentheses left open and line ends. */
  predicate Counted(s: string, i: nat, j: nat, tokens: nat, open: int, lines: int)
    requires i <= |s|
  {
    i <= j <= |s| && j == Place(s, i, tokens) && open == Balance(s, i, tokens) && lines == Lines(s, i, j)
  }

  lemma CountsNothing(s: string, i: nat)
    requires i <= |s|
    ensures Counted(s, i, i, 0, 0, 0)
  {
  }

  lemma CountsToken(s: string, i: nat, j: nat, tokens: nat, open: int, lines: int)
    requires i <= |s| && j <= |s| && Counted(s, i, j, tokens, open, lines)
    ensures var t := Lex(s, j);
      Counted(s, i, t.end, tokens + 1, open + Nesting(t.kind), lines + Lines(s, j, t.end))
  {
    hide Lex, Nesting, Lines;
    var next := Lex(s, j).end;
    assert Place(s, next, 0) == next && Balance(s, next, 0) == 0;
    TokensAdd(s, i, tokens, 1);
    LinesAdd(s, i, j, next);
  }

  lemma BalanceIs(s: string, i: nat, j: nat, tokens: nat, open: int, lines: int)
    requires i <= |s| && Counted(s, i, j, tokens, open, lines)
    ensures open == Balance(s, i, tokens)
  {
  }

  lemma CountsOn(s: string, i: nat, j: nat, k: nat, tokens: nat, open: int, lines: int, more: nat, deeper: int, longer: int)
    requires i <= |s| && j <= |s|
    requires Counted(s, i, j, tokens, open, lines) && Counted(s, j, k, more, deeper, longer)
    ensures Counted(s, i, k, tokens + more, open + deeper, lines + longer)
  {
    hide Lex, Nesting, Lines, Place, Balance;
    TokensAdd(s, i, tokens, more);
    LinesAdd(s, i, j, k);
  }

  /** The first tokens are not wrong, do not end the text, and close nothing that is not open. */
  ghost predicate GoesOn(s: string, i: nat, open: int, n: nat)
    requires i <= |s|
  {
    forall k | 0 <= k < n :: Passes(s, i, open, k)
  }

  predicate Passes(s: string, i: nat, open: int, k: nat)
    requires i <= |s|
  {
    KindAt(s, i, k) != End && KindAt(s, i, k) != Bad && open + Balance(s, i, k + 1) >= 0
  }

  /** After some tokens that go on, so many lists are open, and a token of this kind comes. */
  ghost predicate Reaches(s: string, i: nat, open: int, kind: Kind, left: nat)
    requires i <= |s|
  {
    exists n: nat :: GoesOn(s, i, open, n) && open + Balance(s, i, n) == left && KindAt(s, i, n) == kind
  }

  lemma OneTokenMore(s: string, i: nat, open: int, n: nat)
    requires i <= |s|
    ensures var t := Lex(s, i);
      && Passes(s, i, open, n + 1) == Passes(s, t.end, open + Nesting(t.kind), n)
      && KindAt(s, i, n + 1) == KindAt(s, t.end, n)
      && Balance(s, i, n + 1) == Nesting(t.kind) + Balance(s, t.end, n)
  {
    assert Place(s, i, n + 1) == Place(s, Lex(s, i).end, n);
  }

  lemma FirstPasses(s: string, i: nat, open: int)
    requires i <= |s|
    ensures Passes(s, i, open, 0) <==>
            Lex(s, i).kind != End && Lex(s, i).kind != Bad && open + Nesting(Lex(s, i).kind) >= 0
    ensures Balance(s, i, 0) == 0 && KindAt(s, i, 0) == Lex(s, i).kind
  {
    assert Balance(s, i, 1) == Nesting(Lex(s, i).kind) + Balance(s, Lex(s, i).end, 0);
  }

  lemma ReachesLater(s: string, i: nat, open: int, kind: Kind, left: nat)
    requires i <= |s| && Reaches(s, i, open, kind, left) && !(Lex(s, i).kind == kind && open == left)
    ensures Passes(s, i, open, 0) && Reaches(s, Lex(s, i).end, open + Nesting(Lex(s, i).kind), kind, left)
  {
    hide Passes, KindAt, Balance, Lex;
    FirstPasses(s, i, open);
    var next, rest := Lex(s, i).end, open + Nesting(Lex(s, i).kind);
    var n: nat :| GoesOn(s, i, open, n) && open + Balance(s, i, n) == left && KindAt(s, i, n) == kind;
    assert n > 0 && Passes(s, i, open, 0);
    OneTokenMore(s, i, open, n - 1);
    forall k | 0 <= k < n - 1 ensures Passes(s, next, rest, k) {
      OneTokenMore(s, i, open, k);
    }
    assert GoesOn(s, next, rest, n - 1);
  }

  lemma ReachesEarlier(s: string, i: nat, open: int, kind: Kind, left: nat)
    requires i <= |s| && Passes(s, i, open, 0)
    requires Reaches(s, Lex(s, i).end, open + Nesting(Lex(s, i).kind), kind, left)
    ensures Reaches(s, i, open, kind, left)
  {
    hide Passes, KindAt, Balance, Lex;
    var next, rest := Lex(s, i).end, open + Nesting(Lex(s, i).kind);
    var n: nat :| GoesOn(s, next, rest, n) && rest + Balance(s, next, n) == left && KindAt(s, next, n) == kind;
    OneTokenMore(s, i, open, n);
    forall k | 0 <= k < n + 1 ensures Passes(s, i, open, k) {
      if k > 0 {
        OneTokenMore(s, i, open, k - 1);
      }
    }
    assert GoesOn(s, i, open, n + 1);
  }

  lemma ReachesUnfolds(s: string, i: nat, open: int, kind: Kind, left: nat)
    requires i <= |s|
    ensures var t := Lex(s, i);
      Reaches(s, i, open, kind, left) <==>
      (t.kind == kind && open == left) || (Passes(s, i, open, 0) && Reaches(s, t.end, open + Nesting(t.kind), kind, left))
  {
    if Lex(s, i).kind == kind && open == left {
      FirstPasses(s, i, open);
      assert GoesOn(s, i, open, 0);
    } else if Reaches(s, i, open, kind, left) {
      ReachesLater(s, i, open, kind, left);
    } else if Passes(s, i, open, 0) {
      NotReachedLater(s, i, open, kind, left);
    }
  }

  lemma NotReachedLater(s: string, i: nat, open: int, kind: Kind, left: nat)
    requires i <= |s| && Passes(s, i, open, 0) && !Reaches(s, i, open, kind, left)
    ensures !Reaches(s, Lex(s, i).end, open + Nesting(Lex(s, i).kind), kind, left)
  {
    if Reaches(s, Lex(s, i).end, open + Nesting(Lex(s, i).kind), kind, left) {
      ReachesEarlier(s, i, open, kind, left);
    }
  }

  /**
    From depth zero it reads exactly the sound texts, which are those that end with every
    list closed, and no assertion fails.
  */
  lemma {:induction false} FromGroundIff(s: string, i: nat, open: nat)
    requires i <= |s|
    ensures EndingOf(s, i, open, 0) == if Sound(s, i, open) then Read else Refused
    ensures Sound(s, i, open) <==> Reaches(s, i, open, End, 0)
    decreases |s| - i
  {
    hide Lex, Reaches, Passes;
    var t := Lex(s, i);
    FirstPasses(s, i, open);
    ReachesUnfolds(s, i, open, End, 0);
    if t.kind == Open {
      FromGroundIff(s, t.end, open + 1);
    } else if t.kind == Close && open > 0 {
      FromGroundIff(s, t.end, open - 1);
    } else if Atomic(t.kind) {
      FromGroundIff(s, t.end, open);
    }
  }

  /**
    From a greater depth it reads exactly the texts in which a parenthesis closes nothing,
    with nothing wrong before it, and no assertion fails.
  */
  lemma {:induction false} FromAboveIff(s: string, i: nat, open: nat, start: int)
    requires i <= |s| && start > 0
    ensures EndingOf(s, i, open, start) == if Reaches(s, i, open, Close, 0) then Read else Refused
    decreases |s| - i
  {
    hide Lex, Reaches, Passes;
    var t := Lex(s, i);
    FirstPasses(s, i, open);
    ReachesUnfolds(s, i, open, Close, 0);
    if t.kind == Open {
      FromAboveIff(s, t.end, open + 1, start);
    } else if t.kind == Close && open > 0 {
      FromAboveIff(s, t.end, open - 1, start);
    } else if Atomic(t.kind) {
      FromAboveIff(s, t.end, open, start);
    }
  }

  /**
    From a depth below zero it reads nothing. The assertion fails for exactly the texts
    that end with as many lists open as the depth is below zero.
  */
  lemma {:induction false} FromBelowIff(s: string, i: nat, open: nat, start: int)
    requires i <= |s| && start < 0
    ensures EndingOf(s, i, open, start) == if Reaches(s, i, open, End, -start) then Tripped else Refused
    decreases |s| - i
  {
    hide Lex, Reaches, Passes;
    var t := Lex(s, i);
    FirstPasses(s, i, open);
    ReachesUnfolds(s, i, open, End, -start);
    if t.kind == Open {
      FromBelowIff(s, t.end, open + 1, start);
    } else if t.kind == Close && open > 0 {
      FromBelowIff(s, t.end, open - 1, start);
    } else if Atomic(t.kind) {
      FromBelowIff(s, t.end, open, start);
    }
  }

  lemma OpenUnwinds(pile: Pile, top: seq<Tree>, s: string, i: nat)
    requires i <= |s| && Lex(s, i).kind == Open
    ensures Unwind(pile, top, s, i) == Unwind(Over(top, pile), [], s, Lex(s, i).end)
  {
    OpenStep(top, s, i);
    AheadFromNothing(ReadList(s, Lex(s, i).end));
  }

  lemma CloseUnwinds(pile: Pile, top: seq<Tree>, s: string, i: nat)
    requires i <= |s| && Lex(s, i).kind == Close && pile.Over?
    ensures Unwind(pile, top, s, i) == Unwind(pile.below, pile.saved + [List(top)], s, Lex(s, i).end)
  {
    StopStep(top, s, i);
  }

  lemma AtomUnwinds(pile: Pile, top: seq<Tree>, s: string, i: nat)
    requires i <= |s| && Atomic(Lex(s, i).kind)
    ensures Unwind(pile, top, s, i) == Unwind(pile, top + [AtomOf(Lex(s, i))], s, Lex(s, i).end)
  {
    AtomStep(top, s, i);
  }

  ghost function PileOf(frames: Frames): Pile {
    if frames.Bottom? then Ground else Over(Trees(Reversed(frames.saved)), PileOf(frames.below))
  }

  ghost function Height(frames: Frames): nat {
    if frames.Bottom? then 0 else 1 + Height(frames.below)
  }

  lemma EndUnwinds(top: seq<Tree>, s: string, i: nat)
    requires i <= |s| && Lex(s, i).kind == End
    ensures Unwind(Ground, top, s, i) == Items(top, Lex(s, i).end)
  {
    StopStep(top, s, i);
  }

  lemma CloseEnds(top: seq<Tree>, s: string, i: nat)
    requires i <= |s| && Lex(s, i).kind == Close
    ensures Unwind(Ground, top, s, i) == Items(top, Lex(s, i).end)
  {
    StopStep(top, s, i);
  }

  lemma NothingRead()
    ensures Trees(Reversed([])) == [] && Cells([]) == {}
  {
  }

  lemma DeskBegins(s: string, i: nat)
    requires i <= |s|
    ensures Desk(Nil, [], Nil, Bottom)
    ensures Cells([]) == {} && FrameCells(Bottom) == {}
    ensures Unwind(Ground, Trees(Reversed([])), s, i) == ReadList(s, i)
  {
    AheadFromNothing(ReadList(s, i));
    assert Trees(Reversed([])) == [];
  }

  lemma DeskParts(top: Object, links: seq<Link>, stack: Object, frames: Frames)
    requires Desk(top, links, stack, frames)
    ensures Linked(top, links, Nil) && Apart(links) && top != Fault
    ensures stack.Pair? <==> frames.Frame?
    ensures Spine(links) <= Cells(links)
    ensures frames.Frame? ==> stack == Pair(frames.cell)
    ensures frames.Frame? ==> FrameCells(frames) == {frames.cell} + Cells(frames.saved) + FrameCells(frames.below)
  {
  }

  class Parser {
    const text: string
    var pos: nat
    var line: int
    var depth: int
    var symbol: string

    ghost predicate Valid()
      reads this
    {
      pos <= |text|
    }

    constructor (text: string)
      ensures Valid() && this.text == text && pos == 0 && line == 1 && depth == 0
    {
      this.text := text;
      pos, line, depth, symbol := 0, 1, 0, "";
    }

    /** Reads over blanks and comments and counts the line ends among them. */
    method SkipBlanks()
      requires Valid()
      modifies `pos, `line
      ensures Valid() && pos == Skip(text, old(pos))
      ensures line == old(line) + Lines(text, old(pos), pos)
    {
      ghost var start := pos;
      while pos < |text| && (BlankChar(text[pos]) || text[pos] == ';')
        invariant start <= pos <= |text|
        invariant Skip(text, pos) == Skip(text, start)
        invariant line == old(line) + Lines(text, start, pos)
        decreases |text| - pos
      {
        if text[pos] == ';' {
          pos := pos + 1;
          ghost var comment := pos;
          while pos < |text| && text[pos] != '\0' && text[pos] != '\n'
            invariant comment <= pos <= |text|
            invariant Run(text, pos, Commented) == Run(text, comment, Commented)
            invariant line == old(line) + Lines(text, start, pos)
            decreases |text| - pos
          {
            pos := pos + 1;
          }
        } else {
          if text[pos] == '\n' {
            line := line + 1;
          }
          pos := pos + 1;
        }
      }
    }

    /** Goes through the states of the automaton and collects the characters it takes. */
    method ReadBare() returns (form: Form)
      requires Valid() && pos < |text|
      modifies `pos, `symbol
      ensures Valid() && Lexeme(form, pos) == Bare(text, old(pos))
      ensures form != Wrong ==> symbol == text[old(pos)..pos]
    {
      hide Bare, Scan, Step, Finish, Enter;
      ghost var start := pos;
      ScanningIsBare(text, start);
      var move := Enter(text[pos]);
      symbol := [text[pos]];
      pos := pos + 1;
      if !move.Go? {
        return Wrong;
      }
      var state := move.next;
      while true
        invariant start < pos <= |text|
        invariant symbol == text[start..pos]
        invariant Scan(state, text, pos) == Bare(text, start)
        decreases |text| - pos
      {
        ScanUnfolds(state, text, pos);
        if pos == |text| {
          return Finish(state);
        }
        match Step(state, text[pos])
        case Go(next) =>
          assert text[start..pos + 1] == text[start..pos] + [text[pos]];
          symbol := symbol + [text[pos]];
          pos := pos + 1;
          state := next;
        case Reject =>
          pos := pos + 1;
          return Wrong;
        case Leave(f) =>
          return f;
      }
    }

    /** Collects a string up to the quote that is not followed by another one. */
    method ReadQuoted(quote: char) returns (closed: bool)
      requires Valid() && (quote == '"' || quote == '\'')
      modifies `pos, `symbol
      ensures Valid()
      ensures Quotation(text, old(pos), quote) == if closed then Closed(symbol, pos) else Unclosed(pos)
    {
      ghost var start := pos;
      CollectingIsQuotation(text, start, quote);
      hide Quotation, After, Collect;
      AfterNothing(Collect(text, start, quote));
      symbol := "";
      while true
        invariant start <= pos <= |text|
        invariant Collect(text, start, quote) == After(symbol, Collect(text, pos, quote))
        decreases |text| - pos
      {
        AfterEnd(symbol, pos);
        CollectUnfolds(text, pos, quote);
        if pos == |text| {
          return false;
        }
        var c := text[pos];
        if c == '\0' || c == '\r' || c == '\n' {
          return false;
        }
        pos := pos + 1;
        if c == quote && (pos == |text| || text[pos] != quote) {
          AfterEnd(symbol, pos);
          return true;
        }
        AfterAfter(symbol, [c], Collect(text, pos, quote));
        symbol := symbol + [c];
      }
    }

    /**
      One token, the lines passed, and the balance of parentheses. The text is never read
      past its end, and every token but the end mark moves the scanner on.
    */
    method GetToken() returns (kind: Kind)
      requires Valid()
      modifies `pos, `line, `depth, `symbol
      ensures Valid()
      ensures kind == Lex(text, old(pos)).kind && pos == Lex(text, old(pos)).end
      ensures Atomic(kind) ==> symbol == Lex(text, old(pos)).text
      ensures line == old(line) + Lines(text, old(pos), pos)
      ensures depth == old(depth) + Nesting(kind)
    {
      hide Run, Scan, Quotation, Bare;
      SkipBlanks();
      TokenIsOnOneLine(text, old(pos));
      LinesAdd(text, old(pos), pos, Lex(text, old(pos)).end);
      if pos == |text| || text[pos] == '\0' {
        return End;
      }
      var c := text[pos];
      if c == '(' {
        pos, depth := pos + 1, depth + 1;
        return Open;
      }
      if c == ')' {
        pos, depth := pos + 1, depth - 1;
        return Close;
      }
      if c == '"' || c == '\'' {
        pos := pos + 1;
        var closed := ReadQuoted(c);
        return if closed then Str else Bad;
      }
      var form := ReadBare();
      return match form case Word => Str case Whole => Int case Decimal => Flt case Wrong => Bad;
    }

    /**
      The recursive reader: every new element is hung behind the last cell of the list
      that is being read.
    */
    method OnLoad() returns (list: Object, ghost links: seq<Link>, ghost tokens: nat)
      requires Valid()
      modifies `pos, `line, `depth, `symbol
      ensures Valid() && pos == ReadList(text, old(pos)).end
      ensures Counted(text, old(pos), pos, tokens, depth - old(depth), line - old(line))
      ensures list == Fault <==> ReadList(text, old(pos)).Failed?
      ensures list != Fault ==> Linked(list, links, Nil) && Trees(links) == ReadList(text, old(pos)).items
      ensures fresh(Cells(links))
      decreases |text| - pos
    {
      hide Linked, Apart, Spine, Below, Trees, Lex, Growing, ReadList, Lines, Under, IntegerOf, Before, Ahead, Counted, Nesting;
      ghost var start := pos;
      var last: Cons? := null;
      list, links, tokens := Nil, [], 0;
      CountsNothing(text, pos);
      GrowingBegins();
      AheadFromNothing(ReadList(text, pos));
      while true
        invariant start <= pos <= |text|
        invariant ReadList(text, start) == Ahead(Trees(links), ReadList(text, pos))
        invariant Growing(list, last, links)
        invariant fresh(Cells(links))
        invariant Counted(text, start, pos, tokens, depth - old(depth), line - old(line))
        decreases |text| - pos
      {
        ghost var here, token := pos, Lex(text, pos);
        CountsToken(text, start, here, tokens, depth - old(depth), line - old(line));
        CellsAreAllocated(links);
        var kind := GetToken();
        tokens := tokens + 1;
        GrowingParts(list, last, links);
        StopStep(Trees(links), text, here);
        if kind == End || kind == Close {
          return;
        }
        if kind == Bad {
          list, links := Fault, [];
          return;
        }
        if kind == Open {
          OpenStep(Trees(links), text, here);
          ghost var inside, open, lines := pos, depth, line;
          var child, sub, more := OnLoad();
          CountsOn(text, start, inside, pos, tokens, open - old(depth), lines - old(line), more, depth - open, line - lines);
          tokens := tokens + more;
          if child == Fault {
            list, links := Fault, [];
            return;
          }
          ListIsNoAtom(child, sub);
          list, last, links := Append(list, last, child, links, sub);
        } else {
          AtomStep(Trees(links), text, here);
          var atom := AtomOf(Token(kind, symbol, pos));
          assert atom == AtomOf(token);
          list, last, links := Append(list, last, Leaf(atom), links, []);
        }
      }
    }

    /**
      The reader with a stack of its own. From depth zero it refuses exactly the texts that
      have a wrong token or unbalanced parentheses; what it reads, it reads as the recursive
      reader does.
    */
    method ParseList() returns (result: Object, tripped: bool, ghost links: seq<Link>, ghost tokens: nat)
      requires Valid()
      modifies `pos, `line, `depth, `symbol
      ensures Valid()
      ensures var balance := Balance(text, old(pos), tokens);
        Counted(text, old(pos), pos, tokens, balance, line - old(line)) &&
        depth == if balance < 0 && old(depth) <= 0 then 0 else old(depth) + balance
      ensures result == Fault <==> EndingOf(text, old(pos), 0, old(depth)) == Refused
      ensures tripped <==> EndingOf(text, old(pos), 0, old(depth)) == Tripped
      ensures result != Fault && !tripped ==>
                Linked(result, links, Nil) && ReadList(text, old(pos)) == Items(Trees(links), pos)
      ensures result != Fault && !tripped ==> depth == if old(depth) > 0 then old(depth) - 1 else 0
    {
      hide Linked, Apart, Spine, Below, Under, Trees, Reversed, Lex, ReadList, Lines, Desk, Stacked, FrameCells, Unwind, EndingOf, Place, Balance, Counted;
      ghost var start, ground := pos, depth;
      tripped, tokens := false, 0;
      CountsNothing(text, pos);
      ghost var frames := Bottom;
      var top, stack := Nil, Nil;
      links := [];
      DeskBegins(text, pos);
      while true
        invariant start <= pos <= |text|
        invariant Desk(top, links, stack, frames)
        invariant fresh(Cells(links)) && fresh(FrameCells(frames))
        invariant depth == ground + Height(frames) && !tripped
        invariant Counted(text, start, pos, tokens, Height(frames), line - old(line))
        invariant EndingOf(text, pos, Height(frames), ground) == EndingOf(text, start, 0, ground)
        invariant Unwind(PileOf(frames), Trees(Reversed(links)), text, pos) == ReadList(text, start)
        decreases |text| - pos
      {
        ghost var here, token := pos, Lex(text, pos);
        CellsAreAllocated(links);
        FramesAreAllocated(frames);
        EndingUnfolds(text, here, Height(frames), ground);
        CountsToken(text, start, here, tokens, Height(frames), line - old(line));
        var kind := GetToken();
        tokens := tokens + 1;
        BalanceIs(text, start, pos, tokens, Height(frames) + Nesting(kind), line - old(line));
        DeskParts(top, links, stack, frames);
        match kind
        case End =>
          if depth != 0 {
            return Fault, false, [], tokens;
          }
          if stack.Pair? {
            return Nil, true, [], tokens;
          }
          EndUnwinds(Trees(Reversed(links)), text, here);
          result := NReverse(top, links, Nil);
          links := Reversed(links);
          ListIsNoAtom(result, links);
          return;
        case Close =>
          if stack.Pair? {
            CloseUnwinds(PileOf(frames), Trees(Reversed(links)), text, here);
            ghost var l;
            top, stack, l := CloseList(top, stack, links, frames);
            CellsOfPrepend(l, frames.saved);
            links, frames := [l] + frames.saved, frames.below;
          } else if depth < 0 {
            depth := 0;
            return Fault, false, [], tokens;
          } else {
            CloseEnds(Trees(Reversed(links)), text, here);
            result := NReverse(top, links, Nil);
            links := Reversed(links);
            ListIsNoAtom(result, links);
            return;
          }
        case Open =>
          OpenUnwinds(PileOf(frames), Trees(Reversed(links)), text, here);
          stack, frames := OpenList(top, stack, links, frames);
          top, links := Nil, [];
          NothingRead();
        case Bad =>
          return Fault, false, [], tokens;
        case _ =>
          AtomUnwinds(PileOf(frames), Trees(Reversed(links)), text, here);
          ghost var l;
          top, l := PushAtom(top, AtomOf(Token(kind, symbol, pos)), links, stack, frames);
          CellsOfPrepend(l, links);
          links := [l] + links;
      }
    }
  }
}
