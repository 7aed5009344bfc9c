/**
  Lists as the interpreter keeps them: cells on the heap that are linked by their second
  field, and the reversal of such a chain in place.
*/
module Chains {
  import opened Reader

  /** What a variable refers to. Atoms never change, so they are values here. */
  datatype Object = Void | Nil | Fault | Leaf(atom: Tree) | Pair(cell: Cons)

  class Cons {
    var car: Object
    var cdr: Object

    constructor (car: Object, cdr: Object)
      ensures this.car == car && this.cdr == cdr
    {
      this.car := car;
      this.cdr := cdr;
    }
  }

  /** One cell of a chain, and what its first field holds: an atom or a list. */
  datatype Link = Word(cell: Cons, atom: Tree) | Sub(cell: Cons, links: seq<Link>)

  ghost function TreeOf(l: Link): Tree
    decreases l, 0
  {
    match l
    case Word(_, atom) => atom
    case Sub(_, links) => List(Trees(links))
  }

  ghost function Trees(links: seq<Link>): (ts: seq<Tree>)
    ensures |ts| == |links|
    decreases links, 1
  {
    seq(|links|, i requires 0 <= i < |links| => TreeOf(links[i]))
  }

  ghost function Spine(links: seq<Link>): set<Cons> {
    set l | l in links :: l.cell
  }

  /** The cells that can be reached through the first field of a cell. */
  ghost function Under(l: Link): set<Cons>
    decreases l, 0
  {
    match l
    case Word(_, _) => {}
    case Sub(_, links) => Spine(links) + Below(links)
  }

  ghost function Below(links: seq<Link>): set<Cons>
    decreases links, 1
  {
    set i, c | 0 <= i < |links| && c in Under(links[i]) :: c
  }

  ghost function Cells(links: seq<Link>): set<Cons> {
    Spine(links) + Below(links)
  }

  ghost predicate Holds(v: Object, l: Link)
    reads Under(l)
    decreases l, 0
  {
    match l
    case Word(_, atom) => v == Leaf(atom)
    case Sub(_, links) => Linked(v, links, Nil)
  }

  function Next(links: seq<Link>, k: nat, last: Object): Object {
    if k < |links| then Pair(links[k].cell) else last
  }

  ghost predicate Joined(links: seq<Link>, i: nat, last: Object)
    requires i < |links|
    reads links[i].cell`cdr
  {
    links[i].cell.cdr == Next(links, i + 1, last)
  }

  /** From `v` on lies exactly this chain, and after it `last`. */
  ghost predicate Linked(v: Object, links: seq<Link>, last: Object)
    reads Spine(links) + Below(links)
    decreases links, 1
  {
    && v == Next(links, 0, last)
    && (forall i :: 0 <= i < |links| ==> Joined(links, i, last))
    && (forall i :: 0 <= i < |links| ==> Holds(links[i].cell.car, links[i]))
  }

  lemma ListIsNoAtom(v: Object, links: seq<Link>)
    requires Linked(v, links, Nil)
    ensures v == Nil || v.Pair?
  {
  }

  ghost predicate Distinct(links: seq<Link>) {
    forall i, j :: 0 <= i < j < |links| ==> links[i].cell != links[j].cell
  }

  /** No cell is used twice in the chain, and none again further down. */
  ghost predicate Apart(links: seq<Link>) {
    Distinct(links) && Spine(links) !! Below(links)
  }

  ghost function Reversed(links: seq<Link>): (r: seq<Link>)
    ensures |r| == |links|
  {
    seq(|links|, i requires 0 <= i < |links| => links[|links| - 1 - i])
  }

  lemma ReversedKeepsCells(links: seq<Link>)
    ensures Spine(Reversed(links)) == Spine(links)
    ensures Below(Reversed(links)) == Below(links)
    ensures Apart(links) ==> Apart(Reversed(links))
  {
    var r := Reversed(links);
    forall i | 0 <= i < |links| ensures links[i] in r && r[|links| - 1 - i] == links[i] {
      assert r[|links| - 1 - i] == links[i];
    }
    assert Spine(r) == Spine(links);
    assert Below(r) == Below(links) by {
      forall c | c in Below(links) ensures c in Below(r) {
        var i :| 0 <= i < |links| && c in Under(links[i]);
        assert c in Under(r[|links| - 1 - i]);
      }
    }
  }

  lemma UnderIsBelow(links: seq<Link>)
    ensures forall i :: 0 <= i < |links| ==> Under(links[i]) <= Below(links)
  {
  }

  /** A chain taken apart. */
  lemma ChainParts(v: Object, links: seq<Link>, last: Object)
    requires Linked(v, links, last) && Apart(links)
    ensures v == Next(links, 0, last)
    ensures forall i :: 0 <= i < |links| ==> Joined(links, i, last)
    ensures forall i :: 0 <= i < |links| ==> Holds(links[i].cell.car, links[i])
    ensures forall i :: 0 <= i < |links| ==> Under(links[i]) !! Spine(links) && Under(links[i]) <= Cells(links)
    ensures forall i :: 0 <= i < |links| ==> links[i].cell in Spine(links)
    ensures forall i, j :: 0 <= i < j < |links| ==> links[i].cell != links[j].cell
  {
    UnderIsBelow(links);
  }

  lemma NothingToTurn(last: Object)
    ensures Linked(last, Reversed([]), last)
  {
  }

  /** In the part of a chain that has been turned already, the cells point backwards. */
  ghost predicate Turned(links: seq<Link>, i: nat)
    requires i < |links|
    reads links[i].cell`cdr
  {
    links[i].cell.cdr == if i == 0 then Void else Pair(links[i - 1].cell)
  }

  lemma TurnedIsReversed(links: seq<Link>, last: Object)
    requires links != [] && links[0].cell.cdr == last
    requires forall i :: 1 <= i < |links| ==> Turned(links, i)
    requires forall i :: 0 <= i < |links| ==> Holds(links[i].cell.car, links[i])
    ensures Linked(Pair(links[|links| - 1].cell), Reversed(links), last)
  {
    hide Holds;
    var r := Reversed(links);
    forall i | 0 <= i < |r| ensures Joined(r, i, last) {
      var k := |links| - 1 - i;
      assert k > 0 ==> Turned(links, k);
    }
    forall i | 0 <= i < |r| ensures Holds(r[i].cell.car, r[i]) {
      assert Holds(links[|links| - 1 - i].cell.car, links[|links| - 1 - i]);
    }
  }

  /**
    Turns a chain around by writing to the second fields of its own cells only; what
    followed the chain follows it still.
  */
  method NReverse(v: Object, ghost links: seq<Link>, ghost last: Object) returns (output: Object)
    requires Linked(v, links, last) && Apart(links) && !last.Pair?
    modifies Spine(links)`cdr
    ensures Linked(output, Reversed(links), last)
  {
    hide Linked, Apart, Spine, Below, Under, Holds;
    ChainParts(v, links, last);
    if !v.Pair? {
      NothingToTurn(last);
      return v;
    }
    var input := v;
    output := Void;
    ghost var n := 0;
    while input.Pair?
      invariant 0 <= n <= |links|
      invariant input == Next(links, n, last)
      invariant output == if n == 0 then Void else Pair(links[n - 1].cell)
      invariant forall i :: n <= i < |links| ==> Joined(links, i, last)
      invariant forall i :: 0 <= i < n ==> Turned(links, i)
      invariant forall i :: 0 <= i < |links| ==> Holds(links[i].cell.car, links[i])
      decreases |links| - n
    {
      var cell := input.cell;
      assert Joined(links, n, last);
      input := cell.cdr;
      cell.cdr := output;
      output := Pair(cell);
      n := n + 1;
    }
    v.cell.cdr := input;
    TurnedIsReversed(links, last);
  }

  /** A list and the cell behind which the next element goes. */
  ghost predicate Growing(list: Object, last: Cons?, links: seq<Link>)
    reads Cells(links)
  {
    && Linked(list, links, Nil)
    && Apart(links)
    && last == if links == [] then null else links[|links| - 1].cell
  }

  lemma GrowingBegins()
    ensures Growing(Nil, null, []) && Cells([]) == {} && Trees([]) == []
  {
  }

  lemma GrowingParts(list: Object, last: Cons?, links: seq<Link>)
    requires Growing(list, last, links)
    ensures Linked(list, links, Nil) && Apart(links) && list != Fault
    ensures last == if links == [] then null else links[|links| - 1].cell
    ensures last != null ==> last in Spine(links) && last in Cells(links)
  {
  }

  ghost function LinkFor(cell: Cons, car: Object, sub: seq<Link>): Link {
    if car.Leaf? then Word(cell, car.atom) else Sub(cell, sub)
  }

  lemma CellsOfAppend(links: seq<Link>, l: Link)
    ensures Spine(links + [l]) == Spine(links) + {l.cell}
    ensures Below(links + [l]) == Below(links) + Under(l)
    ensures Trees(links + [l]) == Trees(links) + [TreeOf(l)]
  {
    var all := links + [l];
    assert forall i :: 0 <= i < |links| ==> all[i] == links[i];
    assert all[|links|] == l;
    forall c | c in Spine(links) + {l.cell} ensures c in Spine(all) {
      if c == l.cell {
        assert l in all;
      } else {
        var k :| k in links && k.cell == c;
        assert k in all;
      }
    }
    forall c | c in Below(links) + Under(l) ensures c in Below(all) {
      if c in Under(l) {
        assert c in Under(all[|links|]);
      } else {
        var i :| 0 <= i < |links| && c in Under(links[i]);
        assert c in Under(all[i]);
      }
    }
  }

  lemma {:induction false} CellsAreAllocated(links: seq<Link>)
    ensures forall c <- Cells(links) :: allocated(c)
    decreases links
  {
    forall c | c in Below(links) ensures allocated(c) {
      var i :| 0 <= i < |links| && c in Under(links[i]);
      var l := links[i];
      assert l.Sub? && c in Cells(l.links);
      CellsAreAllocated(l.links);
    }
  }

  lemma HoldsItsItem(cell: Cons, car: Object, sub: seq<Link>)
    requires car.Leaf? || Linked(car, sub, Nil)
    ensures var l := LinkFor(cell, car, sub);
            && Holds(car, l)
            && Under(l) == (if car.Leaf? then {} else Cells(sub))
            && TreeOf(l) == if car.Leaf? then car.atom else List(Trees(sub))
  {
  }

  lemma ApartAppend(links: seq<Link>, l: Link)
    requires Apart(links) && l.cell !in Cells(links) + Under(l) && Spine(links) !! Under(l)
    ensures Apart(links + [l])
  {
    var all := links + [l];
    CellsOfAppend(links, l);
    assert forall i :: 0 <= i < |links| ==> links[i].cell in Spine(links);
    hide Spine, Below, Under;
    forall i, j | 0 <= i < j < |all| ensures all[i].cell != all[j].cell {
      assert all[i] == links[i];
    }
  }

  lemma LinkedAppend(v: Object, links: seq<Link>, l: Link)
    requires v == Next(links + [l], 0, Nil)
    requires links != [] ==> links[|links| - 1].cell.cdr == Pair(l.cell)
    requires l.cell.cdr == Nil && Holds(l.cell.car, l)
    requires forall i :: 0 <= i < |links| - 1 ==> Joined(links, i, Nil)
    requires forall i :: 0 <= i < |links| ==> Holds(links[i].cell.car, links[i])
    ensures Linked(v, links + [l], Nil)
  {
    hide Holds;
    var all := links + [l];
    forall i | 0 <= i < |all| ensures Joined(all, i, Nil) && Holds(all[i].cell.car, all[i]) {
      if i < |links| - 1 {
        assert Joined(links, i, Nil);
      }
    }
  }

  lemma AppendedGrows(list: Object, links: seq<Link>, l: Link)
    requires Linked(list, links + [l], Nil) && Apart(links + [l])
    ensures Growing(list, l.cell, links + [l])
  {
  }

  /** Hangs a new cell behind the last one, or starts the list with it. */
  method Append(list: Object, last: Cons?, car: Object, ghost links: seq<Link>, ghost sub: seq<Link>)
    returns (list': Object, cell: Cons, ghost links': seq<Link>)
    requires Growing(list, last, links)
    requires car.Leaf? || (Linked(car, sub, Nil) && Cells(sub) !! Spine(links))
    modifies (if last == null then {} else {last})`cdr
    ensures fresh(cell)
    ensures links' == links + [LinkFor(cell, car, sub)]
    ensures Growing(list', cell, links')
    ensures Cells(links') == Cells(links) + {cell} + (if car.Leaf? then {} else Cells(sub))
    ensures Trees(links') == Trees(links) + [if car.Leaf? then car.atom else List(Trees(sub))]
  {
    hide Growing, Linked, Apart, Spine, Below, Holds, Trees;
    CellsAreAllocated(links);
    CellsAreAllocated(sub);
    GrowingParts(list, last, links);
    ChainParts(list, links, Nil);
    cell := new Cons(car, Nil);
    list' := list;
    if last == null {
      list' := Pair(cell);
    } else {
      last.cdr := Pair(cell);
    }
    ghost var l := LinkFor(cell, car, sub);
    links' := links + [l];
    HoldsItsItem(cell, car, sub);
    hide Under;
    assert forall i :: 0 <= i < |links| - 1 ==> Joined(links, i, Nil);
    assert forall i :: 0 <= i < |links| ==> Holds(links[i].cell.car, links[i]);
    LinkedAppend(list', links, l);
    ApartAppend(links, l);
    AppendedGrows(list', links, l);
    CellsOfAppend(links, l);
  }

  // ------------------------------------------------------------ open lists

  /**
    The lists that are still open, innermost first. Each takes one cell: its first field
    leads to the next outer one, its second field to what that list held so far.
  */
  datatype Frames = Bottom | Frame(cell: Cons, saved: seq<Link>, below: Frames)

  ghost function FrameCells(frames: Frames): set<Cons> {
    if frames.Bottom? then {} else {frames.cell} + Cells(frames.saved) + FrameCells(frames.below)
  }

  ghost predicate Stacked(v: Object, frames: Frames)
    reads FrameCells(frames)
  {
    if frames.Bottom? then
      v == Nil
    else
      && v == Pair(frames.cell)
      && frames.cell !in Cells(frames.saved) + FrameCells(frames.below)
      && Cells(frames.saved) !! FrameCells(frames.below)
      && Linked(frames.cell.cdr, frames.saved, Nil)
      && Apart(frames.saved)
      && Stacked(frames.cell.car, frames.below)
  }

  /** The list being read, its cells, and the stack of open lists around it. */
  ghost predicate Desk(top: Object, links: seq<Link>, stack: Object, frames: Frames)
    reads Cells(links) + FrameCells(frames)
  {
    && Linked(top, links, Nil) && Apart(links)
    && Stacked(stack, frames)
    && Cells(links) !! FrameCells(frames)
  }

  lemma {:induction false} FramesAreAllocated(frames: Frames)
    ensures forall c <- FrameCells(frames) :: allocated(c)
    decreases frames
  {
    if frames.Frame? {
      CellsAreAllocated(frames.saved);
      FramesAreAllocated(frames.below);
    }
  }

  lemma CellsOfPrepend(l: Link, links: seq<Link>)
    ensures Spine([l] + links) == Spine(links) + {l.cell}
    ensures Below([l] + links) == Below(links) + Under(l)
    ensures Reversed([l] + links) == Reversed(links) + [l]
    ensures Trees(Reversed([l] + links)) == Trees(Reversed(links)) + [TreeOf(l)]
  {
    var all := [l] + links;
    assert Reversed(all) == Reversed(links) + [l];
    CellsOfAppend(Reversed(links), l);
    ReversedKeepsCells(links);
    ReversedKeepsCells(all);
  }

  lemma DistinctPrepend(l: Link, links: seq<Link>)
    requires Distinct(links) && forall i :: 0 <= i < |links| ==> l.cell != links[i].cell
    ensures Distinct([l] + links)
  {
    var all := [l] + links;
    forall i, j | 0 <= i < j < |all| ensures all[i].cell != all[j].cell {
      assert all[j] == links[j - 1];
    }
  }

  lemma ApartPrepend(l: Link, links: seq<Link>)
    requires Apart(links) && l.cell !in Cells(links) + Under(l) && Spine(links) !! Under(l)
    ensures Apart([l] + links)
  {
    forall i | 0 <= i < |links| ensures l.cell != links[i].cell {
      assert links[i].cell in Spine(links);
    }
    hide Spine, Below, Under, Distinct;
    DistinctPrepend(l, links);
    CellsOfPrepend(l, links);
  }

  lemma PrependIsLinked(l: Link, links: seq<Link>)
    requires Linked(l.cell.cdr, links, Nil)
    requires Holds(l.cell.car, l)
    ensures Linked(Pair(l.cell), [l] + links, Nil)
  {
    hide Holds;
    var all := [l] + links;
    forall i | 0 <= i < |all| ensures Joined(all, i, Nil) && Holds(all[i].cell.car, all[i]) {
      if i > 0 {
        assert all[i] == links[i - 1] && Joined(links, i - 1, Nil);
      }
    }
  }

  /** Puts an atom in front of the list that is being read. */
  method PushAtom(top: Object, atom: Tree, ghost links: seq<Link>, ghost stack: Object, ghost frames: Frames)
    returns (top': Object, ghost l: Link)
    requires Desk(top, links, stack, frames)
    ensures fresh(l.cell) && l == Word(l.cell, atom)
    ensures Desk(top', [l] + links, stack, frames)
    ensures Cells([l] + links) == Cells(links) + {l.cell}
  {
    hide Linked, Apart, Stacked, Spine, Below, FrameCells, Trees;
    CellsAreAllocated(links);
    FramesAreAllocated(frames);
    var cell := new Cons(Leaf(atom), top);
    l := Word(cell, atom);
    top' := Pair(cell);
    PrependIsLinked(l, links);
    ApartPrepend(l, links);
    CellsOfPrepend(l, links);
  }

  /** Sets the current list aside and begins a new one. */
  method OpenList(top: Object, stack: Object, ghost links: seq<Link>, ghost frames: Frames)
    returns (stack': Object, ghost frames': Frames)
    requires Desk(top, links, stack, frames)
    ensures frames'.Frame? && fresh(frames'.cell) && frames' == Frame(frames'.cell, links, frames)
    ensures Desk(Nil, [], stack', frames')
    ensures FrameCells(frames') == {frames'.cell} + Cells(links) + FrameCells(frames)
  {
    hide Linked, Apart, Spine, Below;
    CellsAreAllocated(links);
    FramesAreAllocated(frames);
    var cell := new Cons(stack, top);
    stack' := Pair(cell);
    frames' := Frame(cell, links, frames);
    assert Stacked(stack', frames');
    EmptyIsLinked();
  }

  lemma EmptyIsLinked()
    ensures Linked(Nil, [], Nil) && Apart([]) && Cells([]) == {}
  {
  }

  lemma StackedParts(v: Object, frames: Frames)
    requires Stacked(v, frames) && v.Pair?
    ensures frames.Frame? && v == Pair(frames.cell)
    ensures FrameCells(frames) == {frames.cell} + Cells(frames.saved) + FrameCells(frames.below)
    ensures frames.cell !in Cells(frames.saved) + FrameCells(frames.below)
    ensures Cells(frames.saved) !! FrameCells(frames.below)
    ensures Linked(frames.cell.cdr, frames.saved, Nil) && Apart(frames.saved)
    ensures Stacked(frames.cell.car, frames.below)
  {
  }

  lemma SubHolds(v: Object, l: Link)
    requires l.Sub? && Linked(v, l.links, Nil)
    ensures Holds(v, l) && Under(l) == Cells(l.links)
  {
  }

  /** Turns the finished list around and makes it the first element of the list around it. */
  method CloseList(top: Object, stack: Object, ghost links: seq<Link>, ghost frames: Frames)
    returns (top': Object, stack': Object, ghost l: Link)
    requires Desk(top, links, stack, frames) && stack.Pair?
    modifies Spine(links)`cdr, stack.cell`car
    ensures frames.Frame? && l == Sub(frames.cell, Reversed(links))
    ensures Desk(top', [l] + frames.saved, stack', frames.below)
    ensures Cells([l] + frames.saved) == Cells(frames.saved) + {frames.cell} + Cells(links)
  {
    hide Linked, Apart, Stacked, Spine, Below, FrameCells, Trees, Holds, Reversed;
    StackedParts(stack, frames);
    CellsAreAllocated(frames.saved);
    FramesAreAllocated(frames.below);
    var list := NReverse(top, links, Nil);
    ReversedKeepsCells(links);
    var cell := stack.cell;
    stack' := cell.car;
    cell.car := list;
    top' := Pair(cell);
    l := Sub(cell, Reversed(links));
    SubHolds(list, l);
    hide Under;
    PrependIsLinked(l, frames.saved);
    ApartPrepend(l, frames.saved);
    CellsOfPrepend(l, frames.saved);
  }
}
