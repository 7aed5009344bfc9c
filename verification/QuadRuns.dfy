/**
  Whole lives of a quadtree: what every run of insertions and removals leads to, and
  the repeated position that makes a removal fail.
*/
module QuadRuns {
  import opened Geometry
  import opened Trees
  import opened Collapse
  import opened Containers
  import opened Placing
  import opened QuadTree

  datatype Op = Put(e: Entity) | Take(e: Entity)

  /** The entities stored after a run, whatever the tree did on the way. */
  function Live(ops: seq<Op>): set<Entity> {
    if ops == [] then {}
    else
      After(Live(ops[..|ops| - 1]), ops[|ops| - 1])
  }

  ghost predicate LegalStep(box: Box, max: nat, live: set<Entity>, op: Op) {
    match op
    case Put(e) =>
      && box.Contains(e.pos) && FreshKey(live, e) && e.pos !in Positions(live)
      && Places(box, live + {e}, max)
    case Take(e) => e in live
  }

  /**
    Insertions at unoccupied positions that building can place next to what is live, and
    removals of what is stored.
  */
  ghost predicate Legal(box: Box, max: nat, ops: seq<Op>) {
    ops == [] ||
    (Legal(box, max, ops[..|ops| - 1]) && LegalStep(box, max, Live(ops[..|ops| - 1]), ops[|ops| - 1]))
  }

  lemma {:induction false} LegalLive(box: Box, max: nat, ops: seq<Op>)
    requires Legal(box, max, ops)
    ensures Keyed(Live(ops)) && Scattered(Live(ops))
    ensures Inside(box, Live(ops)) && Places(box, Live(ops), max)
  {
    if ops == [] {
      assert Positions({}) == {};
    } else {
      var before := Live(ops[..|ops| - 1]);
      LegalLive(box, max, ops[..|ops| - 1]);
      hide Places;
      if ops[|ops| - 1].Take? {
        PlacesFewer(box, Live(ops), before, max);
      }
    }
  }

  lemma {:induction false} LegalPrefix(box: Box, max: nat, ops: seq<Op>, n: nat)
    requires Legal(box, max, ops) && n <= |ops|
    ensures Legal(box, max, ops[..n])
  {
    if n < |ops| {
      LegalPrefix(box, max, ops[..|ops| - 1], n);
      assert ops[..|ops| - 1][..n] == ops[..n];
    } else {
      assert ops[..n] == ops;
    }
  }

  lemma EmptyIsCanonical(box: Box, max: nat)
    ensures Build(box, {}, max) == Leaf(box, {})
  {
    assert Positions({}) == {};
  }

  function After(live: set<Entity>, op: Op): set<Entity> {
    match op
    case Put(e) => live + {e}
    case Take(e) => live - {e}
  }

  /** The n-th operation inserted it, and none since removed it. */
  predicate Stays(ops: seq<Op>, e: Entity, n: nat)
    requires n < |ops|
  {
    ops[n] == Put(e) && Take(e) !in ops[n + 1..]
  }

  lemma StaysOn(before: seq<Op>, op: Op, e: Entity, n: nat)
    requires n <= |before|
    ensures Stays(before + [op], e, n) <==> if n < |before| then Stays(before, e, n) && op != Take(e) else op == Put(e)
  {
    if n < |before| {
      assert (before + [op])[n + 1..] == before[n + 1..] + [op];
    }
  }

  /** Live is what was inserted and has not been removed since. */
  lemma {:induction false} LiveIff(ops: seq<Op>, e: Entity)
    ensures e in Live(ops) <==> exists n | 0 <= n < |ops| :: Stays(ops, e, n)
  {
    hide Stays;
    if ops != [] {
      var before, op := ops[..|ops| - 1], ops[|ops| - 1];
      assert ops == before + [op];
      LiveIff(before, e);
      forall n | 0 <= n < |ops|
        ensures Stays(ops, e, n) <==> if n < |before| then Stays(before, e, n) && op != Take(e) else op == Put(e)
      {
        StaysOn(before, op, e, n);
      }
      if op == Put(e) {
        assert Stays(ops, e, |before|);
      } else if e in Live(before) {
        var n :| 0 <= n < |before| && Stays(before, e, n);
        assert Stays(ops, e, n) <==> op != Take(e);
      }
    }
  }

  lemma NewPositionScatters(live: set<Entity>, e: Entity)
    requires Scattered(live) && e.pos !in Positions(live)
    ensures Scattered(live + {e}) && e !in live
  {
    forall a, b | a in live + {e} && b in live + {e} && a.pos == b.pos ensures a == b {
      assert a in live ==> a.pos in Positions(live);
      assert b in live ==> b.pos in Positions(live);
    }
  }

  /** A canonical tree takes an entity at a new position. */
  lemma PutOnCanonical(box: Box, live: set<Entity>, e: Entity, max: nat)
    requires Inside(box, live) && Places(box, live, max) && Scattered(live) && LegalStep(box, max, live, Put(e))
    ensures var t := Build(box, live, max);
      && Ready(t, e, max) && Finds(t, e, max)
      && forall u: Tree :: Takes(t, u, e, max) ==> u == Build(box, live + {e}, max)
  {
    hide Places, Finds;
    var t := Build(box, live, max);
    BuildIsTight(box, live, max);
    TightIsBounded(t, max);
    NewPositionScatters(live, e);
    FindsIffPlaces(t, e, max);
    forall u: Tree | Takes(t, u, e, max) ensures u == Build(box, live + {e}, max) {
      TightIsBuild(u, max);
    }
  }

  /** A canonical tree grows by an insertion into the canonical tree with one entity more. */
  lemma {:induction false} BuildGrows(t: Tree, e: Entity, max: nat)
    requires WellFormed(t) && Tight(t, max) && e !in Items(t) && Scattered(Items(t) + {e})
    requires Places(t.box, Items(t) + {e}, max)
    ensures Grown(t, Build(t.box, Items(t) + {e}, max), e, max)
  {
    hide Build, Grown, WellFormed, Tight, Items, Places, Scattered, Box.Inner, Box.Child;
    if t.Leaf? {
      ItemsOfLeaf(t);
      LeafGrows(t.box, t.items, e, max);
    } else {
      PlacedBelow(t, e, max);
      BuildGrows(t.At(t.box.Inner(e.pos).value), e, max);
      NodeGrows(t, e, max, t.box.Inner(e.pos).value);
    }
  }

  lemma ItemsOfLeaf(t: Tree)
    requires t.Leaf?
    ensures Items(t) == t.items
  {
  }

  /** What an insertion into a node leaves to the child it goes to. */
  lemma PlacedBelow(t: Tree, e: Entity, max: nat)
    requires WellFormed(t) && Tight(t, max) && e !in Items(t) && Scattered(Items(t) + {e})
    requires t.Node? && Places(t.box, Items(t) + {e}, max)
    ensures |Positions(Items(t) + {e})| > max && t.box.Inner(e.pos).Some?
    ensures var u := t.At(t.box.Inner(e.pos).value);
      && WellFormed(u) && Tight(u, max) && e !in Items(u) && Scattered(Items(u) + {e})
      && Places(u.box, Items(u) + {e}, max)
  {
    OneMorePosition(Items(t), e);
    DistinctCounts(t);
    NodeParts(t, TopLeft, e, max);
    assert e in Items(t) + {e};
    var c := t.box.Inner(e.pos).value;
    NodeParts(t, c, e, max);
    RoutedOneMore(t, c, e);
    assert Places(t.box.Child(c), Routed(t.box, Items(t) + {e}, c), max);
    hide WellFormed, Tight, Items, Places, Box.Inner, Box.Child;
    ScatteredFewer(Items(t.At(c)) + {e}, Items(t) + {e});
  }

  lemma LeafGrows(box: Box, items: set<Entity>, e: Entity, max: nat)
    requires Tight(Leaf(box, items), max) && e !in items && Scattered(items + {e})
    ensures Grown(Leaf(box, items), Build(box, items + {e}, max), e, max)
  {
    OneMorePosition(items, e);
    FreshPosition(items, e);
    if |Positions(items)| >= max && box.CanSubdivide() {
      FullLeafGrows(box, items, e, max);
    }
  }

  lemma NodeGrows(t: Tree, e: Entity, max: nat, c: Corner)
    requires WellFormed(t) && Tight(t, max) && t.Node? && |Positions(Items(t) + {e})| > max
    requires t.box.Inner(e.pos) == Some(c) && Grown(t.At(c), Build(t.At(c).box, Items(t.At(c)) + {e}, max), e, max)
    ensures Grown(t, Build(t.box, Items(t) + {e}, max), e, max)
  {
    hide WellFormed, Tight, Items, Build, Grown, Box.Inner, Box.Child;
    ChildAfter(t, e, max, TopLeft);
    ChildAfter(t, e, max, TopRight);
    ChildAfter(t, e, max, BottomLeft);
    ChildAfter(t, e, max, BottomRight);
    ChildAfter(t, e, max, c);
    var u := Build(t.box, Items(t) + {e}, max);
    assert u == t.With(c, u.At(c));
    GrownAbove(t, c, u.At(c), e, max);
  }

  lemma FullLeafGrows(box: Box, items: set<Entity>, e: Entity, max: nat)
    requires |Positions(items)| >= max && box.CanSubdivide() && Scattered(items + {e}) && e !in items
    ensures var u := Build(box, items + {e}, max);
      u.Node? && u.box == box && forall c: Corner :: MustSplit(box, items, e, c, max) ==> u.At(c).Node?
  {
    hide Box.Inner, Box.Child;
    FreshPosition(items, e);
    OneMorePosition(items, e);
    var u := Build(box, items + {e}, max);
    forall c: Corner | MustSplit(box, items, e, c, max) ensures u.At(c).Node? {
      BuildAt(box, items + {e}, max, c);
      if box.Inner(e.pos) == Some(c) {
        assert Routed(box, items + {e}, c) == Routed(box, items, c) + {e};
        ScatteredFewer(Routed(box, items, c) + {e}, items + {e});
        FreshPosition(Routed(box, items, c), e);
        OneMorePosition(Routed(box, items, c), e);
      }
    }
  }

  /** The children of the larger canonical tree: one has grown, the others are as they were. */
  lemma ChildAfter(t: Tree, e: Entity, max: nat, c: Corner)
    requires WellFormed(t) && Tight(t, max) && t.Node? && |Positions(Items(t) + {e})| > max
    ensures var u := Build(t.box, Items(t) + {e}, max);
      && u.Node? && u.box == t.box
      && u.At(c) == if t.box.Inner(e.pos) == Some(c) then Build(t.At(c).box, Items(t.At(c)) + {e}, max) else t.At(c)
  {
    hide Box.Inner, Box.Child;
    NodeParts(t, c, e, max);
    RoutedOneMore(t, c, e);
    TightIsBuild(t.At(c), max);
    BuildAt(t.box, Items(t) + {e}, max, c);
    hide WellFormed, Tight, Items, Build;
    assert Items(t.At(c)) + {} == Items(t.At(c));
  }

  /** With distinct positions, an insertion can store the entity exactly when building can place it next to the others. */
  lemma InsertionGoesThroughIff(t: Tree, e: Entity, max: nat)
    requires WellFormed(t) && Tight(t, max) && FreshKey(Items(t), e) && t.box.Contains(e.pos)
    requires Scattered(Items(t) + {e})
    ensures (exists u: Tree :: Takes(t, u, e, max)) <==> Places(t.box, Items(t) + {e}, max)
  {
    if Places(t.box, Items(t) + {e}, max) {
      var u := Build(t.box, Items(t) + {e}, max);
      BuildGrows(t, e, max);
      ItemsInBox(t);
      BuildIsTight(t.box, Items(t) + {e}, max);
      TightIsBounded(u, max);
      TightIsEarned(u, max);
      hide WellFormed, Tight, Bounded, Grown, Items, Build, Earned, Places;
      assert Takes(t, u, e, max);
    } else if u: Tree :| Takes(t, u, e, max) {
      TightIsPlaced(u, max);
    }
  }

  lemma TakeFromCanonical(box: Box, live: set<Entity>, e: Entity, max: nat)
    requires Inside(box, live) && Places(box, live, max) && Keyed(live) && e in live
    ensures var t := Build(box, live, max);
      Removable(t, e, max) && Collapse.Remove(t, e, max).tree == Build(box, live - {e}, max)
  {
    RemoveFromCanonical(box, live, e, max);
  }

  /** One operation of a legal run. */
  method Step(q: Quad, op: Op, ghost live: set<Entity>)
    requires q.Valid() && q.tree == Build(q.box, live, q.max)
    requires Inside(q.box, live) && Places(q.box, live, q.max) && Keyed(live) && Scattered(live)
    requires LegalStep(q.box, q.max, live, op)
    modifies q.repr
    ensures q.Valid() && fresh(q.repr - old(q.repr)) && q.tree == Build(q.box, After(live, op), q.max)
  {
    hide Quad.Valid, Takes, Ready, Removable, Build, Places, Finds;
    match op
    case Put(e) =>
      PutOnCanonical(q.box, live, e, q.max);
      var ok := q.Insert(e);
    case Take(e) =>
      TakeFromCanonical(q.box, live, e, q.max);
      RemovableIsThere(q.tree, e, q.max);
      var mergeParent, thrown := q.Remove(e);
  }

  /**
    Any legal run goes through, and leaves the canonical tree of the entities put in
    and not taken out: the history cannot be read off the tree.
  */
  method Replay(box: Box, max: nat, ops: seq<Op>) returns (q: Quad)
    requires Legal(box, max, ops)
    ensures q.Valid() && q.box == box && q.max == max && q.tree == Build(box, Live(ops), max)
    ensures q.Size() == |Live(ops)| && q.DistinctSize() == |Positions(Live(ops))|
  {
    hide Quad.Valid, Build;
    q := new Quad(box, max);
    EmptyIsCanonical(box, max);
    for n := 0 to |ops|
      invariant q.Valid() && fresh(q.repr) && q.box == box && q.max == max
      invariant q.tree == Build(box, Live(ops[..n]), max)
    {
      LegalPrefix(box, max, ops, n);
      LegalPrefix(box, max, ops, n + 1);
      LegalLive(box, max, ops[..n]);
      assert ops[..n + 1][..n] == ops[..n];
      Step(q, ops[n], Live(ops[..n]));
    }
    assert ops[..|ops|] == ops;
    LegalLive(box, max, ops);
    BuildIsTight(box, Live(ops), max);
    SizeCounts(q.tree);
    DistinctCounts(q.tree);
  }

  // ----------------------------------------------------------- repeated positions

  /** Entities at any positions, repeated or not, that are stored in whatever order a leaf is filled. */
  ghost predicate Loadable(box: Box, max: nat, es: seq<Entity>) {
    && (forall e <- es :: box.Contains(e.pos)) && Settles(box, Stored(es), max)
    && forall i, j | 0 <= i < j < |es| :: es[i].key != es[j].key
  }

  function Stored(es: seq<Entity>): set<Entity> {
    set e | e in es
  }

  lemma StoredNext(es: seq<Entity>, n: nat)
    requires n < |es|
    ensures Stored(es[..n + 1]) == Stored(es[..n]) + {es[n]}
  {
    assert es[..n + 1] == es[..n] + [es[n]];
  }

  lemma NotStoredYet(es: seq<Entity>, n: nat)
    requires n < |es| && forall i, j | 0 <= i < j < |es| :: es[i].key != es[j].key
    ensures FreshKey(Stored(es[..n]), es[n]) && es[n] !in Stored(es[..n])
  {
  }

  /**
    Such an insert-only run goes through, with repeated positions and even with room for
    no position at all: everything is stored where routing looks for it, no leaf that
    could be subdivided is overfull, and the counters are right.
  */
  method Load(box: Box, max: nat, es: seq<Entity>) returns (q: Quad)
    requires Loadable(box, max, es)
    ensures q.Valid() && WellFormed(q.tree) && Bounded(q.tree, max) && Items(q.tree) == Stored(es)
    ensures q.Size() == |Stored(es)| && q.DistinctSize() == |Positions(Stored(es))|
  {
    hide Quad.Valid, WellFormed, Bounded, Grown, Tight, Earned, Settles, Finds;
    q := new Quad(box, max);
    EmptyIsReady(box, max);
    for n := 0 to |es|
      invariant q.Valid() && fresh(q.repr) && q.box == box && q.max == max
      invariant WellFormed(q.tree) && Bounded(q.tree, max) && Earned(q.tree, max) && Items(q.tree) == Stored(es[..n])
    {
      StoredNext(es, n);
      assert es[n] in es;
      SettlesFewer(box, Stored(es[..n + 1]), Stored(es), max);
      NotStoredYet(es, n);
      EarnedFinds(q.tree, es[n], max);
      var ok := q.Insert(es[n]);
    }
    assert es[..|es|] == es;
    SizeCounts(q.tree);
    DistinctCounts(q.tree);
  }

  lemma EmptyIsReady(box: Box, max: nat)
    ensures WellFormed(Leaf(box, {})) && Bounded(Leaf(box, {}), max) && Earned(Leaf(box, {}), max)
  {
    assert Positions({}) == {};
  }

  /** With room for one position per leaf, the second entity in the corner subdivides two levels. */
  lemma SecondEntitySubdivides(box: Box, a: Entity, b: Entity, t: Tree, u: Tree)
    requires a.pos == b.pos && box.Inner(a.pos) == Some(BottomLeft)
    requires box.CanSubdivide() && box.Child(BottomLeft).CanSubdivide()
    requires Grown(Leaf(box, {}), t, a, 1) && Grown(t, u, b, 1)
    ensures u.Node? && u.box == box && u.bl.Node?
  {
    hide Box.Inner, Box.Child, Box.CanSubdivide;
    assert Positions({}) == {};
    assert t == Leaf(box, {a});
    assert Positions({a}) == {a.pos};
    assert Routed(box, {a}, BottomLeft) == {a};
    assert MustSplit(box, {a}, b, BottomLeft, 1);
    assert u.At(BottomLeft).Node?;
  }

  lemma ThirdEntityGoesElsewhere(u: Tree, v: Tree, c: Entity)
    requires u.Node? && u.bl.Node? && u.box.Inner(c.pos) == Some(TopRight) && Grown(u, v, c, 1)
    ensures v.Node? && v.box == u.box && v.bl.Node?
  {
    hide Box.Inner;
  }

  lemma SubdividedSiblingBlocks(v: Tree, c: Entity)
    requires WellFormed(v) && v.Node? && v.bl.Node? && v.box.Inner(c.pos) == Some(TopRight)
    requires c in Items(v) && |Positions(Items(v) - {c})| <= 1
    ensures !Collapsible(v, c, 1)
  {
    assert !SiblingsAreLeaves(v, TopRight);
  }

  /**
    Why `Legal` asks for unoccupied positions: with room for one position per leaf,
    insert two entities at (0, 0) and one at (4, 4). However the code fills the
    children, removing the third then meets a subdivided sibling.
  */
  lemma RepeatedPositionBlocksRemoval(box: Box, a: Entity, b: Entity, c: Entity, t: Tree, u: Tree, v: Tree)
    requires box == Box(0, 0, 4) && a.pos == b.pos == Point(0, 0) && c.pos == Point(4, 4)
    requires Grown(Leaf(box, {}), t, a, 1) && Grown(t, u, b, 1) && Grown(u, v, c, 1)
    requires WellFormed(v) && Items(v) == {a, b, c} && c != a && c != b
    ensures Collapse.Remove(v, c, 1) == NoContainer
  {
    hide *;
    SmallBox(box, a.pos, c.pos);
    SecondEntitySubdivides(box, a, b, t, u);
    ThirdEntityGoesElsewhere(u, v, c);
    assert Items(v) - {c} == {a, b};
    OnePosition({a, b}, Point(0, 0));
    SubdividedSiblingBlocks(v, c);
    RemovalGoesThroughIff(v, c, 1);
  }

  lemma Anywhere(t: Tree, e: Entity, max: nat)
    requires WellFormed(t) && PowerOfTwo(t.box.width) && t.box.Contains(e.pos)
    ensures Finds(t, e, max)
  {
    ItemsInBox(t);
    forall x | x in Items(t) + {e} ensures Routes(t.box, x.pos) {
      PowerOfTwoRoutes(t.box, x.pos);
    }
    HoldsFinds(t, e, max);
  }

  /** The three insertions, carried out; the removal of the third would follow a null pointer. */
  method StuckRemoval(box: Box, a: Entity, b: Entity, c: Entity) returns (q: Quad)
    requires box == Box(0, 0, 4) && a.pos == b.pos == Point(0, 0) && c.pos == Point(4, 4)
    requires a.key != b.key && a.key != c.key && b.key != c.key
    ensures q.Valid() && WellFormed(q.tree) && Items(q.tree) == {a, b, c}
    ensures Collapse.Remove(q.tree, c, q.max) == NoContainer
  {
    hide Quad.Valid, WellFormed, Bounded, Grown, Tight, Earned, Finds, PowerOfTwo;
    FourIsPowerOfTwo();
    q := new Quad(box, 1);
    EmptyIsReady(box, 1);
    Anywhere(q.tree, a, 1);
    var ok := q.Insert(a);
    ghost var t := q.tree;
    Anywhere(q.tree, b, 1);
    ok := q.Insert(b);
    ghost var u := q.tree;
    Anywhere(q.tree, c, 1);
    ok := q.Insert(c);
    assert Items(q.tree) == {a, b, c};
    RepeatedPositionBlocksRemoval(box, a, b, c, t, u, q.tree);
  }

  lemma FourIsPowerOfTwo()
    ensures PowerOfTwo(4)
  {
    assert PowerOfTwo(1) && PowerOfTwo(2);
  }

  lemma OnePosition(items: set<Entity>, p: Point)
    requires forall e <- items :: e.pos == p
    ensures |Positions(items)| <= 1
  {
    SubsetSize(Positions(items), {p});
  }
}
