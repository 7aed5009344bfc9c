/**
  The quadtree as a value: what one heap of `quad` objects looks like from outside.
  The heap classes of QuadTree.dfy are proved against the functions of this module,
  and the properties of whole trees are proved here.
*/
module Trees {
  import opened Geometry

  datatype Tree =
    | Leaf(box: Box, items: set<Entity>)
    | Node(box: Box, tl: Tree, tr: Tree, bl: Tree, br: Tree)
  {
    function At(c: Corner): Tree
      requires Node?
    {
      match c
      case TopLeft => tl
      case TopRight => tr
      case BottomLeft => bl
      case BottomRight => br
    }

    function With(c: Corner, t: Tree): Tree
      requires Node?
    {
      match c
      case TopLeft => this.(tl := t)
      case TopRight => this.(tr := t)
      case BottomLeft => this.(bl := t)
      case BottomRight => this.(br := t)
    }
  }

  function Items(t: Tree): set<Entity> {
    match t
    case Leaf(_, items) => items
    case Node(_, tl, tr, bl, br) => Items(tl) + Items(tr) + Items(bl) + Items(br)
  }

  function Positions(items: set<Entity>): set<Point> {
    set e | e in items :: e.pos
  }

  function DistinctSize(t: Tree): nat {
    match t
    case Leaf(_, items) => |Positions(items)|
    case Node(_, tl, tr, bl, br) => DistinctSize(tl) + DistinctSize(tr) + DistinctSize(bl) + DistinctSize(br)
  }

  function Size(t: Tree): nat {
    match t
    case Leaf(_, items) => |items|
    case Node(_, tl, tr, bl, br) => Size(tl) + Size(tr) + Size(bl) + Size(br)
  }

  /** What first-match routing sends to one child. */
  function Routed(box: Box, items: set<Entity>, c: Corner): set<Entity> {
    set e | e in items && box.Inner(e.pos) == Some(c)
  }

  ghost predicate Inside(box: Box, items: set<Entity>) {
    forall e <- items :: box.Contains(e.pos)
  }

  /** Boxes halve on the way down and every entity sits in the leaf that routing picks for it. */
  ghost predicate WellFormed(t: Tree)
    decreases t
  {
    match t
    case Leaf(box, items) =>
      Inside(box, items)
    case Node(box, tl, tr, bl, br) =>
      && box.CanSubdivide()
      && ChildFits(box, tl, TopLeft) && ChildFits(box, tr, TopRight)
      && ChildFits(box, bl, BottomLeft) && ChildFits(box, br, BottomRight)
      && WellFormed(tl) && WellFormed(tr) && WellFormed(bl) && WellFormed(br)
  }

  ghost predicate ChildFits(box: Box, t: Tree, c: Corner) {
    && t.box == box.Child(c)
    && forall e <- Items(t) :: box.Inner(e.pos) == Some(c)
  }

  /** A leaf that could still be subdivided holds at most max distinct positions. */
  predicate Bounded(t: Tree, max: nat) {
    match t
    case Leaf(box, items) => |Positions(items)| <= max || !box.CanSubdivide()
    case Node(_, tl, tr, bl, br) => Bounded(tl, max) && Bounded(tr, max) && Bounded(bl, max) && Bounded(br, max)
  }

  /** Moreover no internal node is small enough to have been merged. */
  predicate Tight(t: Tree, max: nat) {
    match t
    case Leaf(box, items) => |Positions(items)| <= max || !box.CanSubdivide()
    case Node(_, tl, tr, bl, br) =>
      DistinctSize(t) > max && Tight(tl, max) && Tight(tr, max) && Tight(bl, max) && Tight(br, max)
  }

  // ---------------------------------------------- contents and their counters

  lemma {:induction false} ItemsInBox(t: Tree)
    requires WellFormed(t)
    ensures Inside(t.box, Items(t))
  {
    if t.Node? {
      ItemsInBox(t.tl);
      ItemsInBox(t.tr);
      ItemsInBox(t.bl);
      ItemsInBox(t.br);
      hide ChildFits;
      InsideAbove(t, TopLeft);
      InsideAbove(t, TopRight);
      InsideAbove(t, BottomLeft);
      InsideAbove(t, BottomRight);
    }
  }

  lemma InsideAbove(t: Tree, c: Corner)
    requires t.Node? && t.box.CanSubdivide() && ChildFits(t.box, t.At(c), c)
    ensures Inside(t.box, Items(t.At(c)))
  {
    forall e | e in Items(t.At(c)) ensures t.box.Contains(e.pos) {
      assert t.box.Inner(e.pos) == Some(c);
      InnerIsInside(t.box, e.pos);
    }
  }

  /** Another subtree in the place of a child. */
  lemma WithIsWellFormed(t: Tree, c: Corner, child: Tree)
    requires WellFormed(t) && t.Node? && WellFormed(child) && ChildFits(t.box, child, c)
    ensures WellFormed(t.With(c, child))
  {
    hide ChildFits, Inside;
  }

  lemma ItemsOfWith(t: Tree, c: Corner, child: Tree, e: Entity)
    requires t.Node?
    ensures Items(child) == Items(t.At(c)) + {e} ==> Items(t.With(c, child)) == Items(t) + {e}
    ensures WellFormed(t) && t.box.Inner(e.pos) == Some(c) && Items(child) == Items(t.At(c)) - {e} ==>
              Items(t.With(c, child)) == Items(t) - {e}
  {
    if WellFormed(t) && t.box.Inner(e.pos) == Some(c) {
      ElsewhereFits(t, c, e);
    }
    hide WellFormed, ChildFits;
  }

  lemma ElsewhereFits(t: Tree, c: Corner, e: Entity)
    requires WellFormed(t) && t.Node? && t.box.Inner(e.pos) == Some(c)
    ensures c != TopLeft ==> e !in Items(t.tl)
    ensures c != TopRight ==> e !in Items(t.tr)
    ensures c != BottomLeft ==> e !in Items(t.bl)
    ensures c != BottomRight ==> e !in Items(t.br)
  {
  }

  /** Shared edges notwithstanding, the children of a node partition its contents. */
  lemma ChildrenPartition(t: Tree, c: Corner)
    requires WellFormed(t) && t.Node?
    ensures Items(t.At(c)) == Routed(t.box, Items(t), c)
  {
  }

  lemma SizeOfUnion<T>(a: set<T>, b: set<T>)
    requires a !! b
    ensures |a + b| == |a| + |b|
  {
  }

  lemma SizeOfFour<T>(a: set<T>, b: set<T>, c: set<T>, d: set<T>)
    requires a !! b && a !! c && a !! d && b !! c && b !! d && c !! d
    ensures |a + b + c + d| == |a| + |b| + |c| + |d|
  {
    SizeOfUnion(a, b);
    SizeOfUnion(a + b, c);
    SizeOfUnion(a + b + c, d);
  }

  ghost predicate Apart(a: Tree, b: Tree) {
    Items(a) !! Items(b) && Positions(Items(a)) !! Positions(Items(b))
  }

  lemma SiblingsApart(box: Box, a: Tree, c: Corner, b: Tree, d: Corner)
    requires ChildFits(box, a, c) && ChildFits(box, b, d) && c != d
    ensures Apart(a, b)
  {
  }

  lemma ChildrenApart(t: Tree)
    requires WellFormed(t) && t.Node?
    ensures Apart(t.tl, t.tr) && Apart(t.tl, t.bl) && Apart(t.tl, t.br)
    ensures Apart(t.tr, t.bl) && Apart(t.tr, t.br) && Apart(t.bl, t.br)
  {
    SiblingsApart(t.box, t.tl, TopLeft, t.tr, TopRight);
    SiblingsApart(t.box, t.tl, TopLeft, t.bl, BottomLeft);
    SiblingsApart(t.box, t.tl, TopLeft, t.br, BottomRight);
    SiblingsApart(t.box, t.tr, TopRight, t.bl, BottomLeft);
    SiblingsApart(t.box, t.tr, TopRight, t.br, BottomRight);
    SiblingsApart(t.box, t.bl, BottomLeft, t.br, BottomRight);
  }

  lemma {:induction false} SizeCounts(t: Tree)
    requires WellFormed(t)
    ensures Size(t) == |Items(t)|
  {
    if t.Node? {
      SizeCounts(t.tl);
      SizeCounts(t.tr);
      SizeCounts(t.bl);
      SizeCounts(t.br);
      ChildrenApart(t);
      SizeOfFour(Items(t.tl), Items(t.tr), Items(t.bl), Items(t.br));
    }
  }

  lemma PositionsUnion(a: set<Entity>, b: set<Entity>)
    ensures Positions(a + b) == Positions(a) + Positions(b)
  {
  }

  lemma PositionsOfNode(t: Tree)
    requires t.Node?
    ensures Positions(Items(t)) == Positions(Items(t.tl)) + Positions(Items(t.tr)) + Positions(Items(t.bl)) + Positions(Items(t.br))
  {
    PositionsUnion(Items(t.tl), Items(t.tr));
    PositionsUnion(Items(t.tl) + Items(t.tr), Items(t.bl));
    PositionsUnion(Items(t.tl) + Items(t.tr) + Items(t.bl), Items(t.br));
  }

  /** Summing the per-leaf counters gives the number of different positions in the whole tree. */
  lemma {:induction false} DistinctCounts(t: Tree)
    requires WellFormed(t)
    ensures DistinctSize(t) == |Positions(Items(t))|
  {
    if t.Node? {
      DistinctCounts(t.tl);
      DistinctCounts(t.tr);
      DistinctCounts(t.bl);
      DistinctCounts(t.br);
      ChildrenApart(t);
      PositionsOfNode(t);
      SizeOfFour(Positions(Items(t.tl)), Positions(Items(t.tr)), Positions(Items(t.bl)), Positions(Items(t.br)));
    }
  }

  lemma SubsetSize<T>(a: set<T>, b: set<T>)
    requires a <= b
    ensures |a| <= |b|
  {
    SizeOfUnion(a, b - a);
    assert a + (b - a) == b;
  }

  lemma PositionsMonotone(a: set<Entity>, b: set<Entity>)
    requires a <= b
    ensures Positions(a) <= Positions(b) && |Positions(a)| <= |Positions(b)|
  {
    SubsetSize(Positions(a), Positions(b));
  }

  // --------------------------------------------------------- the canonical tree

  /** The tree that holds given contents, written without reference to any history. */
  function Build(box: Box, items: set<Entity>, max: nat): Tree
    decreases box.width
  {
    if |Positions(items)| <= max || !box.CanSubdivide() then Leaf(box, items)
    else
      Node(box,
           Build(box.Child(TopLeft), Routed(box, items, TopLeft), max),
           Build(box.Child(TopRight), Routed(box, items, TopRight), max),
           Build(box.Child(BottomLeft), Routed(box, items, BottomLeft), max),
           Build(box.Child(BottomRight), Routed(box, items, BottomRight), max))
  }

  lemma BuildAt(box: Box, items: set<Entity>, max: nat, c: Corner)
    requires |Positions(items)| > max && box.CanSubdivide()
    ensures var t := Build(box, items, max);
      t.Node? && t.box == box && t.At(c) == Build(box.Child(c), Routed(box, items, c), max)
  {
  }

  /** Building finds a child for every entity in every square that it splits. */
  ghost predicate Places(box: Box, items: set<Entity>, max: nat)
    decreases box.width, 1
  {
    |Positions(items)| <= max || !box.CanSubdivide() || PlacesBelow(box, items, max)
  }

  ghost predicate PlacesBelow(box: Box, items: set<Entity>, max: nat)
    requires box.CanSubdivide()
    decreases box.width, 0
  {
    && (forall e <- items :: box.Inner(e.pos).Some?)
    && forall c: Corner :: Places(box.Child(c), Routed(box, items, c), max)
  }

  lemma RoutedInside(box: Box, items: set<Entity>, c: Corner)
    ensures Inside(box.Child(c), Routed(box, items, c))
  {
  }

  lemma RoutedCover(box: Box, items: set<Entity>)
    requires forall e <- items :: box.Inner(e.pos).Some?
    ensures Routed(box, items, TopLeft) + Routed(box, items, TopRight)
          + Routed(box, items, BottomLeft) + Routed(box, items, BottomRight) == items
  {
    hide Box.Inner;
    forall e | e in items
      ensures e in Routed(box, items, TopLeft) + Routed(box, items, TopRight)
                 + Routed(box, items, BottomLeft) + Routed(box, items, BottomRight)
    {
      match box.Inner(e.pos).value
      case TopLeft =>
      case TopRight =>
      case BottomLeft =>
      case BottomRight =>
    }
  }

  lemma RoutedFewer(box: Box, fewer: set<Entity>, items: set<Entity>, c: Corner)
    requires fewer <= items
    ensures Routed(box, fewer, c) <= Routed(box, items, c)
  {
  }

  /** With fewer entities there is less to place. */
  lemma {:induction false} PlacesFewer(box: Box, fewer: set<Entity>, items: set<Entity>, max: nat)
    requires Places(box, items, max) && fewer <= items
    ensures Places(box, fewer, max)
    decreases box.width
  {
    PositionsMonotone(fewer, items);
    if !(|Positions(fewer)| <= max || !box.CanSubdivide()) {
      forall c: Corner ensures Places(box.Child(c), Routed(box, fewer, c), max) {
        RoutedFewer(box, fewer, items, c);
        assert Places(box.Child(c), Routed(box, items, c), max);
        PlacesFewer(box.Child(c), Routed(box, fewer, c), Routed(box, items, c), max);
      }
    }
  }

  lemma {:induction false} BuildIsTight(box: Box, items: set<Entity>, max: nat)
    requires Inside(box, items) && Places(box, items, max)
    ensures var t := Build(box, items, max);
      t.box == box && WellFormed(t) && Tight(t, max) && Items(t) == items
    decreases box.width
  {
    if !(|Positions(items)| <= max || !box.CanSubdivide()) {
      BuildChildIsTight(box, items, max, TopLeft);
      BuildChildIsTight(box, items, max, TopRight);
      BuildChildIsTight(box, items, max, BottomLeft);
      BuildChildIsTight(box, items, max, BottomRight);
      RoutedCover(box, items);
      hide Box.Inner, Box.Child, ChildFits, PlacesBelow;
      DistinctCounts(Build(box, items, max));
    }
  }

  lemma {:induction false} BuildChildIsTight(box: Box, items: set<Entity>, max: nat, c: Corner)
    requires box.CanSubdivide() && PlacesBelow(box, items, max)
    ensures var t := Build(box.Child(c), Routed(box, items, c), max);
      ChildFits(box, t, c) && WellFormed(t) && Tight(t, max) && Items(t) == Routed(box, items, c)
    decreases box.width, 0
  {
    assert Places(box.Child(c), Routed(box, items, c), max);
    RoutedInside(box, items, c);
    BuildIsTight(box.Child(c), Routed(box, items, c), max);
  }

  /** Whatever stands in a tight tree has been placed. */
  lemma {:induction false} TightIsPlaced(t: Tree, max: nat)
    requires WellFormed(t) && Tight(t, max)
    ensures Places(t.box, Items(t), max)
  {
    if t.Node? {
      forall c: Corner ensures Places(t.box.Child(c), Routed(t.box, Items(t), c), max) {
        ChildrenPartition(t, c);
        TightIsPlaced(t.At(c), max);
      }
      ItemsAreRouted(t);
    }
  }

  lemma ItemsAreRouted(t: Tree)
    requires WellFormed(t) && t.Node?
    ensures forall e <- Items(t) :: t.box.Inner(e.pos).Some?
  {
    hide Box.Inner;
  }

  lemma {:induction false} TightIsBuild(t: Tree, max: nat)
    requires WellFormed(t) && Tight(t, max)
    ensures t == Build(t.box, Items(t), max)
  {
    if t.Node? {
      DistinctCounts(t);
      ChildrenPartition(t, TopLeft);
      ChildrenPartition(t, TopRight);
      ChildrenPartition(t, BottomLeft);
      ChildrenPartition(t, BottomRight);
      TightIsBuild(t.tl, max);
      TightIsBuild(t.tr, max);
      TightIsBuild(t.bl, max);
      TightIsBuild(t.br, max);
    }
  }

  /** A tight tree carries no trace of its history: it is the one tree with its contents. */
  lemma TightIffCanonical(t: Tree, max: nat)
    requires WellFormed(t)
    ensures Tight(t, max) <==> t == Build(t.box, Items(t), max)
  {
    if Tight(t, max) {
      TightIsBuild(t, max);
    } else if t == Build(t.box, Items(t), max) {
      CanonicalIsTight(t, max);
    }
  }

  lemma {:induction false} CanonicalIsTight(t: Tree, max: nat)
    requires WellFormed(t) && t == Build(t.box, Items(t), max)
    ensures Tight(t, max)
  {
    if t.Node? {
      DistinctCounts(t);
      ChildIsCanonical(t, max, TopLeft);
      ChildIsCanonical(t, max, TopRight);
      ChildIsCanonical(t, max, BottomLeft);
      ChildIsCanonical(t, max, BottomRight);
      CanonicalIsTight(t.tl, max);
      CanonicalIsTight(t.tr, max);
      CanonicalIsTight(t.bl, max);
      CanonicalIsTight(t.br, max);
    }
  }

  lemma ChildIsCanonical(t: Tree, max: nat, c: Corner)
    requires WellFormed(t) && t.Node? && t == Build(t.box, Items(t), max)
    ensures t.At(c) == Build(t.At(c).box, Items(t.At(c)), max)
  {
    ChildrenPartition(t, c);
  }

  // --------------------------------------------- positions that can always be placed

  /** Everything can be routed to a leaf, however far the square is subdivided. */
  ghost predicate Holds(box: Box, items: set<Entity>) {
    forall e <- items :: Routes(box, e.pos)
  }

  lemma {:induction false} HoldsPlaces(box: Box, items: set<Entity>, max: nat)
    requires Holds(box, items)
    ensures Places(box, items, max)
    decreases box.width
  {
    if !(|Positions(items)| <= max || !box.CanSubdivide()) {
      forall e | e in items ensures box.Inner(e.pos).Some? {
        RoutesBelow(box, e.pos);
      }
      forall c: Corner ensures Places(box.Child(c), Routed(box, items, c), max) {
        forall e | e in Routed(box, items, c) ensures Routes(box.Child(c), e.pos) {
          RoutesBelow(box, e.pos);
        }
        HoldsPlaces(box.Child(c), Routed(box, items, c), max);
      }
    }
  }

  lemma {:induction false} TightIsBounded(t: Tree, max: nat)
    requires Tight(t, max)
    ensures Bounded(t, max)
  {
    if t.Node? {
      TightIsBounded(t.tl, max);
      TightIsBounded(t.tr, max);
      TightIsBounded(t.bl, max);
      TightIsBounded(t.br, max);
    }
  }

  // -------------------------------------------------------------------- queries

  /** The containers a query visits, in the order it visits them. */
  function Query(t: Tree, p: Point, radius: int): seq<set<Entity>> {
    if !t.box.InReach(p, radius) then []
    else
      match t
      case Leaf(_, items) => [items]
      case Node(_, tl, tr, bl, br) =>
        Query(tl, p, radius) + Query(tr, p, radius) + Query(bl, p, radius) + Query(br, p, radius)
  }

  function Flatten(sets: seq<set<Entity>>): set<Entity> {
    if sets == [] then {} else sets[0] + Flatten(sets[1..])
  }

  lemma {:induction false} FlattenAppend(a: seq<set<Entity>>, b: seq<set<Entity>>)
    ensures Flatten(a + b) == Flatten(a) + Flatten(b)
  {
    if a == [] {
      assert a + b == b;
    } else {
      assert (a + b)[1..] == a[1..] + b;
      FlattenAppend(a[1..], b);
    }
  }

  lemma {:induction false} FlattenContains(sets: seq<set<Entity>>, i: int)
    requires 0 <= i < |sets|
    ensures sets[i] <= Flatten(sets)
  {
    if i > 0 {
      assert sets[i] == sets[1..][i - 1];
      FlattenContains(sets[1..], i - 1);
    }
  }

  function Within(items: set<Entity>, p: Point, radius: int): set<Entity> {
    set e | e in items && Distance(e.pos, p) <= radius
  }

  ghost predicate Disjoint(sets: seq<set<Entity>>) {
    forall i, j :: 0 <= i < j < |sets| ==> sets[i] !! sets[j]
  }

  lemma DisjointAppend(a: seq<set<Entity>>, b: seq<set<Entity>>)
    requires Disjoint(a) && Disjoint(b) && Flatten(a) !! Flatten(b)
    ensures Disjoint(a + b)
  {
    forall i, j | 0 <= i < j < |a + b| ensures (a + b)[i] !! (a + b)[j] {
      if i < |a| {
        FlattenContains(a, i);
      }
      if j >= |a| {
        FlattenContains(b, j - |a|);
      }
    }
  }

  /** A query reports stored entities only, and no container twice. */
  lemma {:induction false} QueryIsDisjoint(t: Tree, p: Point, radius: int)
    requires WellFormed(t)
    ensures Flatten(Query(t, p, radius)) <= Items(t)
    ensures Disjoint(Query(t, p, radius))
  {
    if t.box.InReach(p, radius) {
      match t
      case Leaf(_, items) =>
        assert Query(t, p, radius) == [items];
      case Node(_, tl, tr, bl, br) =>
        var a, b, c, d := Query(tl, p, radius), Query(tr, p, radius), Query(bl, p, radius), Query(br, p, radius);
        QueryIsDisjoint(tl, p, radius);
        QueryIsDisjoint(tr, p, radius);
        QueryIsDisjoint(bl, p, radius);
        QueryIsDisjoint(br, p, radius);
        FlattenAppend(a, b);
        FlattenAppend(a + b, c);
        FlattenAppend(a + b + c, d);
        DisjointAppend(a, b);
        DisjointAppend(a + b, c);
        DisjointAppend(a + b + c, d);
    }
  }

  lemma {:induction false} QueryMissesNobody(t: Tree, p: Point, radius: nat)
    requires WellFormed(t)
    ensures Within(Items(t), p, radius) <= Flatten(Query(t, p, radius))
  {
    ItemsInBox(t);
    if !t.box.InReach(p, radius) {
      forall e | e in Within(Items(t), p, radius) ensures false {
        PruningIsSafe(t.box, e.pos, p, radius);
      }
    } else if t.Leaf? {
      assert Query(t, p, radius) == [t.items];
    } else {
      var a, b, c, d := Query(t.tl, p, radius), Query(t.tr, p, radius), Query(t.bl, p, radius), Query(t.br, p, radius);
      QueryMissesNobody(t.tl, p, radius);
      QueryMissesNobody(t.tr, p, radius);
      QueryMissesNobody(t.bl, p, radius);
      QueryMissesNobody(t.br, p, radius);
      FlattenAppend(a, b);
      FlattenAppend(a + b, c);
      FlattenAppend(a + b + c, d);
    }
  }

  /** The pruned query, filtered by distance, finds exactly what a full scan finds, each entity once. */
  lemma QueryIsExact(t: Tree, p: Point, radius: nat)
    requires WellFormed(t)
    ensures Within(Flatten(Query(t, p, radius)), p, radius) == Within(Items(t), p, radius)
    ensures Disjoint(Query(t, p, radius))
  {
    QueryIsDisjoint(t, p, radius);
    QueryMissesNobody(t, p, radius);
  }

  /** The leaves, in the order in which a query comes to them. */
  function Leaves(t: Tree): seq<Tree> {
    match t
    case Leaf(_, _) => [t]
    case Node(_, tl, tr, bl, br) => Leaves(tl) + Leaves(tr) + Leaves(bl) + Leaves(br)
  }

  /** What the leaves hold that are in reach. */
  function Near(ts: seq<Tree>, p: Point, radius: int): seq<set<Entity>> {
    if ts == [] then []
    else (if ts[0].box.InReach(p, radius) then [Items(ts[0])] else []) + Near(ts[1..], p, radius)
  }

  lemma {:induction false} NearAppend(a: seq<Tree>, b: seq<Tree>, p: Point, radius: int)
    ensures Near(a + b, p, radius) == Near(a, p, radius) + Near(b, p, radius)
  {
    if a == [] {
      assert a + b == b;
    } else {
      assert (a + b)[1..] == a[1..] + b;
      NearAppend(a[1..], b, p, radius);
    }
  }

  lemma ChildOutOfReach(b: Box, c: Corner, p: Point, radius: int)
    requires b.CanSubdivide() && !b.InReach(p, radius)
    ensures !b.Child(c).InReach(p, radius)
  {
  }

  lemma NearOfNode(t: Tree, p: Point, radius: int)
    requires t.Node?
    ensures Near(Leaves(t), p, radius) ==
            Near(Leaves(t.tl), p, radius) + Near(Leaves(t.tr), p, radius)
            + Near(Leaves(t.bl), p, radius) + Near(Leaves(t.br), p, radius)
  {
    NearAppend(Leaves(t.tl), Leaves(t.tr), p, radius);
    NearAppend(Leaves(t.tl) + Leaves(t.tr), Leaves(t.bl), p, radius);
    NearAppend(Leaves(t.tl) + Leaves(t.tr) + Leaves(t.bl), Leaves(t.br), p, radius);
  }

  /** Pruning inner squares visits exactly the leaves in reach, in their order. */
  lemma {:induction false} QueryVisitsLeavesInReach(t: Tree, p: Point, radius: int)
    requires WellFormed(t)
    ensures Query(t, p, radius) == Near(Leaves(t), p, radius)
    ensures !t.box.InReach(p, radius) ==> Near(Leaves(t), p, radius) == []
  {
    match t
    case Leaf(_, items) =>
      assert Leaves(t)[1..] == [];
      assert Near(Leaves(t), p, radius) == (if t.box.InReach(p, radius) then [items] else []) + Near([], p, radius);
    case Node(box, tl, tr, bl, br) =>
      assert ChildFits(box, tl, TopLeft) && ChildFits(box, tr, TopRight);
      assert ChildFits(box, bl, BottomLeft) && ChildFits(box, br, BottomRight);
      QueryVisitsLeavesInReach(tl, p, radius);
      QueryVisitsLeavesInReach(tr, p, radius);
      QueryVisitsLeavesInReach(bl, p, radius);
      QueryVisitsLeavesInReach(br, p, radius);
      NearOfNode(t, p, radius);
      if !box.InReach(p, radius) {
        ChildOutOfReach(box, TopLeft, p, radius);
        ChildOutOfReach(box, TopRight, p, radius);
        ChildOutOfReach(box, BottomLeft, p, radius);
        ChildOutOfReach(box, BottomRight, p, radius);
      }
  }
}
