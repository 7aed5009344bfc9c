/**
  The mutable quadtree: `quad` objects that own either one container or four children.
  Each object carries, as a ghost, the tree it currently is the root of.
*/
module QuadTree {
  import opened Geometry
  import opened Trees
  import opened Collapse
  import opened Containers
  import opened Placing

  /** A child that ends up holding this much has been subdivided, in whatever order it was filled. */
  predicate MustSplit(box: Box, items: set<Entity>, e: Entity, c: Corner, max: nat) {
    && box.Child(c).CanSubdivide()
    && (|Positions(Routed(box, items + {e}, c))| > max
        || (box.Inner(e.pos) == Some(c) && |Positions(Routed(box, items, c))| >= max))
  }

  /** The order in which a node keeps its children. */
  const CORNERS := [TopLeft, TopRight, BottomLeft, BottomRight]

  function Index(c: Corner): (i: nat)
    ensures i < 4 && CORNERS[i] == c
  {
    match c
    case TopLeft => 0
    case TopRight => 1
    case BottomLeft => 2
    case BottomRight => 3
  }

  /** How an insertion may change the shape of a tree: one leaf changes, and a full one is subdivided. */
  ghost predicate Grown(t: Tree, u: Tree, e: Entity, max: nat)
    decreases t
  {
    match t
    case Leaf(box, items) =>
      if |Positions(items)| < max || !box.CanSubdivide() then u == Leaf(box, items + {e})
      else u.Node? && u.box == box && forall c: Corner :: MustSplit(box, items, e, c, max) ==> u.At(c).Node?
    case Node(box, _, _, _, _) =>
      match box.Inner(e.pos)
      case None => false
      case Some(c) => u.Node? && u == t.With(c, u.At(c)) && Grown(t.At(c), u.At(c), e, max)
  }

  // ---------------------------------------------------- what an insertion keeps

  /** What an insertion may assume: routed, not overfull, and the key is new. */
  ghost predicate Ready(t: Tree, e: Entity, max: nat) {
    WellFormed(t) && Bounded(t, max) && FreshKey(Items(t), e)
  }

  lemma ReadyBelow(t: Tree, c: Corner, e: Entity, max: nat)
    requires Ready(t, e, max) && t.Node?
    ensures Ready(t.At(c), e, max)
  {
  }

  /** What one insertion does to one subtree. */
  ghost predicate Takes(t: Tree, u: Tree, e: Entity, max: nat) {
    && WellFormed(u) && Bounded(u, max) && u.box == t.box
    && Items(u) == Items(t) + {e} && Grown(t, u, e, max)
    && (Tight(t, max) && Scattered(Items(u)) ==> Tight(u, max))
    && (Earned(t, max) ==> Earned(u, max))
  }

  lemma ShapeBelow(t: Tree, c: Corner, child: Tree, e: Entity, max: nat)
    requires WellFormed(t) && Bounded(t, max) && t.Node? && t.box.Inner(e.pos) == Some(c)
    requires WellFormed(child) && Bounded(child, max) && child.box == t.At(c).box
    requires Items(child) == Items(t.At(c)) + {e}
    ensures WellFormed(t.With(c, child)) && Bounded(t.With(c, child), max)
    ensures Items(t.With(c, child)) == Items(t) + {e}
  {
    hide Box.Inner, Box.Child;
    assert ChildFits(t.box, t.At(c), c);
    assert ChildFits(t.box, child, c);
    BoundedWith(t, c, child, max);
    hide WellFormed, Items, Bounded, ChildFits;
    WithIsWellFormed(t, c, child);
    ItemsOfWith(t, c, child, e);
  }

  lemma TightBelow(t: Tree, c: Corner, child: Tree, max: nat)
    requires WellFormed(t) && Tight(t, max) && t.Node? && WellFormed(child) && Tight(child, max)
    requires Items(t.At(c)) <= Items(child)
    ensures Tight(t.With(c, child), max)
  {
    DistinctCounts(t.At(c));
    DistinctCounts(child);
    PositionsMonotone(Items(t.At(c)), Items(child));
  }

  lemma GrownAbove(t: Tree, c: Corner, child: Tree, e: Entity, max: nat)
    requires t.Node? && t.box.Inner(e.pos) == Some(c) && Grown(t.At(c), child, e, max)
    ensures t.With(c, child).At(c) == child && Grown(t, t.With(c, child), e, max)
  {
    hide Box.Inner;
  }

  lemma TakesBelow(t: Tree, c: Corner, child: Tree, e: Entity, max: nat)
    requires WellFormed(t) && Bounded(t, max) && t.Node? && t.box.Inner(e.pos) == Some(c)
    requires Takes(t.At(c), child, e, max)
    ensures Takes(t, t.With(c, child), e, max)
  {
    NodeParts(t, c, e, max);
    hide WellFormed, Bounded, Tight, Grown, Items, Earned, Box.Inner, Box.Child;
    ShapeBelow(t, c, child, e, max);
    GrownAbove(t, c, child, e, max);
    if Earned(t, max) {
      EarnedAbove(t, c, child, e, max);
    }
    if Tight(t, max) && Scattered(Items(t.With(c, child))) {
      ScatteredFewer(Items(child), Items(t.With(c, child)));
      TightBelow(t, c, child, max);
    }
  }

  lemma EarnedAbove(t: Tree, c: Corner, child: Tree, e: Entity, max: nat)
    requires t.Node? && Earned(t, max) && Earned(child, max) && Items(t.With(c, child)) == Items(t) + {e}
    ensures Earned(t.With(c, child), max)
  {
    hide Earned, Items;
    EarnedWith(t, c, child, max);
  }

  lemma FillTakes(t: Tree, e: Entity, max: nat)
    requires t.Leaf? && Ready(t, e, max) && t.box.Contains(e.pos)
    requires |Positions(Items(t))| < max || !t.box.CanSubdivide()
    ensures Takes(t, Leaf(t.box, t.items + {e}), e, max)
  {
    OneMorePosition(t.items, e);
  }

  // --------------------------------------------------- filling four new children

  /** A child while a leaf is being subdivided: it has what routing sends it of what was passed on. */
  ghost predicate Filled(t: Tree, box: Box, done: set<Entity>, c: Corner, max: nat, neat: bool) {
    && t.box == box.Child(c) && WellFormed(t) && Bounded(t, max) && Earned(t, max)
    && Items(t) == Routed(box, done, c)
    && (neat ==> Tight(t, max))
  }

  ghost predicate AllFilled(ts: seq<Tree>, box: Box, done: set<Entity>, max: nat, neat: bool) {
    |ts| == 4 && forall i | 0 <= i < 4 :: Filled(ts[i], box, done, CORNERS[i], max, neat)
  }

  /** Entities still to be passed on are new to those passed on already. */
  lemma StillFresh(items: set<Entity>, done: set<Entity>, x: Entity, e: Entity)
    requires Keyed(items) && done <= items && x in items && x !in done
    ensures FreshKey(done, x)
    ensures Scattered(items + {e}) ==> Scattered(done + {x})
  {
    if Scattered(items + {e}) {
      forall a, b | a in done + {x} && b in done + {x} && a.pos == b.pos ensures a == b {
        assert a in items + {e} && b in items + {e};
      }
    }
  }

  lemma FillStep(t: Tree, u: Tree, box: Box, done: set<Entity>, e: Entity, c: Corner, max: nat, neat: bool)
    requires Filled(t, box, done, c, max, neat)
    requires if box.Inner(e.pos) == Some(c) then Takes(t, u, e, max) else u == t
    requires neat ==> Scattered(done + {e})
    ensures Filled(u, box, done + {e}, c, max, neat)
  {
    hide WellFormed, Bounded, Tight, Grown, Items, Box.Inner, Box.Child;
    if box.Inner(e.pos) == Some(c) {
      assert Routed(box, done + {e}, c) == Routed(box, done, c) + {e};
    } else {
      assert Routed(box, done + {e}, c) == Routed(box, done, c);
    }
  }

  lemma EmptyFilled(box: Box, max: nat, neat: bool)
    requires box.CanSubdivide()
    ensures AllFilled(seq(4, i requires 0 <= i < 4 => Leaf(box.Child(CORNERS[i]), {})), box, {}, max, neat)
  {
    assert Positions({}) == {};
  }

  lemma FilledIsReady(ts: seq<Tree>, box: Box, done: set<Entity>, all: set<Entity>, x: Entity, k: nat, max: nat, neat: bool)
    requires AllFilled(ts, box, done, max, neat) && k < 4 && FreshKey(done, x)
    requires box.CanSubdivide() && SettlesBelow(box, all, max) && done + {x} <= all && box.Inner(x.pos) == Some(CORNERS[k])
    ensures Ready(ts[k], x, max) && Finds(ts[k], x, max)
  {
    var c := CORNERS[k];
    assert Filled(ts[k], box, done, c, max, neat);
    assert Settles(box.Child(c), Routed(box, all, c), max);
    RoutedFewer(box, done + {x}, all, c);
    assert Routed(box, done + {x}, c) == Routed(box, done, c) + {x};
    hide WellFormed, Bounded, Tight, Earned, Items, Settles, SettlesBelow, Box.Inner, Box.Child;
    SettlesFewer(box.Child(c), Routed(box, done, c) + {x}, Routed(box, all, c), max);
    EarnedFinds(ts[k], x, max);
  }

  lemma AllFilledStep(ts: seq<Tree>, us: seq<Tree>, box: Box, done: set<Entity>, x: Entity, k: nat, max: nat, neat: bool)
    requires AllFilled(ts, box, done, max, neat) && k < 4 && box.Inner(x.pos) == Some(CORNERS[k])
    requires |us| == 4 && us == ts[k := us[k]] && Takes(ts[k], us[k], x, max)
    requires neat ==> Scattered(done + {x})
    ensures AllFilled(us, box, done + {x}, max, neat)
  {
    hide Filled, Takes, Scattered, Box.Inner;
    forall i | 0 <= i < 4 ensures Filled(us[i], box, done + {x}, CORNERS[i], max, neat) {
      assert Filled(ts[i], box, done, CORNERS[i], max, neat);
      FillStep(ts[i], us[i], box, done, x, CORNERS[i], max, neat);
    }
  }

  lemma FilledNode(u: Tree, items: set<Entity>, max: nat, neat: bool)
    requires u.Node? && u.box.CanSubdivide() && !NeverSplit(items, max)
    requires forall e <- items :: u.box.Inner(e.pos).Some?
    requires forall c: Corner :: Filled(u.At(c), u.box, items, c, max, neat)
    ensures WellFormed(u) && Bounded(u, max) && Items(u) == items && Earned(u, max)
    ensures neat && |Positions(items)| > max ==> Tight(u, max)
  {
    assert Filled(u.At(TopLeft), u.box, items, TopLeft, max, neat);
    assert Filled(u.At(TopRight), u.box, items, TopRight, max, neat);
    assert Filled(u.At(BottomLeft), u.box, items, BottomLeft, max, neat);
    assert Filled(u.At(BottomRight), u.box, items, BottomRight, max, neat);
    RoutedCover(u.box, items);
    DistinctCounts(u);
  }

  lemma FullChildSplits(t: Tree, u: Tree, box: Box, items: set<Entity>, e: Entity, c: Corner, max: nat, neat: bool)
    requires box.Inner(e.pos) == Some(c) && Filled(t, box, items, c, max, neat) && Takes(t, u, e, max)
    requires MustSplit(box, items, e, c, max)
    ensures u.Node?
  {
    assert Routed(box, items + {e}, c) == Routed(box, items, c) + {e};
  }

  ghost function Assemble(box: Box, ts: seq<Tree>): Tree
    requires |ts| == 4
  {
    Node(box, ts[0], ts[1], ts[2], ts[3])
  }

  lemma OneChildChanged(box: Box, ts: seq<Tree>, us: seq<Tree>, k: nat)
    requires |ts| == |us| == 4 && k < 4 && forall i | 0 <= i < 4 && i != k :: us[i] == ts[i]
    ensures var t, u := Assemble(box, ts), Assemble(box, us);
      u == t.With(CORNERS[k], u.At(CORNERS[k])) && u.At(CORNERS[k]) == us[k] && t.At(CORNERS[k]) == ts[k]
  {
  }

  /** Passing everything on, the new entity last, is an insertion. */
  lemma SubdivisionTakes(box: Box, items: set<Entity>, ts: seq<Tree>, us: seq<Tree>, e: Entity, k: nat, max: nat)
    requires Ready(Leaf(box, items), e, max) && box.CanSubdivide() && SettlesBelow(box, items + {e}, max)
    requires |Positions(items)| >= max && k < 4 && box.Inner(e.pos) == Some(CORNERS[k])
    requires AllFilled(ts, box, items, max, Scattered(items + {e}))
    requires AllFilled(us, box, items + {e}, max, Scattered(items + {e})) && Takes(ts[k], us[k], e, max)
    ensures Takes(Leaf(box, items), Assemble(box, us), e, max)
  {
    var neat, u := Scattered(items + {e}), Assemble(box, us);
    FullIsSplit(items, e, max);
    assert Items(Leaf(box, items)) == items;
    hide WellFormed, Bounded, Filled, AllFilled, Grown, Tight, Items, Earned, NeverSplit, Settles;
    SubdivisionGrows(box, items, ts, us, e, k, max, neat);
    OneMorePosition(items, e);
    if neat {
      FreshPosition(items, e);
    }
    FilledByCorner(box, items + {e}, us, max, neat);
    FilledNode(u, items + {e}, max, neat);
  }

  lemma SubdivisionGrows(box: Box, items: set<Entity>, ts: seq<Tree>, us: seq<Tree>, e: Entity, k: nat, max: nat, neat: bool)
    requires box.CanSubdivide() && |Positions(items)| >= max && k < 4 && box.Inner(e.pos) == Some(CORNERS[k])
    requires AllFilled(ts, box, items, max, neat) && AllFilled(us, box, items + {e}, max, neat)
    requires Takes(ts[k], us[k], e, max)
    ensures Grown(Leaf(box, items), Assemble(box, us), e, max)
  {
    forall d: Corner | MustSplit(box, items, e, d, max) ensures Assemble(box, us).At(d).Node? {
      OverfullSplits(box, items, ts, us, e, k, max, neat, d);
    }
  }

  lemma FilledByCorner(box: Box, items: set<Entity>, us: seq<Tree>, max: nat, neat: bool)
    requires AllFilled(us, box, items, max, neat)
    ensures forall d: Corner :: Filled(Assemble(box, us).At(d), box, items, d, max, neat)
  {
    forall d: Corner ensures Filled(Assemble(box, us).At(d), box, items, d, max, neat) {
      assert Filled(us[Index(d)], box, items, CORNERS[Index(d)], max, neat);
    }
  }

  lemma OverfullSplits(box: Box, items: set<Entity>, ts: seq<Tree>, us: seq<Tree>, e: Entity, k: nat, max: nat, neat: bool, d: Corner)
    requires k < 4 && box.Inner(e.pos) == Some(CORNERS[k])
    requires AllFilled(ts, box, items, max, neat) && AllFilled(us, box, items + {e}, max, neat)
    requires Takes(ts[k], us[k], e, max) && MustSplit(box, items, e, d, max)
    ensures us[Index(d)].Node?
  {
    hide WellFormed, Tight, Grown, Earned, Items, Box.Inner, Box.Child;
    assert Filled(us[Index(d)], box, items + {e}, d, max, neat);
    if |Positions(Routed(box, items + {e}, d))| > max {
      OverfullIsNode(us[Index(d)], box, items + {e}, d, max, neat);
    } else {
      assert Filled(ts[k], box, items, d, max, neat);
      FullChildSplits(ts[k], us[k], box, items, e, d, max, neat);
    }
  }

  lemma OverfullIsNode(t: Tree, box: Box, items: set<Entity>, c: Corner, max: nat, neat: bool)
    requires Filled(t, box, items, c, max, neat) && box.Child(c).CanSubdivide() && |Positions(Routed(box, items, c))| > max
    ensures t.Node?
  {
  }

  // ------------------------------------------------------------- object shares

  /** The objects below a node, split by child: nothing is shared, and the node is not among them. */
  ghost predicate Shares(owner: object, shares: seq<set<object>>) {
    && |shares| == 4
    && (forall i | 0 <= i < 4 :: owner !in shares[i])
    && (forall i, j | 0 <= i < j < 4 :: shares[i] !! shares[j])
  }

  ghost function All(shares: seq<set<object>>): set<object>
    requires |shares| == 4
  {
    shares[0] + shares[1] + shares[2] + shares[3]
  }

  lemma AllOfUpdate(shares: seq<set<object>>, k: nat, share: set<object>)
    requires |shares| == 4 && k < 4
    ensures forall o <- All(shares[k := share]) :: o in All(shares) || o in share
    ensures shares[k] <= All(shares)
  {
  }

  lemma ShareGrows(owner: object, shares: seq<set<object>>, k: nat, share: set<object>)
    requires Shares(owner, shares) && k < 4 && owner !in share
    requires forall i | 0 <= i < 4 && i != k :: shares[i] !! share
    ensures Shares(owner, shares[k := share])
  {
  }

  /** What a removal may assume: a routed tree that holds the entity and can collapse. */
  ghost predicate Removable(t: Tree, e: Entity, max: nat) {
    WellFormed(t) && Keyed(Items(t)) && e in Items(t) && Collapse.Remove(t, e, max).Removed?
  }

  /** Nobody stands at the position, in the leaf where routing looks for it. */
  ghost predicate Absent(t: Tree, p: Point) {
    match t
    case Leaf(_, items) => p !in Positions(items)
    case Node(box, _, _, _, _) =>
      match box.Inner(p)
      case None => false
      case Some(c) => Absent(t.At(c), p)
  }

  lemma {:induction false} AbsentIsNotStored(t: Tree, e: Entity)
    requires WellFormed(t) && Absent(t, e.pos)
    ensures e !in Items(t)
  {
    if t.Node? {
      var c := t.box.Inner(e.pos).value;
      AbsentIsNotStored(t.At(c), e);
      ChildrenPartition(t, c);
    }
  }

  /** Either the entity can be taken out, or nobody stands where it should. */
  ghost predicate CanRemove(t: Tree, e: Entity, max: nat) {
    Removable(t, e, max) || (WellFormed(t) && Absent(t, e.pos))
  }

  /** What a removal does to a tree: it throws and changes nothing, or it is the recursive removal. */
  ghost predicate Removes(t: Tree, u: Tree, e: Entity, max: nat, mergeParent: bool, thrown: bool) {
    if Absent(t, e.pos) then
      thrown && u == t && !mergeParent
    else
      !thrown && WellFormed(t) && e in Items(t) && Removed(u, mergeParent) == Collapse.Remove(t, e, max)
  }

  lemma RemovableIsThere(t: Tree, e: Entity, max: nat)
    requires Removable(t, e, max)
    ensures !Absent(t, e.pos)
  {
    if Absent(t, e.pos) {
      AbsentIsNotStored(t, e);
    }
  }

  /** A removal seen from an internal node. */
  lemma CanRemoveBelow(t: Tree, c: Corner, e: Entity, max: nat)
    requires t.Node? && CanRemove(t, e, max) && t.box.Inner(e.pos) == Some(c)
    ensures CanRemove(t.At(c), e, max) && (Absent(t, e.pos) <==> Absent(t.At(c), e.pos))
    ensures t.With(c, t.At(c)) == t
    ensures !Absent(t, e.pos) ==> Removable(t, e, max)
  {
    if Removable(t, e, max) {
      RemoveUnfolds(t, c, e, max);
      RemovableIsThere(t.At(c), e, max);
    }
  }

  lemma RemoveUnfolds(t: Tree, c: Corner, e: Entity, max: nat)
    requires t.Node? && Removable(t, e, max) && t.box.Inner(e.pos) == Some(c)
    ensures Removable(t.At(c), e, max)
    ensures var r := Collapse.Remove(t.At(c), e, max);
      var n := t.With(c, r.tree);
      && WellFormed(n) && Keyed(Items(n))
      && Collapse.Remove(t, e, max) == if r.mergeParent then Collapse.Merge(n, max) else Removed(n, false)
  {
    NodeAfterChild(t, e, max);
  }

  lemma FreshAcross(items: set<Entity>, a: set<Entity>, b: set<Entity>)
    requires Keyed(items) && a <= items && b <= items && a !! b
    ensures forall e <- b :: FreshKey(a, e)
  {
  }

  /** A new container with everything four disjoint ones hold. */
  method Gather(a: Container, b: Container, c: Container, d: Container) returns (m: Container)
    requires a.Valid() && b.Valid() && c.Valid() && d.Valid()
    requires a.Items() !! b.Items() && a.Items() !! c.Items() && a.Items() !! d.Items()
    requires b.Items() !! c.Items() && b.Items() !! d.Items() && c.Items() !! d.Items()
    requires Keyed(a.Items() + b.Items() + c.Items() + d.Items())
    ensures fresh(m) && m.Valid() && m.Items() == a.Items() + b.Items() + c.Items() + d.Items()
  {
    ghost var all := a.Items() + b.Items() + c.Items() + d.Items();
    m := new Container();
    m.Merge(a);
    FreshAcross(all, m.Items(), b.Items());
    m.Merge(b);
    FreshAcross(all, m.Items(), c.Items());
    m.Merge(c);
    FreshAcross(all, m.Items(), d.Items());
    m.Merge(d);
  }

  class Quad {
    const box: Box
    const max: nat
    var container: Container?
    var children: seq<Quad>  // top left, top right, bottom left, bottom right; none in a leaf

    ghost var tree: Tree
    ghost var repr: set<object>
    ghost var shares: seq<set<object>>

    /** Four children over the four quarters, each with a share of the objects of its own. */
    ghost predicate Children(shares: seq<set<object>>)
      reads this`children, children
    {
      && |children| == 4 && Shares(this, shares)
      && forall i | 0 <= i < 4 ::
          children[i].repr == shares[i] && children[i].max == max && children[i].box == box.Child(CORNERS[i])
    }

    /** The tree an internal node is the root of. */
    ghost function NodeTree(): Tree
      requires |children| == 4
      reads this`children, children
    {
      Assemble(box, ChildTrees())
    }

    ghost function ChildTrees(): seq<Tree>
      requires |children| == 4
      reads this`children, children
    {
      [children[0].tree, children[1].tree, children[2].tree, children[3].tree]
    }

    /** The objects form a tree, and `tree` is what they hold. */
    ghost predicate Valid()
      reads this, repr
      ensures Valid() ==> this in repr && tree.box == box
      decreases repr
    {
      && this in repr
      && (if container != null then
            children == [] && repr == {this, container} && container.Valid() && tree == Leaf(box, container.Items())
          else
            && Shares(this, shares) && repr == {this} + All(shares)
            && |children| == 4 && (forall i | 0 <= i < 4 :: children[i] in shares[i]) && Children(shares)
            && tree == NodeTree() && forall i | 0 <= i < 4 :: children[i].Valid())
    }

    constructor (box: Box, max: nat)
      ensures Valid() && fresh(repr)
      ensures this.box == box && this.max == max && tree == Leaf(box, {}) && container != null
    {
      this.box, this.max := box, max;
      container := new Container();
      children := [];
      tree, shares := Leaf(box, {}), [];
      new;
      repr := {this, container};
    }

    /** The child that owns a point: the first whose closed square contains it. */
    function Inner(p: Point): (q: Quad?)
      requires |children| == 4 && forall i | 0 <= i < 4 :: children[i].box == box.Child(CORNERS[i])
      reads this
      ensures match box.Inner(p)
              case None => q == null
              case Some(c) => q == children[Index(c)]
    {
      if children[0].box.Contains(p) then children[0]
      else if children[1].box.Contains(p) then children[1]
      else if children[2].box.Contains(p) then children[2]
      else if children[3].box.Contains(p) then children[3]
      else null
    }

    function Size(): (n: nat)
      requires Valid()
      reads this, repr
      ensures n == Trees.Size(tree)
      decreases repr
    {
      if container == null then
        children[0].Size() + children[1].Size() + children[2].Size() + children[3].Size()
      else
        container.Size()
    }

    function DistinctSize(): (n: nat)
      requires Valid()
      reads this, repr
      ensures n == Trees.DistinctSize(tree)
      decreases repr
    {
      if container == null then
        children[0].DistinctSize() + children[1].DistinctSize() + children[2].DistinctSize() + children[3].DistinctSize()
      else
        container.DistinctSize()
    }

    /** The containers in reach, in visiting order; the callback sees the contents of each. */
    function Query(p: Point, radius: int): (found: seq<set<Entity>>)
      requires Valid()
      reads this, repr
      ensures found == Trees.Query(tree, p, radius)
      decreases repr
    {
      if !box.InReach(p, radius) then []
      else if container == null then
        children[0].Query(p, radius) + children[1].Query(p, radius)
        + children[2].Query(p, radius) + children[3].Query(p, radius)
      else
        [container.entities.Values]
    }

    /** Four valid children, whatever this quad's own ghosts say. */
    ghost predicate Linked(parts: seq<set<object>>)
      requires |parts| == 4
      reads this`children, children, All(parts)
    {
      Children(parts) && forall i | 0 <= i < 4 :: children[i].Valid()
    }

    /** Brings the ghosts of an internal node up to date. */
    ghost method Adopt(parts: seq<set<object>>)
      requires |parts| == 4 && container == null && Linked(parts)
      modifies this`repr, this`tree, this`shares
      ensures Valid() && shares == parts && repr == {this} + All(parts) && tree == old(NodeTree())
    {
      hide Valid;
      tree, shares := NodeTree(), parts;
      repr := {this} + All(parts);
      BecameNode();
    }

    lemma BecameNode()
      requires container == null && |shares| == 4 && Linked(shares)
      requires repr == {this} + All(shares) && tree == NodeTree()
      ensures Valid()
    {
    }

    lemma NodeLinks()
      requires Valid() && container == null
      ensures |shares| == 4 && Linked(shares) && repr == {this} + All(shares)
      ensures |children| == 4 && tree == Assemble(box, ChildTrees())
      ensures forall i | 0 <= i < 4 :: ChildTrees()[i] == children[i].tree && children[i].repr == shares[i]
      ensures this !in All(shares)
    {
    }

    /** A leaf whose children are ready gives up its container. */
    method BecomeNode(ghost parts: seq<set<object>>)
      requires |children| == 4 && |parts| == 4 && Linked(parts)
      modifies this`container, this`repr, this`tree, this`shares
      ensures Valid() && repr == {this} + All(parts) && tree == Assemble(box, old(ChildTrees()))
    {
      container := null;
      Adopt(parts);
    }

    /** Passes an entity on to the child that owns its position; the other children are left alone. */
    method InsertInner(e: Entity, ghost k: nat, ghost parts: seq<set<object>>) returns (ghost after: seq<set<object>>)
      requires |parts| == 4 && k < 4 && Linked(parts) && box.CanSubdivide() && box.Inner(e.pos) == Some(CORNERS[k])
      requires Ready(children[k].tree, e, max) && Finds(children[k].tree, e, max)
      modifies parts[k]
      ensures |children| == 4 && |after| == 4 && Linked(after) && after == parts[k := after[k]]
      ensures fresh(after[k] - parts[k])
      ensures Takes(old(children[k].tree), children[k].tree, e, max)
      ensures forall i | 0 <= i < 4 && i != k :: children[i].tree == old(children[i].tree)
      decreases box.width, 0
    {
      hide Ready, Takes, Finds, Valid;
      var q := Inner(e.pos);
      var ok := q.Insert(e);
      after := parts[k := q.repr];
      ShareGrows(this, parts, k, q.repr);
    }

    method InsertBelow(e: Entity, ghost k: nat)
      requires Valid() && container == null && box.CanSubdivide()
      requires k < 4 && box.Inner(e.pos) == Some(CORNERS[k])
      requires tree.Node? && Ready(tree.At(CORNERS[k]), e, max) && Finds(tree.At(CORNERS[k]), e, max)
      modifies repr
      ensures Valid() && fresh(repr - old(repr))
      ensures tree.Node? && tree == old(tree).With(CORNERS[k], tree.At(CORNERS[k]))
      ensures Takes(old(tree).At(CORNERS[k]), tree.At(CORNERS[k]), e, max)
      decreases box.width, 1
    {
      hide Ready, Takes, Finds, Box.Inner, Box.Child, Items, Valid, Linked;
      NodeLinks();
      ghost var before := ChildTrees();
      ghost var after := InsertInner(e, k, shares);
      OneChildChanged(box, before, ChildTrees(), k);
      Adopt(after);
    }

    method Fill(e: Entity)
      requires Valid() && container != null && Ready(tree, e, max) && box.Contains(e.pos)
      requires |Positions(Items(tree))| < max || !box.CanSubdivide()
      modifies repr
      ensures Valid() && repr == old(repr)
      ensures Takes(old(tree), tree, e, max)
    {
      FillTakes(tree, e, max);
      container.Insert(e);
      tree := Leaf(box, container.Items());
    }

    /** Four empty leaves over the four quarters. */
    method MakeChildren() returns (ghost parts: seq<set<object>>)
      requires box.CanSubdivide()
      modifies this`children
      ensures |children| == 4 && |parts| == 4 && Linked(parts) && fresh(All(parts))
      ensures ChildTrees() == seq(4, i requires 0 <= i < 4 => Leaf(box.Child(CORNERS[i]), {}))
    {
      hide Valid;
      children, parts := [], [];
      for k := 0 to 4
        invariant |children| == |parts| == k
        invariant forall i | 0 <= i < k :: children[i].Valid() && children[i].repr == parts[i] && fresh(parts[i])
        invariant forall i | 0 <= i < k ::
          children[i].max == max && children[i].tree == Leaf(box.Child(CORNERS[i]), {})
        invariant forall i, j | 0 <= i < j < k :: parts[i] !! parts[j]
      {
        var q := new Quad(box.Child(CORNERS[k]), max);
        children, parts := children + [q], parts + [q.repr];
      }
    }

    /** One step of a subdivision. */
    method PassOn(x: Entity, ghost parts: seq<set<object>>, ghost done: set<Entity>, ghost all: set<Entity>, ghost neat: bool)
      returns (ghost after: seq<set<object>>)
      requires |children| == 4 && |parts| == 4 && Linked(parts) && AllFilled(ChildTrees(), box, done, max, neat)
      requires box.CanSubdivide() && SettlesBelow(box, all, max) && done + {x} <= all
      requires FreshKey(done, x) && (neat ==> Scattered(done + {x}))
      modifies All(parts)
      ensures |children| == 4 && |after| == 4 && Linked(after) && forall o <- All(after) :: o in All(parts) || fresh(o)
      ensures AllFilled(ChildTrees(), box, done + {x}, max, neat)
      ensures box.Inner(x.pos).Some?
      ensures var k := Index(box.Inner(x.pos).value);
        Takes(old(ChildTrees())[k], ChildTrees()[k], x, max)
      decreases box.width, 1
    {
      hide AllFilled, Takes, Ready, All, Linked, Valid, Finds, Settles;
      assert x in all;
      ghost var k := Index(box.Inner(x.pos).value);
      ghost var before := ChildTrees();
      FilledIsReady(before, box, done, all, x, k, max, neat);
      AllOfUpdate(parts, k, parts[k]);
      after := InsertInner(x, k, parts);
      AllOfUpdate(parts, k, after[k]);
      assert ChildTrees() == before[k := ChildTrees()[k]];
      AllFilledStep(before, ChildTrees(), box, done, x, k, max, neat);
    }

    /** The loop of a subdivision, in whatever order the container lists its entities. */
    method PassOnAll(items: set<Entity>, ghost parts: seq<set<object>>, ghost e: Entity)
      returns (ghost after: seq<set<object>>)
      requires |children| == 4 && |parts| == 4 && Linked(parts)
      requires AllFilled(ChildTrees(), box, {}, max, Scattered(items + {e}))
      requires box.CanSubdivide() && Keyed(items) && SettlesBelow(box, items + {e}, max)
      modifies All(parts)
      ensures |children| == 4 && |after| == 4 && Linked(after) && forall o <- All(after) :: o in All(parts) || fresh(o)
      ensures AllFilled(ChildTrees(), box, items, max, Scattered(items + {e}))
      decreases box.width, 2
    {
      hide AllFilled, Takes, Ready, All, Linked, Valid, Finds, Settles;
      var todo := items;
      after := parts;
      assert items - todo == {};
      while todo != {}
        invariant todo <= items && |children| == 4
        invariant |after| == 4 && Linked(after) && forall o <- All(after) :: o in All(parts) || fresh(o)
        invariant AllFilled(ChildTrees(), box, items - todo, max, Scattered(items + {e}))
      {
        var x :| x in todo;
        StillFresh(items, items - todo, x, e);
        after := PassOn(x, after, items - todo, items + {e}, Scattered(items + {e}));
        assert items - todo + {x} == items - (todo - {x});
        todo := todo - {x};
      }
      assert items - todo == items;
    }

    /** Four new leaves take the entities of a full one, and then the new entity. */
    method Refill(items: set<Entity>, e: Entity) returns (ghost parts: seq<set<object>>, ghost before: seq<Tree>)
      requires box.CanSubdivide() && Keyed(items) && FreshKey(items, e) && SettlesBelow(box, items + {e}, max)
      modifies this`children
      ensures |children| == 4 && |parts| == 4 && Linked(parts) && fresh(All(parts))
      ensures |before| == 4 && AllFilled(before, box, items, max, Scattered(items + {e}))
      ensures AllFilled(ChildTrees(), box, items + {e}, max, Scattered(items + {e}))
      ensures box.Inner(e.pos).Some?
      ensures var k := Index(box.Inner(e.pos).value);
        Takes(before[k], ChildTrees()[k], e, max)
      decreases box.width, 3
    {
      hide AllFilled, Takes, Ready, All, Linked, Valid, Finds, Settles;
      EmptyFilled(box, max, Scattered(items + {e}));
      parts := MakeChildren();
      parts := PassOnAll(items, parts, e);
      before := ChildTrees();
      parts := PassOn(e, parts, items, items + {e}, Scattered(items + {e}));
    }

    /** A full leaf becomes an internal node. */
    method Subdivide(e: Entity)
      requires Valid() && container != null && Ready(tree, e, max) && box.Contains(e.pos)
      requires |Positions(Items(tree))| >= max && box.CanSubdivide() && SettlesBelow(box, Items(tree) + {e}, max)
      modifies repr
      ensures Valid() && fresh(repr - old(repr))
      ensures Takes(old(tree), tree, e, max)
      decreases box.width, 4
    {
      container.KeysAreUnique();
      ghost var items := container.Items();
      assert FreshKey(items, e) && SettlesBelow(box, items + {e}, max);
      hide AllFilled, Takes, Ready, Linked, All, Finds, Settles;
      ghost var parts, before := Refill(container.entities.Values, e);
      SubdivisionTakes(box, items, before, ChildTrees(), e, Index(box.Inner(e.pos).value), max);
      BecomeNode(parts);
    }

    /** Out of bounds nothing changes; otherwise the entity joins the contents. */
    method Insert(e: Entity) returns (ok: bool)
      requires Valid() && Ready(tree, e, max) && (box.Contains(e.pos) ==> Finds(tree, e, max))
      modifies repr
      ensures Valid() && fresh(repr - old(repr))
      ensures ok == box.Contains(e.pos)
      ensures !ok ==> tree == old(tree) && repr == old(repr)
      ensures ok ==> Takes(old(tree), tree, e, max)
      decreases box.width, 5
    {
      if !box.Contains(e.pos) {
        return false;
      }
      ok := true;
      if container == null {
        FindsBelow(tree, e, max);
        ghost var t, c := tree, box.Inner(e.pos).value;
        ReadyBelow(t, c, e, max);
        InsertBelow(e, Index(c));
        TakesBelow(t, c, tree.At(c), e, max);
        return;
      }
      if container.DistinctSize() < max || !box.CanSubdivide() {
        Fill(e);
      } else {
        Subdivide(e);
      }
    }

    /** What `merge` finds in a child that is a leaf. */
    lemma LeafChild(k: nat)
      requires Valid() && container == null && k < 4 && tree.At(CORNERS[k]).Leaf?
      ensures |children| == 4 && children[k].container != null && children[k].container.Valid()
      ensures children[k].container.Items() == tree.At(CORNERS[k]).items
    {
    }

    method MergeContainers() returns (c: Container)
      requires Valid() && container == null && tree.Node? && ChildrenAreLeaves(tree)
      requires WellFormed(tree) && Keyed(Items(tree))
      ensures fresh(c) && c.Valid() && c.Items() == Items(tree)
    {
      LeafChild(0);
      LeafChild(1);
      LeafChild(2);
      LeafChild(3);
      ChildrenApart(tree);
      assert Items(tree) == tree.tl.items + tree.tr.items + tree.bl.items + tree.br.items;
      hide Valid, WellFormed;
      c := Gather(children[0].container, children[1].container, children[2].container, children[3].container);
    }

    /** Collapses the four leaves below into one, unless they hold too many positions. */
    method Merge() returns (mergeParent: bool)
      requires Valid() && container == null && tree.Node? && WellFormed(tree) && Keyed(Items(tree))
      requires Collapse.Merge(tree, max).Removed?
      modifies this
      ensures Valid() && fresh(repr - old(repr))
      ensures Removed(tree, mergeParent) == Collapse.Merge(old(tree), max)
    {
      if DistinctSize() > max {
        return false;
      }
      BecomeLeaf();
      mergeParent := true;
    }

    method BecomeLeaf()
      requires Valid() && container == null && tree.Node? && ChildrenAreLeaves(tree)
      requires WellFormed(tree) && Keyed(Items(tree))
      modifies this
      ensures Valid() && fresh(repr - old(repr)) && tree == Leaf(box, Items(old(tree)))
    {
      hide Valid, WellFormed, Keyed, Items, ChildrenAreLeaves;
      var c := MergeContainers();
      container, children := c, [];
      tree, repr, shares := Leaf(box, c.Items()), {this, c}, [];
      BecameLeaf();
    }

    lemma BecameLeaf()
      requires container != null && container.Valid() && children == [] && repr == {this, container}
      requires tree == Leaf(box, container.Items())
      ensures Valid()
    {
    }

    method RemoveInner(e: Entity, ghost k: nat, ghost parts: seq<set<object>>) returns (mergeMe: bool, thrown: bool)
      requires |parts| == 4 && k < 4 && Linked(parts) && box.Inner(e.pos) == Some(CORNERS[k])
      requires CanRemove(children[k].tree, e, max)
      modifies parts[k]
      ensures |children| == 4 && Linked(parts[k := children[k].repr]) && fresh(children[k].repr - parts[k])
      ensures Removes(old(children[k].tree), children[k].tree, e, max, mergeMe, thrown)
      ensures forall i | 0 <= i < 4 && i != k :: children[i].tree == old(children[i].tree)
      decreases children[k].tree, 4
    {
      hide Removes, CanRemove, Valid;
      assert box.Child(CORNERS[k]).Contains(e.pos);
      hide WellFormed, Items, Keyed;
      var q := Inner(e.pos);
      mergeMe, thrown := q.Remove(e);
      ShareGrows(this, parts, k, q.repr);
    }

    method RemoveBelow(e: Entity, ghost k: nat) returns (mergeMe: bool, thrown: bool)
      requires Valid() && container == null && k < 4 && box.Inner(e.pos) == Some(CORNERS[k])
      requires tree.Node? && CanRemove(tree.At(CORNERS[k]), e, max)
      modifies repr
      ensures Valid() && container == null && fresh(repr - old(repr)) && tree.Node?
      ensures tree == old(tree).With(CORNERS[k], tree.At(CORNERS[k]))
      ensures Removes(old(tree).At(CORNERS[k]), tree.At(CORNERS[k]), e, max, mergeMe, thrown)
      decreases tree, 0
    {
      hide Removes, CanRemove, Box.Inner, Box.Child, Items, Valid, Linked;
      NodeLinks();
      ghost var before := ChildTrees();
      mergeMe, thrown := RemoveInner(e, k, shares);
      OneChildChanged(box, before, ChildTrees(), k);
      Adopt(shares[k := children[k].repr]);
    }

    /** Removes an entity, or throws; says whether the parent has to try to merge. */
    method Remove(e: Entity) returns (mergeParent: bool, thrown: bool)
      requires Valid() && (box.Contains(e.pos) ==> CanRemove(tree, e, max))
      modifies repr
      ensures Valid() && fresh(repr - old(repr))
      ensures !box.Contains(e.pos) ==> tree == old(tree) && !mergeParent && !thrown
      ensures box.Contains(e.pos) ==> Removes(old(tree), tree, e, max, mergeParent, thrown)
      decreases tree, 3
    {
      if !box.Contains(e.pos) {
        return false, false;
      }
      if container != null {
        thrown := container.Remove(e);
        if thrown {
          return false, true;
        }
        tree := Leaf(box, container.Items());
        return true, false;
      }
      mergeParent, thrown := RemoveNode(e, Index(box.Inner(e.pos).value));
    }

    method RemoveNode(e: Entity, ghost k: nat) returns (mergeParent: bool, thrown: bool)
      requires Valid() && container == null && k < 4 && box.Inner(e.pos) == Some(CORNERS[k])
      requires tree.Node? && CanRemove(tree, e, max)
      modifies repr
      ensures Valid() && fresh(repr - old(repr))
      ensures Removes(old(tree), tree, e, max, mergeParent, thrown)
      decreases tree, 2
    {
      CanRemoveBelow(tree, CORNERS[k], e, max);
      if !Absent(tree, e.pos) {
        RemoveUnfolds(tree, CORNERS[k], e, max);
      }
      hide WellFormed, Keyed, Items, Valid, Removable, CanRemove, Absent;
      var mergeMe;
      mergeMe, thrown := RemoveBelow(e, k);
      if !thrown && mergeMe {
        mergeParent := Merge();
      } else {
        mergeParent := false;
      }
    }
  }
}
