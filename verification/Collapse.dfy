/**
  Removing an entity and collapsing what became too small. `merge` reads the
  containers of all four children, so it fails when one of them is not a leaf.
*/
module Collapse {
  import opened Geometry
  import opened Trees

  /** `NoContainer` is the access through a null container of a child that is not a leaf. */
  datatype Removal = NoContainer | Removed(tree: Tree, mergeParent: bool)

  predicate ChildrenAreLeaves(t: Tree)
    requires t.Node?
  {
    t.tl.Leaf? && t.tr.Leaf? && t.bl.Leaf? && t.br.Leaf?
  }

  /** One `merge` call on a node; it asks for the parent's merge only after collapsing. */
  function Merge(t: Tree, max: nat): Removal
    requires t.Node?
  {
    if DistinctSize(t) > max then Removed(t, false)
    else if !ChildrenAreLeaves(t) then NoContainer
    else Removed(Leaf(t.box, Items(t)), true)
  }

  function Remove(t: Tree, e: Entity, max: nat): Removal
    requires WellFormed(t) && e in Items(t)
  {
    match t
    case Leaf(box, items) => Removed(Leaf(box, items - {e}), true)
    case Node(box, _, _, _, _) =>
      var c := box.Inner(e.pos).value;
      match Remove(t.At(c), e, max)
      case NoContainer => NoContainer
      case Removed(child, mergeParent) =>
        if mergeParent then Merge(t.With(c, child), max) else Removed(t.With(c, child), false)
  }

  lemma WithKeepsShape(t: Tree, c: Corner, child: Tree, e: Entity)
    requires WellFormed(t) && t.Node? && t.box.Inner(e.pos) == Some(c)
    requires WellFormed(child) && child.box == t.At(c).box && Items(child) == Items(t.At(c)) - {e}
    ensures WellFormed(t.With(c, child))
    ensures Items(t.With(c, child)) == Items(t) - {e}
  {
    hide Box.Inner, Box.Child, Routes;
    assert ChildFits(t.box, t.At(c), c);
    assert ChildFits(t.box, child, c);
    hide WellFormed, Items, ChildFits;
    WithIsWellFormed(t, c, child);
    ItemsOfWith(t, c, child, e);
  }

  lemma MergeKeepsContents(t: Tree, max: nat)
    requires WellFormed(t) && t.Node? && Merge(t, max).Removed?
    ensures var m := Merge(t, max).tree;
      WellFormed(m) && m.box == t.box && Items(m) == Items(t)
  {
    ItemsInBox(t);
  }

  /** Whatever the tree's history, a removal that goes through takes out that entity and nothing else. */
  lemma {:induction false} RemoveContents(t: Tree, e: Entity, max: nat)
    requires WellFormed(t) && e in Items(t) && Remove(t, e, max).Removed?
    ensures var r := Remove(t, e, max).tree;
      WellFormed(r) && r.box == t.box && Items(r) == Items(t) - {e}
  {
    if t.Node? {
      hide Box.Inner, Box.Child, Routes;
      var c := t.box.Inner(e.pos).value;
      RemoveContents(t.At(c), e, max);
      var n := t.With(c, Remove(t.At(c), e, max).tree);
      WithKeepsShape(t, c, n.At(c), e);
      if Remove(t.At(c), e, max).mergeParent {
        MergeKeepsContents(n, max);
      }
    }
  }

  // ------------------------------------------------ when the merge goes through

  predicate SiblingsAreLeaves(t: Tree, c: Corner)
    requires t.Node?
  {
    && (c == TopLeft || t.tl.Leaf?) && (c == TopRight || t.tr.Leaf?)
    && (c == BottomLeft || t.bl.Leaf?) && (c == BottomRight || t.br.Leaf?)
  }

  /**
    Can be checked before the call: on the way down to the entity, a node with a
    subdivided branch to the side keeps more than max distinct positions.
  */
  predicate Collapsible(t: Tree, e: Entity, max: nat)
    requires WellFormed(t) && e in Items(t)
  {
    t.Leaf? ||
    var c := t.box.Inner(e.pos).value;
    && (SiblingsAreLeaves(t, c) || |Positions(Items(t) - {e})| > max)
    && Collapsible(t.At(c), e, max)
  }

  lemma ChildHasFewer(t: Tree, c: Corner)
    requires t.Node?
    ensures Items(t.At(c)) <= Items(t)
  {
  }

  /** A node whose child has just lost the entity. */
  lemma NodeAfterChild(t: Tree, e: Entity, max: nat)
    requires WellFormed(t) && t.Node? && e in Items(t)
    requires Remove(t.At(t.box.Inner(e.pos).value), e, max).Removed?
    ensures var c := t.box.Inner(e.pos).value;
      var n := t.With(c, Remove(t.At(c), e, max).tree);
      && WellFormed(n) && n.box == t.box && Items(n) == Items(t) - {e}
      && DistinctSize(n) == |Positions(Items(t) - {e})| >= |Positions(Items(t.At(c)) - {e})|
      && (ChildrenAreLeaves(n) <==> SiblingsAreLeaves(t, c) && n.At(c).Leaf?)
  {
    hide Remove, Box.Inner, Box.Child, Routes;
    var c := t.box.Inner(e.pos).value;
    RemoveContents(t.At(c), e, max);
    var n := t.With(c, Remove(t.At(c), e, max).tree);
    WithKeepsShape(t, c, n.At(c), e);
    ChildHasFewer(t, c);
    hide WellFormed, Items;
    DistinctCounts(n);
    PositionsMonotone(Items(t.At(c)) - {e}, Items(t) - {e});
  }

  /** The cascade reaches a node exactly when the node becomes small enough. */
  lemma {:induction false} MergeParentIff(t: Tree, e: Entity, max: nat)
    requires WellFormed(t) && e in Items(t) && Remove(t, e, max).Removed?
    ensures var r := Remove(t, e, max);
      (r.mergeParent <==> t.Leaf? || |Positions(Items(t) - {e})| <= max) && (r.mergeParent ==> r.tree.Leaf?)
  {
    if t.Node? {
      var c := t.box.Inner(e.pos).value;
      MergeParentIff(t.At(c), e, max);
      NodeAfterChild(t, e, max);
    }
  }

  /** The exact condition under which a removal runs into a missing container. */
  lemma {:induction false} RemovalGoesThroughIff(t: Tree, e: Entity, max: nat)
    requires WellFormed(t) && e in Items(t)
    ensures Remove(t, e, max).Removed? <==> Collapsible(t, e, max)
  {
    if t.Node? {
      var c := t.box.Inner(e.pos).value;
      RemovalGoesThroughIff(t.At(c), e, max);
      if Remove(t.At(c), e, max).Removed? {
        NodeGoesThroughIff(t, c, e, max);
      }
    }
  }

  lemma NodeGoesThroughIff(t: Tree, c: Corner, e: Entity, max: nat)
    requires WellFormed(t) && t.Node? && e in Items(t) && t.box.Inner(e.pos) == Some(c)
    requires Remove(t.At(c), e, max).Removed?
    ensures Remove(t, e, max).Removed? <==> SiblingsAreLeaves(t, c) || |Positions(Items(t) - {e})| > max
  {
    MergeParentIff(t.At(c), e, max);
    NodeAfterChild(t, e, max);
  }

  // ------------------------------------------------------ tight trees stay tight

  lemma {:induction false} TightIsCollapsible(t: Tree, e: Entity, max: nat)
    requires WellFormed(t) && Tight(t, max) && e in Items(t)
    ensures Collapsible(t, e, max)
  {
    if t.Node? {
      var c := t.box.Inner(e.pos).value;
      TightIsCollapsible(t.At(c), e, max);
      if !SiblingsAreLeaves(t, c) {
        SubdividedSibling(t, c, e, max);
      }
    }
  }

  /** A subdivided sibling alone holds more than max positions, none of them lost. */
  lemma SubdividedSibling(t: Tree, c: Corner, e: Entity, max: nat)
    requires WellFormed(t) && t.Node? && Tight(t, max) && t.box.Inner(e.pos) == Some(c)
    requires !SiblingsAreLeaves(t, c)
    ensures |Positions(Items(t) - {e})| > max
  {
    var d := if c != TopLeft && t.tl.Node? then TopLeft
             else if c != TopRight && t.tr.Node? then TopRight
             else if c != BottomLeft && t.bl.Node? then BottomLeft
             else BottomRight;
    DistinctCounts(t.At(d));
    PositionsMonotone(Items(t.At(d)), Items(t) - {e});
  }

  lemma {:induction false} RemoveKeepsTight(t: Tree, e: Entity, max: nat)
    requires WellFormed(t) && Tight(t, max) && e in Items(t)
    ensures Remove(t, e, max).Removed? && Tight(Remove(t, e, max).tree, max)
  {
    TightIsCollapsible(t, e, max);
    RemovalGoesThroughIff(t, e, max);
    if t.Leaf? {
      PositionsMonotone(t.items - {e}, t.items);
    } else {
      var c := t.box.Inner(e.pos).value;
      RemoveKeepsTight(t.At(c), e, max);
      MergeParentIff(t.At(c), e, max);
      NodeAfterChild(t, e, max);
    }
  }

  lemma BoundedWith(t: Tree, c: Corner, child: Tree, max: nat)
    requires Bounded(t, max) && t.Node? && Bounded(child, max)
    ensures Bounded(t.With(c, child), max)
  {
  }

  lemma {:induction false} RemoveKeepsBounded(t: Tree, e: Entity, max: nat)
    requires WellFormed(t) && Bounded(t, max) && e in Items(t) && Remove(t, e, max).Removed?
    ensures Bounded(Remove(t, e, max).tree, max)
  {
    if t.Leaf? {
      PositionsMonotone(t.items - {e}, t.items);
    } else {
      var c := t.box.Inner(e.pos).value;
      RemoveKeepsBounded(t.At(c), e, max);
      NodeAfterChild(t, e, max);
      BoundedWith(t, c, Remove(t.At(c), e, max).tree, max);
      hide WellFormed, Items, Box.Inner, Box.Child, Routes;
    }
  }

  /** On a canonical tree a removal gives the canonical tree of what is left. */
  lemma RemoveFromCanonical(box: Box, items: set<Entity>, e: Entity, max: nat)
    requires Inside(box, items) && Places(box, items, max) && e in items
    ensures var t := Build(box, items, max);
      && WellFormed(t) && Items(t) == items
      && Remove(t, e, max).Removed? && Remove(t, e, max).tree == Build(box, items - {e}, max)
  {
    var t := Build(box, items, max);
    BuildIsTight(box, items, max);
    RemoveKeepsTight(t, e, max);
    RemoveContents(t, e, max);
    TightIsBuild(Remove(t, e, max).tree, max);
  }

  // ------------------------------------- the cascade through the parent pointers

  /** One step of the way from the root: a node and the child the search went to. */
  datatype Step = Step(node: Tree, child: Corner)

  ghost predicate IsPath(path: seq<Step>) {
    forall s <- path :: s.node.Node?
  }

  /** Puts a changed subtree back under its ancestors. */
  function Plug(t: Tree, path: seq<Step>): Tree
    requires IsPath(path)
    decreases |path|
  {
    if path == [] then t
    else
      var s := path[|path| - 1];
      Plug(s.node.With(s.child, t), path[..|path| - 1])
  }

  /** `m_parent->merge()`: climbs until a node stays above max or the root is passed. */
  function MergeParents(t: Tree, path: seq<Step>, max: nat): Option<Tree>
    requires IsPath(path)
    decreases |path|
  {
    if path == [] then Some(t)
    else
      var s := path[|path| - 1];
      var n := s.node.With(s.child, t);
      var above := path[..|path| - 1];
      if DistinctSize(n) > max then Some(Plug(n, above))
      else if !ChildrenAreLeaves(n) then None
      else MergeParents(Leaf(n.box, Items(n)), above, max)
  }

  /** `remove` as the source drives it: down to the leaf, then up along the parents. */
  function RemoveThroughParents(t: Tree, path: seq<Step>, e: Entity, max: nat): Option<Tree>
    requires WellFormed(t) && e in Items(t) && IsPath(path)
    decreases t
  {
    match t
    case Leaf(box, items) => MergeParents(Leaf(box, items - {e}), path, max)
    case Node(box, _, _, _, _) =>
      var c := box.Inner(e.pos).value;
      RemoveThroughParents(t.At(c), path + [Step(t, c)], e, max)
  }

  function Resume(r: Removal, path: seq<Step>, max: nat): Option<Tree>
    requires IsPath(path)
  {
    match r
    case NoContainer => None
    case Removed(t, mergeParent) => if mergeParent then MergeParents(t, path, max) else Some(Plug(t, path))
  }

  lemma {:induction false} ClimbingIsReturning(t: Tree, path: seq<Step>, e: Entity, max: nat)
    requires WellFormed(t) && e in Items(t) && IsPath(path)
    ensures RemoveThroughParents(t, path, e, max) == Resume(Remove(t, e, max), path, max)
    decreases t
  {
    if t.Node? {
      var c := t.box.Inner(e.pos).value;
      var down := path + [Step(t, c)];
      ClimbingIsReturning(t.At(c), down, e, max);
      hide WellFormed, Items, Box.Inner, Box.Child, Merge;
      assert down[|down| - 1] == Step(t, c) && down[..|down| - 1] == path;
    }
  }

  /** Climbing parent pointers from the leaf does what merging on the way back out does. */
  lemma CascadeRefinesRemove(t: Tree, e: Entity, max: nat)
    requires WellFormed(t) && e in Items(t)
    ensures RemoveThroughParents(t, [], e, max)
         == match Remove(t, e, max) { case NoContainer => None case Removed(r, _) => Some(r) }
  {
    ClimbingIsReturning(t, [], e, max);
  }
}
