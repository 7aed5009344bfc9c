/**
  When an insertion finds a child for every entity it has to pass on. A full leaf is
  split even when the new entity stands where another one stands, so with repeated
  positions it depends on the order in which a leaf is filled whether it is split.
*/
module Placing {
  import opened Geometry
  import opened Trees
  import opened Containers

  /** Positions are pairwise distinct. */
  ghost predicate Scattered(items: set<Entity>) {
    forall a, b :: a in items && b in items && a.pos == b.pos ==> a == b
  }

  // ------------------------------------------------------------------ counting

  lemma OneMorePosition(items: set<Entity>, e: Entity)
    ensures |Positions(items)| <= |Positions(items + {e})| <= |Positions(items)| + 1
    ensures e.pos !in Positions(items) ==> |Positions(items + {e})| == |Positions(items)| + 1
  {
    PositionsUnion(items, {e});
    assert Positions({e}) == {e.pos};
    if e.pos in Positions(items) {
      assert Positions(items) + {e.pos} == Positions(items);
    } else {
      SizeOfUnion(Positions(items), {e.pos});
    }
  }

  lemma FreshPosition(items: set<Entity>, e: Entity)
    requires Scattered(items + {e}) && e !in items
    ensures e.pos !in Positions(items)
  {
    forall a | a in items ensures a.pos != e.pos {
      assert a in items + {e} && e in items + {e};
    }
  }

  lemma ScatteredFewer(fewer: set<Entity>, items: set<Entity>)
    requires Scattered(items) && fewer <= items
    ensures Scattered(fewer)
  {
  }

  /** There are no more positions than entities, and as many exactly when no two share one. */
  lemma {:induction false} PositionsAreCounted(items: set<Entity>)
    ensures |Positions(items)| <= |items|
    ensures Scattered(items) ==> |Positions(items)| == |items|
    decreases |items|
  {
    if items == {} {
      assert Positions(items) == {};
    } else {
      var e :| e in items;
      var rest := items - {e};
      assert rest + {e} == items;
      PositionsAreCounted(rest);
      OneMorePosition(rest, e);
      if Scattered(items) {
        ScatteredFewer(rest, items);
        FreshPosition(rest, e);
      }
    }
  }

  // ---------------------------------------------------------- splits that can come

  /** In whatever order they are put into a leaf, it is not split. */
  predicate NeverSplit(items: set<Entity>, max: nat) {
    |Positions(items)| < max || (|Positions(items)| == max && |items| == max)
  }

  /** In whatever order they are put into a new leaf, all of them are stored. */
  ghost predicate Settles(box: Box, items: set<Entity>, max: nat)
    decreases box.width, 1
  {
    NeverSplit(items, max) || !box.CanSubdivide() || SettlesBelow(box, items, max)
  }

  ghost predicate SettlesBelow(box: Box, items: set<Entity>, max: nat)
    requires box.CanSubdivide()
    decreases box.width, 0
  {
    && (forall e <- items :: box.Inner(e.pos).Some?)
    && forall c: Corner :: Settles(box.Child(c), Routed(box, items, c), max)
  }

  lemma NeverSplitFewer(fewer: set<Entity>, items: set<Entity>, max: nat)
    requires NeverSplit(items, max) && fewer <= items
    ensures NeverSplit(fewer, max)
  {
    PositionsMonotone(fewer, items);
    PositionsAreCounted(fewer);
    SubsetSize(fewer, items);
  }

  lemma {:induction false} SettlesFewer(box: Box, fewer: set<Entity>, items: set<Entity>, max: nat)
    requires Settles(box, items, max) && fewer <= items
    ensures Settles(box, fewer, max)
    decreases box.width
  {
    if NeverSplit(items, max) {
      NeverSplitFewer(fewer, items, max);
    } else if box.CanSubdivide() {
      forall c: Corner ensures Settles(box.Child(c), Routed(box, fewer, c), max) {
        RoutedFewer(box, fewer, items, c);
        assert Settles(box.Child(c), Routed(box, items, c), max);
        SettlesFewer(box.Child(c), Routed(box, fewer, c), Routed(box, items, c), max);
      }
    }
  }

  /** With distinct positions the order does not matter, and what settles is what building places. */
  lemma {:induction false} SettlesIffPlaces(box: Box, items: set<Entity>, max: nat)
    requires Scattered(items)
    ensures Settles(box, items, max) <==> Places(box, items, max)
    decreases box.width
  {
    PositionsAreCounted(items);
    if box.CanSubdivide() {
      forall c: Corner
        ensures Settles(box.Child(c), Routed(box, items, c), max) <==> Places(box.Child(c), Routed(box, items, c), max)
      {
        ScatteredFewer(Routed(box, items, c), items);
        SettlesIffPlaces(box.Child(c), Routed(box, items, c), max);
      }
    }
  }

  lemma {:induction false} HoldsSettles(box: Box, items: set<Entity>, max: nat)
    requires Holds(box, items)
    ensures Settles(box, items, max)
    decreases box.width, 1
  {
    if box.CanSubdivide() {
      HoldsSettlesBelow(box, items, max);
    }
  }

  lemma {:induction false} HoldsSettlesBelow(box: Box, items: set<Entity>, max: nat)
    requires Holds(box, items) && box.CanSubdivide()
    ensures SettlesBelow(box, items, max)
    decreases box.width, 0
  {
    forall e | e in items ensures box.Inner(e.pos).Some? {
      RoutesBelow(box, e.pos);
    }
    forall c: Corner ensures Settles(box.Child(c), Routed(box, items, c), max) {
      forall e | e in Routed(box, items, c) ensures Routes(box.Child(c), e.pos) {
        RoutesBelow(box, e.pos);
      }
      HoldsSettles(box.Child(c), Routed(box, items, c), max);
    }
  }

  /** A leaf that is split is one that some order of its contents would have split. */
  lemma FullIsSplit(items: set<Entity>, e: Entity, max: nat)
    requires |Positions(items)| >= max && e !in items
    ensures !NeverSplit(items + {e}, max)
  {
    OneMorePosition(items, e);
    PositionsAreCounted(items);
    assert |items + {e}| == |items| + 1;
  }

  // ------------------------------------------------------------------ insertions

  /** Every step of an insertion finds its child: on the way down, and when a full leaf is passed on. */
  ghost predicate Finds(t: Tree, e: Entity, max: nat)
    decreases t
  {
    match t
    case Leaf(box, items) =>
      |Positions(items)| < max || !box.CanSubdivide() || SettlesBelow(box, items + {e}, max)
    case Node(box, _, _, _, _) =>
      match box.Inner(e.pos)
      case None => false
      case Some(c) => Finds(t.At(c), e, max)
  }

  /** No square was split that some order of its present contents would not have split. */
  ghost predicate Earned(t: Tree, max: nat) {
    match t
    case Leaf(_, _) => true
    case Node(_, tl, tr, bl, br) =>
      !NeverSplit(Items(t), max) && Earned(tl, max) && Earned(tr, max) && Earned(bl, max) && Earned(br, max)
  }

  lemma EarnedWith(t: Tree, c: Corner, child: Tree, max: nat)
    requires t.Node? && Earned(t, max) && Earned(child, max) && Items(t) <= Items(t.With(c, child))
    ensures Earned(t.With(c, child), max)
  {
    if NeverSplit(Items(t.With(c, child)), max) {
      NeverSplitFewer(Items(t), Items(t.With(c, child)), max);
    }
  }

  lemma {:induction false} TightIsEarned(t: Tree, max: nat)
    requires WellFormed(t) && Tight(t, max)
    ensures Earned(t, max)
  {
    if t.Node? {
      DistinctCounts(t);
      TightIsEarned(t.tl, max);
      TightIsEarned(t.tr, max);
      TightIsEarned(t.bl, max);
      TightIsEarned(t.br, max);
    }
  }

  lemma NodeParts(t: Tree, c: Corner, e: Entity, max: nat)
    requires WellFormed(t) && t.Node?
    ensures t.box.CanSubdivide() && WellFormed(t.At(c)) && t.At(c).box == t.box.Child(c)
    ensures Items(t.At(c)) <= Items(t) && (Tight(t, max) ==> Tight(t.At(c), max))
    ensures Earned(t, max) ==> !NeverSplit(Items(t), max) && Earned(t.At(c), max)
  {
  }

  lemma FindsBelow(t: Tree, e: Entity, max: nat)
    requires t.Node?
    ensures Finds(t, e, max) <==> t.box.Inner(e.pos).Some? && Finds(t.At(t.box.Inner(e.pos).value), e, max)
  {
  }

  lemma RoutedOneMore(t: Tree, c: Corner, e: Entity)
    requires WellFormed(t) && t.Node?
    ensures Routed(t.box, Items(t) + {e}, c) == Items(t.At(c)) + if t.box.Inner(e.pos) == Some(c) then {e} else {}
  {
    ChildrenPartition(t, c);
  }

  /** What settles finds its children in any tree that was filled in some order. */
  lemma {:induction false} EarnedFinds(t: Tree, e: Entity, max: nat)
    requires WellFormed(t) && Earned(t, max) && e !in Items(t)
    requires Settles(t.box, Items(t) + {e}, max)
    ensures Finds(t, e, max)
  {
    if t.Leaf? {
      PositionsAreCounted(t.items);
      assert |t.items + {e}| == |t.items| + 1;
      OneMorePosition(t.items, e);
    } else {
      var more := Items(t) + {e};
      NodeParts(t, TopLeft, e, max);
      hide Earned, WellFormed, Items, Finds, NeverSplit, Box.Inner, Box.Child, Box.CanSubdivide;
      if NeverSplit(more, max) {
        NeverSplitFewer(Items(t), more, max);
      }
      assert SettlesBelow(t.box, more, max) && e in more;
      var c := t.box.Inner(e.pos).value;
      NodeParts(t, c, e, max);
      RoutedOneMore(t, c, e);
      assert Settles(t.box.Child(c), Routed(t.box, more, c), max);
      hide Settles, SettlesBelow;
      EarnedFinds(t.At(c), e, max);
      FindsBelow(t, e, max);
    }
  }

  /** An insertion into a tight tree finds its children exactly when building the larger tree does. */
  lemma {:induction false} FindsIffPlaces(t: Tree, e: Entity, max: nat)
    requires WellFormed(t) && Tight(t, max) && e !in Items(t) && Scattered(Items(t) + {e})
    ensures Finds(t, e, max) <==> Places(t.box, Items(t) + {e}, max)
  {
    if Places(t.box, Items(t) + {e}, max) {
      SettlesIffPlaces(t.box, Items(t) + {e}, max);
      TightIsEarned(t, max);
      EarnedFinds(t, e, max);
    } else if Finds(t, e, max) {
      PlacesIfFound(t, e, max);
    }
  }

  lemma SettledBelowIsPlaced(box: Box, items: set<Entity>, max: nat)
    requires box.CanSubdivide() && SettlesBelow(box, items, max) && Scattered(items)
    ensures PlacesBelow(box, items, max)
  {
    forall c: Corner ensures Places(box.Child(c), Routed(box, items, c), max) {
      assert Settles(box.Child(c), Routed(box, items, c), max);
      ScatteredFewer(Routed(box, items, c), items);
      SettlesIffPlaces(box.Child(c), Routed(box, items, c), max);
    }
  }

  lemma {:induction false} PlacesIfFound(t: Tree, e: Entity, max: nat)
    requires WellFormed(t) && Tight(t, max) && e !in Items(t) && Scattered(Items(t) + {e})
    requires Finds(t, e, max)
    ensures Places(t.box, Items(t) + {e}, max)
    decreases t, 1
  {
    if t.Leaf? {
      OneMorePosition(t.items, e);
      if t.box.CanSubdivide() && |Positions(t.items)| >= max {
        SettledBelowIsPlaced(t.box, t.items + {e}, max);
      }
    } else {
      NodeParts(t, TopLeft, e, max);
      NodePlacesIfFound(t, e, max);
    }
  }

  lemma {:induction false} NodePlacesIfFound(t: Tree, e: Entity, max: nat)
    requires WellFormed(t) && Tight(t, max) && e !in Items(t) && Scattered(Items(t) + {e})
    requires t.Node? && t.box.CanSubdivide() && Finds(t, e, max)
    ensures PlacesBelow(t.box, Items(t) + {e}, max)
    decreases t, 0
  {
    ItemsAreRouted(t);
    FindsBelow(t, e, max);
    hide WellFormed, Tight, Finds, Items, Box.Inner, Box.Child, Places;
    var d := t.box.Inner(e.pos).value;
    NodeParts(t, d, e, max);
    ScatteredFewer(Items(t.At(d)) + {e}, Items(t) + {e});
    hide Scattered;
    PlacesIfFound(t.At(d), e, max);
    forall c: Corner ensures Places(t.box.Child(c), Routed(t.box, Items(t) + {e}, c), max) {
      ChildIsPlaced(t, c, e, max);
    }
  }

  lemma ChildIsPlaced(t: Tree, c: Corner, e: Entity, max: nat)
    requires WellFormed(t) && Tight(t, max) && t.Node?
    requires t.box.Inner(e.pos) == Some(c) ==> Places(t.At(c).box, Items(t.At(c)) + {e}, max)
    ensures Places(t.box.Child(c), Routed(t.box, Items(t) + {e}, c), max)
  {
    hide Box.Inner, Box.Child, Places;
    NodeParts(t, c, e, max);
    RoutedOneMore(t, c, e);
    hide WellFormed, Tight, Items;
    if t.box.Inner(e.pos) != Some(c) {
      TightIsPlaced(t.At(c), max);
      assert Items(t.At(c)) + {} == Items(t.At(c));
    }
  }

  /** Where everything can be routed at every depth, every insertion finds its way. */
  lemma {:induction false} HoldsFinds(t: Tree, e: Entity, max: nat)
    requires WellFormed(t) && Holds(t.box, Items(t) + {e})
    ensures Finds(t, e, max)
  {
    if t.Leaf? {
      if t.box.CanSubdivide() {
        HoldsSettlesBelow(t.box, t.items + {e}, max);
      }
    } else {
      NodeParts(t, TopLeft, e, max);
      RoutesBelow(t.box, e.pos);
      var c := t.box.Inner(e.pos).value;
      NodeParts(t, c, e, max);
      RoutedOneMore(t, c, e);
      hide WellFormed, Finds, Items, Routes, Box.Inner, Box.Child, Box.CanSubdivide;
      forall x | x in Routed(t.box, Items(t) + {e}, c) ensures Routes(t.box.Child(c), x.pos) {
        RoutesBelow(t.box, x.pos);
      }
      HoldsFinds(t.At(c), e, max);
      FindsBelow(t, e, max);
    }
  }
}
