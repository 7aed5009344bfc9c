/**
  One map of the world: a quadtree of characters, and the events it reports to the
  players around when a character is added, removed or moved.
*/
module WorldMaps {
  import opened Geometry
  import opened Trees
  import opened Collapse
  import opened Containers
  import opened Placing
  import opened QuadTree
  import opened Sight

  // ------------------------------------------------------- reports from neighbours

  type Report = Entity -> seq<Event>

  /** The event concerns the neighbour with key a and the character with key k. */
  predicate About(ev: Event, a: Key, k: Key) {
    (ev.viewer == a && ev.subject == k) || (ev.viewer == k && ev.subject == a)
  }

  /** A report about a neighbour names it and the character k, each way at most once. */
  ghost predicate ReportsOn(mk: Report, k: Key) {
    forall q: Entity :: q.key != k ==> Once(mk(q)) && forall ev <- mk(q) :: About(ev, q.key, k)
  }

  ghost function AllOf(es: set<Entity>, mk: Report): set<Event> {
    set q, ev | q in es && ev in mk(q) :: ev
  }

  lemma AllOfUnion(a: set<Entity>, b: set<Entity>, mk: Report)
    ensures AllOf(a + b, mk) == AllOf(a, mk) + AllOf(b, mk)
  {
    forall ev | ev in AllOf(a, mk) + AllOf(b, mk) ensures ev in AllOf(a + b, mk) {
      if ev in AllOf(a, mk) {
        var q :| q in a && ev in mk(q);
        assert q in a + b;
      } else {
        var q :| q in b && ev in mk(q);
        assert q in a + b;
      }
    }
  }

  lemma ElementsAppend(a: seq<Event>, b: seq<Event>)
    ensures Elements(a + b) == Elements(a) + Elements(b)
  {
  }

  /** Reports on different neighbours never repeat a pair. */
  lemma OnceAcross(a: set<Entity>, b: set<Entity>, mk: Report, k: Key, xs: seq<Event>, ys: seq<Event>)
    requires ReportsOn(mk, k) && Keyed(a + b) && a !! b && forall q <- a + b :: q.key != k
    requires Reported(xs, AllOf(a, mk)) && Reported(ys, AllOf(b, mk))
    ensures Reported(xs + ys, AllOf(a + b, mk))
  {
    ElementsAppend(xs, ys);
    AllOfUnion(a, b, mk);
    forall x, y | x in xs && y in ys ensures x.viewer != y.viewer || x.subject != y.subject {
      assert x in Elements(xs) && y in Elements(ys);
      var p :| p in a && x in mk(p);
      var q :| q in b && y in mk(q);
      assert p in a + b && q in a + b && p.key != q.key;
      assert About(x, p.key, k) && About(y, q.key, k);
    }
  }

  lemma AddReports(e: Entity, sight: nat, live: set<Entity>)
    ensures ReportsOn(q => ReportAdd(q, e, sight), e.key)
    ensures AllOf(live, q => ReportAdd(q, e, sight)) == AddEvents(live, e, sight)
  {
    var mk: Report := q => ReportAdd(q, e, sight);
    forall ev ensures ev in AllOf(live, mk) <==> ev in AddEvents(live, e, sight) {
      assert forall q :: q in live && ev in ReportAdd(q, e, sight) ==> ev in mk(q);
    }
  }

  lemma RemoveReports(e: Entity, sight: nat, live: set<Entity>)
    ensures ReportsOn(q => ReportRemove(q, e, sight), e.key)
    ensures AllOf(live, q => ReportRemove(q, e, sight)) == RemoveEvents(live, e, sight)
  {
    var mk: Report := q => ReportRemove(q, e, sight);
    forall ev ensures ev in AllOf(live, mk) <==> ev in RemoveEvents(live, e, sight) {
      assert forall q :: q in live && ev in ReportRemove(q, e, sight) ==> ev in mk(q);
    }
  }

  lemma MoveIsLeaveAndEnter(e: Entity, f: Entity, sight: nat, live: set<Entity>)
    ensures AllOf(live, q => ReportLeave(q, e, f, sight)) + AllOf(live, q => ReportEnter(q, e, f, sight))
         == MoveEvents(live, e, f, sight)
  {
    var leave: Report := q => ReportLeave(q, e, f, sight);
    var enter: Report := q => ReportEnter(q, e, f, sight);
    forall ev ensures ev in AllOf(live, leave) + AllOf(live, enter) <==> ev in MoveEvents(live, e, f, sight) {
      assert forall q :: q in live && ev in ReportMove(q, e, f, sight) ==> ev in leave(q) || ev in enter(q);
      assert forall q :: q in live && ev in leave(q) ==> ev in ReportMove(q, e, f, sight);
      assert forall q :: q in live && ev in enter(q) ==> ev in ReportMove(q, e, f, sight);
    }
  }

  lemma LeaveAndEnterApart(e: Entity, f: Entity, sight: nat, p: Entity, q: Entity, x: Event, y: Event)
    requires f.key == e.key && p.key != e.key && q.key != e.key && (p.key == q.key ==> p == q)
    requires x in ReportLeave(p, e, f, sight) && y in ReportEnter(q, e, f, sight)
    ensures x.viewer != y.viewer || x.subject != y.subject
  {
    assert About(x, p.key, e.key) && About(y, q.key, e.key);
  }

  /** What the two queries of a move report is together what a move reports. */
  lemma MoveReports(e: Entity, f: Entity, sight: nat, live: set<Entity>, xs: seq<Event>, ys: seq<Event>)
    requires f.key == e.key && Keyed(live) && FreshKey(live, e)
    requires Reported(xs, AllOf(live, q => ReportLeave(q, e, f, sight)))
    requires Reported(ys, AllOf(live, q => ReportEnter(q, e, f, sight)))
    ensures Reported(xs + ys, MoveEvents(live, e, f, sight))
  {
    MoveIsLeaveAndEnter(e, f, sight, live);
    ElementsAppend(xs, ys);
    forall x, y | x in xs && y in ys ensures x.viewer != y.viewer || x.subject != y.subject {
      assert x in Elements(xs) && y in Elements(ys);
      var p :| p in live && x in ReportLeave(p, e, f, sight);
      var q :| q in live && y in ReportEnter(q, e, f, sight);
      LeaveAndEnterApart(e, f, sight, p, q, x, y);
    }
  }

  lemma LeaveReportsOn(e: Entity, f: Entity, sight: nat)
    ensures ReportsOn(q => ReportLeave(q, e, f, sight), e.key)
  {
  }

  lemma EnterReportsOn(e: Entity, f: Entity, sight: nat)
    ensures ReportsOn(q => ReportEnter(q, e, f, sight), e.key)
  {
  }

  /** Reports that are empty out of range can be collected from a query. */
  lemma InRangeIsEnough(found: set<Entity>, live: set<Entity>, mk: Report, p: Point, radius: nat)
    requires found <= live && Within(found, p, radius) == Within(live, p, radius)
    requires forall q: Entity :: Distance(q.pos, p) > radius ==> mk(q) == []
    ensures AllOf(found, mk) == AllOf(live, mk)
  {
    forall ev | ev in AllOf(live, mk) ensures ev in AllOf(found, mk) {
      var q :| q in live && ev in mk(q);
      assert q in Within(live, p, radius);
      assert q in found;
    }
  }

  const KINDS := [Player, Npc, Monster, Loot]

  function OfKind(es: set<Entity>, kind: Kind): set<Entity> {
    set q | q in es && q.key.kind == kind
  }

  function OfKinds(es: set<Entity>, n: nat): set<Entity>
    requires n <= 4
  {
    set q | q in es && q.key.kind in KINDS[..n]
  }

  lemma NextKind(es: set<Entity>, n: nat)
    requires n < 4
    ensures OfKinds(es, n + 1) == OfKinds(es, n) + OfKind(es, KINDS[n])
    ensures OfKinds(es, n) !! OfKind(es, KINDS[n])
    ensures OfKinds(es, 0) == {} && OfKinds(es, 4) == es
  {
    assert KINDS[..n + 1] == KINDS[..n] + [KINDS[n]];
    forall q | q in es ensures q.key.kind in KINDS {
      match q.key.kind
      case Player => assert KINDS[0] == Player;
      case Npc => assert KINDS[1] == Npc;
      case Monster => assert KINDS[2] == Monster;
      case Loot => assert KINDS[3] == Loot;
    }
    assert KINDS[..4] == KINDS;
  }

  /** The reports of one kind of characters in one container. */
  method ReportKind(es: set<Entity>, mk: Report, ghost k: Key) returns (events: seq<Event>)
    requires ReportsOn(mk, k) && Keyed(es) && forall q <- es :: q.key != k
    ensures Reported(events, AllOf(es, mk))
  {
    events := [];
    var todo := es;
    assert es - todo == {};
    while todo != {}
      invariant todo <= es
      invariant Reported(events, AllOf(es - todo, mk))
    {
      var q :| q in todo;
      assert AllOf({q}, mk) == Elements(mk(q));
      OnceAcross(es - todo, {q}, mk, k, events, mk(q));
      events := events + mk(q);
      assert es - todo + {q} == es - (todo - {q});
      todo := todo - {q};
    }
    assert es - todo == es;
  }

  /** The callback of a query: players first, then npcs, monsters and loot. */
  method ReportContainer(es: set<Entity>, mk: Report, ghost k: Key) returns (events: seq<Event>)
    requires ReportsOn(mk, k) && Keyed(es) && forall q <- es :: q.key != k
    ensures Reported(events, AllOf(es, mk))
  {
    events := [];
    NextKind(es, 0);
    for n := 0 to 4
      invariant Reported(events, AllOf(OfKinds(es, n), mk))
    {
      NextKind(es, n);
      var more := ReportKind(OfKind(es, KINDS[n]), mk, k);
      OnceAcross(OfKinds(es, n), OfKind(es, KINDS[n]), mk, k, events, more);
      events := events + more;
    }
  }

  lemma FlattenNext(sets: seq<set<Entity>>, n: nat)
    requires n < |sets| && Disjoint(sets)
    ensures Flatten(sets[..n + 1]) == Flatten(sets[..n]) + sets[n]
    ensures Flatten(sets[..n]) !! sets[n]
    ensures Flatten(sets[..n + 1]) <= Flatten(sets)
  {
    assert sets[..n + 1] == sets[..n] + [sets[n]];
    assert Flatten([sets[n]]) == sets[n];
    FlattenAppend(sets[..n], [sets[n]]);
    FlattenDisjoint(sets[..n], sets[n]);
    assert sets == sets[..n + 1] + sets[n + 1..];
    FlattenAppend(sets[..n + 1], sets[n + 1..]);
  }

  lemma {:induction false} FlattenDisjoint(sets: seq<set<Entity>>, other: set<Entity>)
    requires forall i | 0 <= i < |sets| :: sets[i] !! other
    ensures Flatten(sets) !! other
  {
    if sets != [] {
      FlattenDisjoint(sets[1..], other);
    }
  }

  /** The reports of everything a query found. */
  method ReportFound(found: seq<set<Entity>>, mk: Report, ghost k: Key) returns (events: seq<Event>)
    requires ReportsOn(mk, k) && Disjoint(found) && Keyed(Flatten(found)) && forall q <- Flatten(found) :: q.key != k
    ensures Reported(events, AllOf(Flatten(found), mk))
  {
    events := [];
    for n := 0 to |found|
      invariant Reported(events, AllOf(Flatten(found[..n]), mk))
    {
      FlattenNext(found, n);
      var more := ReportContainer(found[n], mk, k);
      OnceAcross(Flatten(found[..n]), found[n], mk, k, events, more);
      events := events + more;
    }
    assert found[..|found|] == found;
  }

  // ------------------------------------------------------------------------- the map

  class WorldMap {
    const sight: nat
    const quad: Quad
    var entities: map<Key, Entity>

    /** The tree is in order, whatever the register says. */
    ghost predicate Sound()
      reads quad, quad.repr
      ensures Sound() ==> this !in quad.repr && quad in quad.repr
    {
      this !in quad.repr && quad.Valid() && WellFormed(quad.tree) && Bounded(quad.tree, quad.max)
    }

    ghost predicate Valid()
      reads this, quad, quad.repr
    {
      Sound() && Listed(entities, Items(quad.tree), quad.box)
    }

    /** The characters in the tree. */
    ghost function Live(): set<Entity>
      reads quad
    {
      Items(quad.tree)
    }

    /**
      With the strays: characters that walked out of the map, which only the register still
      has. Of a character that was refused and then walked in, only the tree knows.
    */
    ghost function All(): set<Entity>
      reads this, quad
    {
      Live() + entities.Values
    }

    lemma LiveIsKeyed()
      requires Valid()
      ensures Keyed(All()) && Keyed(Live()) && Live() <= All() && quad in quad.repr
    {
    }

    constructor (width: int, sight: nat, max: nat)
      ensures Valid() && fresh(quad.repr) && quad.tree == Leaf(quad.box, {}) && All() == {} && entities == map[]
      ensures this.sight == sight && quad.box == Box(0, 0, width) && quad.max == max
    {
      this.sight := sight;
      quad := new Quad(Box(0, 0, width), max);
      entities := map[];
      new;
      assert Positions({}) == {};
    }

    /** Queries around a point and reports on whoever is near enough. */
    method ReportAround(p: Point, mk: Report, ghost k: Key) returns (events: seq<Event>)
      requires quad.Valid() && WellFormed(quad.tree) && Keyed(Live()) && forall q <- Live() :: q.key != k
      requires ReportsOn(mk, k) && forall q: Entity :: Distance(q.pos, p) > sight ==> mk(q) == []
      ensures Reported(events, AllOf(Live(), mk))
    {
      var found := quad.Query(p, sight);
      QueryIsDisjoint(quad.tree, p, sight);
      QueryIsExact(quad.tree, p, sight);
      InRangeIsEnough(Flatten(found), Live(), mk, p, sight);
      events := ReportFound(found, mk, k);
    }

    /** The tree takes a character; the register is not touched. */
    method PutIn(e: Entity) returns (inserted: bool)
      requires Sound() && FreshKey(Live(), e) && (quad.box.Contains(e.pos) ==> Finds(quad.tree, e, quad.max))
      modifies quad.repr
      ensures Sound() && fresh(quad.repr - old(quad.repr)) && inserted == quad.box.Contains(e.pos)
      ensures Live() == if inserted then old(Live()) + {e} else old(Live())
      ensures Tight(old(quad.tree), quad.max) && Scattered(Live()) ==> Tight(quad.tree, quad.max)
    {
      assert quad in quad.repr;
      hide Quad.Valid, WellFormed, Bounded, Tight, Scattered, Items, Grown, Finds, Earned;
      inserted := quad.Insert(e);
    }

    lemma IsValid()
      requires Sound() && Listed(entities, Live(), quad.box)
      ensures Valid()
    {
    }

    lemma BeforeAddition(e: Entity)
      requires Valid() && FreshKey(All(), e)
      ensures Sound() && Keyed(Live()) && FreshKey(Live(), e) && Listed(entities, Live(), quad.box)
      ensures entities[e.key := e].Values == entities.Values + {e}
      ensures quad.box.Contains(e.pos) ==> Listed(entities[e.key := e], Live() + {e}, quad.box)
    {
      LiveIsKeyed();
      ListedMore(entities, Live(), quad.box, e);
    }

    lemma BeforeRemoval(e: Entity)
      requires Valid() && Removable(e)
      ensures Sound() && Keyed(Live() - {e}) && FreshKey(Live() - {e}, e) && FreshKey(All() - {e}, e)
      ensures (entities - {e.key}).Values == entities.Values - {e}
      ensures Listed(entities - {e.key}, Live() - {e}, quad.box) && Listed(entities, Live(), quad.box)
      ensures Lost(e) ==> entities - {e.key} == entities && Live() - {e} == Live()
    {
      ListedLess(entities, Live(), quad.box, e);
    }

    lemma BeforeMove(e: Entity, f: Entity)
      requires Valid() && Removable(e) && f.key == e.key
      ensures var now := if e.key in entities then entities[e.key := f] else entities;
        && now.Values == entities.Values - {e} + (if e in entities.Values then {f} else {})
        && Listed(now, Live() - {e} + (if quad.box.Contains(f.pos) then {f} else {}), quad.box)
    {
      ListedMoved(entities, Live(), quad.box, e, f);
    }

    method ReportNew(e: Entity) returns (events: seq<Event>)
      requires Sound() && Keyed(Live()) && FreshKey(Live(), e)
      ensures Reported(events, AddEvents(Live(), e, sight))
    {
      AddReports(e, sight, Live());
      events := ReportAround(e.pos, q => ReportAdd(q, e, sight), e.key);
    }

    /** A character joins the map and everybody near it is told, the character's own client included. */
    method Add(e: Entity) returns (events: seq<Event>, inserted: bool)
      requires Valid() && FreshKey(All(), e) && (quad.box.Contains(e.pos) ==> Finds(quad.tree, e, quad.max))
      modifies this, quad.repr
      ensures Valid() && fresh(quad.repr - old(quad.repr))
      ensures Reported(events, AddEvents(old(Live()), e, sight))
      ensures inserted == quad.box.Contains(e.pos)
      ensures Live() == if inserted then old(Live()) + {e} else old(Live())
      ensures entities == if inserted then old(entities)[e.key := e] else old(entities)
      ensures All() == if inserted then old(All()) + {e} else old(All())
      ensures Tight(old(quad.tree), quad.max) && Scattered(Live()) ==> Tight(quad.tree, quad.max)
    {
      hide Valid, Sound, Tight, Scattered, Items, Finds, Listed, Reported, Keyed, FreshKey;
      BeforeAddition(e);
      events := ReportNew(e);
      inserted := PutIn(e);
      if inserted {
        entities := entities[e.key := e];
      }
      IsValid();
    }

    /**
      A character of the map, or none of it under any id. If its position is on the map,
      it can be taken out of the tree, or nobody stands there.
    */
    ghost predicate Removable(e: Entity)
      reads this, quad
    {
      && (quad.box.Contains(e.pos) ==> CanRemove(quad.tree, e, quad.max))
      && (e in All() || FreshKey(All(), e))
    }

    /** The position is on the map, but the character is not stored: the removal throws. */
    ghost predicate Lost(e: Entity)
      reads quad
    {
      quad.box.Contains(e.pos) && e !in Live()
    }

    /** What the tree will be without the character. */
    ghost function TreeWithout(e: Entity): Tree
      requires Removable(e)
      reads this, quad
    {
      if quad.box.Contains(e.pos) && !Absent(quad.tree, e.pos) then Collapse.Remove(quad.tree, e, quad.max).tree
      else quad.tree
    }

    /** Where the position is on the map, the tree without the character finds a place for it. */
    ghost predicate Room(e: Entity, to: Point)
      requires Removable(e)
      reads this, quad
    {
      quad.box.Contains(to) ==> Finds(TreeWithout(e), e.(pos := to), quad.max)
    }

    lemma WhatIsTakenOut(e: Entity)
      requires Valid() && Removable(e)
      ensures Sound() && Lighter(quad.tree, TreeWithout(e), e, quad.max)
      ensures quad.box.Contains(e.pos) ==> CanRemove(quad.tree, e, quad.max)
      ensures quad.box.Contains(e.pos) ==> (Absent(quad.tree, e.pos) <==> Lost(e))
    {
      if quad.box.Contains(e.pos) {
        RemovalKeeps(quad.tree, e, quad.max);
      } else {
        ItemsInBox(quad.tree);
      }
    }

    /** The tree gives up a character, or throws; the register is not touched. */
    method TakeOut(e: Entity) returns (thrown: bool)
      requires Valid() && Removable(e)
      modifies quad.repr
      ensures Sound() && fresh(quad.repr - old(quad.repr)) && thrown == old(Lost(e))
      ensures thrown ==> quad.tree == old(quad.tree)
      ensures Live() == old(Live()) - {e} && quad.tree == old(TreeWithout(e))
      ensures Tight(old(quad.tree), quad.max) ==> Tight(quad.tree, quad.max)
    {
      WhatIsTakenOut(e);
      hide Valid, Quad.Valid, WellFormed, Bounded, Tight, Items, Collapse.Remove, CanRemove, QuadTree.Removable, Absent;
      var mergeParent;
      mergeParent, thrown := quad.Remove(e);
    }

    method ReportGone(e: Entity) returns (events: seq<Event>)
      requires Sound() && Keyed(Live()) && FreshKey(Live(), e)
      ensures Reported(events, RemoveEvents(Live(), e, sight))
    {
      RemoveReports(e, sight, Live());
      events := ReportAround(e.pos, q => ReportRemove(q, e, sight), e.key);
    }

    /** A character leaves the map; unless it died, everybody near it is told. One that is not stored is left alone. */
    method Remove(e: Entity, death: bool) returns (events: seq<Event>)
      requires Valid() && Removable(e)
      modifies this, quad.repr
      ensures Valid() && fresh(quad.repr - old(quad.repr))
      ensures Live() == old(Live()) - {e} && quad.tree == old(TreeWithout(e))
      ensures entities == old(entities) - {e.key}
      ensures All() == old(All()) - {e} && FreshKey(All(), e)
      ensures if death || old(Lost(e)) then events == [] else Reported(events, RemoveEvents(Live(), e, sight))
      ensures Tight(old(quad.tree), quad.max) ==> Tight(quad.tree, quad.max)
    {
      hide Valid, Sound, Lost, Tight, Items, Reported, Removable, Listed, Keyed, FreshKey, TreeWithout;
      BeforeRemoval(e);
      events := [];
      var thrown := TakeOut(e);
      if !thrown {
        entities := entities - {e.key};
        if !death {
          events := ReportGone(e);
        }
      }
      IsValid();
    }

    /**
      A character walks: out of the tree, two queries, and back in at the new position. The
      register is left alone, so one that walks out of the map stays on it, and one that was
      refused before does not get onto it.
    */
    method Move(e: Entity, dx: int, dy: int) returns (f: Entity, events: seq<Event>)
      requires Valid() && Removable(e) && (Lost(e) || Room(e, Point(e.pos.x + dx, e.pos.y + dy)))
      modifies this, quad.repr
      ensures Valid() && fresh(quad.repr - old(quad.repr))
      ensures old(Lost(e)) ==>
        f == e && events == [] && quad.tree == old(quad.tree) && entities == old(entities)
      ensures !old(Lost(e)) ==>
        && f == e.(pos := Point(e.pos.x + dx, e.pos.y + dy))
        && Live() == old(Live()) - {e} + (if quad.box.Contains(f.pos) then {f} else {})
        && entities.Values == old(entities.Values) - {e} + (if e in old(entities.Values) then {f} else {})
        && All() == old(All()) - {e} + (if quad.box.Contains(f.pos) || e in old(entities.Values) then {f} else {})
        && Reported(events, MoveEvents(old(Live()) - {e}, e, f, sight))
      ensures Tight(old(quad.tree), quad.max) && Scattered(Live()) ==> Tight(quad.tree, quad.max)
    {
      f, events := e.(pos := Point(e.pos.x + dx, e.pos.y + dy)), [];
      hide Valid, Sound, Lost, Tight, Scattered, Items, Reported, Removable, Finds, Listed, Keyed, FreshKey, TreeWithout;
      BeforeRemoval(e);
      BeforeMove(e, f);
      var thrown := TakeOut(e);
      if thrown {
        f := e;
      } else {
        events := Arrive(e, f);
      }
      IsValid();
    }

    /** The second half of a walk. */
    method Arrive(e: Entity, f: Entity) returns (events: seq<Event>)
      requires Sound() && Keyed(Live()) && FreshKey(Live(), e) && f.key == e.key
      requires quad.box.Contains(f.pos) ==> Finds(quad.tree, f, quad.max)
      modifies this, quad.repr
      ensures Sound() && fresh(quad.repr - old(quad.repr))
      ensures Live() == old(Live()) + (if quad.box.Contains(f.pos) then {f} else {})
      ensures entities == if e.key in old(entities) then old(entities)[e.key := f] else old(entities)
      ensures Reported(events, MoveEvents(old(Live()), e, f, sight))
      ensures Tight(old(quad.tree), quad.max) && Scattered(Live()) ==> Tight(quad.tree, quad.max)
    {
      hide Sound, Tight, Scattered, Items, Reported, Finds;
      if e.key in entities {
        entities := entities[e.key := f];
      }
      events := ReportMoved(e, f);
      var inserted := PutIn(f);
    }

    method ReportMoved(e: Entity, f: Entity) returns (events: seq<Event>)
      requires Sound() && Keyed(Live()) && FreshKey(Live(), e) && f.key == e.key
      ensures Reported(events, MoveEvents(Live(), e, f, sight))
    {
      LeaveReportsOn(e, f, sight);
      EnterReportsOn(e, f, sight);
      var left := ReportAround(e.pos, q => ReportLeave(q, e, f, sight), e.key);
      var entered := ReportAround(f.pos, q => ReportEnter(q, e, f, sight), e.key);
      MoveReports(e, f, sight, Live(), left, entered);
      events := left + entered;
    }

    /** Leaves where it is and joins somewhere else on the same map. */
    method Teleport(e: Entity, to: Point) returns (f: Entity, away: seq<Event>, here: seq<Event>)
      requires Valid() && Removable(e) && Room(e, to)
      modifies this, quad.repr
      ensures Valid() && fresh(quad.repr - old(quad.repr)) && f == e.(pos := to)
      ensures Live() == old(Live()) - {e} + if quad.box.Contains(to) then {f} else {}
      ensures All() == old(All()) - {e} + if quad.box.Contains(to) then {f} else {}
      ensures if old(Lost(e)) then away == [] else Reported(away, RemoveEvents(old(Live()) - {e}, e, sight))
      ensures Reported(here, AddEvents(old(Live()) - {e}, f, sight))
      ensures Tight(old(quad.tree), quad.max) && Scattered(Live()) ==> Tight(quad.tree, quad.max)
    {
      hide Valid, Quad.Valid, Tight, Scattered, Removable, Finds, Reported;
      away := Remove(e, false);
      f := e.(pos := to);
      var inserted;
      here, inserted := Add(f);
    }

    /** Every character of the wanted kinds in a circle, once; loot is never visited. */
    method ForEachAround(p: Point, radius: nat, wanted: set<Kind>) returns (around: seq<Entity>)
      requires Valid()
      ensures NoRepeats(around)
      ensures forall e :: e in around <==>
        && e in Live() && e.key.kind in wanted && e.key.kind != Loot
        && (e.pos.x - p.x) * (e.pos.x - p.x) + (e.pos.y - p.y) * (e.pos.y - p.y) < (radius + 1) * (radius + 1)
    {
      around := Around(p, radius, wanted);
      forall e: Entity
        ensures Distance(e.pos, p) <= radius <==>
          (e.pos.x - p.x) * (e.pos.x - p.x) + (e.pos.y - p.y) * (e.pos.y - p.y) < (radius + 1) * (radius + 1)
      {
        WithinRadiusIff(e.pos, p, radius);
      }
    }

    method Around(p: Point, radius: nat, wanted: set<Kind>) returns (around: seq<Entity>)
      requires Valid()
      ensures NoRepeats(around)
      ensures forall e :: e in around <==> e in Within(Live(), p, radius) && e.key.kind in wanted && e.key.kind != Loot
    {
      var found := quad.Query(p, radius);
      QueryIsDisjoint(quad.tree, p, radius);
      QueryIsExact(quad.tree, p, radius);
      around := [];
      for n := 0 to |found|
        invariant NoRepeats(around)
        invariant forall e :: e in around <==> e in Visited(Flatten(found[..n]), p, radius, wanted)
      {
        FlattenNext(found, n);
        var more := VisitContainer(found[n], p, radius, wanted);
        VisitedApart(Flatten(found[..n]), found[n], p, radius, wanted);
        AppendNoRepeats(around, more);
        around := around + more;
      }
      assert found[..|found|] == found;
    }
  }

  /** Two maps that share nothing. */
  ghost predicate Separate(a: WorldMap, b: WorldMap)
    reads a.quad`repr, b.quad`repr
  {
    a != b && a.quad != b.quad && a !in b.quad.repr && b !in a.quad.repr && a.quad.repr !! b.quad.repr
  }

  lemma QuadsApart(a: WorldMap, b: WorldMap)
    requires a.Valid() && b.Valid() && Separate(a, b)
    ensures a.quad !in b.quad.repr && b.quad !in a.quad.repr && a.quad in a.quad.repr && b.quad in b.quad.repr
  {
  }

  method LeaveOther(a: WorldMap, b: WorldMap, e: Entity) returns (away: seq<Event>)
    requires a.Valid() && b.Valid() && Separate(a, b) && a.Removable(e)
    modifies a, a.quad.repr
    ensures a.Valid() && b.Valid() && Separate(a, b) && fresh(a.quad.repr - old(a.quad.repr))
    ensures a.Live() == old(a.Live()) - {e} && a.All() == old(a.All()) - {e}
    ensures if old(a.Lost(e)) then away == [] else Reported(away, RemoveEvents(a.Live(), e, a.sight))
    ensures Tight(old(a.quad.tree), a.quad.max) ==> Tight(a.quad.tree, a.quad.max)
    ensures unchanged(b) && unchanged(b.quad.repr)
  {
    hide WorldMap.Valid, WorldMap.Removable, WorldMap.Lost, Items, Tight, Reported;
    QuadsApart(a, b);
    away := a.Remove(e, false);
  }

  method JoinOther(a: WorldMap, b: WorldMap, f: Entity) returns (here: seq<Event>)
    requires a.Valid() && b.Valid() && Separate(a, b)
    requires FreshKey(b.All(), f) && (b.quad.box.Contains(f.pos) ==> Finds(b.quad.tree, f, b.quad.max))
    modifies b, b.quad.repr
    ensures a.Valid() && b.Valid() && Separate(a, b)
    ensures b.Live() == old(b.Live()) + if b.quad.box.Contains(f.pos) then {f} else {}
    ensures b.All() == old(b.All()) + if b.quad.box.Contains(f.pos) then {f} else {}
    ensures Reported(here, AddEvents(old(b.Live()), f, b.sight))
    ensures Tight(old(b.quad.tree), b.quad.max) && Scattered(b.Live()) ==> Tight(b.quad.tree, b.quad.max)
    ensures unchanged(a) && unchanged(a.quad.repr)
  {
    hide WorldMap.Valid, Finds, Items, Tight, Scattered, FreshKey, Reported;
    QuadsApart(a, b);
    var inserted;
    here, inserted := b.Add(f);
  }

  /** Leaves one map and joins another. */
  method TeleportAcross(a: WorldMap, b: WorldMap, e: Entity, to: Point)
    returns (f: Entity, away: seq<Event>, here: seq<Event>)
    requires a.Valid() && b.Valid() && Separate(a, b) && a.Removable(e)
    requires FreshKey(b.All(), e) && (b.quad.box.Contains(to) ==> Finds(b.quad.tree, e.(pos := to), b.quad.max))
    modifies a, a.quad.repr, b, b.quad.repr
    ensures a.Valid() && b.Valid() && Separate(a, b) && f == e.(pos := to)
    ensures a.Live() == old(a.Live()) - {e} && a.All() == old(a.All()) - {e}
    ensures b.Live() == old(b.Live()) + if b.quad.box.Contains(to) then {f} else {}
    ensures b.All() == old(b.All()) + if b.quad.box.Contains(to) then {f} else {}
    ensures if old(a.Lost(e)) then away == [] else Reported(away, RemoveEvents(a.Live(), e, a.sight))
    ensures Reported(here, AddEvents(old(b.Live()), f, b.sight))
    ensures Tight(old(a.quad.tree), a.quad.max) ==> Tight(a.quad.tree, a.quad.max)
    ensures Tight(old(b.quad.tree), b.quad.max) && Scattered(b.Live()) ==> Tight(b.quad.tree, b.quad.max)
  {
    QuadsApart(a, b);
    hide WorldMap.Valid, WorldMap.Removable, WorldMap.Lost, Finds, Reported, Items, Separate, Tight, Scattered;
    away := LeaveOther(a, b, e);
    f := e.(pos := to);
    QuadsApart(a, b);
    here := JoinOther(a, b, f);
  }

  ghost predicate NoRepeats(es: seq<Entity>) {
    forall i, j | 0 <= i < j < |es| :: es[i] != es[j]
  }

  function Visited(es: set<Entity>, p: Point, radius: nat, wanted: set<Kind>): set<Entity> {
    set e | e in es && Distance(e.pos, p) <= radius && e.key.kind in wanted && e.key.kind != Loot
  }

  lemma AppendNoRepeats(a: seq<Entity>, b: seq<Entity>)
    requires NoRepeats(a) && NoRepeats(b) && forall e <- a :: e !in b
    ensures NoRepeats(a + b)
  {
    forall i, j | 0 <= i < j < |a + b| ensures (a + b)[i] != (a + b)[j] {
      if i < |a| <= j {
        assert (a + b)[i] in a && (a + b)[j] in b;
      }
    }
  }

  lemma VisitedApart(a: set<Entity>, b: set<Entity>, p: Point, radius: nat, wanted: set<Kind>)
    requires a !! b
    ensures Visited(a, p, radius, wanted) !! Visited(b, p, radius, wanted)
    ensures Visited(a + b, p, radius, wanted) == Visited(a, p, radius, wanted) + Visited(b, p, radius, wanted)
  {
  }

  /** One container: the wanted players, then monsters, then npcs, that are near enough. */
  method VisitContainer(es: set<Entity>, p: Point, radius: nat, wanted: set<Kind>) returns (around: seq<Entity>)
    ensures NoRepeats(around) && forall e :: e in around <==> e in Visited(es, p, radius, wanted)
  {
    around := [];
    var kinds := [Player, Monster, Npc];
    for n := 0 to 3
      invariant NoRepeats(around)
      invariant forall e :: e in around <==> e in Visited(es, p, radius, wanted) && e.key.kind in kinds[..n]
    {
      assert kinds[..n + 1] == kinds[..n] + [kinds[n]];
      var todo := if kinds[n] in wanted then OfKind(es, kinds[n]) else {};
      ghost var before, all := around, todo;
      while todo != {}
        invariant todo <= all && NoRepeats(around)
        invariant forall e :: e in around <==> e in before || (e in all - todo && Distance(e.pos, p) <= radius)
      {
        var e :| e in todo;
        if Distance(e.pos, p) <= radius {
          around := around + [e];
        }
        todo := todo - {e};
      }
    }
    assert kinds[..3] == kinds;
  }

  /** A tree without one of its characters. */
  ghost predicate Lighter(t: Tree, u: Tree, e: Entity, max: nat) {
    u.box == t.box && WellFormed(u) && Bounded(u, max) && Items(u) == Items(t) - {e} && (Tight(t, max) ==> Tight(u, max))
  }

  lemma RemovalKeeps(t: Tree, e: Entity, max: nat)
    requires CanRemove(t, e, max) && WellFormed(t) && Bounded(t, max)
    ensures Absent(t, e.pos) <==> e !in Items(t)
    ensures !Absent(t, e.pos) ==> Removable(t, e, max)
    ensures !Absent(t, e.pos) ==> Lighter(t, Collapse.Remove(t, e, max).tree, e, max)
  {
    if Absent(t, e.pos) {
      AbsentIsNotStored(t, e);
    } else {
      RemoveContents(t, e, max);
      RemoveKeepsBounded(t, e, max);
      if Tight(t, max) {
        RemoveKeepsTight(t, e, max);
      }
    }
  }

  /** The register knows its characters by their keys, and those in the tree are those whose position is on the map. */
  ghost predicate Listed(entities: map<Key, Entity>, live: set<Entity>, box: Box) {
    && (forall k <- entities :: entities[k].key == k)
    && Keyed(live + entities.Values)
    && forall e <- entities.Values :: e in live <==> box.Contains(e.pos)
  }

  lemma ListedMore(entities: map<Key, Entity>, live: set<Entity>, box: Box, e: Entity)
    requires Listed(entities, live, box) && FreshKey(live + entities.Values, e)
    ensures FreshKey(live, e) && entities[e.key := e].Values == entities.Values + {e}
    ensures Listed(entities[e.key := e], live + (if box.Contains(e.pos) then {e} else {}), box)
  {
    forall k | k in entities ensures k != e.key {
      assert entities[k] in entities.Values;
    }
    AddValue(entities, e);
  }

  /** Under the key of a character that is on the map or registered, or of one that is neither, nobody else is registered. */
  lemma OwnEntry(entities: map<Key, Entity>, live: set<Entity>, box: Box, e: Entity)
    requires Listed(entities, live, box) && (e in live + entities.Values || FreshKey(live + entities.Values, e))
    ensures e.key in entities <==> e in entities.Values
    ensures e.key in entities ==> entities[e.key] == e
    ensures FreshKey(live - {e}, e) && FreshKey(live + entities.Values - {e}, e)
  {
    if e.key in entities {
      assert entities[e.key] in entities.Values;
    }
  }

  lemma ListedLess(entities: map<Key, Entity>, live: set<Entity>, box: Box, e: Entity)
    requires Listed(entities, live, box) && (e in live + entities.Values || FreshKey(live + entities.Values, e))
    ensures (entities - {e.key}).Values == entities.Values - {e}
    ensures Listed(entities - {e.key}, live - {e}, box)
    ensures Keyed(live - {e}) && FreshKey(live - {e}, e) && FreshKey(live + entities.Values - {e}, e)
    ensures e !in live && box.Contains(e.pos) ==> entities - {e.key} == entities && live - {e} == live
  {
    OwnEntry(entities, live, box, e);
    if e in entities.Values {
      ValuesWithoutKey(entities, e.key);
    } else {
      assert entities - {e.key} == entities;
    }
  }

  lemma ListedMoved(entities: map<Key, Entity>, live: set<Entity>, box: Box, e: Entity, f: Entity)
    requires Listed(entities, live, box) && (e in live + entities.Values || FreshKey(live + entities.Values, e))
    requires f.key == e.key
    ensures var now := if e.key in entities then entities[e.key := f] else entities;
      && now.Values == entities.Values - {e} + (if e in entities.Values then {f} else {})
      && Listed(now, live - {e} + (if box.Contains(f.pos) then {f} else {}), box)
  {
    OwnEntry(entities, live, box, e);
    ListedLess(entities, live, box, e);
    var rest := entities - {e.key};
    assert rest.Values == entities.Values - {e} && FreshKey(live - {e} + rest.Values, f);
    hide Listed, FreshKey;
    if e in entities.Values {
      ListedMore(rest, live - {e}, box, f);
      assert rest[f.key := f] == entities[e.key := f];
    } else {
      assert rest == entities;
      ListedLive(rest, live - {e}, box, f);
    }
  }

  lemma ListedLive(entities: map<Key, Entity>, live: set<Entity>, box: Box, f: Entity)
    requires Listed(entities, live, box) && FreshKey(live + entities.Values, f)
    ensures Listed(entities, live + (if box.Contains(f.pos) then {f} else {}), box)
  {
  }

  lemma AddValue(m: map<Key, Entity>, e: Entity)
    requires e.key !in m
    ensures m[e.key := e].Values == m.Values + {e}
  {
    assert m[e.key := e] == m + map[e.key := e];
    ValuesOfSum(m, map[e.key := e]);
    assert map[e.key := e].Values == {e} by {
      assert map[e.key := e][e.key] == e;
    }
  }
}
