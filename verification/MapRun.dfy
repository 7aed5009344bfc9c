/**
  Whole lives of a map: every run of joining, leaving, dying, walking and teleporting,
  carried out by the map itself, shows each client exactly who is within its sight.
*/
module MapRuns {
  import opened Geometry
  import opened Trees
  import Collapse
  import opened Containers
  import opened Placing
  import opened QuadTree
  import opened Sight
  import opened WorldMaps

  datatype Op =
    | Join(e: Entity)
    | Leave(e: Entity)
    | Perish(e: Entity)
    | Walk(e: Entity, dx: int, dy: int)
    | Jump(e: Entity, to: Point)

  /** Where a walking or jumping character ends up. */
  function Target(op: Op): Entity {
    match op
    case Walk(e, dx, dy) => e.(pos := Point(e.pos.x + dx, e.pos.y + dy))
    case Jump(e, to) => e.(pos := to)
    case _ => op.e
  }

  /** The characters on the map and the ids given up, as the operations alone say. */
  datatype Census = Census(live: set<Entity>, retired: set<Key>)

  function Counted(box: Box, c: Census, op: Op): Census {
    match op
    case Join(e) => if box.Contains(e.pos) then c.(live := c.live + {e}) else c
    case Leave(e) => c.(live := c.live - {e})
    case Perish(e) => Census(c.live - {e}, c.retired + {e.key})
    case Walk(e, _, _) => c.(live := c.live - {e} + {Target(op)})
    case Jump(e, _) => c.(live := c.live - {e} + {Target(op)})
  }

  function CensusOf(box: Box, ops: seq<Op>): Census {
    if ops == [] then Census({}, {}) else Counted(box, CensusOf(box, ops[..|ops| - 1]), ops[|ops| - 1])
  }

  /**
    Characters join under unused ids, and nobody walks or jumps off the map. One that joins
    outside of the map is refused, and nobody may notice; see `RefusalIsHarmlessIff`.
  */
  ghost predicate Permitted(box: Box, sight: nat, c: Census, op: Op) {
    match op
    case Join(e) =>
      FreshKey(c.live, e) && e.key !in c.retired && (!box.Contains(e.pos) ==> Unnoticed(c.live, e, sight))
    case Leave(e) => e in c.live
    case Perish(e) => e in c.live && e.key.kind == Monster
    case Walk(e, _, _) => e in c.live && e.key.kind != Loot && box.Contains(Target(op).pos)
    case Jump(e, to) => e in c.live && box.Contains(to)
  }

  /** The tree as it is can give up the character and finds a place for it. */
  ghost predicate Possible(m: WorldMap, op: Op)
    reads m, m.quad
  {
    match op
    case Join(e) => m.quad.box.Contains(e.pos) ==> Finds(m.quad.tree, e, m.quad.max)
    case Leave(e) => m.Removable(e)
    case Perish(e) => m.Removable(e)
    case Walk(e, _, _) => m.Removable(e) && m.Room(e, Target(op).pos)
    case Jump(e, to) => m.Removable(e) && m.Room(e, to)
  }

  /** Nobody stands at the position, and building can place the character next to the others. */
  ghost predicate Vacant(box: Box, max: nat, live: set<Entity>, e: Entity) {
    e.pos !in Positions(live) && Places(box, live + {e}, max)
  }

  ghost predicate Spread(box: Box, max: nat, c: Census, op: Op) {
    match op
    case Join(e) => box.Contains(e.pos) ==> Vacant(box, max, c.live, e)
    case Leave(_) => true
    case Perish(_) => true
    case Walk(e, _, _) => Vacant(box, max, c.live - {e}, Target(op))
    case Jump(e, _) => Vacant(box, max, c.live - {e}, Target(op))
  }

  ghost predicate Legal(box: Box, sight: nat, max: nat, ops: seq<Op>) {
    forall n | 0 <= n < |ops| ::
      Permitted(box, sight, CensusOf(box, ops[..n]), ops[n]) && Spread(box, max, CensusOf(box, ops[..n]), ops[n])
  }

  /** The step is what the operation asks for, with some events. */
  predicate Records(box: Box, op: Op, step: Step) {
    match op
    case Join(e) => if box.Contains(e.pos) then step.Add? && step.e == e else step.Refuse? && step.e == e
    case Leave(e) => step.Remove? && step.e == e
    case Perish(e) => step == Die(e)
    case Walk(e, _, _) => step.Move? && step.e == e && step.f == Target(op)
    case Jump(e, _) => step.Teleport? && step.e == e && step.f == Target(op)
  }

  function EventsOf(step: Step): seq<Event> {
    match step
    case Add(_, events) => events
    case Refuse(_, events) => events
    case Remove(_, events) => events
    case Die(_) => []
    case Move(_, _, events) => events
    case Teleport(_, _, away, here) => away + here
  }

  function Log(steps: seq<Step>): seq<Event> {
    if steps == [] then [] else Log(steps[..|steps| - 1]) + EventsOf(steps[|steps| - 1])
  }

  // ------------------------------------------------------------- one operation

  /** The map has nothing but these characters, in the tree and on the register. */
  ghost predicate Houses(m: WorldMap, live: set<Entity>)
    reads m, m.quad, m.quad.repr
  {
    m.Valid() && m.Live() == m.All() == live
  }

  ghost predicate StaysTight(t: Tree, u: Tree, max: nat) {
    Tight(t, max) && Scattered(Items(u)) ==> Tight(u, max)
  }

  method DoJoin(m: WorldMap, e: Entity, ghost c: Census) returns (events: seq<Event>)
    requires Houses(m, c.live) && Possible(m, Join(e)) && FreshKey(c.live, e)
    modifies m, m.quad.repr
    ensures fresh(m.quad.repr - old(m.quad.repr)) && Houses(m, Counted(m.quad.box, c, Join(e)).live)
    ensures StaysTight(old(m.quad.tree), m.quad.tree, m.quad.max)
    ensures Reported(events, AddEvents(c.live, e, m.sight))
  {
    hide WorldMap.Valid, Tight, Scattered, Reported, Finds, Items;
    var inserted;
    events, inserted := m.Add(e);
  }

  lemma NotLost(m: WorldMap, live: set<Entity>, e: Entity)
    requires Houses(m, live) && e in live
    ensures !m.Lost(e)
  {
  }

  method DoLeave(m: WorldMap, e: Entity, death: bool, ghost live: set<Entity>) returns (events: seq<Event>)
    requires Houses(m, live) && e in live && m.Removable(e)
    modifies m, m.quad.repr
    ensures fresh(m.quad.repr - old(m.quad.repr)) && Houses(m, live - {e})
    ensures StaysTight(old(m.quad.tree), m.quad.tree, m.quad.max)
    ensures if death then events == [] else Reported(events, RemoveEvents(live - {e}, e, m.sight))
  {
    hide WorldMap.Valid, WorldMap.Removable, WorldMap.Lost, Tight, Scattered, Reported, Items;
    NotLost(m, live, e);
    events := m.Remove(e, death);
  }

  method DoWalk(m: WorldMap, op: Op, ghost c: Census) returns (events: seq<Event>)
    requires Houses(m, c.live) && op.Walk? && op.e in c.live && Possible(m, op) && m.quad.box.Contains(Target(op).pos)
    modifies m, m.quad.repr
    ensures fresh(m.quad.repr - old(m.quad.repr)) && Houses(m, Counted(m.quad.box, c, op).live)
    ensures StaysTight(old(m.quad.tree), m.quad.tree, m.quad.max)
    ensures Reported(events, MoveEvents(c.live - {op.e}, op.e, Target(op), m.sight))
  {
    hide WorldMap.Valid, WorldMap.All, WorldMap.Removable, WorldMap.Room, WorldMap.Lost, Tight, Scattered, Reported, Items;
    NotLost(m, c.live, op.e);
    var f;
    f, events := m.Move(op.e, op.dx, op.dy);
  }

  method DoJump(m: WorldMap, op: Op, ghost c: Census) returns (away: seq<Event>, here: seq<Event>)
    requires Houses(m, c.live) && op.Jump? && op.e in c.live && Possible(m, op) && m.quad.box.Contains(op.to)
    modifies m, m.quad.repr
    ensures fresh(m.quad.repr - old(m.quad.repr)) && Houses(m, Counted(m.quad.box, c, op).live)
    ensures StaysTight(old(m.quad.tree), m.quad.tree, m.quad.max)
    ensures Reported(away, RemoveEvents(c.live - {op.e}, op.e, m.sight))
    ensures Reported(here, AddEvents(c.live - {op.e}, Target(op), m.sight))
  {
    hide WorldMap.Valid, WorldMap.All, WorldMap.Removable, WorldMap.Room, WorldMap.Lost, Tight, Scattered, Reported, Items;
    NotLost(m, c.live, op.e);
    var f;
    f, away, here := m.Teleport(op.e, op.to);
  }

  /** One operation on a map whose clients know what they should. */
  method Perform(m: WorldMap, op: Op, ghost c: Census, ghost s: Scene) returns (events: seq<Event>, ghost step: Sight.Step)
    requires Houses(m, c.live) && Permitted(m.quad.box, m.sight, c, op) && Possible(m, op)
    requires Exact(s, m.sight) && s.live == c.live && s.retired == c.retired
    modifies m, m.quad.repr
    ensures fresh(m.quad.repr - old(m.quad.repr)) && Houses(m, Counted(m.quad.box, c, op).live)
    ensures StaysTight(old(m.quad.tree), m.quad.tree, m.quad.max)
    ensures Records(m.quad.box, op, step) && EventsOf(step) == events && Allowed(s, step, m.sight)
    ensures var t := Apply(s, step); Census(t.live, t.retired) == Counted(m.quad.box, c, op)
  {
    hide Houses, Exact, Reported, StaysTight, Unnoticed, Finds, WorldMap.Removable, WorldMap.Room;
    match op
    case Join(e) =>
      events := DoJoin(m, e, c);
      step := if m.quad.box.Contains(e.pos) then Add(e, events) else Refuse(e, events);
    case Leave(e) =>
      events := DoLeave(m, e, false, c.live);
      step := Remove(e, events);
    case Perish(e) =>
      events := DoLeave(m, e, true, c.live);
      step := Die(e);
    case Walk(e, _, _) =>
      events := DoWalk(m, op, c);
      step := Move(e, Target(op), events);
    case Jump(e, _) =>
      var away, here := DoJump(m, op, c);
      events, step := away + here, Teleport(e, Target(op), away, here);
  }

  // -------------------------------------------------- runs without repeated positions

  /** Between two operations: the tree is canonical, and no two characters share a position. */
  ghost predicate Settled(m: WorldMap, live: set<Entity>)
    reads m, m.quad, m.quad.repr
  {
    Houses(m, live) && Tight(m.quad.tree, m.quad.max) && Scattered(live)
  }

  lemma SettledMeans(m: WorldMap, live: set<Entity>)
    requires Settled(m, live)
    ensures m.Valid() && m.Live() == m.All() == live && Houses(m, live) && m.quad in m.quad.repr
    ensures m.quad.tree.box == m.quad.box && WellFormed(m.quad.tree) && Bounded(m.quad.tree, m.quad.max)
    ensures Keyed(live) && Scattered(live) && Items(m.quad.tree) == live && Tight(m.quad.tree, m.quad.max)
  {
    m.LiveIsKeyed();
  }

  lemma TightIsRemovable(t: Tree, e: Entity, max: nat)
    requires WellFormed(t) && Tight(t, max) && Keyed(Items(t)) && e in Items(t)
    ensures QuadTree.Removable(t, e, max)
  {
    Collapse.TightIsCollapsible(t, e, max);
    Collapse.RemovalGoesThroughIff(t, e, max);
  }

  lemma VacantScatters(box: Box, max: nat, live: set<Entity>, e: Entity)
    requires Scattered(live) && Vacant(box, max, live, e)
    ensures Scattered(live + {e}) && e !in live
  {
    forall a, b | a in live + {e} && b in live + {e} && a.pos == b.pos ensures a == b {
      assert a in live ==> a.pos in Positions(live);
      assert b in live ==> b.pos in Positions(live);
    }
  }

  /** A tight tree finds a place for whom building can place. */
  lemma VacantIsFound(t: Tree, max: nat, e: Entity)
    requires WellFormed(t) && Tight(t, max) && Scattered(Items(t)) && Vacant(t.box, max, Items(t), e)
    ensures Finds(t, e, max) && Scattered(Items(t) + {e})
  {
    VacantScatters(t.box, max, Items(t), e);
    FindsIffPlaces(t, e, max);
  }

  lemma SettledRemovable(m: WorldMap, live: set<Entity>, e: Entity)
    requires Settled(m, live) && e in live
    ensures m.Removable(e) && Lighter(m.quad.tree, m.TreeWithout(e), e, m.quad.max)
  {
    hide Settled, WorldMap.Valid, WellFormed, Bounded, Tight, Items, Scattered;
    SettledMeans(m, live);
    TightIsRemovable(m.quad.tree, e, m.quad.max);
    m.WhatIsTakenOut(e);
  }

  lemma SettledHasRoom(m: WorldMap, live: set<Entity>, e: Entity, to: Point)
    requires Settled(m, live) && e in live && Vacant(m.quad.box, m.quad.max, live - {e}, e.(pos := to))
    ensures m.Removable(e) && m.Room(e, to) && Scattered(live - {e} + {e.(pos := to)})
  {
    hide Settled, WorldMap.Valid, WorldMap.Removable, WorldMap.TreeWithout, WellFormed, Bounded, Tight, Items, Vacant, Finds;
    SettledRemovable(m, live, e);
    SettledMeans(m, live);
    ScatteredFewer(live - {e}, live);
    VacantIsFound(m.TreeWithout(e), m.quad.max, e.(pos := to));
  }

  /** With distinct positions, what building can place is possible. */
  lemma SpreadIsPossible(m: WorldMap, c: Census, op: Op)
    requires Settled(m, c.live) && Permitted(m.quad.box, m.sight, c, op) && Spread(m.quad.box, m.quad.max, c, op)
    ensures Possible(m, op) && Scattered(Counted(m.quad.box, c, op).live)
  {
    hide Settled, WorldMap.Valid, WorldMap.Removable, WorldMap.Room, WellFormed, Bounded, Tight, Items, Vacant, Scattered, Finds;
    SettledMeans(m, c.live);
    match op
    case Join(e) =>
      if m.quad.box.Contains(e.pos) {
        VacantIsFound(m.quad.tree, m.quad.max, e);
      }
    case Leave(e) =>
      SettledRemovable(m, c.live, e);
      ScatteredFewer(c.live - {e}, c.live);
    case Perish(e) =>
      SettledRemovable(m, c.live, e);
      ScatteredFewer(c.live - {e}, c.live);
    case Walk(e, _, _) => SettledHasRoom(m, c.live, e, Target(op).pos);
    case Jump(e, to) => SettledHasRoom(m, c.live, e, to);
  }

  /** One operation of a legal run. */
  method PerformLegal(m: WorldMap, op: Op, ghost c: Census, ghost s: Scene) returns (events: seq<Event>, ghost step: Sight.Step)
    requires Settled(m, c.live) && Permitted(m.quad.box, m.sight, c, op) && Spread(m.quad.box, m.quad.max, c, op)
    requires Exact(s, m.sight) && s.live == c.live && s.retired == c.retired
    modifies m, m.quad.repr
    ensures fresh(m.quad.repr - old(m.quad.repr)) && Settled(m, Counted(m.quad.box, c, op).live)
    ensures Records(m.quad.box, op, step) && EventsOf(step) == events && Allowed(s, step, m.sight)
    ensures var t := Apply(s, step); Census(t.live, t.retired) == Counted(m.quad.box, c, op)
  {
    SpreadIsPossible(m, c, op);
    hide WorldMap.Valid, Exact, Permitted, Possible, Spread, Records, EventsOf, Allowed, Apply, Tight, Scattered, Counted;
    events, step := Perform(m, op, c, s);
  }

  lemma AllowedNext(steps: seq<Sight.Step>, step: Sight.Step, sight: nat)
    requires AllAllowed(steps, sight) && Allowed(Run(steps), step, sight)
    ensures AllAllowed(steps + [step], sight) && Run(steps + [step]) == Apply(Run(steps), step)
    ensures Log(steps + [step]) == Log(steps) + EventsOf(step)
  {
    var more := steps + [step];
    assert more[..|more| - 1] == steps;
    forall n | 0 <= n < |more| ensures Allowed(Run(more[..n]), more[n], sight) {
      assert more[..n] == steps[..n];
    }
  }

  lemma CensusNext(box: Box, ops: seq<Op>, n: nat)
    requires n < |ops|
    ensures CensusOf(box, ops[..n + 1]) == Counted(box, CensusOf(box, ops[..n]), ops[n])
  {
    assert ops[..n + 1][..n] == ops[..n];
  }

  lemma EmptySettles(m: WorldMap)
    requires m.Valid() && m.All() == {} && m.quad.tree == Leaf(m.quad.box, {})
    ensures Settled(m, {})
  {
    assert Positions({}) == {};
  }

  lemma NothingYet(box: Box, ops: seq<Op>, sight: nat)
    ensures ops[..0] == [] && CensusOf(box, []) == Census({}, {}) && Log([]) == []
    ensures Run([]) == Scene({}, map[], {}) && AllAllowed([], sight)
  {
  }

  lemma LegalAt(box: Box, sight: nat, max: nat, ops: seq<Op>, n: nat)
    requires Legal(box, sight, max, ops) && n < |ops|
    ensures Permitted(box, sight, CensusOf(box, ops[..n]), ops[n]) && Spread(box, max, CensusOf(box, ops[..n]), ops[n])
  {
  }

  /**
    Every legal run goes through. What the map reported, put together, is for every client
    exactly who is within its sight and where, every step of a walker was told to those who
    kept it in sight, the only spurious reports were of the end of loot that the client was
    never shown, and the tree is the canonical one of the characters that are left.
  */
  method Replay(width: int, sight: nat, max: nat, ops: seq<Op>)
    returns (m: WorldMap, events: seq<Event>, ghost steps: seq<Sight.Step>)
    requires Legal(Box(0, 0, width), sight, max, ops)
    ensures m.Valid() && fresh(m) && fresh(m.quad.repr) && m.quad.box == Box(0, 0, width) && m.sight == sight
    ensures m.Live() == m.All() == CensusOf(m.quad.box, ops).live
    ensures m.quad.tree == Build(Box(0, 0, width), m.Live(), max)
    ensures |steps| == |ops| && forall n | 0 <= n < |ops| :: Records(m.quad.box, ops[n], steps[n])
    ensures AllAllowed(steps, sight) && events == Log(steps)
    ensures Census(Run(steps).live, Run(steps).retired) == CensusOf(m.quad.box, ops) && Exact(Run(steps), sight)
    ensures forall n | 0 <= n < |steps| ::
      Honest(Run(steps[..n]), steps[n]) <==> EndsAreKnown(Run(steps[..n]), steps[n], sight)
    ensures forall n | 0 <= n < |steps| :: FollowsWalker(Run(steps[..n]), steps[n], sight)
  {
    hide WorldMap.Valid, WorldMap.All, WorldMap.Live, Settled, Legal, Permitted, Spread, Counted, Records, EventsOf;
    hide Exact, AllAllowed, Allowed, Apply, Honest, EndsAreKnown, FollowsWalker, Run, Log, CensusOf, Build;
    NothingYet(Box(0, 0, width), ops, sight);
    m := new WorldMap(width, sight, max);
    EmptySettles(m);
    events, steps := [], [];
    for n := 0 to |ops|
      invariant fresh(m) && fresh(m.quad.repr) && m.quad.box == Box(0, 0, width) && m.sight == sight && m.quad.max == max
      invariant Settled(m, CensusOf(m.quad.box, ops[..n]).live)
      invariant |steps| == n && forall i | 0 <= i < n :: Records(m.quad.box, ops[i], steps[i])
      invariant AllAllowed(steps, sight) && events == Log(steps)
      invariant Census(Run(steps).live, Run(steps).retired) == CensusOf(m.quad.box, ops[..n])
    {
      RunsAreExact(steps, sight);
      CensusNext(m.quad.box, ops, n);
      LegalAt(m.quad.box, sight, max, ops, n);
      var more;
      ghost var step;
      more, step := PerformLegal(m, ops[n], CensusOf(m.quad.box, ops[..n]), Run(steps));
      AllowedNext(steps, step, sight);
      events, steps := events + more, steps + [step];
    }
    assert ops[..|ops|] == ops;
    RunsAreExact(steps, sight);
    RunIsFollowed(steps, sight);
    SettledIsCanonical(m, CensusOf(m.quad.box, ops).live);
  }

  lemma RunIsFollowed(steps: seq<Sight.Step>, sight: nat)
    requires AllAllowed(steps, sight)
    ensures forall n | 0 <= n < |steps| :: FollowsWalker(Run(steps[..n]), steps[n], sight)
  {
    hide FollowsWalker, Allowed, Run;
    forall n | 0 <= n < |steps| ensures FollowsWalker(Run(steps[..n]), steps[n], sight) {
      StepIsFollowed(Run(steps[..n]), steps[n], sight);
    }
  }

  lemma SettledIsCanonical(m: WorldMap, live: set<Entity>)
    requires Settled(m, live)
    ensures m.Valid() && m.Live() == m.All() == live && m.quad.tree == Build(m.quad.box, m.Live(), m.quad.max)
  {
    TightIsBuild(m.quad.tree, m.quad.max);
  }

  // ------------------------------------------------------- a refusal that misleads

  lemma OnlyOneJoins(box: Box, sight: nat, max: nat, e: Entity)
    requires box.Contains(e.pos) && max > 0
    ensures Legal(box, sight, max, [Join(e)]) && CensusOf(box, [Join(e)]) == Census({e}, {})
  {
    var ops := [Join(e)];
    assert ops[..0] == [] && CensusOf(box, []) == Census({}, {});
    assert CensusOf(box, ops) == Counted(box, CensusOf(box, ops[..0]), ops[0]);
    assert Positions({}) == {};
    FewArePlaced(box, {} + {e}, max);
  }

  /** As many characters as a leaf has room for positions are placed wherever they stand. */
  lemma FewArePlaced(box: Box, live: set<Entity>, max: nat)
    requires |live| <= max
    ensures Places(box, live, max)
  {
    PositionsAreCounted(live);
  }

  lemma RootOfOne()
    ensures Isqrt(1) == 1
  {
    assert Isqrt(0) == 0;
  }

  lemma OneStepApart(a: Entity, b: Entity)
    requires a.pos.x + 1 == b.pos.x && a.pos.y == b.pos.y
    ensures InSight(a, b, 2) && InSight(b, a, 2)
  {
    RootOfOne();
    DistanceSymmetric(a.pos, b.pos);
    hide Isqrt;
    assert Square(a.pos.x - b.pos.x) == 1 && Square(a.pos.y - b.pos.y) == 0;
  }

  /**
    Somebody stands at the edge of a map; somebody else who would join one step outside is
    refused. If either is a player, the map is as before, but a client has been misled: the
    one inside has been told of the one outside, or the one outside of the one inside.
  */
  method RefusalMisleads(inside: Entity, outside: Entity)
    returns (m: WorldMap, events: seq<Event>, ghost steps: seq<Sight.Step>)
    requires inside.pos == Point(8, 7) && outside.pos == Point(9, 7) && inside.key != outside.key
    requires IsPlayer(inside) || IsPlayer(outside)
    ensures m.Valid() && m.Live() == {inside}
    ensures AllAllowed(steps, 2) && Run(steps).live == m.Live() && Exact(Run(steps), 2)
    ensures Reported(events, AddEvents(m.Live(), outside, 2)) && !HarmlessRefusal(Run(steps), outside, 2, events)
  {
    hide WorldMap.Valid, Exact, Allowed, Records, Legal, Distance, Reported, Honest, EndsAreKnown;
    OneStepApart(inside, outside);
    var width := 8;
    assert Box(0, 0, width).Contains(inside.pos) && !Box(0, 0, width).Contains(outside.pos);
    OnlyOneJoins(Box(0, 0, width), 2, 32, inside);
    var before;
    m, before, steps := Replay(width, 2, 32, [Join(inside)]);
    var inserted;
    events, inserted := m.Add(outside);
    RefusalIsHarmlessIff(Run(steps), outside, 2, events);
  }

  // ------------------------------------------------- loot that was never shown

  /** A player walks up to a piece of loot and back. */
  function ThereAndBack(player: Entity, loot: Entity): seq<Op> {
    [Join(player), Join(loot), Walk(player, 4, 0), Walk(player.(pos := Point(4, 0)), -4, 0)]
  }

  lemma PairOfCensus(box: Box, player: Entity, loot: Entity, n: nat)
    requires box == Box(0, 0, 8) && player.pos == Point(0, 0) && loot.pos == Point(5, 0) && n <= 4
    requires player.key != loot.key
    ensures var ops := ThereAndBack(player, loot);
      CensusOf(box, ops[..n]) == Census(if n == 0 then {} else if n == 1 then {player}
        else if n == 3 then {player.(pos := Point(4, 0)), loot} else {player, loot}, {})
  {
    var ops := ThereAndBack(player, loot);
    assert CensusOf(box, ops[..0]) == Census({}, {});
    if n > 0 {
      PairOfCensus(box, player, loot, n - 1);
      CensusNext(box, ops, n - 1);
    }
  }

  lemma PairIsSpread(box: Box, max: nat, live: set<Entity>, e: Entity)
    requires |live| <= 1 && max >= 2 && forall x <- live :: x.pos != e.pos
    ensures Vacant(box, max, live, e)
  {
    FewArePlaced(box, live + {e}, max);
  }

  lemma ThereAndBackIsLegal(box: Box, sight: nat, max: nat, player: Entity, loot: Entity)
    requires box == Box(0, 0, 8) && player.pos == Point(0, 0) && loot.pos == Point(5, 0) && max >= 2
    requires IsPlayer(player) && loot.key.kind == Loot
    ensures Legal(box, sight, max, ThereAndBack(player, loot))
  {
    hide Vacant, CensusOf, Unnoticed, Positions;
    var ops, there := ThereAndBack(player, loot), player.(pos := Point(4, 0));
    PairIsSpread(box, max, {}, player);
    PairIsSpread(box, max, {player}, loot);
    PairIsSpread(box, max, {loot}, there);
    PairIsSpread(box, max, {loot}, player);
    forall n | 0 <= n < 4
      ensures Permitted(box, sight, CensusOf(box, ops[..n]), ops[n]) && Spread(box, max, CensusOf(box, ops[..n]), ops[n])
    {
      PairOfCensus(box, player, loot, n);
      assert {player, loot} - {player} == {loot} && {there, loot} - {there} == {loot};
    }
  }

  lemma RunNext(steps: seq<Sight.Step>, n: nat)
    requires n < |steps|
    ensures Run(steps[..n + 1]) == Apply(Run(steps[..n]), steps[n])
  {
    assert steps[..n + 1][..n] == steps[..n];
  }

  /** Having walked up to loot, the player does not know of it; walking away, its client is told of the end of it. */
  lemma WalkingAwayIsSpurious(s: Scene, e: Entity, f: Entity, sight: nat, there: seq<Event>, back: seq<Event>, q: Entity)
    requires CanMove(s, e, f, sight, there) && IsPlayer(e) && q in s.live && q.key.kind == Loot
    requires InSight(q, f, sight) && !InSight(q, e, sight)
    requires CanMove(Shifted(s, e, f, there), f, e, sight, back)
    ensures var t := Shifted(s, e, f, there);
      e.key in t.views && q.key !in t.views[e.key] && Disappear(e.key, q.key) in back && !LeftIsKnown(t, f, e, sight)
  {
    var t := Shifted(s, e, f, there);
    MoverIsShown(s, e, f, sight, there, q);
    assert q in t.live - {f} && f in t.live;
    assert Disappear(e.key, q.key) in ReportMove(q, f, e, sight);
    assert Disappear(e.key, q.key) in Elements(back);
  }

  /**
    The player comes within sight of the loot without being shown it, and when it walks
    back, its client is told that something disappears that it never saw.
  */
  method SpuriousEnd(player: Entity, loot: Entity) returns (m: WorldMap, events: seq<Event>, ghost steps: seq<Sight.Step>)
    requires player.pos == Point(0, 0) && loot.pos == Point(5, 0) && IsPlayer(player) && loot.key.kind == Loot
    ensures m.Valid() && |steps| == 4 && AllAllowed(steps, 2) && events == Log(steps)
    ensures player.key in Run(steps[..3]).views && loot.key !in Run(steps[..3]).views[player.key]
    ensures Disappear(player.key, loot.key) in EventsOf(steps[3])
    ensures forall n | 0 <= n < 4 :: Honest(Run(steps[..n]), steps[n]) <==> n != 3
  {
    hide WorldMap.Valid, Exact, Legal, Distance, Reported, Honest, LeftIsKnown;
    var width := 8;
    ThereAndBackIsLegal(Box(0, 0, width), 2, 32, player, loot);
    m, events, steps := Replay(width, 2, 32, ThereAndBack(player, loot));
    ThereAndBackIsSpurious(m.quad.box, steps, player, loot);
  }

  lemma ThereAndBackIsSpurious(box: Box, steps: seq<Sight.Step>, player: Entity, loot: Entity)
    requires box == Box(0, 0, 8) && player.pos == Point(0, 0) && loot.pos == Point(5, 0)
    requires IsPlayer(player) && loot.key.kind == Loot
    requires |steps| == 4 && AllAllowed(steps, 2)
    requires forall n | 0 <= n < 4 :: Records(box, ThereAndBack(player, loot)[n], steps[n])
    ensures player.key in Run(steps[..3]).views && loot.key !in Run(steps[..3]).views[player.key]
    ensures Disappear(player.key, loot.key) in EventsOf(steps[3])
    ensures forall n | 0 <= n < 4 :: Honest(Run(steps[..n]), steps[n]) <==> n != 3
  {
    hide Exact, Distance, Reported, Honest;
    var there := player.(pos := Point(4, 0));
    assert Records(box, ThereAndBack(player, loot)[0], steps[0]) && Records(box, ThereAndBack(player, loot)[1], steps[1]);
    assert Records(box, ThereAndBack(player, loot)[2], steps[2]) && Records(box, ThereAndBack(player, loot)[3], steps[3]);
    RunNext(steps, 0);
    RunNext(steps, 1);
    RunNext(steps, 2);
    assert Run(steps[..2]).live == {player, loot};
    OneStepApart(there, loot);
    if InSight(loot, player, 2) {
      DistanceBoundsOffsets(loot.pos, player.pos, 2);
    }
    assert Allowed(Run(steps[..2]), steps[2], 2) && Allowed(Run(steps[..3]), steps[3], 2);
    WalkingAwayIsSpurious(Run(steps[..2]), player, there, 2, steps[2].events, steps[3].events, loot);
    RunsAreExact(steps, 2);
    assert LeftIsKnown(Run(steps[..2]), player, there, 2);
  }
}
