/**
  What players' clients know. The map tells a client that a character appears at some
  place, disappears or makes a step; a client keeps the characters it has been told
  about, each at the place that these reports add up to.
*/
module Sight {
  import opened Geometry
  import opened Trees
  import opened Containers

  datatype Event =
    | Appear(viewer: Key, subject: Key, at: Point, spawned: bool)
    | Disappear(viewer: Key, subject: Key)
    | Moved(viewer: Key, subject: Key, dx: int, dy: int)

  type Views = map<Key, map<Key, Point>>

  function Elements(events: seq<Event>): set<Event> {
    set ev | ev in events
  }

  // ------------------------------------------------------------------ delivery

  function Deliver(views: Views, ev: Event): Views {
    if ev.viewer !in views then views
    else
      match ev
      case Appear(v, s, at, _) => views[v := views[v][s := at]]
      case Disappear(v, s) => views[v := views[v] - {s}]
      case Moved(v, s, dx, dy) =>
        if s !in views[v] then views else views[v := views[v][s := Point(views[v][s].x + dx, views[v][s].y + dy)]]
  }

  function DeliverAll(views: Views, events: seq<Event>): Views {
    if events == [] then views
    else Deliver(DeliverAll(views, events[..|events| - 1]), events[|events| - 1])
  }

  /** The client is not told what it already knows, nor about what it has never seen. */
  predicate Proper(views: Views, ev: Event) {
    && ev.viewer in views
    && match ev
       case Appear(v, s, _, _) => s !in views[v]
       case Disappear(v, s) => s in views[v]
       case Moved(v, s, _, _) => s in views[v]
  }

  predicate AllProper(views: Views, events: seq<Event>) {
    events == [] ||
    (AllProper(views, events[..|events| - 1]) &&
     Proper(DeliverAll(views, events[..|events| - 1]), events[|events| - 1]))
  }

  /** No viewer hears twice about the same subject. */
  ghost predicate Once(events: seq<Event>) {
    forall i, j | 0 <= i < j < |events| ::
      events[i].viewer != events[j].viewer || events[i].subject != events[j].subject
  }

  /** Where a client has a character, if it has it. */
  function Shows(views: Views, v: Key, s: Key): Option<Point> {
    if v in views && s in views[v] then Some(views[v][s]) else None
  }

  predicate Concerns(ev: Event, v: Key, s: Key) {
    ev.viewer == v && ev.subject == s
  }

  /** What one viewer knows of a character afterwards is up to the one event about it, wherever that comes. */
  lemma {:induction false} DeliverOnce(views: Views, events: seq<Event>, v: Key, s: Key)
    requires Once(events)
    ensures v in DeliverAll(views, events) <==> v in views
    ensures forall ev <- events :: Concerns(ev, v, s) ==>
      Shows(DeliverAll(views, events), v, s) == Shows(Deliver(views, ev), v, s)
    ensures (forall ev <- events :: !Concerns(ev, v, s)) ==>
      Shows(DeliverAll(views, events), v, s) == Shows(views, v, s)
  {
    if events != [] {
      var rest, last := events[..|events| - 1], events[|events| - 1];
      assert forall x :: x in events <==> x in rest || x == last;
      DeliverOnce(views, rest, v, s);
      DeliverKeys(views, rest);
      if Concerns(last, v, s) {
        forall x | x in rest ensures !Concerns(x, v, s) {
        }
        SameEntry(views, DeliverAll(views, rest), last);
      } else {
        OtherEntry(DeliverAll(views, rest), last, v, s);
      }
    }
  }

  lemma SameEntry(a: Views, b: Views, ev: Event)
    requires Shows(a, ev.viewer, ev.subject) == Shows(b, ev.viewer, ev.subject) && (ev.viewer in a <==> ev.viewer in b)
    ensures Shows(Deliver(a, ev), ev.viewer, ev.subject) == Shows(Deliver(b, ev), ev.viewer, ev.subject)
  {
  }

  lemma OtherEntry(views: Views, ev: Event, v: Key, s: Key)
    requires !Concerns(ev, v, s)
    ensures Shows(Deliver(views, ev), v, s) == Shows(views, v, s)
  {
  }

  /** Events about different pairs do not get in each other's way. */
  lemma {:induction false} ProperOnceIff(views: Views, events: seq<Event>)
    requires Once(events)
    ensures AllProper(views, events) <==> forall ev <- events :: Proper(views, ev)
  {
    if events != [] {
      var rest, ev := events[..|events| - 1], events[|events| - 1];
      assert forall x :: x in events <==> x in rest || x == ev;
      ProperOnceIff(views, rest);
      ProperAfterOthers(views, rest, ev, events);
    }
  }

  lemma ProperAfterOthers(views: Views, rest: seq<Event>, ev: Event, events: seq<Event>)
    requires Once(events) && events != [] && rest == events[..|events| - 1] && ev == events[|events| - 1]
    ensures Proper(DeliverAll(views, rest), ev) <==> Proper(views, ev)
  {
    DeliverKeys(views, rest);
    DeliverOnce(views, rest, ev.viewer, ev.subject);
    forall x | x in rest ensures !Concerns(x, ev.viewer, ev.subject) {
    }
  }

  // -------------------------------------------------------------- who sees whom

  /** Everything the map and the clients hold, with the ids the map has given up for good. */
  datatype Scene = Scene(live: set<Entity>, views: Views, retired: set<Key>)

  predicate IsPlayer(e: Entity) { e.key.kind == Player }

  predicate InSight(a: Entity, b: Entity, sight: nat) {
    Distance(a.pos, b.pos) <= sight
  }

  /**
    Each player's client knows exactly the other live characters within sight, each at
    its place, loot excepted: loot it knows is within sight, but not all loot within sight
    is known. What it knows beyond the living are ids that will not be used again.
  */
  ghost predicate Exact(s: Scene, sight: nat) {
    && Keyed(s.live)
    && (forall e <- s.live :: e.key !in s.retired)
    && (forall v :: v in s.views <==> exists p :: p in s.live && IsPlayer(p) && p.key == v)
    && (forall p, e :: p in s.live && IsPlayer(p) && e in s.live && e != p ==> ViewOf(s, p, e, sight))
    && (forall p, k :: p in s.live && IsPlayer(p) && k in s.views[p.key] ==> Known(s, p, k))
  }

  ghost predicate ViewOf(s: Scene, p: Entity, e: Entity, sight: nat) {
    && p.key in s.views
    && (e.key in s.views[p.key] ==> InSight(e, p, sight) && s.views[p.key][e.key] == e.pos)
    && (InSight(e, p, sight) && e.key.kind != Loot ==> e.key in s.views[p.key])
  }

  ghost predicate Known(s: Scene, p: Entity, k: Key) {
    k != p.key && (k in s.retired || exists e :: e in s.live && e.key == k)
  }

  // --------------------------------------- what the map reports about a neighbour

  /** When e is added: its neighbours see it, and a player sees them. */
  function ReportAdd(q: Entity, e: Entity, sight: nat): seq<Event> {
    if !InSight(q, e, sight) then []
    else
      (if IsPlayer(q) then [Appear(q.key, e.key, e.pos, e.key.kind == Monster)] else [])
      + (if IsPlayer(e) then [Appear(e.key, q.key, q.pos, false)] else [])
  }

  function ReportRemove(q: Entity, e: Entity, sight: nat): seq<Event> {
    if InSight(q, e, sight) && IsPlayer(q) then [Disappear(q.key, e.key)] else []
  }

  /** When e moves to f: the neighbours it leaves behind. */
  function ReportLeave(q: Entity, e: Entity, f: Entity, sight: nat): seq<Event> {
    if !(InSight(q, e, sight) && !InSight(q, f, sight)) then []
    else
      (if IsPlayer(q) then [Disappear(q.key, e.key)] else [])
      + (if IsPlayer(e) then [Disappear(e.key, q.key)] else [])
  }

  /** When e moves to f: the neighbours at its new position. Loot is not announced. */
  function ReportEnter(q: Entity, e: Entity, f: Entity, sight: nat): seq<Event> {
    if !InSight(q, f, sight) then []
    else if InSight(q, e, sight) then
      (if IsPlayer(q) then [Moved(q.key, e.key, f.pos.x - e.pos.x, f.pos.y - e.pos.y)] else [])
    else
      (if IsPlayer(q) then [Appear(q.key, e.key, f.pos, false)] else [])
      + (if IsPlayer(e) && q.key.kind != Loot then [Appear(e.key, q.key, q.pos, false)] else [])
  }

  function ReportMove(q: Entity, e: Entity, f: Entity, sight: nat): seq<Event> {
    ReportLeave(q, e, f, sight) + ReportEnter(q, e, f, sight)
  }

  function AddEvents(live: set<Entity>, e: Entity, sight: nat): set<Event> {
    set q, ev | q in live && ev in ReportAdd(q, e, sight) :: ev
  }

  function RemoveEvents(live: set<Entity>, e: Entity, sight: nat): set<Event> {
    set q, ev | q in live && ev in ReportRemove(q, e, sight) :: ev
  }

  function MoveEvents(live: set<Entity>, e: Entity, f: Entity, sight: nat): set<Event> {
    set q, ev | q in live && ev in ReportMove(q, e, f, sight) :: ev
  }

  /** Who is told what when a character is added. */
  predicate TellsOfAddition(q: Entity, e: Entity, sight: nat, ev: Event) {
    && ev.Appear? && Distance(q.pos, e.pos) <= sight
    && ((q.key.kind == Player && ev.viewer == q.key && ev.subject == e.key && ev.at == e.pos
         && (ev.spawned <==> e.key.kind == Monster))
        || (e.key.kind == Player && ev.viewer == e.key && ev.subject == q.key && ev.at == q.pos && !ev.spawned))
  }

  lemma AddTellsIff(live: set<Entity>, e: Entity, sight: nat, ev: Event)
    ensures ev in AddEvents(live, e, sight) <==> exists q <- live :: TellsOfAddition(q, e, sight, ev)
  {
    forall q ensures ev in ReportAdd(q, e, sight) <==> TellsOfAddition(q, e, sight, ev) {
      hide Distance;
    }
  }

  lemma RemoveTellsIff(live: set<Entity>, e: Entity, sight: nat, ev: Event)
    ensures ev in RemoveEvents(live, e, sight) <==>
            exists q <- live :: Distance(q.pos, e.pos) <= sight && q.key.kind == Player && ev == Disappear(q.key, e.key)
  {
    if q :| q in live && Distance(q.pos, e.pos) <= sight && q.key.kind == Player && ev == Disappear(q.key, e.key) {
      assert ev in ReportRemove(q, e, sight);
    }
  }

  /** Who loses sight of the walker or is lost to it, who keeps it in sight, and who comes in sight. */
  predicate TellsOfMove(q: Entity, e: Entity, f: Entity, sight: nat, ev: Event) {
    var before, now := Distance(q.pos, e.pos) <= sight, Distance(q.pos, f.pos) <= sight;
    match ev
    case Disappear(v, k) =>
      before && !now && ((q.key.kind == Player && v == q.key && k == e.key) || (e.key.kind == Player && v == e.key && k == q.key))
    case Moved(v, k, dx, dy) =>
      && before && now && q.key.kind == Player && v == q.key && k == e.key
      && e.pos.x + dx == f.pos.x && e.pos.y + dy == f.pos.y
    case Appear(v, k, at, spawned) =>
      && !before && now && !spawned
      && ((q.key.kind == Player && v == q.key && k == e.key && at == f.pos)
          || (e.key.kind == Player && q.key.kind != Loot && v == e.key && k == q.key && at == q.pos))
  }

  lemma MoveTellsIff(live: set<Entity>, e: Entity, f: Entity, sight: nat, ev: Event)
    ensures ev in MoveEvents(live, e, f, sight) <==> exists q <- live :: TellsOfMove(q, e, f, sight, ev)
  {
    forall q ensures ev in ReportMove(q, e, f, sight) <==> TellsOfMove(q, e, f, sight, ev) {
      hide Distance;
    }
  }

  // -------------------------------------------------- every operation keeps views exact

  ghost predicate NewKey(s: Scene, e: Entity) {
    FreshKey(s.live, e) && e.key !in s.retired
  }

  /** A player's client starts with nothing on its screen. */
  function Opened(views: Views, e: Entity): Views {
    if IsPlayer(e) then views[e.key := map[]] else views
  }

  function Closed(views: Views, e: Entity): Views {
    if IsPlayer(e) then views - {e.key} else views
  }

  function Added(s: Scene, e: Entity, events: seq<Event>): Scene {
    Scene(s.live + {e}, DeliverAll(Opened(s.views, e), events), s.retired)
  }

  function Gone(s: Scene, e: Entity, events: seq<Event>): Scene {
    Scene(s.live - {e}, DeliverAll(Closed(s.views, e), events), s.retired)
  }

  /** A monster removed by death is not reported; its id is never used again. */
  function Died(s: Scene, e: Entity): Scene {
    Scene(s.live - {e}, s.views, s.retired + {e.key})
  }

  function Shifted(s: Scene, e: Entity, f: Entity, events: seq<Event>): Scene {
    Scene(s.live - {e} + {f}, DeliverAll(s.views, events), s.retired)
  }

  /** What adding e tells v of k. */
  predicate Introduced(live: set<Entity>, e: Entity, sight: nat, v: Entity, k: Entity) {
    IsPlayer(v) && InSight(v, k, sight) && ((v in live && k == e) || (v == e && k in live))
  }

  lemma PairOnAdd(live: set<Entity>, e: Entity, sight: nat, v: Entity, k: Entity, ev: Event)
    requires Keyed(live + {e}) && v in live + {e} && k in live + {e} && FreshKey(live, e)
    ensures ev in AddEvents(live, e, sight) && Concerns(ev, v.key, k.key) <==>
            Introduced(live, e, sight, v, k) && ev == Appear(v.key, k.key, k.pos, k == e && k.key.kind == Monster)
  {
    DistanceSymmetric(v.pos, k.pos);
    if Introduced(live, e, sight, v, k) && ev == Appear(v.key, k.key, k.pos, k == e && k.key.kind == Monster) {
      var q := if k == e then v else k;
      assert q in live && ev in ReportAdd(q, e, sight);
    }
  }

  ghost predicate HasKey(live: set<Entity>, k: Key) {
    exists e :: e in live && e.key == k
  }

  lemma PartiesOnAdd(live: set<Entity>, e: Entity, sight: nat)
    ensures forall ev <- AddEvents(live, e, sight) ::
      HasKey(live + {e}, ev.viewer) && HasKey(live + {e}, ev.subject) && ev.Appear?
  {
    forall ev | ev in AddEvents(live, e, sight)
      ensures HasKey(live + {e}, ev.viewer) && HasKey(live + {e}, ev.subject) && ev.Appear?
    {
      var q :| q in live && ev in ReportAdd(q, e, sight);
      assert q in live + {e} && e in live + {e};
    }
  }

  /** An operation whose events are as specified, each pair once. */
  ghost predicate Reported(events: seq<Event>, expected: set<Event>) {
    Once(events) && Elements(events) == expected
  }

  lemma AddIsProper(s: Scene, e: Entity, sight: nat, events: seq<Event>)
    requires Exact(s, sight) && NewKey(s, e) && Reported(events, AddEvents(s.live, e, sight))
    ensures AllProper(Opened(s.views, e), events)
  {
    forall ev | ev in events ensures Proper(Opened(s.views, e), ev) {
      assert ev in Elements(events);
      var q :| q in s.live && ev in ReportAdd(q, e, sight);
    }
    ProperOnceIff(Opened(s.views, e), events);
  }

  lemma AddedEntry(s: Scene, e: Entity, sight: nat, events: seq<Event>, p: Entity, k: Entity)
    requires Exact(s, sight) && NewKey(s, e) && Reported(events, AddEvents(s.live, e, sight))
    requires p in s.live + {e} && IsPlayer(p) && k in s.live + {e} && k != p
    ensures p.key in Added(s, e, events).views
    ensures Shows(Added(s, e, events).views, p.key, k.key) ==
            if Introduced(s.live, e, sight, p, k) then Some(k.pos) else Shows(Opened(s.views, e), p.key, k.key)
  {
    hide ReportAdd, Distance;
    forall ev ensures ev in events && Concerns(ev, p.key, k.key) <==>
      Introduced(s.live, e, sight, p, k) && ev == Appear(p.key, k.key, k.pos, k == e && k.key.kind == Monster)
    {
      PairOnAdd(s.live, e, sight, p, k, ev);
      assert ev in events <==> ev in Elements(events);
    }
    assert p.key in Opened(s.views, e);
    DeliverOnce(Opened(s.views, e), events, p.key, k.key);
    if Introduced(s.live, e, sight, p, k) {
      assert Concerns(Appear(p.key, k.key, k.pos, k == e && k.key.kind == Monster), p.key, k.key);
    }
  }

  lemma AddedView(s: Scene, e: Entity, sight: nat, events: seq<Event>, p: Entity, k: Entity)
    requires Exact(s, sight) && NewKey(s, e) && Reported(events, AddEvents(s.live, e, sight))
    requires p in s.live + {e} && IsPlayer(p) && k in s.live + {e} && k != p
    ensures ViewOf(Added(s, e, events), p, k, sight)
  {
    AddedEntry(s, e, sight, events, p, k);
    DistanceSymmetric(p.pos, k.pos);
    if p in s.live && k in s.live {
      assert ViewOf(s, p, k, sight);
    } else if p in s.live && k.key in s.views[p.key] {
      assert Known(s, p, k.key);
    }
  }

  lemma AddedKnown(s: Scene, e: Entity, sight: nat, events: seq<Event>, p: Entity, k: Key)
    requires Exact(s, sight) && NewKey(s, e) && Reported(events, AddEvents(s.live, e, sight))
    requires p in s.live + {e} && IsPlayer(p)
    requires p.key in Added(s, e, events).views && k in Added(s, e, events).views[p.key]
    ensures Known(Added(s, e, events), p, k)
  {
    PartiesOnAdd(s.live, e, sight);
    DeliverOnce(Opened(s.views, e), events, p.key, k);
    if ev :| ev in events && Concerns(ev, p.key, k) {
      assert ev in Elements(events);
      var q :| q in s.live && ev in ReportAdd(q, e, sight);
    } else {
      assert Known(s, p, k);
    }
  }

  lemma AddKeepsExact(s: Scene, e: Entity, sight: nat, events: seq<Event>)
    requires Exact(s, sight) && NewKey(s, e) && Reported(events, AddEvents(s.live, e, sight))
    ensures Exact(Added(s, e, events), sight)
    ensures AllProper(Opened(s.views, e), events)
  {
    AddIsProper(s, e, sight, events);
    var t := Added(s, e, events);
    forall v ensures v in t.views <==> v in Opened(s.views, e) {
      DeliverKeys(Opened(s.views, e), events);
    }
    forall p, k | p in t.live && IsPlayer(p) && k in t.live && k != p ensures ViewOf(t, p, k, sight) {
      AddedView(s, e, sight, events, p, k);
    }
    forall p, k | p in t.live && IsPlayer(p) && k in t.views[p.key] ensures Known(t, p, k) {
      AddedKnown(s, e, sight, events, p, k);
    }
  }

  lemma {:induction false} DeliverKeys(views: Views, events: seq<Event>)
    ensures DeliverAll(views, events).Keys == views.Keys
  {
    if events != [] {
      DeliverKeys(views, events[..|events| - 1]);
    }
  }

  // -------------------------------------------------------------------- removals

  lemma GoneAgain(live: set<Entity>, e: Entity, sight: nat, v: Entity, k: Key, ev: Event)
    requires Keyed(live) && FreshKey(live, e) && v in live
    ensures ev in RemoveEvents(live, e, sight) && Concerns(ev, v.key, k) <==>
            k == e.key && IsPlayer(v) && InSight(v, e, sight) && ev == Disappear(v.key, k)
  {
    if k == e.key && IsPlayer(v) && InSight(v, e, sight) && ev == Disappear(v.key, k) {
      assert ev in ReportRemove(v, e, sight);
    }
  }

  lemma OthersAreFresh(live: set<Entity>, e: Entity)
    requires Keyed(live) && e in live
    ensures Keyed(live - {e}) && FreshKey(live - {e}, e)
  {
  }

  /** The players near a piece of loot have been shown it. Characters of other kinds always have been. */
  ghost predicate EndIsKnown(s: Scene, e: Entity, sight: nat) {
    forall p :: p in s.live - {e} && IsPlayer(p) && InSight(p, e, sight) && e.key.kind == Loot ==>
      p.key in s.views && e.key in s.views[p.key]
  }

  /** Telling of a removal is proper exactly when nobody is told of the end of loot it was never shown. */
  lemma RemoveIsProperIff(s: Scene, e: Entity, sight: nat, events: seq<Event>)
    requires Exact(s, sight) && e in s.live && Reported(events, RemoveEvents(s.live - {e}, e, sight))
    ensures AllProper(Closed(s.views, e), events) <==> EndIsKnown(s, e, sight)
  {
    ProperOnceIff(Closed(s.views, e), events);
    forall ev | ev in events
      ensures exists p :: p in s.live - {e} && IsPlayer(p) && InSight(p, e, sight) && ev == Disappear(p.key, e.key)
    {
      assert ev in Elements(events);
    }
    forall p | p in s.live - {e} && IsPlayer(p) && InSight(p, e, sight)
      ensures Disappear(p.key, e.key) in events
      ensures p.key in Closed(s.views, e) && Closed(s.views, e)[p.key] == s.views[p.key]
      ensures e.key.kind != Loot ==> e.key in s.views[p.key]
    {
      assert Disappear(p.key, e.key) in ReportRemove(p, e, sight);
      assert Disappear(p.key, e.key) in Elements(events);
      assert ViewOf(s, p, e, sight);
      DistanceSymmetric(p.pos, e.pos);
    }
  }

  lemma GoneKnown(s: Scene, e: Entity, sight: nat, events: seq<Event>, p: Entity, k: Key)
    requires Exact(s, sight) && e in s.live && Reported(events, RemoveEvents(s.live - {e}, e, sight))
    requires p in s.live - {e} && IsPlayer(p) && p.key in Gone(s, e, events).views
    ensures p.key in s.views
    ensures Shows(Gone(s, e, events).views, p.key, k) == if k == e.key then None else Shows(s.views, p.key, k)
    ensures k in Gone(s, e, events).views[p.key] ==> Known(Gone(s, e, events), p, k)
  {
    OthersAreFresh(s.live, e);
    GoneEntry(s, e, sight, events, p, k);
    if k in s.views[p.key] && k != e.key {
      assert Known(s, p, k);
      if k !in s.retired {
        var x :| x in s.live && x.key == k;
        assert x in s.live - {e};
      }
    }
  }

  lemma GoneEntry(s: Scene, e: Entity, sight: nat, events: seq<Event>, p: Entity, k: Key)
    requires Exact(s, sight) && e in s.live && Reported(events, RemoveEvents(s.live - {e}, e, sight))
    requires p in s.live - {e} && IsPlayer(p)
    ensures p.key in s.views
    ensures Shows(Gone(s, e, events).views, p.key, k) == if k == e.key then None else Shows(s.views, p.key, k)
  {
    OthersAreFresh(s.live, e);
    forall ev ensures ev in events && Concerns(ev, p.key, k) <==>
      k == e.key && InSight(p, e, sight) && ev == Disappear(p.key, k)
    {
      GoneAgain(s.live - {e}, e, sight, p, k, ev);
      assert ev in events <==> ev in Elements(events);
    }
    DeliverOnce(Closed(s.views, e), events, p.key, k);
    assert ViewOf(s, p, e, sight);
    DistanceSymmetric(p.pos, e.pos);
    if k == e.key && InSight(p, e, sight) {
      assert Concerns(Disappear(p.key, k), p.key, k);
    }
  }

  /** The removed character, if a player, takes its own view along; everybody else forgets it. */
  lemma RemoveKeepsExact(s: Scene, e: Entity, sight: nat, events: seq<Event>)
    requires Exact(s, sight) && e in s.live && Reported(events, RemoveEvents(s.live - {e}, e, sight))
    ensures Exact(Gone(s, e, events), sight) && NewKey(Gone(s, e, events), e)
    ensures AllProper(Closed(s.views, e), events) <==> EndIsKnown(s, e, sight)
  {
    hide AllProper, EndIsKnown, Proper;
    RemoveIsProperIff(s, e, sight, events);
    OthersAreFresh(s.live, e);
    var t := Gone(s, e, events);
    DeliverKeys(Closed(s.views, e), events);
    forall v ensures v in t.views <==> exists p :: p in t.live && IsPlayer(p) && p.key == v {
      if v in t.views {
        var p :| p in s.live && IsPlayer(p) && p.key == v;
        assert p in t.live;
      }
    }
    forall p, k | p in t.live && IsPlayer(p) && k in t.live && k != p ensures ViewOf(t, p, k, sight) {
      GoneKnown(s, e, sight, events, p, k.key);
      assert ViewOf(s, p, k, sight);
    }
    forall p, k | p in t.live && IsPlayer(p) && k in t.views[p.key] ensures Known(t, p, k) {
      GoneKnown(s, e, sight, events, p, k);
    }
  }

  /** Clients keep a dead monster on their screens: harmless, because its id is retired. */
  lemma DeathKeepsExact(s: Scene, e: Entity, sight: nat)
    requires Exact(s, sight) && e in s.live && e.key.kind == Monster
    ensures Exact(Died(s, e), sight)
  {
    var t := Died(s, e);
    OthersAreFresh(s.live, e);
    forall v ensures v in t.views <==> exists p :: p in t.live && IsPlayer(p) && p.key == v {
      if v in t.views {
        var p :| p in s.live && IsPlayer(p) && p.key == v;
        assert p in t.live;
      }
    }
    forall p, k | p in t.live && IsPlayer(p) && k in t.live && k != p ensures ViewOf(t, p, k, sight) {
      assert ViewOf(s, p, k, sight);
    }
    forall p, k | p in t.live && IsPlayer(p) && k in t.views[p.key] ensures Known(t, p, k) {
      assert Known(s, p, k);
      if k !in s.retired && k != e.key {
        var x :| x in s.live && x.key == k;
        assert x in t.live;
      }
    }
  }

  // ----------------------------------------------------------------------- moves

  ghost predicate CanMove(s: Scene, e: Entity, f: Entity, sight: nat, events: seq<Event>) {
    && Exact(s, sight) && e in s.live && e.key.kind != Loot && f.key == e.key
    && Reported(events, MoveEvents(s.live - {e}, e, f, sight))
  }

  /** The loot a player leaves behind has been shown to it. */
  ghost predicate LeftIsKnown(s: Scene, e: Entity, f: Entity, sight: nat) {
    forall q :: q in s.live && IsPlayer(e) && q.key.kind == Loot && InSight(q, e, sight) && !InSight(q, f, sight) ==>
      e.key in s.views && q.key in s.views[e.key]
  }

  lemma LeaveIsProperIff(s: Scene, e: Entity, f: Entity, sight: nat, q: Entity, ev: Event)
    requires Exact(s, sight) && e in s.live && q in s.live && q != e && ev in ReportLeave(q, e, f, sight)
    requires e.key.kind != Loot
    ensures Proper(s.views, ev) <==>
            !(IsPlayer(e) && q.key.kind == Loot) || (e.key in s.views && q.key in s.views[e.key])
  {
    DistanceSymmetric(q.pos, e.pos);
    if IsPlayer(q) && ev == Disappear(q.key, e.key) {
      assert ViewOf(s, q, e, sight);
    } else {
      assert ViewOf(s, e, q, sight);
    }
  }

  lemma EnterIsProper(s: Scene, e: Entity, f: Entity, sight: nat, q: Entity, ev: Event)
    requires Exact(s, sight) && e in s.live && q in s.live && q != e && ev in ReportEnter(q, e, f, sight)
    requires e.key.kind != Loot
    ensures Proper(s.views, ev)
  {
    DistanceSymmetric(q.pos, e.pos);
    if ev.viewer == q.key {
      assert ViewOf(s, q, e, sight);
    } else {
      assert ViewOf(s, e, q, sight);
    }
  }

  /** Telling of a move is proper exactly when the player is not told of the end of loot it was never shown. */
  lemma MoveIsProperIff(s: Scene, e: Entity, f: Entity, sight: nat, events: seq<Event>)
    requires CanMove(s, e, f, sight, events)
    ensures AllProper(s.views, events) <==> LeftIsKnown(s, e, f, sight)
  {
    ProperOnceIff(s.views, events);
    if LeftIsKnown(s, e, f, sight) {
      forall ev | ev in events ensures Proper(s.views, ev) {
        assert ev in Elements(events);
        var q :| q in s.live - {e} && ev in ReportMove(q, e, f, sight);
        if ev in ReportLeave(q, e, f, sight) {
          LeaveIsProperIff(s, e, f, sight, q, ev);
        } else {
          EnterIsProper(s, e, f, sight, q, ev);
        }
      }
    } else {
      var q :| q in s.live && IsPlayer(e) && q.key.kind == Loot && InSight(q, e, sight) && !InSight(q, f, sight)
        && !(e.key in s.views && q.key in s.views[e.key]);
      var ev := Disappear(e.key, q.key);
      assert ev in ReportLeave(q, e, f, sight) && ev in ReportMove(q, e, f, sight);
      assert ev in Elements(events);
      LeaveIsProperIff(s, e, f, sight, q, ev);
    }
  }

  /** Where a move leaves a character in someone's view. */
  function Follows(before: Option<Point>, at: Point, near: bool, now: bool, shown: bool, dx: int, dy: int): Option<Point> {
    if near && !now then None
    else if !near && now && shown then Some(at)
    else if near && now && before.Some? then Some(Point(before.value.x + dx, before.value.y + dy))
    else before
  }

  lemma MoveNames(q: Entity, e: Entity, f: Entity, sight: nat, ev: Event)
    requires ev in ReportMove(q, e, f, sight)
    ensures Concerns(ev, q.key, e.key) || Concerns(ev, e.key, q.key)
  {
    hide Distance, InSight;
  }

  /** One who stays put and the walker, in both directions. */
  lemma MovePair(live: set<Entity>, e: Entity, f: Entity, sight: nat, q: Entity, ev: Event)
    requires Keyed(live) && FreshKey(live, e) && q in live
    ensures ev in MoveEvents(live, e, f, sight) && (Concerns(ev, q.key, e.key) || Concerns(ev, e.key, q.key)) <==>
            ev in ReportMove(q, e, f, sight)
  {
    hide ReportMove;
    if ev in ReportMove(q, e, f, sight) {
      MoveNames(q, e, f, sight, ev);
    }
    if ev in MoveEvents(live, e, f, sight) && (Concerns(ev, q.key, e.key) || Concerns(ev, e.key, q.key)) {
      var x :| x in live && ev in ReportMove(x, e, f, sight);
      MoveNames(x, e, f, sight, ev);
      assert x.key == q.key;
    }
  }

  /** What a move tells one who stays put of the walker. */
  lemma ToldOfWalker(q: Entity, e: Entity, f: Entity, sight: nat, ev: Event)
    requires q.key != e.key && IsPlayer(q)
    ensures ev in ReportMove(q, e, f, sight) && Concerns(ev, q.key, e.key) <==>
      if InSight(q, e, sight) && !InSight(q, f, sight) then ev == Disappear(q.key, e.key)
      else if InSight(q, e, sight) then ev == Moved(q.key, e.key, f.pos.x - e.pos.x, f.pos.y - e.pos.y)
      else InSight(q, f, sight) && ev == Appear(q.key, e.key, f.pos, false)
  {
    hide Distance, InSight;
  }

  /** What a move tells the walker of one who stays put. */
  lemma WalkerIsTold(q: Entity, e: Entity, f: Entity, sight: nat, ev: Event)
    requires q.key != e.key && IsPlayer(e)
    ensures ev in ReportMove(q, e, f, sight) && Concerns(ev, e.key, q.key) <==>
      if InSight(q, e, sight) then !InSight(q, f, sight) && ev == Disappear(e.key, q.key)
      else InSight(q, f, sight) && q.key.kind != Loot && ev == Appear(e.key, q.key, q.pos, false)
  {
    hide Distance, InSight;
  }

  lemma EventsOfPair(s: Scene, e: Entity, f: Entity, sight: nat, events: seq<Event>, q: Entity)
    requires CanMove(s, e, f, sight, events) && q in s.live && q != e
    ensures forall ev :: ev in events && (Concerns(ev, q.key, e.key) || Concerns(ev, e.key, q.key)) <==>
                         ev in ReportMove(q, e, f, sight)
    ensures q.key != e.key && Once(events)
    ensures (IsPlayer(q) ==> q.key in s.views) && (IsPlayer(e) ==> e.key in s.views)
  {
    OthersAreFresh(s.live, e);
    hide ReportMove, Distance, InSight;
    forall ev ensures ev in events && (Concerns(ev, q.key, e.key) || Concerns(ev, e.key, q.key)) <==>
      ev in ReportMove(q, e, f, sight)
    {
      MovePair(s.live - {e}, e, f, sight, q, ev);
      assert ev in events <==> ev in Elements(events);
    }
  }

  lemma WalkerInView(s: Scene, e: Entity, f: Entity, sight: nat, events: seq<Event>, q: Entity)
    requires CanMove(s, e, f, sight, events) && q in s.live && q != e && IsPlayer(q)
    ensures Shows(Shifted(s, e, f, events).views, q.key, e.key) ==
            Follows(Shows(s.views, q.key, e.key), f.pos, InSight(q, e, sight), InSight(q, f, sight), true,
                    f.pos.x - e.pos.x, f.pos.y - e.pos.y)
  {
    hide CanMove, ReportMove, Distance, InSight, Concerns;
    EventsOfPair(s, e, f, sight, events, q);
    DeliverOnce(s.views, events, q.key, e.key);
    var ev := if InSight(q, e, sight) && !InSight(q, f, sight) then Disappear(q.key, e.key)
              else if InSight(q, e, sight) then Moved(q.key, e.key, f.pos.x - e.pos.x, f.pos.y - e.pos.y)
              else Appear(q.key, e.key, f.pos, false);
    ToldOfWalker(q, e, f, sight, ev);
    forall x | x in events && Concerns(x, q.key, e.key) ensures InSight(q, e, sight) || InSight(q, f, sight) {
      ToldOfWalker(q, e, f, sight, x);
    }
  }

  lemma OtherInView(s: Scene, e: Entity, f: Entity, sight: nat, events: seq<Event>, q: Entity)
    requires CanMove(s, e, f, sight, events) && q in s.live && q != e && IsPlayer(e)
    ensures Shows(Shifted(s, e, f, events).views, e.key, q.key) ==
            Follows(Shows(s.views, e.key, q.key), q.pos, InSight(q, e, sight), InSight(q, f, sight), q.key.kind != Loot, 0, 0)
  {
    hide CanMove, ReportMove, Distance, InSight, Concerns;
    EventsOfPair(s, e, f, sight, events, q);
    DeliverOnce(s.views, events, e.key, q.key);
    var ev := if InSight(q, e, sight) then Disappear(e.key, q.key) else Appear(e.key, q.key, q.pos, false);
    WalkerIsTold(q, e, f, sight, ev);
    forall x | x in events && Concerns(x, e.key, q.key) ensures x == ev && InSight(q, e, sight) != InSight(q, f, sight) {
      WalkerIsTold(q, e, f, sight, x);
    }
  }

  lemma MovedView(s: Scene, e: Entity, f: Entity, sight: nat, events: seq<Event>, q: Entity)
    requires CanMove(s, e, f, sight, events) && q in s.live && q != e
    ensures IsPlayer(q) ==> ViewOf(Shifted(s, e, f, events), q, f, sight)
    ensures IsPlayer(e) ==> ViewOf(Shifted(s, e, f, events), f, q, sight)
  {
    DeliverKeys(s.views, events);
    DistanceSymmetric(q.pos, e.pos);
    DistanceSymmetric(q.pos, f.pos);
    if IsPlayer(q) {
      WalkerInView(s, e, f, sight, events, q);
      assert ViewOf(s, q, e, sight);
    }
    if IsPlayer(e) {
      OtherInView(s, e, f, sight, events, q);
      assert ViewOf(s, e, q, sight);
    }
  }

  lemma MoveConcernsWalker(live: set<Entity>, e: Entity, f: Entity, sight: nat, ev: Event)
    requires FreshKey(live, e) && ev in MoveEvents(live, e, f, sight)
    ensures (ev.viewer == e.key || ev.subject == e.key) && ev.viewer != ev.subject
    ensures HasKey(live + {e}, ev.viewer) && HasKey(live + {e}, ev.subject)
  {
    hide ReportMove;
    var q :| q in live && ev in ReportMove(q, e, f, sight);
    MoveNames(q, e, f, sight, ev);
    assert q in live + {e} && e in live + {e};
  }

  /** Two characters that stay put know of each other what they knew. */
  lemma UnmovedView(s: Scene, e: Entity, f: Entity, sight: nat, events: seq<Event>, p: Key, k: Key)
    requires CanMove(s, e, f, sight, events) && p in s.views && p != e.key && k != e.key
    ensures p in Shifted(s, e, f, events).views
    ensures Shows(Shifted(s, e, f, events).views, p, k) == Shows(s.views, p, k)
  {
    DeliverOnce(s.views, events, p, k);
    forall ev | ev in events ensures !Concerns(ev, p, k) {
      assert ev in Elements(events);
      MoveConcernsWalker(s.live - {e}, e, f, sight, ev);
    }
  }

  lemma MovedKnown(s: Scene, e: Entity, f: Entity, sight: nat, events: seq<Event>, p: Entity, k: Key)
    requires CanMove(s, e, f, sight, events) && p in s.live && IsPlayer(p)
    requires p.key in Shifted(s, e, f, events).views && k in Shifted(s, e, f, events).views[p.key]
    ensures k != p.key && (k in s.retired || HasKey(s.live, k))
  {
    OthersAreFresh(s.live, e);
    hide ReportMove, ViewOf;
    DeliverOnce(s.views, events, p.key, k);
    if ev :| ev in events && Concerns(ev, p.key, k) {
      assert ev in Elements(events) && s.live - {e} + {e} == s.live;
      MoveConcernsWalker(s.live - {e}, e, f, sight, ev);
    } else {
      assert Known(s, p, k);
    }
  }

  lemma MoveKeepsExact(s: Scene, e: Entity, f: Entity, sight: nat, events: seq<Event>)
    requires CanMove(s, e, f, sight, events)
    ensures Exact(Shifted(s, e, f, events), sight)
    ensures AllProper(s.views, events) <==> LeftIsKnown(s, e, f, sight)
  {
    hide AllProper, LeftIsKnown, Proper;
    MoveIsProperIff(s, e, f, sight, events);
    var t := Shifted(s, e, f, events);
    OthersAreFresh(s.live, e);
    DeliverKeys(s.views, events);
    forall v ensures v in t.views <==> exists p :: p in t.live && IsPlayer(p) && p.key == v {
      if v in t.views {
        var p :| p in s.live && IsPlayer(p) && p.key == v;
        var p' := if p == e then f else p;
        assert p' in t.live && IsPlayer(p') && p'.key == v;
      }
    }
    forall p, k | p in t.live && IsPlayer(p) && k in t.live && k != p ensures ViewOf(t, p, k, sight) {
      if p == f {
        MovedView(s, e, f, sight, events, k);
      } else if k == f {
        MovedView(s, e, f, sight, events, p);
      } else {
        assert ViewOf(s, p, k, sight);
        UnmovedView(s, e, f, sight, events, p.key, k.key);
      }
    }
    forall p, k | p in t.live && IsPlayer(p) && k in t.views[p.key] ensures Known(t, p, k) {
      MovedKnown(s, e, f, sight, events, if p == f then e else p, k);
      if k !in s.retired {
        var x :| x in s.live && x.key == k;
        assert (if x == e then f else x) in t.live;
      }
    }
  }

  // ----------------------------------------------------- adding out of the bounds

  /** The map reports a character before it finds that the character does not fit. Its own client is told, too. */
  function Told(s: Scene, e: Entity, events: seq<Event>): Views {
    DeliverAll(Opened(s.views, e), events)
  }

  function Refused(s: Scene, e: Entity, events: seq<Event>): Scene {
    s.(views := Closed(Told(s, e, events), e))
  }

  /** Everybody on the map knows what it should, and the client of the refused player has been shown nothing. */
  ghost predicate HarmlessRefusal(s: Scene, e: Entity, sight: nat, events: seq<Event>) {
    && Exact(Refused(s, e, events), sight)
    && (IsPlayer(e) ==> e.key in Told(s, e, events) && Told(s, e, events)[e.key] == map[])
  }

  /** Nobody near is a player, and if it is a player that is refused, nobody is near at all. */
  ghost predicate Unnoticed(live: set<Entity>, e: Entity, sight: nat) {
    forall q <- live :: IsPlayer(q) || IsPlayer(e) ==> !InSight(q, e, sight)
  }

  lemma NoElements(events: seq<Event>)
    ensures Elements(events) == {} ==> events == []
  {
    if events != [] {
      assert events[0] in Elements(events);
    }
  }

  lemma NothingToTell(s: Scene, e: Entity, sight: nat, events: seq<Event>)
    requires Exact(s, sight) && NewKey(s, e) && Reported(events, AddEvents(s.live, e, sight))
    requires Unnoticed(s.live, e, sight)
    ensures events == [] && Told(s, e, events) == Opened(s.views, e) && Refused(s, e, events) == s
  {
    NoElements(events);
    assert AddEvents(s.live, e, sight) == {};
    assert e.key !in s.views;
    assert Closed(Opened(s.views, e), e) == s.views;
  }

  /** Reporting a character that is then refused does no harm exactly when nobody could notice. */
  lemma RefusalIsHarmlessIff(s: Scene, e: Entity, sight: nat, events: seq<Event>)
    requires Exact(s, sight) && NewKey(s, e) && Reported(events, AddEvents(s.live, e, sight))
    ensures HarmlessRefusal(s, e, sight, events) <==> Unnoticed(s.live, e, sight)
  {
    if Unnoticed(s.live, e, sight) {
      NothingToTell(s, e, sight, events);
    } else {
      var q :| q in s.live && (IsPlayer(q) || IsPlayer(e)) && InSight(q, e, sight);
      if IsPlayer(q) {
        NeighbourIsMisled(s, e, sight, events, q);
      } else {
        TellingShows(s, e, sight, events, q, Appear(e.key, q.key, q.pos, false));
      }
    }
  }

  lemma TellingShows(s: Scene, e: Entity, sight: nat, events: seq<Event>, q: Entity, ev: Event)
    requires Reported(events, AddEvents(s.live, e, sight)) && q in s.live && ev in ReportAdd(q, e, sight)
    requires ev.viewer in Opened(s.views, e)
    ensures Shows(Told(s, e, events), ev.viewer, ev.subject) == Some(ev.at)
  {
    assert ev in AddEvents(s.live, e, sight) && ev in Elements(events);
    DeliverOnce(Opened(s.views, e), events, ev.viewer, ev.subject);
    assert Concerns(ev, ev.viewer, ev.subject);
  }

  lemma NeighbourIsMisled(s: Scene, e: Entity, sight: nat, events: seq<Event>, p: Entity)
    requires Exact(s, sight) && NewKey(s, e) && Reported(events, AddEvents(s.live, e, sight))
    requires p in s.live && IsPlayer(p) && InSight(p, e, sight)
    ensures !Exact(Refused(s, e, events), sight)
  {
    var t := Refused(s, e, events);
    DeliverKeys(Opened(s.views, e), events);
    assert p.key in s.views && p.key != e.key;
    TellingShows(s, e, sight, events, p, Appear(p.key, e.key, e.pos, e.key.kind == Monster));
    assert e.key in t.views[p.key] && !Known(t, p, e.key);
  }

  /** Removing a character that was refused tells again everybody who had been told, but not its own client. */
  lemma RemovalUndoesRefusal(s: Scene, e: Entity, sight: nat, events: seq<Event>, more: seq<Event>)
    requires Exact(s, sight) && NewKey(s, e)
    requires Reported(events, AddEvents(s.live, e, sight)) && Reported(more, RemoveEvents(s.live, e, sight))
    ensures DeliverAll(Refused(s, e, events).views, more) == s.views
    ensures IsPlayer(e) ==> e.key in Told(s, e, events) && e.key in DeliverAll(Told(s, e, events), more)
    ensures IsPlayer(e) ==> DeliverAll(Told(s, e, events), more)[e.key] == Told(s, e, events)[e.key]
  {
    var t := Refused(s, e, events);
    DeliverKeys(Opened(s.views, e), events);
    DeliverKeys(t.views, more);
    assert e.key !in s.views;
    var undone := DeliverAll(t.views, more);
    forall v | v in s.views ensures undone[v] == s.views[v] {
      var p :| p in s.live && IsPlayer(p) && p.key == v;
      forall k ensures Shows(undone, v, k) == Shows(s.views, v, k) {
        UndoneEntry(s, e, sight, events, more, p, k);
      }
      SameView(undone, s.views, v);
    }
    if IsPlayer(e) {
      OwnClientKeeps(s, e, sight, events, more);
    }
  }

  lemma SameView(a: Views, b: Views, v: Key)
    requires v in a && v in b && forall k :: Shows(a, v, k) == Shows(b, v, k)
    ensures a[v] == b[v]
  {
    forall k ensures k in a[v] <==> k in b[v] {
      assert Shows(a, v, k) == Shows(b, v, k);
    }
    forall k | k in a[v] ensures a[v][k] == b[v][k] {
      assert Shows(a, v, k) == Shows(b, v, k);
    }
  }

  /** One entry of one view: shown and taken back, or never touched. */
  lemma UndoneEntry(s: Scene, e: Entity, sight: nat, events: seq<Event>, more: seq<Event>, p: Entity, k: Key)
    requires Exact(s, sight) && NewKey(s, e) && p in s.live && IsPlayer(p)
    requires Reported(events, AddEvents(s.live, e, sight)) && Reported(more, RemoveEvents(s.live, e, sight))
    ensures Shows(DeliverAll(Refused(s, e, events).views, more), p.key, k) == Shows(s.views, p.key, k)
  {
    var t := Refused(s, e, events);
    assert p.key in s.views && p.key != e.key;
    assert e.key in s.views[p.key] ==> Known(s, p, e.key);
    DeliverOnce(Opened(s.views, e), events, p.key, k);
    DeliverOnce(t.views, more, p.key, k);
    forall ev ensures ev in more && Concerns(ev, p.key, k) <==>
      k == e.key && InSight(p, e, sight) && ev == Disappear(p.key, k)
    {
      GoneAgain(s.live, e, sight, p, k, ev);
      assert ev in more <==> ev in Elements(more);
    }
    forall ev | ev in events && Concerns(ev, p.key, k) ensures k == e.key && InSight(p, e, sight) {
      assert ev in Elements(events);
    }
    if k == e.key && InSight(p, e, sight) {
      assert Concerns(Disappear(p.key, k), p.key, k);
    }
  }

  lemma OwnClientKeeps(s: Scene, e: Entity, sight: nat, events: seq<Event>, more: seq<Event>)
    requires NewKey(s, e) && IsPlayer(e) && Reported(more, RemoveEvents(s.live, e, sight))
    ensures e.key in Told(s, e, events) && e.key in DeliverAll(Told(s, e, events), more)
    ensures DeliverAll(Told(s, e, events), more)[e.key] == Told(s, e, events)[e.key]
  {
    var told := Told(s, e, events);
    DeliverKeys(Opened(s.views, e), events);
    DeliverKeys(told, more);
    forall ev | ev in more ensures ev.viewer != e.key {
      assert ev in Elements(more);
    }
    forall k ensures Shows(DeliverAll(told, more), e.key, k) == Shows(told, e.key, k) {
      DeliverOnce(told, more, e.key, k);
    }
    SameView(DeliverAll(told, more), told, e.key);
  }

  // -------------------------------------------------------- walking out of the map

  /** A walk that ends outside of the map: reported like any other, but nobody can see the walker again. */
  function WalkedOut(s: Scene, e: Entity, events: seq<Event>): Scene {
    Scene(s.live - {e}, DeliverAll(s.views, events), s.retired)
  }

  /** That does no harm exactly when it is no player who walks and no player is near the place where it ends. */
  lemma WalkedOutIsExactIff(s: Scene, e: Entity, f: Entity, sight: nat, events: seq<Event>)
    requires CanMove(s, e, f, sight, events)
    ensures Exact(WalkedOut(s, e, events), sight) <==>
            !IsPlayer(e) && forall p <- s.live - {e} :: IsPlayer(p) ==> !InSight(p, f, sight)
  {
    var t := WalkedOut(s, e, events);
    OthersAreFresh(s.live, e);
    DeliverKeys(s.views, events);
    if IsPlayer(e) {
      assert e.key in t.views;
    } else if p :| p in s.live - {e} && IsPlayer(p) && InSight(p, f, sight) {
      MovedView(s, e, f, sight, events, p);
      DistanceSymmetric(p.pos, f.pos);
      assert e.key in t.views[p.key] && !Known(t, p, e.key);
    } else {
      MoveKeepsExact(s, e, f, sight, events);
      WalkedOutQuietly(s, e, f, sight, events);
    }
  }

  lemma WalkedOutQuietly(s: Scene, e: Entity, f: Entity, sight: nat, events: seq<Event>)
    requires CanMove(s, e, f, sight, events) && Exact(Shifted(s, e, f, events), sight)
    requires !IsPlayer(e) && forall p <- s.live - {e} :: IsPlayer(p) ==> !InSight(p, f, sight)
    ensures Exact(WalkedOut(s, e, events), sight)
  {
    var t, u := WalkedOut(s, e, events), Shifted(s, e, f, events);
    OthersAreFresh(s.live, e);
    forall v ensures v in t.views <==> exists p :: p in t.live && IsPlayer(p) && p.key == v {
      if v in t.views {
        var p :| p in u.live && IsPlayer(p) && p.key == v;
        assert p in t.live;
      }
    }
    forall p, k | p in t.live && IsPlayer(p) && k in t.live && k != p ensures ViewOf(t, p, k, sight) {
      assert ViewOf(u, p, k, sight);
    }
    forall p, k | p in t.live && IsPlayer(p) && k in t.views[p.key] ensures Known(t, p, k) {
      assert Known(u, p, k);
      assert ViewOf(u, p, f, sight);
      DistanceSymmetric(p.pos, f.pos);
      if k !in t.retired {
        var x :| x in u.live && x.key == k;
        assert x in t.live;
      }
    }
  }

  // ------------------------------------------------------------------------ runs

  /** What can happen to the map, with the events it gave rise to. */
  datatype Step =
    | Add(e: Entity, events: seq<Event>)
    | Refuse(e: Entity, events: seq<Event>)
    | Remove(e: Entity, events: seq<Event>)
    | Die(e: Entity)
    | Move(e: Entity, f: Entity, events: seq<Event>)
    | Teleport(e: Entity, f: Entity, away: seq<Event>, here: seq<Event>)

  ghost predicate Allowed(s: Scene, step: Step, sight: nat) {
    match step
    case Add(e, events) => NewKey(s, e) && Reported(events, AddEvents(s.live, e, sight))
    case Refuse(e, events) =>
      && NewKey(s, e) && Reported(events, AddEvents(s.live, e, sight))
      && Unnoticed(s.live, e, sight)
    case Remove(e, events) => e in s.live && Reported(events, RemoveEvents(s.live - {e}, e, sight))
    case Die(e) => e in s.live && e.key.kind == Monster
    case Move(e, f, events) => CanMove(s, e, f, sight, events)
    case Teleport(e, f, away, here) =>
      && e in s.live && f.key == e.key && Reported(away, RemoveEvents(s.live - {e}, e, sight))
      && Reported(here, AddEvents(s.live - {e}, f, sight))
  }

  function Apply(s: Scene, step: Step): Scene {
    match step
    case Add(e, events) => Added(s, e, events)
    case Refuse(e, events) => Refused(s, e, events)
    case Remove(e, events) => Gone(s, e, events)
    case Die(e) => Died(s, e)
    case Move(e, f, events) => Shifted(s, e, f, events)
    case Teleport(e, f, away, here) => Added(Gone(s, e, away), f, here)
  }

  /** No client is told in this step what it knows already, nor of the end or a move of someone it was never shown. */
  predicate Honest(s: Scene, step: Step) {
    match step
    case Add(e, events) => AllProper(Opened(s.views, e), events)
    case Refuse(e, events) => AllProper(Opened(s.views, e), events)
    case Remove(e, events) => AllProper(Closed(s.views, e), events)
    case Die(_) => true
    case Move(_, _, events) => AllProper(s.views, events)
    case Teleport(e, f, away, here) =>
      AllProper(Closed(s.views, e), away) && AllProper(Opened(Gone(s, e, away).views, f), here)
  }

  /** No client is told of the end of loot it was never shown. */
  ghost predicate EndsAreKnown(s: Scene, step: Step, sight: nat) {
    match step
    case Remove(e, _) => EndIsKnown(s, e, sight)
    case Move(e, f, _) => LeftIsKnown(s, e, f, sight)
    case Teleport(e, _, _, _) => EndIsKnown(s, e, sight)
    case _ => true
  }

  lemma StepKeepsExact(s: Scene, step: Step, sight: nat)
    requires Exact(s, sight) && Allowed(s, step, sight)
    ensures Exact(Apply(s, step), sight) && (Honest(s, step) <==> EndsAreKnown(s, step, sight))
  {
    match step
    case Add(e, events) => AddKeepsExact(s, e, sight, events);
    case Refuse(e, events) => NothingToTell(s, e, sight, events);
    case Remove(e, events) => RemoveKeepsExact(s, e, sight, events);
    case Die(e) => DeathKeepsExact(s, e, sight);
    case Move(e, f, events) => MoveKeepsExact(s, e, f, sight, events);
    case Teleport(e, f, away, here) =>
      RemoveKeepsExact(s, e, sight, away);
      AddKeepsExact(Gone(s, e, away), f, sight, here);
  }

  /** A player who had the walker in sight and still has it. */
  predicate KeepsInSight(q: Entity, e: Entity, f: Entity, sight: nat) {
    q.key.kind == Player && Distance(q.pos, e.pos) <= sight && Distance(q.pos, f.pos) <= sight
  }

  /** These players are told of each step, once, and nobody else is. */
  ghost predicate FollowsWalker(s: Scene, step: Step, sight: nat) {
    step.Move? ==> Once(step.events) && forall v, k, dx, dy :: Moved(v, k, dx, dy) in step.events <==>
      && k == step.e.key && step.e.pos.x + dx == step.f.pos.x && step.e.pos.y + dy == step.f.pos.y
      && exists q :: q in s.live - {step.e} && q.key == v && KeepsInSight(q, step.e, step.f, sight)
  }

  lemma MovedIff(live: set<Entity>, e: Entity, f: Entity, sight: nat, v: Key, k: Key, dx: int, dy: int)
    ensures Moved(v, k, dx, dy) in MoveEvents(live, e, f, sight) <==>
      && k == e.key && e.pos.x + dx == f.pos.x && e.pos.y + dy == f.pos.y
      && exists q :: q in live && q.key == v && KeepsInSight(q, e, f, sight)
  {
    MoveTellsIff(live, e, f, sight, Moved(v, k, dx, dy));
    hide Distance, MoveEvents;
    if q :| q in live && q.key == v && KeepsInSight(q, e, f, sight) {
      assert k == e.key && e.pos.x + dx == f.pos.x && e.pos.y + dy == f.pos.y ==>
        TellsOfMove(q, e, f, sight, Moved(v, k, dx, dy));
    }
  }

  lemma StepIsFollowed(s: Scene, step: Step, sight: nat)
    requires Allowed(s, step, sight)
    ensures FollowsWalker(s, step, sight)
  {
    if step.Move? {
      forall v, k, dx, dy ensures Moved(v, k, dx, dy) in step.events <==>
        && k == step.e.key && step.e.pos.x + dx == step.f.pos.x && step.e.pos.y + dy == step.f.pos.y
        && exists q :: q in s.live - {step.e} && q.key == v && KeepsInSight(q, step.e, step.f, sight)
      {
        assert Moved(v, k, dx, dy) in step.events <==> Moved(v, k, dx, dy) in Elements(step.events);
        MovedIff(s.live - {step.e}, step.e, step.f, sight, v, k, dx, dy);
      }
    }
  }

  // ------------------------------------------------------------------------ loot

  /** What exactness leaves open: every player has been shown all the loot within sight. */
  ghost predicate LootShown(s: Scene, sight: nat) {
    forall p, q :: p in s.live && IsPlayer(p) && q in s.live && q.key.kind == Loot ==> Shown(s, p, q, sight)
  }

  ghost predicate Shown(s: Scene, p: Entity, q: Entity, sight: nat) {
    InSight(q, p, sight) ==> p.key in s.views && q.key in s.views[p.key]
  }

  /** A player walks up to loot that was out of sight. */
  ghost predicate WalksUpToLoot(live: set<Entity>, e: Entity, f: Entity, sight: nat) {
    IsPlayer(e) && exists q :: q in live && q.key.kind == Loot && InSight(q, f, sight) && !InSight(q, e, sight)
  }

  lemma MoverIsShown(s: Scene, e: Entity, f: Entity, sight: nat, events: seq<Event>, q: Entity)
    requires CanMove(s, e, f, sight, events) && IsPlayer(e) && q in s.live && q.key.kind == Loot
    requires Shown(s, e, q, sight)
    ensures Shown(Shifted(s, e, f, events), f, q, sight) <==> !(InSight(q, f, sight) && !InSight(q, e, sight))
  {
    OtherInView(s, e, f, sight, events, q);
    DeliverKeys(s.views, events);
    assert ViewOf(s, e, q, sight);
    DistanceSymmetric(q.pos, e.pos);
  }

  /** A move leaves loot unshown exactly when its player walks up to loot. */
  lemma MoveShowsLootIff(s: Scene, e: Entity, f: Entity, sight: nat, events: seq<Event>)
    requires CanMove(s, e, f, sight, events) && LootShown(s, sight)
    ensures LootShown(Shifted(s, e, f, events), sight) <==> !WalksUpToLoot(s.live, e, f, sight)
  {
    var t := Shifted(s, e, f, events);
    forall q | q in s.live && q.key.kind == Loot && IsPlayer(e)
      ensures Shown(t, f, q, sight) <==> !(InSight(q, f, sight) && !InSight(q, e, sight))
    {
      assert Shown(s, e, q, sight);
      MoverIsShown(s, e, f, sight, events, q);
    }
    forall p, q | p in t.live && p != f && IsPlayer(p) && q in t.live && q.key.kind == Loot ensures Shown(t, p, q, sight) {
      assert Shown(s, p, q, sight) && p.key in s.views;
      UnmovedView(s, e, f, sight, events, p.key, q.key);
    }
    forall q | q in s.live && q.key.kind == Loot ensures q in t.live {
    }
  }

  lemma AddShowsLoot(s: Scene, e: Entity, sight: nat, events: seq<Event>)
    requires Exact(s, sight) && NewKey(s, e) && Reported(events, AddEvents(s.live, e, sight)) && LootShown(s, sight)
    ensures LootShown(Added(s, e, events), sight)
  {
    var t := Added(s, e, events);
    forall p, q | p in t.live && IsPlayer(p) && q in t.live && q.key.kind == Loot ensures Shown(t, p, q, sight) {
      AddedEntry(s, e, sight, events, p, q);
      DistanceSymmetric(p.pos, q.pos);
      assert p in s.live && q in s.live ==> Shown(s, p, q, sight);
    }
  }

  lemma RemoveShowsLoot(s: Scene, e: Entity, sight: nat, events: seq<Event>)
    requires Exact(s, sight) && e in s.live && Reported(events, RemoveEvents(s.live - {e}, e, sight))
    requires LootShown(s, sight)
    ensures LootShown(Gone(s, e, events), sight)
  {
    var t := Gone(s, e, events);
    DeliverKeys(Closed(s.views, e), events);
    forall p, q | p in t.live && IsPlayer(p) && q in t.live && q.key.kind == Loot ensures Shown(t, p, q, sight) {
      GoneKnown(s, e, sight, events, p, q.key);
      assert Shown(s, p, q, sight);
    }
  }

  /** Of everything that can happen to the map, only a walk up to loot leaves loot unshown. */
  lemma StepShowsLootIff(s: Scene, step: Step, sight: nat)
    requires Exact(s, sight) && Allowed(s, step, sight) && LootShown(s, sight)
    ensures LootShown(Apply(s, step), sight) <==> !(step.Move? && WalksUpToLoot(s.live, step.e, step.f, sight))
  {
    match step
    case Add(e, events) => AddShowsLoot(s, e, sight, events);
    case Refuse(e, events) => NothingToTell(s, e, sight, events);
    case Remove(e, events) => RemoveShowsLoot(s, e, sight, events);
    case Die(e) =>
      forall p, q | p in s.live && IsPlayer(p) && q in s.live && q.key.kind == Loot
        ensures Shown(Died(s, e), p, q, sight)
      {
        assert Shown(s, p, q, sight);
      }
    case Move(e, f, events) => MoveShowsLootIff(s, e, f, sight, events);
    case Teleport(e, f, away, here) =>
      RemoveKeepsExact(s, e, sight, away);
      RemoveShowsLoot(s, e, sight, away);
      AddShowsLoot(Gone(s, e, away), f, sight, here);
  }

  function Run(steps: seq<Step>): Scene {
    if steps == [] then Scene({}, map[], {})
    else Apply(Run(steps[..|steps| - 1]), steps[|steps| - 1])
  }

  ghost predicate AllAllowed(steps: seq<Step>, sight: nat) {
    forall n | 0 <= n < |steps| :: Allowed(Run(steps[..n]), steps[n], sight)
  }

  lemma EmptyIsExact(sight: nat)
    ensures Exact(Scene({}, map[], {}), sight)
  {
  }

  /**
    Over any run, what the events add up to is who is within sight, and a step tells nothing
    spurious exactly when it tells nobody of the end of loot it was never shown.
  */
  lemma {:induction false} RunsAreExact(steps: seq<Step>, sight: nat)
    requires AllAllowed(steps, sight)
    ensures Exact(Run(steps), sight)
    ensures forall n | 0 <= n < |steps| ::
      Honest(Run(steps[..n]), steps[n]) <==> EndsAreKnown(Run(steps[..n]), steps[n], sight)
  {
    hide Allowed, Apply, Honest, EndsAreKnown;
    if steps == [] {
      EmptyIsExact(sight);
    } else {
      hide Exact;
      var before := steps[..|steps| - 1];
      forall n | 0 <= n < |before| ensures before[..n] == steps[..n] {
      }
      RunsAreExact(before, sight);
      StepKeepsExact(Run(before), steps[|steps| - 1], sight);
    }
  }

  lemma ShownEndsAreKnown(s: Scene, step: Step, sight: nat)
    requires Exact(s, sight) && LootShown(s, sight) && Allowed(s, step, sight)
    ensures EndsAreKnown(s, step, sight)
  {
    if step.Remove? || step.Teleport? {
      forall p | p in s.live - {step.e} && IsPlayer(p) && InSight(p, step.e, sight) && step.e.key.kind == Loot
        ensures p.key in s.views && step.e.key in s.views[p.key]
      {
        assert Shown(s, p, step.e, sight);
        DistanceSymmetric(p.pos, step.e.pos);
      }
    } else if step.Move? {
      forall q | q in s.live && IsPlayer(step.e) && q.key.kind == Loot && InSight(q, step.e, sight)
        ensures step.e.key in s.views && q.key in s.views[step.e.key]
      {
        assert Shown(s, step.e, q, sight);
      }
    }
  }

  /**
    If no player walks up to loot, every player has been shown all the loot within its sight,
    too, and no step told any client anything spurious.
  */
  lemma {:induction false} RunsShowLoot(steps: seq<Step>, sight: nat)
    requires AllAllowed(steps, sight)
    requires forall n | 0 <= n < |steps| ::
      !(steps[n].Move? && WalksUpToLoot(Run(steps[..n]).live, steps[n].e, steps[n].f, sight))
    ensures LootShown(Run(steps), sight)
    ensures forall n | 0 <= n < |steps| :: Honest(Run(steps[..n]), steps[n])
  {
    hide Allowed, Apply, WalksUpToLoot, Honest, EndsAreKnown;
    if steps != [] {
      hide Exact, LootShown;
      var before := steps[..|steps| - 1];
      forall n | 0 <= n < |before| ensures before[..n] == steps[..n] {
      }
      RunsShowLoot(before, sight);
      RunsAreExact(before, sight);
      StepShowsLootIff(Run(before), steps[|steps| - 1], sight);
      StepKeepsExact(Run(before), steps[|steps| - 1], sight);
      ShownEndsAreKnown(Run(before), steps[|steps| - 1], sight);
    }
  }
}
