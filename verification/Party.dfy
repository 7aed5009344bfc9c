/**
  Parties: the lists of members, the players' pointers to their party, and the register
  of the world. The pointers and the lists are changed in different places, and have to agree.
*/
module Parties {

  const MAX_PARTY_SIZE := 8
  const MIN_PARTY_SIZE := 2

  // ----------------------------------------------------------- lists of members

  function Without(ms: seq<Player>, p: Player): seq<Player> {
    if ms == [] then [] else if ms[0] == p then Without(ms[1..], p) else [ms[0]] + Without(ms[1..], p)
  }

  lemma {:induction false} WithoutHolds(ms: seq<Player>, p: Player)
    ensures p !in Without(ms, p)
    ensures forall x <- Without(ms, p) :: x in ms
    ensures forall x <- ms :: x == p || x in Without(ms, p)
  {
    if ms != [] {
      WithoutHolds(ms[1..], p);
    }
  }

  predicate IsTopLevel(ms: seq<Player>, level: nat) {
    && (exists p :: p in ms && p.level == level)
    && (forall p <- ms :: p.level <= level)
  }

  function TopLevel(ms: seq<Player>): nat
    requires ms != []
  {
    var front := ms[..|ms| - 1];
    var last := ms[|ms| - 1];
    if front == [] || last.level > TopLevel(front) then last.level else TopLevel(front)
  }

  lemma {:induction false} TopLevelIsTop(ms: seq<Player>)
    requires ms != []
    ensures IsTopLevel(ms, TopLevel(ms))
  {
    var front := ms[..|ms| - 1];
    var last := ms[|ms| - 1];
    assert (forall p <- ms :: p in front || p == last) && (forall p <- front :: p in ms);
    if front != [] {
      TopLevelIsTop(front);
    }
  }

  lemma TopLevelIsUnique(ms: seq<Player>, a: nat, b: nat)
    requires IsTopLevel(ms, a) && IsTopLevel(ms, b)
    ensures a == b
  {
  }

  predicate NoDuplicates<T(==)>(s: seq<T>) {
    forall i, j :: 0 <= i < j < |s| ==> s[i] != s[j]
  }

  // -------------------------------------------------------------------- objects

  class Player {
    const id: nat
    const level: nat
    var party: Party?
    var partyId: nat
    var inviter: nat

    constructor (id: nat, level: nat)
      ensures this.id == id && this.level == level && party == null && partyId == 0 && inviter == 0
    {
      this.id, this.level, party, partyId, inviter := id, level, null, 0, 0;
    }

    method SetParty(q: Party)
      modifies `party, `partyId
      ensures party == q && partyId == q.id
    {
      party, partyId := q, q.id;
    }

    method ResetParty()
      modifies `party, `partyId
      ensures party == null && partyId == 0
    {
      party, partyId := null, 0;
    }
  }

  class Party {
    const id: nat
    var members: seq<Player>
    var topLevel: nat

    constructor (id: nat, leader: Player, player: Player)
      ensures this.id == id && members == [leader, player] && topLevel == TopLevel([leader, player])
    {
      this.id, members, topLevel := id, [], 0;
      new;
      hide TopLevel;
      var added := AddMember(leader);
      assert members == [leader];
      added := AddMember(player);
      assert [leader] + [player] == [leader, player];
    }

    predicate IsLeader(p: Player)
      reads this
    {
      members != [] && members[0] == p
    }

    method UpdateTopLevel()
      requires members != []
      modifies `topLevel
      ensures topLevel == TopLevel(members)
    {
      var level, i := members[0].level, 1;
      while i < |members|
        invariant 1 <= i <= |members|
        invariant level == TopLevel(members[..i])
      {
        assert members[..i + 1][..i] == members[..i];
        if level < members[i].level {
          level := members[i].level;
        }
        i := i + 1;
      }
      assert members[..i] == members;
      topLevel := level;
    }

    method AddMember(p: Player) returns (added: bool)
      modifies this
      ensures added <==> |old(members)| < MAX_PARTY_SIZE
      ensures members == if added then old(members) + [p] else old(members)
      ensures topLevel == if added then TopLevel(members) else old(topLevel)
    {
      if |members| >= MAX_PARTY_SIZE {
        return false;
      }
      members := members + [p];
      UpdateTopLevel();
      return true;
    }

    /** Throws when the player is not in the list. */
    method RemoveMember(p: Player) returns (thrown: bool)
      modifies this
      ensures thrown <==> p !in old(members)
      ensures members == Without(old(members), p)
      ensures topLevel == TopAfterRemoval(old(members), old(topLevel), p)
    {
      if p !in members {
        WithoutNobody(members, p);
        return true;
      }
      var wasTopLevel := p.level == topLevel;
      members := Without(members, p);
      if |members| > 1 && wasTopLevel {
        UpdateTopLevel();
      }
      return false;
    }
  }

  /** The top level is looked for anew only when the one who leaves had it and some remain. */
  function TopAfterRemoval(ms: seq<Player>, top: nat, p: Player): nat {
    var rest := Without(ms, p);
    if p in ms && |rest| > 1 && p.level == top then TopLevel(rest) else top
  }

  lemma {:induction false} WithoutNobody(ms: seq<Player>, p: Player)
    requires p !in ms
    ensures Without(ms, p) == ms
  {
    if ms != [] {
      WithoutNobody(ms[1..], p);
    }
  }

  // ------------------------------------------------------- pointers and lists

  /**
    All pointers and all lists at once. Next to them, which nothing in the program depends
    on, the time at which each player joined the party it is in, and the parties in the
    order in which they were founded.
  */
  datatype Realm = Realm(
    partyOf: map<Player, Party>,
    members: map<Party, seq<Player>>,
    top: map<Party, nat>,
    registered: set<Party>,
    since: map<Player, nat>,
    clock: nat,
    founded: seq<Party>)

  predicate Ordered(ms: seq<Player>, since: map<Player, nat>) {
    && (forall p <- ms :: p in since)
    && (forall i, j :: 0 <= i < j < |ms| ==> since[ms[i]] < since[ms[j]])
  }

  /** Between two handlers a list is empty or of a proper size, and its members stand in the order in which they joined. */
  predicate SoundList(ms: seq<Player>, top: nat, since: map<Player, nat>, clock: nat) {
    && (ms != [] ==> MIN_PARTY_SIZE <= |ms| <= MAX_PARTY_SIZE && top == TopLevel(ms))
    && Ordered(ms, since)
    && (forall p <- ms :: since[p] < clock)
  }

  /** A player's party is the one whose list it is in. */
  predicate Agree(partyOf: map<Player, Party>, members: map<Party, seq<Player>>) {
    && (forall p <- partyOf :: partyOf[p] in members && p in members[partyOf[p]])
    && (forall q <- members :: forall p <- members[q] :: p in partyOf && partyOf[p] == q)
  }

  predicate ListsSound(r: Realm) {
    && r.top.Keys == r.members.Keys
    && (forall q <- r.members :: SoundList(r.members[q], r.top[q], r.since, r.clock))
  }

  predicate Sane(r: Realm) {
    && Agree(r.partyOf, r.members)
    && ListsSound(r)
    && (forall p <- r.partyOf :: r.partyOf[p] in r.registered)
    && r.registered <= r.members.Keys
  }

  // ----------------------------------------------------------------- handlers

  function Founded(r: Realm, inviter: Player, p: Player, q: Party): Realm {
    Realm(r.partyOf[inviter := q][p := q], r.members[q := [inviter, p]], r.top[q := TopLevel([inviter, p])],
          r.registered + {q}, r.since[inviter := r.clock][p := r.clock + 1], r.clock + 2, r.founded + [q])
  }

  function Joined(r: Realm, p: Player, q: Party): Realm
    requires q in r.members
  {
    var ms := r.members[q] + [p];
    r.(partyOf := r.partyOf[p := q], members := r.members[q := ms], top := r.top[q := TopLevel(ms)],
       since := r.since[p := r.clock], clock := r.clock + 1)
  }

  /** Who leaves a party of two closes it and takes it off the register. */
  function Left(r: Realm, p: Player): Realm
    requires Sane(r)
  {
    if p !in r.partyOf then
      r
    else
      var q := r.partyOf[p];
      var rest := Without(r.members[q], p);
      var after := r.(top := r.top[q := TopAfterRemoval(r.members[q], r.top[q], p)]);
      if |rest| == 1 then
        after.(partyOf := r.partyOf - {p, rest[0]}, members := r.members[q := []], registered := r.registered - {q})
      else
        after.(partyOf := r.partyOf - {p}, members := r.members[q := rest])
  }

  predicate CanBan(r: Realm, p: Player, banned: Player)
    requires Sane(r)
  {
    && p != banned && p in r.partyOf && banned in r.partyOf && r.partyOf[banned] == r.partyOf[p]
    && r.members[r.partyOf[p]][0] == p
  }

  /** A ban that leaves the leader alone closes the party, too, but not on the register. */
  function Banned(r: Realm, p: Player, banned: Player): Realm
    requires Sane(r)
  {
    if !CanBan(r, p, banned) then
      r
    else
      var q := r.partyOf[p];
      var rest := Without(r.members[q], banned);
      var after := r.(top := r.top[q := TopAfterRemoval(r.members[q], r.top[q], banned)]);
      if |rest| == 1 then
        after.(partyOf := r.partyOf - {banned, p}, members := r.members[q := []])
      else
        after.(partyOf := r.partyOf - {banned}, members := r.members[q := rest])
  }

  // ---------------------------------------------------------------- invariant

  lemma {:induction false} WithoutKeepsOrder(ms: seq<Player>, p: Player, since: map<Player, nat>)
    requires Ordered(ms, since)
    ensures Ordered(Without(ms, p), since)
    ensures |Without(ms, p)| == |ms| - (if p in ms then 1 else 0)
  {
    if ms != [] {
      var tail := Without(ms[1..], p);
      WithoutHolds(ms[1..], p);
      forall j | 0 <= j < |ms[1..]| ensures since[ms[0]] < since[ms[1..][j]] {
        assert since[ms[0]] < since[ms[j + 1]];
      }
      WithoutKeepsOrder(ms[1..], p, since);
      forall j | 0 <= j < |tail| ensures tail[j] in since && since[ms[0]] < since[tail[j]] {
        assert tail[j] in ms[1..];
      }
    }
  }

  lemma TopSurvives(ms: seq<Player>, top: nat, p: Player)
    requires ms != [] && top == TopLevel(ms) && p in ms && |Without(ms, p)| > 1
    ensures TopAfterRemoval(ms, top, p) == TopLevel(Without(ms, p))
  {
    var rest := Without(ms, p);
    TopLevelIsTop(ms);
    TopLevelIsTop(rest);
    WithoutHolds(ms, p);
    if p.level != top {
      assert IsTopLevel(rest, top);
      TopLevelIsUnique(rest, top, TopLevel(rest));
    }
  }

  lemma PartsOf(r: Realm, q: Party)
    requires Sane(r) && q in r.members
    ensures forall p <- r.members[q] :: p in r.partyOf && r.partyOf[p] == q
    ensures forall p <- r.partyOf :: r.partyOf[p] == q ==> p in r.members[q]
    ensures q in r.top && SoundList(r.members[q], r.top[q], r.since, r.clock)
  {
  }

  /** Giving one party another list, and its members the pointers that go with it. */
  lemma AgreeAfter(r: Realm, partyOf: map<Player, Party>, q: Party, ms: seq<Player>)
    requires Agree(r.partyOf, r.members)
    requires forall p <- partyOf :: if p in ms then partyOf[p] == q else p in r.partyOf && r.partyOf[p] == partyOf[p] != q
    requires forall p <- ms :: p in partyOf
    requires forall p <- r.partyOf :: r.partyOf[p] != q ==> p in partyOf && p !in ms
    ensures Agree(partyOf, r.members[q := ms])
  {
    var members := r.members[q := ms];
    forall k, p | k in members && p in members[k] ensures p in partyOf && partyOf[p] == k {
      if k != q {
        assert r.partyOf[p] == k;
      }
    }
  }

  predicate TimesKept(r: Realm, since: map<Player, nat>, q: Party) {
    forall k <- r.members :: k != q ==> forall p <- r.members[k] :: p in r.since ==> p in since && since[p] == r.since[p]
  }

  lemma NewcomersKeepTimes(r: Realm, since: map<Player, nat>, q: Party)
    requires Agree(r.partyOf, r.members)
    requires forall p <- r.since :: p in since && (since[p] == r.since[p] || p !in r.partyOf)
    ensures TimesKept(r, since, q)
  {
  }

  /** The other lists do not notice that one list changes, nor that someone outside them joins. */
  lemma ListsSoundAfter(r: Realm, after: Realm, q: Party, ms: seq<Player>, top: nat)
    requires ListsSound(r)
    requires after.members == r.members[q := ms] && after.top == r.top[q := top]
    requires after.clock >= r.clock
    requires TimesKept(r, after.since, q)
    requires SoundList(ms, top, after.since, after.clock)
    ensures ListsSound(after)
  {
    forall k | k in after.members && k != q
      ensures SoundList(after.members[k], after.top[k], after.since, after.clock)
    {
      assert SoundList(r.members[k], r.top[k], r.since, r.clock);
      OrderDependsOnMembers(r.members[k], r.since, after.since);
    }
  }

  lemma OrderDependsOnMembers(ms: seq<Player>, a: map<Player, nat>, b: map<Player, nat>)
    requires Ordered(ms, a) && forall p <- ms :: p in b && a[p] == b[p]
    ensures Ordered(ms, b)
  {
  }

  lemma FoundedIsSane(r: Realm, inviter: Player, p: Player, q: Party)
    requires Sane(r) && q !in r.members && inviter != p && inviter !in r.partyOf && p !in r.partyOf
    ensures Sane(Founded(r, inviter, p, q))
  {
    hide Agree, ListsSound, SoundList, TimesKept, TopLevel;
    var after := Founded(r, inviter, p, q);
    AgreeAfter(r, after.partyOf, q, [inviter, p]);
    PairIsSound(inviter, p, after.since, after.clock);
    NewcomersKeepTimes(r, after.since, q);
    ListsSoundAfter(r, after, q, [inviter, p], TopLevel([inviter, p]));
  }

  lemma PairIsSound(a: Player, b: Player, since: map<Player, nat>, clock: nat)
    requires a in since && b in since && since[a] < since[b] < clock
    ensures SoundList([a, b], TopLevel([a, b]), since, clock)
  {
  }

  lemma JoinedIsSane(r: Realm, p: Player, q: Party)
    requires Sane(r) && q in r.registered && p !in r.partyOf && 0 < |r.members[q]| < MAX_PARTY_SIZE
    ensures Sane(Joined(r, p, q))
  {
    hide Agree, ListsSound, SoundList, TimesKept, TopLevel;
    var after, ms := Joined(r, p, q), r.members[q];
    PartsOf(r, q);
    LongerIsSound(ms, r.top[q], r.since, r.clock, p);
    AgreeAfter(r, after.partyOf, q, ms + [p]);
    NewcomersKeepTimes(r, after.since, q);
    ListsSoundAfter(r, after, q, ms + [p], TopLevel(ms + [p]));
  }

  lemma LongerIsOrdered(ms: seq<Player>, since: map<Player, nat>, clock: nat, p: Player)
    requires Ordered(ms, since) && (forall x <- ms :: since[x] < clock) && p !in ms
    ensures Ordered(ms + [p], since[p := clock])
    ensures forall x <- ms + [p] :: since[p := clock][x] < clock + 1
  {
    var all, after := ms + [p], since[p := clock];
    forall i, j | 0 <= i < j < |all| ensures after[all[i]] < after[all[j]] {
      assert all[i] == ms[i] && ms[i] in ms;
    }
  }

  lemma LongerIsSound(ms: seq<Player>, top: nat, since: map<Player, nat>, clock: nat, p: Player)
    requires SoundList(ms, top, since, clock) && 0 < |ms| < MAX_PARTY_SIZE && p !in ms
    ensures SoundList(ms + [p], TopLevel(ms + [p]), since[p := clock], clock + 1)
  {
    LongerIsOrdered(ms, since, clock, p);
  }

  /** Someone leaves and at least two remain. */
  lemma ShorterIsSound(r: Realm, q: Party, p: Player)
    requires Sane(r) && q in r.members && p in r.members[q] && |Without(r.members[q], p)| != 1
    ensures SoundList(Without(r.members[q], p), TopAfterRemoval(r.members[q], r.top[q], p), r.since, r.clock)
  {
    hide Agree, ListsSound, Ordered;
    var ms := r.members[q];
    PartsOf(r, q);
    WithoutHolds(ms, p);
    WithoutKeepsOrder(ms, p, r.since);
    if |Without(ms, p)| > 1 {
      hide TopAfterRemoval, Without;
      TopSurvives(ms, r.top[q], p);
    }
  }

  /** Closing a party of two. */
  lemma ClosedIsSane(r: Realm, after: Realm, q: Party, p: Player, last: Player, top: nat)
    requires Sane(r) && q in r.members && p in r.members[q] && Without(r.members[q], p) == [last]
    requires after.partyOf == r.partyOf - {p, last}
    requires after.members == r.members[q := []] && after.top == r.top[q := top]
    requires after.since == r.since && after.clock == r.clock
    requires after.registered == r.registered || after.registered == r.registered - {q}
    ensures Sane(after)
  {
    hide Agree, ListsSound, SoundList, TimesKept, Without;
    PartsOf(r, q);
    WithoutHolds(r.members[q], p);
    assert forall x <- r.members[q] :: x == p || x == last;
    assert last in Without(r.members[q], p);
    NobodyIsSound(top, after.since, after.clock);
    AgreeAfter(r, after.partyOf, q, []);
    NewcomersKeepTimes(r, after.since, q);
    ListsSoundAfter(r, after, q, [], top);
  }

  lemma NobodyIsSound(top: nat, since: map<Player, nat>, clock: nat)
    ensures SoundList([], top, since, clock)
  {
  }

  lemma ShortenedIsSane(r: Realm, after: Realm, q: Party, p: Player)
    requires Sane(r) && q in r.members && p in r.members[q] && |Without(r.members[q], p)| != 1
    requires after == r.(partyOf := r.partyOf - {p}, members := r.members[q := Without(r.members[q], p)],
                         top := r.top[q := TopAfterRemoval(r.members[q], r.top[q], p)])
    ensures Sane(after)
  {
    hide Agree, ListsSound, SoundList, TimesKept, TopAfterRemoval;
    PartsOf(r, q);
    WithoutHolds(r.members[q], p);
    ShorterIsSound(r, q, p);
    AgreeAfter(r, after.partyOf, q, Without(r.members[q], p));
    NewcomersKeepTimes(r, after.since, q);
    ListsSoundAfter(r, after, q, Without(r.members[q], p), after.top[q]);
  }

  lemma LeftIsSane(r: Realm, p: Player)
    requires Sane(r)
    ensures Sane(Left(r, p)) && p !in Left(r, p).partyOf
  {
    if p in r.partyOf {
      var q := r.partyOf[p];
      var rest := Without(r.members[q], p);
      if |rest| == 1 {
        ClosedIsSane(r, Left(r, p), q, p, rest[0], Left(r, p).top[q]);
      } else {
        ShortenedIsSane(r, Left(r, p), q, p);
      }
    }
  }

  lemma BannedIsSane(r: Realm, p: Player, banned: Player)
    requires Sane(r)
    ensures Sane(Banned(r, p, banned))
  {
    if CanBan(r, p, banned) {
      var q := r.partyOf[p];
      var rest := Without(r.members[q], banned);
      WithoutHolds(r.members[q], banned);
      if |rest| == 1 {
        ClosedIsSane(r, Banned(r, p, banned), q, banned, p, Banned(r, p, banned).top[q]);
      } else {
        ShortenedIsSane(r, Banned(r, p, banned), q, banned);
      }
    }
  }

  // --------------------------------------------------------------------- runs

  /** The answer of a player who agrees to join the one who invited it. */
  function Accepted(r: Realm, inviter: Player, p: Player, q: Party): Realm
    requires Sane(r)
  {
    if inviter !in r.partyOf then
      Founded(r, inviter, p, q)
    else
      var own := r.partyOf[inviter];
      if r.members[own][0] == inviter && |r.members[own]| < MAX_PARTY_SIZE then Joined(r, p, own) else r
  }

  datatype Event = Accepts(inviter: Player, p: Player, newParty: Party) | Leaves(p: Player) | Bans(p: Player, banned: Player)

  const EMPTY := Realm(map[], map[], map[], {}, map[], 0, [])

  predicate Possible(r: Realm, e: Event) {
    e.Accepts? ==> e.inviter != e.p && e.p !in r.partyOf && (e.inviter !in r.partyOf ==> e.newParty !in r.members)
  }

  function Next(r: Realm, e: Event): Realm
    requires Sane(r) && Possible(r, e)
  {
    match e
    case Accepts(inviter, p, q) => Accepted(r, inviter, p, q)
    case Leaves(p) => Left(r, p)
    case Bans(p, banned) => Banned(r, p, banned)
  }

  lemma NextIsSane(r: Realm, e: Event)
    requires Sane(r) && Possible(r, e)
    ensures Sane(Next(r, e))
  {
    hide Agree, ListsSound, SoundList, Without, Founded, Joined, Left, Banned;
    match e
    case Accepts(inviter, p, q) =>
      if inviter !in r.partyOf {
        FoundedIsSane(r, inviter, p, q);
      } else {
        var own := r.partyOf[inviter];
        PartsOf(r, own);
        if |r.members[own]| < MAX_PARTY_SIZE {
          JoinedIsSane(r, p, own);
        }
      }
    case Leaves(p) => LeftIsSane(r, p);
    case Bans(p, banned) => BannedIsSane(r, p, banned);
  }

  ghost predicate Run(r: Realm, es: seq<Event>)
    decreases |es|
  {
    es != [] ==> Sane(r) && Possible(r, es[0]) && Run(Next(r, es[0]), es[1..])
  }

  ghost function After(r: Realm, es: seq<Event>): Realm
    requires Run(r, es)
    decreases |es|
  {
    if es == [] then r else After(Next(r, es[0]), es[1..])
  }

  lemma {:induction false} RunsAreSane(r: Realm, es: seq<Event>)
    requires Sane(r) && Run(r, es)
    ensures Sane(After(r, es))
    decreases |es|
  {
    if es != [] {
      NextIsSane(r, es[0]);
      RunsAreSane(Next(r, es[0]), es[1..]);
    }
  }

  predicate IsProper(r: Realm, q: Party)
    requires q in r.members
  {
    var ms := r.members[q];
    && (forall p <- r.partyOf :: r.partyOf[p] == q <==> p in ms)
    && (forall p <- ms :: p in r.partyOf)
    && NoDuplicates(ms)
    && (|ms| == 0 || MIN_PARTY_SIZE <= |ms| <= MAX_PARTY_SIZE)
    && (ms != [] ==> q in r.registered && q in r.top && IsTopLevel(ms, r.top[q]))
    && (forall p <- ms :: p in r.since)
    && (forall p <- ms :: p == ms[0] || r.since[ms[0]] < r.since[p])
  }

  /**
    After any run of answers, departures and bans: pointers and lists agree, lists have no
    duplicates and a proper size, every party in use is registered, the top level is the
    highest among the members, and the leader is the member who joined first.
  */
  lemma PartiesAgree(es: seq<Event>, q: Party)
    requires Run(EMPTY, es) && q in After(EMPTY, es).members
    ensures IsProper(After(EMPTY, es), q)
  {
    RunsAreSane(EMPTY, es);
    SaneIsProper(After(EMPTY, es), q);
  }

  lemma SaneIsProper(r: Realm, q: Party)
    requires Sane(r) && q in r.members
    ensures IsProper(r, q)
  {
    hide Agree, ListsSound, TopLevel, IsTopLevel;
    PartsOf(r, q);
    var ms := r.members[q];
    if ms != [] {
      TopLevelIsTop(ms);
      assert ms[0] in ms && r.partyOf[ms[0]] == q;
      forall p | p in ms ensures p == ms[0] || r.since[ms[0]] < r.since[p] {
        var i :| 0 <= i < |ms| && ms[i] == p;
      }
    }
  }

  /** Registered parties that nobody is in. */
  ghost function Leaked(r: Realm): set<Party> {
    set q | q in r.registered && q in r.members && r.members[q] == []
  }

  /** The register keeps an empty party exactly after a ban between the last two members. */
  lemma LeakIff(r: Realm, e: Event, q: Party)
    requires Sane(r) && Possible(r, e) && q !in Leaked(r)
    ensures q in Leaked(Next(r, e)) <==>
            e.Bans? && CanBan(r, e.p, e.banned) && r.partyOf[e.p] == q && |Without(r.members[q], e.banned)| == 1
  {
    hide Agree, ListsSound, Without, TopLevel, TopAfterRemoval;
    match e
    case Accepts(inviter, p, newParty) =>
    case Leaves(p) =>
      if p in r.partyOf {
        LeaverLeavesSome(r, p);
      }
    case Bans(p, banned) =>
      if CanBan(r, p, banned) {
        LeaverLeavesSome(r, banned);
        PartsOf(r, r.partyOf[p]);
        WithoutHolds(r.members[r.partyOf[p]], banned);
      }
  }

  /** Two players found a party and the leader bans the other: the register keeps it, with nobody in it. */
  lemma BanOfTwoLeaks(a: Player, b: Player, q: Party)
    requires a != b
    ensures var es := [Accepts(a, b, q), Bans(a, b)];
      Run(EMPTY, es) && q in Leaked(After(EMPTY, es)) && After(EMPTY, es).partyOf == map[]
  {
    var es := [Accepts(a, b, q), Bans(a, b)];
    var r := Founded(EMPTY, a, b, q);
    FoundedIsSane(EMPTY, a, b, q);
    assert Next(EMPTY, es[0]) == r && Possible(EMPTY, es[0]) && es[1..] == [Bans(a, b)] && es[1..][1..] == [];
    PairIsBroken(a, b, q);
    hide Sane, Next, Possible, Founded;
    var s := Next(r, es[1]);
    assert Run(s, []) && Run(r, es[1..]);
    assert After(r, es[1..]) == After(s, []) == s;
  }

  lemma PairIsBroken(a: Player, b: Player, q: Party)
    requires a != b
    ensures var r := Founded(EMPTY, a, b, q);
      Sane(r) && Possible(r, Bans(a, b)) && Next(r, Bans(a, b)).partyOf == map[] && q in Leaked(Next(r, Bans(a, b)))
  {
    var r := Founded(EMPTY, a, b, q);
    FoundedIsSane(EMPTY, a, b, q);
    hide Agree, ListsSound, TopLevel, TopAfterRemoval;
    assert CanBan(r, a, b);
    OnlyMember(b);
    assert Without([a, b], b) == [a];
    assert r.partyOf - {b, a} == map[];
  }

  lemma OwnParty(r: Realm, p: Player)
    requires Sane(r) && p in r.partyOf
    ensures var q := r.partyOf[p];
      && q in r.members && q in r.top && q in r.registered && p in r.members[q]
      && (forall x <- r.members[q] :: x in r.partyOf && r.partyOf[x] == q)
      && (forall x <- Without(r.members[q], p) :: x in r.members[q])
  {
    hide Agree, ListsSound, Without;
    PartyIsKnown(r, p);
    PartsOf(r, r.partyOf[p]);
    WithoutHolds(r.members[r.partyOf[p]], p);
  }

  lemma PartyIsKnown(r: Realm, p: Player)
    requires Sane(r) && p in r.partyOf
    ensures r.partyOf[p] in r.members
  {
  }

  // ------------------------------------------------- handlers as single writes

  function Dropped(r: Realm, q: Party, p: Player): Realm
    requires q in r.members && q in r.top
  {
    r.(members := r.members[q := Without(r.members[q], p)], top := r.top[q := TopAfterRemoval(r.members[q], r.top[q], p)])
  }

  function Announced(r: Realm, inviter: Player, p: Player, q: Party): Realm {
    r.(members := r.members[q := [inviter, p]], top := r.top[q := TopLevel([inviter, p])],
       registered := r.registered + {q}, founded := r.founded + [q])
  }

  function Enrolled(r: Realm, p: Player, q: Party): Realm
    requires q in r.members
  {
    var ms := r.members[q] + [p];
    r.(members := r.members[q := ms], top := r.top[q := TopLevel(ms)])
  }

  function Freed(r: Realm, p: Player): Realm {
    r.(partyOf := r.partyOf - {p})
  }

  function Unregistered(r: Realm, q: Party): Realm {
    r.(registered := r.registered - {q})
  }

  lemma LeftBySteps(r: Realm, p: Player)
    requires Sane(r) && p in r.partyOf
    ensures var q := r.partyOf[p]; q in r.members && q in r.top
    ensures var q := r.partyOf[p]; var a := Dropped(r, q, p);
            Left(r, p) ==
            if |a.members[q]| == 1 then
              var last := a.members[q][0];
              Freed(Freed(Dropped(Unregistered(a, q), q, last), last), p)
            else Freed(a, p)
    ensures var q := r.partyOf[p]; var rest := Without(r.members[q], p);
            |rest| == 1 ==> rest[0] in r.partyOf && r.partyOf[rest[0]] == q && rest[0] != p
  {
    hide Agree, ListsSound, Without, TopAfterRemoval;
    OwnParty(r, p);
    var q := r.partyOf[p];
    var rest := Without(r.members[q], p);
    WithoutHolds(r.members[q], p);
    if |rest| == 1 {
      assert rest == [rest[0]];
      OnlyMember(rest[0]);
      CloseBySteps(r, q, p, rest[0]);
    }
  }

  lemma CloseBySteps(r: Realm, q: Party, p: Player, last: Player)
    requires Sane(r) && p in r.partyOf && r.partyOf[p] == q && q in r.members && q in r.top
    requires Without(r.members[q], p) == [last] && Without([last], last) == []
    requires forall top :: TopAfterRemoval([last], top, last) == top
    ensures Left(r, p) == Freed(Freed(Dropped(Unregistered(Dropped(r, q, p), q), q, last), last), p)
  {
    hide Sane, Without, TopAfterRemoval;
    var a := Dropped(r, q, p);
    assert a.members[q := []] == r.members[q := []];
    assert r.partyOf - {last} - {p} == r.partyOf - {p, last};
    assert a.top[q := a.top[q]] == a.top;
  }

  lemma FreedKeeps(r: Realm, p: Player)
    ensures Freed(r, p).members == r.members && Freed(r, p).top == r.top
  {
  }

  lemma LeaderOf(r: Realm, p: Player)
    requires Sane(r) && p in r.partyOf
    ensures r.partyOf[p] in r.members && r.members[r.partyOf[p]] != []
  {
  }

  lemma BanningNobody(r: Realm, p: Player, banned: Player)
    requires Sane(r)
    ensures !CanBan(r, p, banned) ==> Banned(r, p, banned) == r
    ensures CanBan(r, p, banned) <==>
            && p != banned && p in r.partyOf && banned in r.partyOf && r.partyOf[banned] == r.partyOf[p]
            && r.partyOf[p] in r.members && r.members[r.partyOf[p]] != [] && r.members[r.partyOf[p]][0] == p
  {
  }

  lemma BannedBySteps(r: Realm, p: Player, banned: Player)
    requires Sane(r) && CanBan(r, p, banned)
    ensures var q := r.partyOf[p]; q in r.members && q in r.top && p != banned
    ensures var q := r.partyOf[p]; var a := Freed(Dropped(r, q, banned), banned);
            Banned(r, p, banned) == if |a.members[q]| == 1 then Freed(Dropped(a, q, p), p) else a
  {
    hide Agree, ListsSound, Without, TopAfterRemoval;
    var q := r.partyOf[p];
    OwnParty(r, p);
    WithoutHolds(r.members[q], banned);
    var rest := Without(r.members[q], banned);
    if |rest| == 1 {
      assert rest == [p];
      OnlyMember(p);
      BanBySteps(r, q, p, banned);
    }
  }

  lemma BanBySteps(r: Realm, q: Party, p: Player, banned: Player)
    requires Sane(r) && CanBan(r, p, banned) && r.partyOf[p] == q && q in r.members && q in r.top
    requires Without(r.members[q], banned) == [p] && Without([p], p) == []
    requires forall top :: TopAfterRemoval([p], top, p) == top
    ensures Banned(r, p, banned) == Freed(Dropped(Freed(Dropped(r, q, banned), banned), q, p), p)
  {
    hide Sane, Without, TopAfterRemoval;
    var a := Freed(Dropped(r, q, banned), banned);
    assert a.members[q := []] == r.members[q := []];
    assert r.partyOf - {banned} - {p} == r.partyOf - {banned, p};
    assert a.top[q := a.top[q]] == a.top;
  }

  lemma StepsKeep(r: Realm, q: Party, p: Player)
    requires q in r.members && q in r.top
    ensures Dropped(r, q, p).members.Keys == r.members.Keys && Dropped(r, q, p).partyOf == r.partyOf
    ensures Dropped(r, q, p).members[q] == Without(r.members[q], p)
    ensures forall k :: k in Unregistered(Dropped(r, q, p), k).members.Keys <==> k in r.members.Keys
    ensures Unregistered(Dropped(r, q, p), q).partyOf == r.partyOf
  {
  }

  lemma LeavingNothing(r: Realm, p: Player)
    requires Sane(r) && p !in r.partyOf
    ensures Left(r, p) == r
  {
  }

  lemma OnlyMember(p: Player)
    ensures Without([p], p) == []
    ensures forall top :: TopAfterRemoval([p], top, p) == top
  {
  }

  lemma LeaverLeavesSome(r: Realm, p: Player)
    requires Sane(r) && p in r.partyOf
    ensures r.partyOf[p] in r.members && Without(r.members[r.partyOf[p]], p) != []
  {
    var q := r.partyOf[p];
    PartsOf(r, q);
    WithoutKeepsOrder(r.members[q], p, r.since);
  }

  // ----------------------------------------------- what the objects come to

  /** The party of each player, or null. */
  ghost function PointersOf(partyOf: map<Player, Party>, everyone: set<Player>): map<Player, Party?> {
    map p | p in everyone :: if p in partyOf then partyOf[p] else null
  }

  lemma PointersAfter(partyOf: map<Player, Party>, everyone: set<Player>, p: Player, q: Party)
    requires p in everyone
    ensures PointersOf(partyOf[p := q], everyone) == PointersOf(partyOf, everyone)[p := q]
    ensures PointersOf(partyOf - {p}, everyone) == PointersOf(partyOf, everyone)[p := null]
  {
  }

  lemma FoundedMeans(r: Realm, everyone: set<Player>, inviter: Player, p: Player, q: Party)
    requires inviter in everyone && p in everyone
    ensures var after := Founded(r, inviter, p, q);
      && PointersOf(after.partyOf, everyone) == PointersOf(r.partyOf, everyone)[inviter := q][p := q]
      && after.members == r.members[q := [inviter, p]] && after.registered == r.registered + {q}
  {
    PointersAfter(r.partyOf, everyone, inviter, q);
    PointersAfter(r.partyOf[inviter := q], everyone, p, q);
  }

  lemma JoinedMeans(r: Realm, everyone: set<Player>, p: Player, q: Party)
    requires q in r.members && p in everyone
    ensures var after := Joined(r, p, q);
      && PointersOf(after.partyOf, everyone) == PointersOf(r.partyOf, everyone)[p := q]
      && after.members == r.members[q := r.members[q] + [p]] && after.registered == r.registered
  {
    PointersAfter(r.partyOf, everyone, p, q);
  }

  /** An acceptance founds a party, or adds to one, or changes nothing. */
  lemma AcceptedMeans(r: Realm, everyone: set<Player>, inviter: Player, p: Player, q: Party)
    requires Sane(r) && Possible(r, Accepts(inviter, p, q)) && inviter in everyone && p in everyone
    ensures inviter in r.partyOf ==> r.partyOf[inviter] in r.members && r.members[r.partyOf[inviter]] != []
    ensures var after := Next(r, Accepts(inviter, p, q));
      if inviter !in r.partyOf then
        && PointersOf(after.partyOf, everyone) == PointersOf(r.partyOf, everyone)[inviter := q][p := q]
        && after.members == r.members[q := [inviter, p]] && after.registered == r.registered + {q}
        && p in after.partyOf && after.partyOf[p] == q && inviter in after.partyOf && after.partyOf[inviter] == q
      else
        var own := r.partyOf[inviter];
        if r.members[own][0] == inviter && |r.members[own]| < 8 then
          && PointersOf(after.partyOf, everyone) == PointersOf(r.partyOf, everyone)[p := own]
          && after.members == r.members[own := r.members[own] + [p]] && after.registered == r.registered
          && p in after.partyOf && after.partyOf[p] == own && inviter in after.partyOf && after.partyOf[inviter] == own
        else
          after == r
  {
    hide Agree, ListsSound, PointersOf;
    if inviter !in r.partyOf {
      FoundedMeans(r, everyone, inviter, p, q);
    } else {
      LeaderOf(r, inviter);
      JoinedMeans(r, everyone, p, r.partyOf[inviter]);
    }
  }

  lemma LeftMeans(r: Realm, everyone: set<Player>, p: Player)
    requires Sane(r) && p in everyone && p in r.partyOf && r.partyOf.Keys <= everyone
    ensures r.partyOf[p] in r.members
    ensures var q, after := r.partyOf[p], Left(r, p); var rest := Without(r.members[q], p);
      if |rest| == 1 then
        && rest[0] in everyone && PointersOf(after.partyOf, everyone) == PointersOf(r.partyOf, everyone)[rest[0] := null][p := null]
        && after.members == r.members[q := []] && after.registered == r.registered - {q}
      else
        && PointersOf(after.partyOf, everyone) == PointersOf(r.partyOf, everyone)[p := null]
        && after.members == r.members[q := rest] && after.registered == r.registered
  {
    hide Agree, ListsSound, Without;
    OwnParty(r, p);
    var rest := Without(r.members[r.partyOf[p]], p);
    if |rest| == 1 {
      assert rest[0] in rest;
      PointersAfter(r.partyOf, everyone, rest[0], r.partyOf[p]);
      PointersAfter(r.partyOf - {rest[0]}, everyone, p, r.partyOf[p]);
      assert r.partyOf - {rest[0]} - {p} == r.partyOf - {p, rest[0]};
    } else {
      PointersAfter(r.partyOf, everyone, p, r.partyOf[p]);
    }
  }

  lemma BannedMeans(r: Realm, everyone: set<Player>, p: Player, banned: Player)
    requires Sane(r) && CanBan(r, p, banned) && r.partyOf.Keys <= everyone
    ensures var q, after := r.partyOf[p], Banned(r, p, banned); var rest := Without(r.members[q], banned);
      && after.registered == r.registered
      && if |rest| == 1 then
           && PointersOf(after.partyOf, everyone) == PointersOf(r.partyOf, everyone)[banned := null][p := null]
           && after.members == r.members[q := []]
         else
           && PointersOf(after.partyOf, everyone) == PointersOf(r.partyOf, everyone)[banned := null]
           && after.members == r.members[q := rest]
  {
    hide Agree, ListsSound, Without;
    PointersAfter(r.partyOf, everyone, banned, r.partyOf[p]);
    PointersAfter(r.partyOf - {banned}, everyone, p, r.partyOf[p]);
    assert r.partyOf - {banned} - {p} == r.partyOf - {banned, p};
  }

  // -------------------------------------------------------------------- world

  /** The handlers of the players, and the register of parties. */
  class World {
    var players: map<nat, Player>
    var registered: set<Party>
    var partiesMade: nat
    ghost var everyone: set<Player>
    ghost var realm: Realm

    ghost predicate Points()
      reads this, everyone`party, everyone`partyId
    {
      && realm.partyOf.Keys <= everyone
      && (forall p <- everyone :: p.party == if p in realm.partyOf then realm.partyOf[p] else null)
      && (forall p <- everyone :: p.partyId == if p in realm.partyOf then realm.partyOf[p].id else 0)
    }

    /** Parties are numbered from zero in the order in which they were founded. */
    ghost predicate Numbered()
      reads this
    {
      && partiesMade == |realm.founded|
      && (forall i | 0 <= i < |realm.founded| :: realm.founded[i].id == i)
      && (forall q <- realm.members :: q.id < |realm.founded| && realm.founded[q.id] == q)
    }

    ghost predicate ListsKept()
      reads this, realm.members.Keys
    {
      && realm.top.Keys == realm.members.Keys
      && (forall q <- realm.members :: q.members == realm.members[q] && q.topLevel == realm.top[q])
    }

    /** The realm is what the fields say. */
    ghost predicate Mirrors()
      reads this, everyone`party, everyone`partyId, realm.members.Keys
    {
      Points() && ListsKept() && Numbered() && registered == realm.registered
    }

    ghost predicate Valid()
      reads this, everyone`party, everyone`partyId, realm.members.Keys
    {
      && (forall i <- players :: players[i].id == i && players[i] in everyone)
      && Mirrors() && Sane(realm)
    }

    /** The pointers of all players and the lists of all parties ever founded, as the objects have them. */
    ghost function Pointers(): map<Player, Party?>
      reads this, everyone`party
    {
      map p | p in everyone :: p.party
    }

    ghost function Lists(): map<Party, seq<Player>>
      reads this, realm.members.Keys
    {
      map q | q in realm.members :: q.members
    }

    lemma Seen()
      requires Mirrors()
      ensures Pointers() == PointersOf(realm.partyOf, everyone) && Lists() == realm.members
      ensures realm.partyOf.Keys <= everyone && registered == realm.registered
    {
    }

    lemma ListsAre()
      requires Mirrors()
      ensures forall q <- realm.members :: q.members == realm.members[q]
    {
    }

    constructor ()
      ensures Valid() && realm == EMPTY && players == map[] && everyone == {}
    {
      players, registered, partiesMade, everyone, realm := map[], {}, 0, {}, EMPTY;
    }

    lemma PointsTo(p: Player)
      requires Mirrors() && p in everyone
      ensures p.party == if p in realm.partyOf then realm.partyOf[p] else null
      ensures realm.partyOf.Keys <= everyone && realm.members.Keys == realm.top.Keys
    {
    }

    lemma ListOf(q: Party)
      requires Mirrors() && q in realm.members
      ensures q.members == realm.members[q] && registered == realm.registered
    {
    }

    /** What others see of the parties of the players in the world. */
    function PartyIds(): map<nat, nat>
      reads this, players.Values`partyId
    {
      map i | i in players :: players[i].partyId
    }

    /** The number that means no party is the number of the first party, too. */
    lemma IdIsZeroIff(p: Player)
      requires Valid() && p in everyone
      ensures p.partyId == 0 <==> p.party == null || (realm.founded != [] && p.party == realm.founded[0])
    {
      if p.party != null {
        PartyIsKnown(realm, p);
      }
    }

    method ResetParty(p: Player)
      requires Mirrors() && p in everyone
      modifies `realm, p`party, p`partyId
      ensures Mirrors() && realm == Freed(old(realm), p)
    {
      p.ResetParty();
      realm := realm.(partyOf := realm.partyOf - {p});
    }

    method RemoveMember(q: Party, p: Player) returns (thrown: bool)
      requires Mirrors() && q in realm.members
      modifies `realm, q
      ensures Mirrors() && q in old(realm).top && realm == Dropped(old(realm), q, p)
    {
      thrown := q.RemoveMember(p);
      realm := realm.(members := realm.members[q := q.members], top := realm.top[q := q.topLevel]);
    }

    method RemoveParty(q: Party)
      requires Mirrors()
      modifies `realm, `registered
      ensures Mirrors() && realm == Unregistered(old(realm), q)
    {
      registered := registered - {q};
      realm := realm.(registered := registered);
    }

    method Depart(p: Player, party: Party)
      requires Mirrors() && Sane(realm)
      requires p in everyone && p in realm.partyOf && realm.partyOf[p] == party
      modifies `realm, `registered, everyone, realm.members.Keys
      ensures Mirrors() && realm == Left(old(realm), p)
    {
      hide Sane, Without, Mirrors, Left, Dropped, Freed, Unregistered;
      PointsTo(p);
      LeftBySteps(realm, p);
      var thrown := RemoveMember(party, p);
      StepsKeep(old(realm), party, p);
      ListOf(party);
      if |party.members| == 1 {
        var leader := party.members[0];
        PointsTo(leader);
        if leader.party != null {
          RemoveParty(leader.party);
          thrown := RemoveMember(leader.party, leader);
          ResetParty(leader);
        }
      }
      ResetParty(p);
    }

    method LeaveParty(p: Player)
      requires Valid() && p in everyone
      modifies this, everyone, realm.members.Keys
      ensures Valid() && players == old(players) && everyone == old(everyone)
      ensures realm == Left(old(realm), p) == Next(old(realm), Leaves(p))
      ensures old(p.party) == null ==> Pointers() == old(Pointers()) && Lists() == old(Lists()) && registered == old(registered)
      ensures old(p.party) != null ==>
        var q, rest := old(p.party), Without(old(p.party.members), p);
        if |rest| == 1 then
          && Pointers() == old(Pointers())[rest[0] := null][p := null]
          && Lists() == old(Lists())[q := []] && registered == old(registered) - {q}
        else
          && Pointers() == old(Pointers())[p := null]
          && Lists() == old(Lists())[q := rest] && registered == old(registered)
    {
      hide Sane, Left, Mirrors, Pointers, Lists, PointersOf, Without;
      LeftIsSane(realm, p);
      PointsTo(p);
      Seen();
      if p.party == null {
        LeavingNothing(realm, p);
      } else {
        PartyIsKnown(realm, p);
        ListOf(p.party);
        LeftMeans(realm, everyone, p);
        Depart(p, p.party);
        Seen();
      }
    }

    /** Only the leader bans, and only members of its own party. */
    method BanFromParty(p: Player, bannedId: nat)
      requires Valid() && p in everyone
      modifies this, everyone, realm.members.Keys
      ensures Valid() && players == old(players) && everyone == old(everyone)
      ensures realm == if bannedId != p.id && bannedId in players then Next(old(realm), Bans(p, players[bannedId])) else old(realm)
      ensures registered == old(registered)
      ensures if bannedId == p.id || bannedId !in players || old(p.party) == null || old(players[bannedId].party != p.party)
                 || old(p.party.members == [] || p.party.members[0] != p)
        then
          Pointers() == old(Pointers()) && Lists() == old(Lists())
        else
          var q, rest := old(p.party), Without(old(p.party.members), players[bannedId]);
          if |rest| == 1 then
            Pointers() == old(Pointers())[players[bannedId] := null][p := null] && Lists() == old(Lists())[q := []]
          else
            Pointers() == old(Pointers())[players[bannedId] := null] && Lists() == old(Lists())[q := rest]
    {
      hide Sane, Banned, CanBan, Mirrors, Pointers, Lists, PointersOf, Without;
      PointsTo(p);
      Seen();
      if bannedId in players {
        BannedIsSane(realm, p, players[bannedId]);
        BanningNobody(realm, p, players[bannedId]);
        PointsTo(players[bannedId]);
      }
      if bannedId == p.id || p.party == null || bannedId !in players {
        return;
      }
      PartyIsKnown(realm, p);
      ListOf(p.party);
      var leads := p.party.IsLeader(p);
      var banned := players[bannedId];
      if !leads || banned.party != p.party {
        return;
      }
      BannedMeans(realm, everyone, p, banned);
      Expel(p, banned, p.party);
      Seen();
    }

    method Expel(p: Player, banned: Player, party: Party)
      requires Mirrors() && Sane(realm) && p in everyone && banned in everyone
      requires CanBan(realm, p, banned) && party == realm.partyOf[p]
      modifies `realm, everyone, realm.members.Keys
      ensures Mirrors() && realm == Banned(old(realm), p, banned)
    {
      hide Sane, Without, Mirrors, Banned, CanBan, Dropped, Freed, Unregistered;
      BannedBySteps(realm, p, banned);
      var thrown := RemoveMember(party, banned);
      StepsKeep(old(realm), party, banned);
      ResetParty(banned);
      FreedKeeps(Dropped(old(realm), party, banned), banned);
      ListOf(party);
      if |party.members| == 1 {
        thrown := RemoveMember(party, p);
        ResetParty(p);
      }
    }

    method SetParty(p: Player, q: Party)
      requires Mirrors() && p in everyone && q in realm.members
      modifies `realm, p`party, p`partyId
      ensures Mirrors() && realm == old(realm).(partyOf := old(realm).partyOf[p := q])
    {
      p.SetParty(q);
      realm := realm.(partyOf := realm.partyOf[p := q]);
    }

    /** A party of two players who are not told of it yet. */
    method Register(inviter: Player, p: Player) returns (q: Party)
      requires Mirrors()
      modifies `realm, `registered, `partiesMade
      ensures Mirrors() && q !in old(realm).members && fresh(q)
      ensures realm == Announced(old(realm), inviter, p, q)
    {
      q := new Party(partiesMade, inviter, p);
      partiesMade := partiesMade + 1;
      registered := registered + {q};
      realm := Announced(realm, inviter, p, q);
    }

    /** A party of two players who had none; the world registers it. */
    method Found(inviter: Player, p: Player) returns (q: Party)
      requires Mirrors() && inviter in everyone && p in everyone
      modifies `realm, `registered, `partiesMade, inviter`party, inviter`partyId, p`party, p`partyId
      ensures Mirrors() && q !in old(realm).members && fresh(q)
      ensures realm == Founded(old(realm), inviter, p, q)
    {
      hide Mirrors, TopLevel;
      q := Register(inviter, p);
      SetParty(inviter, q);
      SetParty(p, q);
      Timed(realm.(since := realm.since[inviter := realm.clock][p := realm.clock + 1], clock := realm.clock + 2));
    }

    /** Notes who joined when; the objects know nothing of it. */
    ghost method Timed(r: Realm)
      requires Mirrors() && r == realm.(since := r.since, clock := r.clock)
      modifies `realm
      ensures Mirrors() && realm == r
    {
      realm := r;
    }

    method Enroll(q: Party, p: Player) returns (added: bool)
      requires Mirrors() && q in realm.members
      modifies `realm, q
      ensures Mirrors() && (added <==> |old(realm).members[q]| < MAX_PARTY_SIZE)
      ensures realm == if added then Enrolled(old(realm), p, q) else old(realm)
    {
      added := q.AddMember(p);
      if added {
        realm := Enrolled(realm, p, q);
      }
    }

    method Join(q: Party, p: Player) returns (added: bool)
      requires Mirrors() && q in realm.members && p in everyone
      modifies `realm, q, p`party, p`partyId
      ensures Mirrors() && (added <==> |old(realm).members[q]| < MAX_PARTY_SIZE)
      ensures realm == if added then Joined(old(realm), p, q) else old(realm)
    {
      hide Mirrors, TopLevel;
      added := Enroll(q, p);
      if added {
        SetParty(p, q);
        Timed(realm.(since := realm.since[p := realm.clock], clock := realm.clock + 1));
      }
    }

    predicate IsInvited(p: Player, inviterId: nat)
      reads this, p
    {
      inviterId != p.id && p.party == null && inviterId == p.inviter && inviterId in players
    }

    predicate Agrees(p: Player, answer: bool, inviterId: nat, near: bool)
      reads this, p
    {
      answer && near && inviterId != p.id && p.party == null && inviterId == p.inviter && inviterId in players
    }

    /** The answer to an invitation. The invitation is used up by any answer to a player in the world. */
    method OnAskPartyAnswer(p: Player, answer: bool, inviterId: nat, near: bool) returns (ghost q: Party?)
      requires Valid() && p in everyone
      modifies this, everyone, realm.members.Keys
      ensures Valid() && players == old(players) && everyone == old(everyone)
      ensures !old(Agrees(p, answer, inviterId, near)) ==> realm == old(realm)
      ensures q != null ==> q in old(realm).members || fresh(q)
      ensures var invited := inviterId != p.id && inviterId in players && old(p.party == null && p.inviter == inviterId);
        forall x <- everyone :: x.inviter == if x == p && invited then 0 else old(x.inviter)
      ensures old(Agrees(p, answer, inviterId, near)) ==>
                && q != null && Possible(old(realm), Accepts(players[inviterId], p, q))
                && realm == Next(old(realm), Accepts(players[inviterId], p, q))
      ensures if !(answer && near && inviterId != p.id && inviterId in players && old(p.party == null && p.inviter == inviterId)) then
          Pointers() == old(Pointers()) && Lists() == old(Lists()) && registered == old(registered)
        else if old(players[inviterId].party) == null then
          && q != null && fresh(q) && p.party == q && players[inviterId].party == q && q.members == [players[inviterId], p]
          && Pointers() == old(Pointers())[players[inviterId] := q][p := q]
          && Lists() == old(Lists())[q := [players[inviterId], p]] && registered == old(registered) + {q}
        else
          var own, before := old(players[inviterId].party), old(players[inviterId].party.members);
          if 0 < |before| < 8 && before[0] == players[inviterId] then
            && p.party == own && players[inviterId].party == own && own.members == before + [p]
            && Pointers() == old(Pointers())[p := own]
            && Lists() == old(Lists())[own := own.members] && registered == old(registered)
          else
            Pointers() == old(Pointers()) && Lists() == old(Lists()) && registered == old(registered)
    {
      hide Sane, Mirrors, Next, PointersOf, Pointers, Lists;
      Seen();
      PointsTo(p);
      ghost var r := realm;
      if inviterId in players {
        PointsTo(players[inviterId]);
        if players[inviterId].party != null {
          PartyIsKnown(realm, players[inviterId]);
          ListOf(players[inviterId].party);
          LeaderOf(realm, players[inviterId]);
        }
      }
      q := Answer(p, answer, inviterId, near);
      Seen();
      if old(Agrees(p, answer, inviterId, near)) {
        AcceptedMeans(r, everyone, players[inviterId], p, q);
        PointsTo(p);
        PointsTo(players[inviterId]);
        ListsAre();
      }
    }

    method Answer(p: Player, answer: bool, inviterId: nat, near: bool) returns (ghost q: Party?)
      requires Valid() && p in everyone
      modifies this, everyone, realm.members.Keys
      ensures Valid() && players == old(players) && everyone == old(everyone)
      ensures !old(Agrees(p, answer, inviterId, near)) ==> realm == old(realm)
      ensures q != null ==> q in old(realm).members || fresh(q)
      ensures forall x <- everyone :: x.inviter == if x == p && old(IsInvited(p, inviterId)) then 0 else old(x.inviter)
      ensures old(Agrees(p, answer, inviterId, near)) ==>
                && q != null && Possible(old(realm), Accepts(players[inviterId], p, q))
                && realm == Next(old(realm), Accepts(players[inviterId], p, q))
    {
      hide Sane, Mirrors, Founded, Joined;
      q := null;
      PointsTo(p);
      if inviterId == p.id || p.party != null || inviterId != p.inviter || inviterId !in players {
        return;
      }
      var inviter := players[inviterId];
      p.inviter := 0;
      if !near || !answer {
        return;
      }
      PointsTo(inviter);
      if inviter.party == null {
        q := Found(inviter, p);
        NextIsSane(old(realm), Accepts(inviter, p, q));
      } else {
        q := inviter.party;
        PartyIsKnown(realm, inviter);
        ListOf(q);
        LeaderOf(realm, inviter);
        NextIsSane(realm, Accepts(inviter, p, q));
        var leads := inviter.party.IsLeader(inviter);
        if leads {
          var added := Join(inviter.party, p);
        }
      }
    }

    /** Who has a party and does not lead it cannot invite; nor can players be invited out of a party. */
    method OnAskParty(p: Player, invitedId: nat, near: bool)
      requires Valid() && p in everyone
      modifies everyone`inviter
      ensures Valid() && realm == old(realm)
      ensures var asks := invitedId != p.id && near && (old(p.party) == null || old(p.party.members != [] && p.party.members[0] == p));
        forall x <- everyone :: x.inviter ==
          if asks && invitedId in players && x == players[invitedId] && old(x.party) == null then p.id else old(x.inviter)
    {
      hide Sane, Mirrors;
      PointsTo(p);
      if invitedId == p.id {
        return;
      }
      if p.party != null {
        var leads := p.party.IsLeader(p);
        if !leads {
          return;
        }
      }
      if invitedId in players && near && players[invitedId].party == null {
        players[invitedId].inviter := p.id;
      }
    }

    method Enter(p: Player)
      requires Valid() && p.party == null && p.partyId == 0 && p !in everyone && p.id !in players
      modifies this
      ensures Valid() && players == old(players)[p.id := p] && everyone == old(everyone) + {p} && realm == old(realm)
    {
      hide Sane;
      players := players[p.id := p];
      everyone := everyone + {p};
    }

    /** A player in the game disconnects: it leaves its party before it leaves the world. */
    method OnDisconnected(p: Player)
      requires Valid() && p in everyone
      modifies this, everyone, realm.members.Keys
      ensures Valid() && players == old(players) - {p.id} && everyone == old(everyone)
      ensures realm == Left(old(realm), p) && p.party == null
    {
      hide Valid, Sane, Left, Mirrors, Pointers, Lists, Without;
      RealmIsSane();
      LeaveParty(p);
      OutOfParty(old(realm), p);
      Vanish(p);
    }

    lemma RealmIsSane()
      requires Valid()
      ensures Sane(realm)
    {
      hide Sane;
    }

    lemma OutOfParty(r: Realm, p: Player)
      requires Valid() && p in everyone && Sane(r) && realm == Left(r, p)
      ensures p.party == null
    {
      hide Sane, Left;
      LeftIsSane(r, p);
    }

    method Vanish(p: Player)
      requires Valid()
      modifies `players
      ensures Valid() && players == old(players) - {p.id}
    {
      hide Sane;
      players := players - {p.id};
    }
  }
}
