/**
  Logging in: the sessions of the game servers, the active accounts of the one database
  server, and the messages between them, which arrive in any order.
*/
module Sessions {

  datatype Role = CanRequestPrimary | Authorized

  datatype Session = Session(roles: set<Role>, aid: int)

  /** Sessions are numbered by the game server they are on. */
  datatype Uid = Uid(server: nat, number: nat)

  /** What the account table says about a name and a password. */
  datatype Verdict = WrongId | WrongPassword | Account(aid: int)

  datatype Code = LaWrongId | LaWrongPwd | LaSameUser

  /** Messages of a game server to the database. */
  datatype Up = Login(uid: Uid, verdict: Verdict) | Disconnect(from: nat, aid: int) {
    function Server(): nat {
      match this
      case Login(uid, _) => uid.server
      case Disconnect(from, _) => from
    }
  }

  /** Messages of the database to the game server of a session. */
  datatype Down = Answer(uid: Uid, code: Code) | Authorization(uid: Uid, aid: int)

  // --------------------------------------------------------- database server

  /** The answer to a login, and the accounts that are active after it. */
  function LoginAt(active: set<int>, uid: Uid, verdict: Verdict): (set<int>, Down) {
    match verdict
    case WrongId => (active, Answer(uid, LaWrongId))
    case WrongPassword => (active, Answer(uid, LaWrongPwd))
    case Account(aid) =>
      if aid in active then (active, Answer(uid, LaSameUser)) else (active + {aid}, Authorization(uid, aid))
  }

  function Flagged(active: set<int>, aid: int): set<int> { active - {aid} }

  class DatabaseManager {
    var active: set<int>

    constructor ()
      ensures active == {}
    {
      active := {};
    }

    method Login(uid: Uid, verdict: Verdict) returns (reply: Down)
      modifies this
      ensures (active, reply) == LoginAt(old(active), uid, verdict)
      ensures reply == if verdict.WrongId? then Answer(uid, LaWrongId)
                       else if verdict.WrongPassword? then Answer(uid, LaWrongPwd)
                       else if verdict.aid in old(active) then Answer(uid, LaSameUser)
                       else Authorization(uid, verdict.aid)
      ensures active == old(active) + if reply.Authorization? then {verdict.aid} else {}
    {
      if verdict.WrongId? {
        return Answer(uid, LaWrongId);
      }
      if verdict.WrongPassword? {
        return Answer(uid, LaWrongPwd);
      }
      if verdict.aid in active {
        return Answer(uid, LaSameUser);
      }
      active := active + {verdict.aid};
      return Authorization(uid, verdict.aid);
    }

    method FlagDisconnected(aid: int)
      modifies this
      ensures active == Flagged(old(active), aid) == old(active) - {aid}
    {
      active := active - {aid};
    }

    /** The link to a game server closed: to any of them. */
    method OnLinkClosed()
      modifies this
      ensures active == {}
    {
      active := {};
    }
  }

  // ------------------------------------------------------------- game server

  function Authorizing(users: map<Uid, Session>, uid: Uid, aid: int): map<Uid, Session> {
    if uid in users then users[uid := Session(users[uid].roles + {Authorized}, aid)] else users
  }

  /** The account of a session is not set before it is authorized, so it can be anything. */
  function Opening(users: map<Uid, Session>, uid: Uid, aid: int): map<Uid, Session> {
    users[uid := Session({CanRequestPrimary}, aid)]
  }

  function Goodbye(u: Session, server: nat): seq<Up> {
    if Authorized in u.roles then [Disconnect(server, u.aid)] else []
  }

  function Denying(users: map<Uid, Session>, uid: Uid): map<Uid, Session>
    requires uid in users
  {
    users[uid := users[uid].(roles := users[uid].roles - {CanRequestPrimary})]
  }

  predicate MayLogin(users: map<Uid, Session>, uid: Uid) {
    uid in users && CanRequestPrimary in users[uid].roles
  }

  class GameServer {
    const server: nat
    var users: map<Uid, Session>
    var nextUid: nat

    constructor (server: nat)
      ensures this.server == server && users == map[] && nextUid == 0
    {
      this.server, users, nextUid := server, map[], 0;
    }

    /** A new session; `aid` is what its account field happens to hold. */
    method OnConnected(aid: int) returns (uid: Uid)
      modifies this
      ensures uid == Uid(server, old(nextUid)) && nextUid == uid.number + 1
      ensures users == Opening(old(users), uid, aid) == old(users)[uid := Session({CanRequestPrimary}, aid)]
    {
      uid := Uid(server, nextUid);
      nextUid := nextUid + 1;
      users := users[uid := Session({CanRequestPrimary}, aid)];
    }

    /** The login of a client. Without the role it is not even looked at. */
    method OnLogin(uid: Uid, verdict: Verdict) returns (sent: seq<Up>)
      modifies this
      ensures nextUid == old(nextUid)
      ensures MayLogin(old(users), uid) ==> users == Denying(old(users), uid) && sent == [Login(uid, verdict)]
      ensures !MayLogin(old(users), uid) ==> users == old(users) && sent == []
      ensures if uid in old(users) && CanRequestPrimary in old(users)[uid].roles then
          sent == [Login(uid, verdict)]
          && users == old(users)[uid := old(users)[uid].(roles := old(users)[uid].roles - {CanRequestPrimary})]
        else
          sent == [] && users == old(users)
    {
      if uid !in users || CanRequestPrimary !in users[uid].roles {
        return [];
      }
      users := users[uid := users[uid].(roles := users[uid].roles - {CanRequestPrimary})];
      return [Login(uid, verdict)];
    }

    /** Looks for the session through all of them. */
    method OnAuthorized(uid: Uid, aid: int)
      modifies this
      ensures users == Authorizing(old(users), uid, aid) && nextUid == old(nextUid)
      ensures uid !in old(users) ==> users == old(users)
      ensures uid in old(users) ==> users == old(users)[uid := Session(old(users)[uid].roles + {Authorized}, aid)]
    {
      var todo := users.Keys;
      while todo != {}
        invariant todo <= users.Keys == old(users.Keys) && nextUid == old(nextUid)
        invariant users == if uid in todo then old(users) else Authorizing(old(users), uid, aid)
        decreases todo
      {
        var u :| u in todo;
        todo := todo - {u};
        if u == uid {
          users := users[u := Session(users[u].roles + {Authorized}, aid)];
        }
      }
    }

    method OnDisconnected(uid: Uid) returns (sent: seq<Up>)
      requires uid in users
      modifies this
      ensures users == old(users) - {uid} && nextUid == old(nextUid)
      ensures sent == Goodbye(old(users[uid]), server)
      ensures sent == if Authorized in old(users[uid].roles) then [Disconnect(server, old(users[uid].aid))] else []
    {
      sent := [];
      if Authorized in users[uid].roles {
        sent := [Disconnect(server, users[uid].aid)];
      }
      users := users - {uid};
    }
  }

  // -------------------------------------------------------------- the system

  /** The sessions of all game servers, and the servers whose link to the database has closed. */
  datatype State = State(
    users: map<Uid, Session>,
    counts: map<nat, nat>,
    up: multiset<Up>,
    down: multiset<Down>,
    active: set<int>,
    cut: set<nat>)
  {
    function NextUid(server: nat): Uid {
      Uid(server, if server in counts then counts[server] else 0)
    }

    predicate Used(uid: Uid) {
      uid.server in counts && uid.number < counts[uid.server]
    }
  }

  datatype Event =
    | Connects(server: nat, aid: int)
    | AsksToLogin(uid: Uid, verdict: Verdict)
    | Leaves(uid: Uid)
    | ReachesDatabase(sent: Up)
    | ReachesGame(reply: Down)
    | LinkCloses(server: nat)

  const START := State(map[], map[], multiset{}, multiset{}, {}, {})

  /** What is on its way over a link that has closed never arrives. */
  predicate Possible(st: State, e: Event) {
    match e
    case Connects(_, _) => true
    case AsksToLogin(_, _) => true
    case Leaves(uid) => uid in st.users
    case ReachesDatabase(m) => m in st.up && m.Server() !in st.cut
    case ReachesGame(m) => m in st.down && m.uid.server !in st.cut
    case LinkCloses(_) => true
  }

  function Next(st: State, e: Event): State
    requires Possible(st, e)
  {
    match e
    case Connects(server, aid) =>
      var uid := st.NextUid(server);
      st.(users := Opening(st.users, uid, aid), counts := st.counts[server := uid.number + 1])
    case AsksToLogin(uid, verdict) =>
      if MayLogin(st.users, uid) then
        st.(users := Denying(st.users, uid), up := st.up + multiset{Login(uid, verdict)})
      else
        st
    case Leaves(uid) =>
      var u := st.users[uid];
      st.(users := st.users - {uid},
          up := st.up + multiset(Goodbye(u, uid.server)))
    case ReachesDatabase(m) =>
      var rest := st.(up := st.up - multiset{m});
      if m.Disconnect? then
        rest.(active := Flagged(st.active, m.aid))
      else
        var (active, reply) := LoginAt(st.active, m.uid, m.verdict);
        rest.(active := active, down := st.down + multiset{reply})
    case ReachesGame(m) =>
      var rest := st.(down := st.down - multiset{m});
      if m.Authorization? then rest.(users := Authorizing(st.users, m.uid, m.aid)) else rest
    case LinkCloses(server) => st.(active := {}, cut := st.cut + {server})
  }

  predicate Run(st: State, es: seq<Event>)
    decreases |es|
  {
    es != [] ==> Possible(st, es[0]) && Run(Next(st, es[0]), es[1..])
  }

  function After(st: State, es: seq<Event>): State
    requires Run(st, es)
    decreases |es|
  {
    if es == [] then st else After(Next(st, es[0]), es[1..])
  }

  predicate LinksStayUp(es: seq<Event>) {
    forall e <- es :: !e.LinkCloses?
  }

  // ------------------------------------------------------------ exclusiveness

  /** Who has an account: a session that holds it, one that is about to, or one that just gave it up. */
  datatype Claim = Held(uid: Uid) | Granted(uid: Uid) | Leaving(server: nat)

  predicate Claims(st: State, aid: int, c: Claim) {
    match c
    case Held(u) => u in st.users && Authorized in st.users[u].roles && st.users[u].aid == aid
    case Granted(u) => u in st.users && u.server !in st.cut && Authorization(u, aid) in st.down
    case Leaving(server) => server !in st.cut && Disconnect(server, aid) in st.up
  }

  /** How far a session has come. It takes every one of these stages at most once. */
  datatype Stage = MayAsk | Asked(verdict: Verdict) | Answered(aid: int) | Accepted

  predicate Reached(st: State, u: Uid, s: Stage) {
    match s
    case MayAsk => MayLogin(st.users, u)
    case Asked(verdict) => Login(u, verdict) in st.up
    case Answered(aid) => Authorization(u, aid) in st.down
    case Accepted => u in st.users && Authorized in st.users[u].roles
  }

  ghost predicate OneStageEach(st: State) {
    && (forall u, s, t :: Reached(st, u, s) && Reached(st, u, t) ==> s == t)
    && (forall u, s :: Reached(st, u, s) ==> st.Used(u))
    && (forall m: Up :: m.Login? ==> st.up[m] <= 1)
    && (forall m: Down :: m.Authorization? ==> st.down[m] <= 1)
  }

  ghost predicate OneClaimEach(st: State) {
    && (forall aid, c, d :: Claims(st, aid, c) && Claims(st, aid, d) ==> c == d)
    && (forall aid, c :: Claims(st, aid, c) ==> aid in st.active)
    && (forall m: Up :: m.Disconnect? && m.from !in st.cut ==> st.up[m] <= 1)
    && (forall u :: Reached(st, u, Accepted) ==> u.server !in st.cut)
  }

  /** What an event does to the stage of a session. */
  datatype Move<K, T> = Nothing | Appears(who: K, now: T) | Moves(who: K, was: T, now: T) | Vanishes(who: K, was: T)

  function StageMove(st: State, e: Event): Move<Uid, Stage> {
    match e
    case Connects(server, _) => Appears(st.NextUid(server), MayAsk)
    case AsksToLogin(uid, verdict) => if MayLogin(st.users, uid) then Moves(uid, MayAsk, Asked(verdict)) else Nothing
    case ReachesDatabase(Login(uid, verdict)) =>
      if verdict.Account? && verdict.aid !in st.active then
        Moves(uid, Asked(verdict), Answered(verdict.aid))
      else
        Vanishes(uid, Asked(verdict))
    case ReachesGame(Authorization(uid, aid)) =>
      if uid in st.users then Moves(uid, Answered(aid), Accepted) else Vanishes(uid, Answered(aid))
    case _ => Nothing
  }

  predicate ComesFrom(st: State, e: Event, u: Uid, s: Stage) {
    var m := StageMove(st, e);
    || ((m.Appears? || m.Moves?) && u == m.who && s == m.now)
    || (Reached(st, u, s) && ((m.Moves? || m.Vanishes?) && u == m.who ==> s != m.was))
  }

  lemma StageAfterReply(st: State, m: Down, u: Uid, s: Stage)
    requires Possible(st, ReachesGame(m)) && (m.Authorization? ==> st.down[m] <= 1)
    requires Reached(Next(st, ReachesGame(m)), u, s)
    ensures ComesFrom(st, ReachesGame(m), u, s)
  {
  }

  lemma StageAfterRequest(st: State, m: Up, u: Uid, s: Stage)
    requires Possible(st, ReachesDatabase(m)) && (m.Login? ==> st.up[m] <= 1)
    requires Reached(Next(st, ReachesDatabase(m)), u, s)
    ensures ComesFrom(st, ReachesDatabase(m), u, s)
  {
    var after := Next(st, ReachesDatabase(m));
    assert after.up == st.up - multiset{m} && after.users == st.users;
    if m.Login? {
      assert s == Asked(m.verdict) && u == m.uid ==> m !in after.up;
    }
  }

  /** A stage after an event was reached before it, unless the event moved the session there. */
  lemma StageBefore(st: State, e: Event, u: Uid, s: Stage)
    requires OneStageEach(st) && Possible(st, e)
    requires Reached(Next(st, e), u, s)
    ensures ComesFrom(st, e, u, s)
  {
    match e
    case ReachesDatabase(m) => StageAfterRequest(st, m, u, s);
    case ReachesGame(m) => StageAfterReply(st, m, u, s);
    case _ =>
  }

  lemma MoveStarts(st: State, e: Event)
    requires OneStageEach(st) && Possible(st, e)
    ensures var m := StageMove(st, e);
      && (m.Moves? || m.Vanishes? ==> Reached(st, m.who, m.was))
      && (m.Appears? ==> !st.Used(m.who) && Next(st, e).Used(m.who))
      && forall u :: st.Used(u) ==> Next(st, e).Used(u)
  {
  }

  /** Every session goes through its login once, one stage at a time. */
  lemma StagesKept(st: State, e: Event)
    requires OneStageEach(st) && Possible(st, e)
    ensures OneStageEach(Next(st, e))
  {
    var next, m := Next(st, e), StageMove(st, e);
    MoveStarts(st, e);
    forall u, s | Reached(next, u, s)
      ensures next.Used(u)
      ensures (m.Appears? || m.Moves?) && u == m.who ==> s == m.now
      ensures !((m.Appears? || m.Moves?) && u == m.who) ==> Reached(st, u, s)
    {
      StageBefore(st, e, u, s);
    }
    MessagesAreSingle(st, e);
  }

  lemma LoginIsSingle(st: State, e: Event, m: Up)
    requires m.Login? && st.up[m] <= 1 && Possible(st, e)
    requires MayLogin(st.users, m.uid) ==> m !in st.up
    ensures Next(st, e).up[m] <= 1
  {
    match e
    case AsksToLogin(uid, verdict) =>
      assert MayLogin(st.users, uid) ==> Next(st, e).up == st.up + multiset{Login(uid, verdict)};
    case ReachesDatabase(sent) => assert Next(st, e).up == st.up - multiset{sent};
    case Leaves(uid) => assert m !in Goodbye(st.users[uid], uid.server);
    case _ => assert Next(st, e).up == st.up;
  }

  lemma AuthorizationIsSingle(st: State, e: Event, m: Down)
    requires m.Authorization? && st.down[m] <= 1 && Possible(st, e)
    requires Login(m.uid, Account(m.aid)) in st.up ==> m !in st.down
    ensures Next(st, e).down[m] <= 1
  {
    match e
    case ReachesDatabase(Login(uid, verdict)) =>
      assert Next(st, e).down == st.down + multiset{LoginAt(st.active, uid, verdict).1};
    case ReachesGame(reply) => assert Next(st, e).down == st.down - multiset{reply};
    case _ => assert Next(st, e).down == st.down;
  }

  lemma MessagesAreSingle(st: State, e: Event)
    requires OneStageEach(st) && Possible(st, e)
    ensures forall m: Up :: m.Login? ==> Next(st, e).up[m] <= 1
    ensures forall m: Down :: m.Authorization? ==> Next(st, e).down[m] <= 1
  {
    forall m: Up | m.Login? ensures Next(st, e).up[m] <= 1 {
      assert !(Reached(st, m.uid, MayAsk) && Reached(st, m.uid, Asked(m.verdict)));
      LoginIsSingle(st, e, m);
    }
    forall m: Down | m.Authorization? ensures Next(st, e).down[m] <= 1 {
      assert !(Reached(st, m.uid, Asked(Account(m.aid))) && Reached(st, m.uid, Answered(m.aid)));
      AuthorizationIsSingle(st, e, m);
    }
  }

  /** What an event does to the claims on an account. */
  function ClaimMove(st: State, e: Event): Move<int, Claim>
    requires Possible(st, e)
  {
    match e
    case Leaves(uid) =>
      var u := st.users[uid];
      if Authorized in u.roles then Moves(u.aid, Held(uid), Leaving(uid.server)) else Nothing
    case ReachesDatabase(Login(uid, verdict)) =>
      if verdict.Account? && verdict.aid !in st.active && uid in st.users then
        Appears(verdict.aid, Granted(uid))
      else
        Nothing
    case ReachesDatabase(Disconnect(from, aid)) => Vanishes(aid, Leaving(from))
    case ReachesGame(Authorization(uid, aid)) =>
      if uid in st.users then Moves(aid, Granted(uid), Held(uid)) else Nothing
    case _ => Nothing
  }

  predicate ClaimComesFrom(st: State, e: Event, aid: int, c: Claim)
    requires Possible(st, e)
  {
    var m := ClaimMove(st, e);
    || ((m.Appears? || m.Moves?) && aid == m.who && c == m.now)
    || (Claims(st, aid, c) && ((m.Moves? || m.Vanishes?) && aid == m.who ==> c != m.was))
  }

  /** A claim after an event was there before it, unless the event made it. */
  lemma ClaimBefore(st: State, e: Event, aid: int, c: Claim)
    requires OneStageEach(st) && OneClaimEach(st) && Possible(st, e)
    requires Claims(Next(st, e), aid, c)
    ensures ClaimComesFrom(st, e, aid, c)
  {
    hide Claims, ClaimComesFrom, Next;
    match e
    case Connects(server, _) =>
      assert !Reached(st, st.NextUid(server), Answered(aid));
      ClaimAfterConnect(st, e, aid, c);
    case ReachesDatabase(m) => ClaimAfterRequest(st, m, aid, c);
    case ReachesGame(m) =>
      if m.Authorization? {
        assert Reached(st, m.uid, Answered(m.aid));
        assert !Reached(st, m.uid, Accepted);
        ClaimAfterReply(st, m, aid, c);
      } else {
        ClaimAfterAnswer(st, m, aid, c);
      }
    case _ => ClaimAfterClient(st, e, aid, c);
  }

  lemma ClaimAfterConnect(st: State, e: Event, aid: int, c: Claim)
    requires e.Connects? && Authorization(st.NextUid(e.server), aid) !in st.down
    requires Claims(Next(st, e), aid, c)
    ensures ClaimComesFrom(st, e, aid, c)
  {
  }

  lemma ClaimAfterClient(st: State, e: Event, aid: int, c: Claim)
    requires Possible(st, e) && (e.AsksToLogin? || e.Leaves? || e.LinkCloses?)
    requires Claims(Next(st, e), aid, c)
    ensures ClaimComesFrom(st, e, aid, c)
  {
    var next := Next(st, e);
    match c
    case Held(u) => assert u in st.users && (e.AsksToLogin? || next.users[u] == st.users[u]);
    case Granted(u) => assert u in st.users && next.down == st.down;
    case Leaving(server) =>
      assert e.Leaves? ==> Disconnect(server, aid) in st.up || Disconnect(server, aid) in Goodbye(st.users[e.uid], e.uid.server);
  }

  lemma ClaimAfterAnswer(st: State, m: Down, aid: int, c: Claim)
    requires Possible(st, ReachesGame(m)) && m.Answer?
    requires Claims(Next(st, ReachesGame(m)), aid, c)
    ensures ClaimComesFrom(st, ReachesGame(m), aid, c)
  {
    assert Next(st, ReachesGame(m)).down == st.down - multiset{m};
  }

  lemma ClaimAfterRequest(st: State, m: Up, aid: int, c: Claim)
    requires Possible(st, ReachesDatabase(m)) && (m.Disconnect? ==> st.up[m] <= 1)
    requires Claims(Next(st, ReachesDatabase(m)), aid, c)
    ensures ClaimComesFrom(st, ReachesDatabase(m), aid, c)
  {
    var after := Next(st, ReachesDatabase(m));
    assert after.up == st.up - multiset{m} && after.users == st.users;
  }

  lemma ClaimAfterReply(st: State, m: Down, aid: int, c: Claim)
    requires Possible(st, ReachesGame(m)) && m.Authorization? && st.down[m] <= 1
    requires !Reached(st, m.uid, Accepted)
    requires Claims(Next(st, ReachesGame(m)), aid, c)
    ensures ClaimComesFrom(st, ReachesGame(m), aid, c)
  {
  }

  lemma ClaimMoveStarts(st: State, e: Event)
    requires OneStageEach(st) && Possible(st, e)
    ensures var m := ClaimMove(st, e);
      && (m.Moves? || m.Vanishes? ==> Claims(st, m.who, m.was))
      && (m.Appears? ==> m.who !in st.active && m.who in Next(st, e).active)
      && (forall aid <- st.active :: aid in Next(st, e).active || e.LinkCloses? || (m.Vanishes? && m.who == aid))
  {
    hide OneStageEach;
  }

  lemma GoodbyesAreSingle(st: State, e: Event)
    requires OneClaimEach(st) && Possible(st, e)
    ensures forall m: Up :: m.Disconnect? && m.from !in Next(st, e).cut ==> Next(st, e).up[m] <= 1
  {
    if e.Leaves? && Authorized in st.users[e.uid].roles {
      var aid := st.users[e.uid].aid;
      assert Claims(st, aid, Held(e.uid)) && !Claims(st, aid, Leaving(e.uid.server));
    }
  }

  lemma NobodyIsCutOff(st: State, e: Event)
    requires OneStageEach(st) && OneClaimEach(st) && Possible(st, e) && !e.LinkCloses?
    ensures forall u :: Reached(Next(st, e), u, Accepted) ==> u.server !in Next(st, e).cut
  {
    forall u | Reached(Next(st, e), u, Accepted) ensures u.server !in st.cut {
      StageBefore(st, e, u, Accepted);
    }
  }

  /** Claims on an account exclude each other, and a claimed account stays active. */
  lemma ClaimsKept(st: State, e: Event)
    requires OneStageEach(st) && OneClaimEach(st) && Possible(st, e) && !e.LinkCloses?
    ensures OneClaimEach(Next(st, e))
  {
    var next, m := Next(st, e), ClaimMove(st, e);
    ClaimMoveStarts(st, e);
    GoodbyesAreSingle(st, e);
    NobodyIsCutOff(st, e);
    hide Next, Claims, ClaimMove, Reached, OneStageEach;
    forall aid, c | Claims(next, aid, c)
      ensures (m.Appears? || m.Moves?) && aid == m.who ==> c == m.now
      ensures m.Vanishes? ==> aid != m.who
      ensures !((m.Appears? || m.Moves?) && aid == m.who) ==> Claims(st, aid, c)
      ensures aid in next.active
    {
      ClaimBefore(st, e, aid, c);
    }
  }

  ghost predicate Sane(st: State) {
    OneStageEach(st) && OneClaimEach(st)
  }

  lemma StartIsSane()
    ensures Sane(START)
  {
  }

  lemma {:induction false} RunsAreSane(st: State, es: seq<Event>)
    requires Sane(st) && Run(st, es) && LinksStayUp(es)
    ensures Sane(After(st, es))
    decreases |es|
  {
    if es != [] {
      StagesKept(st, es[0]);
      ClaimsKept(st, es[0]);
      RunsAreSane(Next(st, es[0]), es[1..]);
    }
  }

  /** No two live sessions have the same account. */
  ghost predicate Exclusive(st: State) {
    forall aid, u, v :: Claims(st, aid, Held(u)) && Claims(st, aid, Held(v)) ==> u == v
  }

  lemma SaneIsExclusive(st: State)
    requires Sane(st)
    ensures Exclusive(st)
  {
    forall aid, u, v | Claims(st, aid, Held(u)) && Claims(st, aid, Held(v)) ensures u == v {
      assert Held(u) == Held(v);
    }
  }

  /** However connects, logins, departures and messages interleave, two sessions never share an account. */
  lemma AccountsAreExclusive(es: seq<Event>)
    requires Run(START, es) && LinksStayUp(es)
    ensures Exclusive(After(START, es))
  {
    StartIsSane();
    RunsAreSane(START, es);
    SaneIsExclusive(After(START, es));
  }

  // ------------------------------------------------------------ lost accounts

  /** The account is active although nobody has it and nobody is about to get it or give it up. */
  ghost predicate Lost(st: State, aid: int) {
    aid in st.active && forall c :: !Claims(st, aid, c)
  }

  /** A login was granted to a session that had left, or a session left before its grant arrived. */
  predicate Loses(st: State, e: Event, aid: int) {
    match e
    case ReachesDatabase(Login(uid, Account(a))) => a == aid && aid !in st.active && uid !in st.users
    case Leaves(uid) => uid.server !in st.cut && Authorization(uid, aid) in st.down
    case _ => false
  }

  /** These two are the only ways to lose an account. */
  lemma LostIff(st: State, e: Event, aid: int)
    requires Sane(st) && Possible(st, e) && !e.LinkCloses? && !Lost(st, aid)
    ensures Lost(Next(st, e), aid) <==> Loses(st, e, aid)
  {
    var next, m := Next(st, e), ClaimMove(st, e);
    ClaimMoveStarts(st, e);
    if Loses(st, e, aid) {
      LosesLeavesNothing(st, e, aid);
    } else if aid in next.active {
      SomeClaimRemains(st, e, aid);
    }
  }

  lemma RunFrom(st: State, e: Event, es: seq<Event>)
    requires Possible(st, e) && Run(Next(st, e), es)
    ensures var all := [e] + es; Run(st, all) && After(st, all) == After(Next(st, e), es)
  {
    assert ([e] + es)[1..] == es;
  }

  lemma LostOnArrival(st: State, uid: Uid, aid: int)
    requires st.users == map[] && st.up == multiset{Login(uid, Account(aid))} && st.down == multiset{}
    requires aid !in st.active && st.cut == {}
    ensures var e := ReachesDatabase(Login(uid, Account(aid))); Possible(st, e) && Lost(Next(st, e), aid)
  {
    var next := Next(st, ReachesDatabase(Login(uid, Account(aid))));
    assert next.up == multiset{} && next.users == map[];
  }

  lemma LeavesAfterAsking(server: nat, aid: int)
    ensures var uid := Uid(server, 0);
      Possible(START, Connects(server, aid)) &&
      var joined := Next(START, Connects(server, aid));
      Possible(joined, AsksToLogin(uid, Account(aid))) &&
      var asked := Next(joined, AsksToLogin(uid, Account(aid)));
      Possible(asked, Leaves(uid)) &&
      Next(asked, Leaves(uid)) == State(map[], map[server := 1], multiset{Login(uid, Account(aid))}, multiset{}, {}, {})
  {
    var uid := Uid(server, 0);
    var asked := Next(Next(START, Connects(server, aid)), AsksToLogin(uid, Account(aid)));
    assert asked.up == multiset{Login(uid, Account(aid))};
    assert asked.users[uid].roles == {CanRequestPrimary} - {CanRequestPrimary};
    assert asked.up + multiset([]) == asked.up;
  }

  /** The shortest run that loses an account: its owner leaves while the login is on its way. */
  lemma LeavingEarlyLoses(server: nat, aid: int)
    ensures var uid := Uid(server, 0);
      var es := [Connects(server, aid), AsksToLogin(uid, Account(aid)), Leaves(uid), ReachesDatabase(Login(uid, Account(aid)))];
      Run(START, es) && Lost(After(START, es), aid)
  {
    var uid := Uid(server, 0);
    var ask, arrive := AsksToLogin(uid, Account(aid)), ReachesDatabase(Login(uid, Account(aid)));
    hide START, Possible;
    LeavesAfterAsking(server, aid);
    var joined := Next(START, Connects(server, aid));
    var asked := Next(joined, ask);
    var left := Next(asked, Leaves(uid));
    LostOnArrival(left, uid, aid);
    hide Next, Lost;
    assert Run(Next(left, arrive), []);
    RunFrom(left, arrive, []);
    RunFrom(asked, Leaves(uid), [arrive]);
    RunFrom(joined, ask, [Leaves(uid), arrive]);
    RunFrom(START, Connects(server, aid), [ask, Leaves(uid), arrive]);
  }

  lemma LosesLeavesNothing(st: State, e: Event, aid: int)
    requires Sane(st) && Possible(st, e) && Loses(st, e, aid)
    ensures Lost(Next(st, e), aid)
  {
    if e.Leaves? {
      assert Claims(st, aid, Granted(e.uid));
      assert Reached(st, e.uid, Answered(aid)) && !Reached(st, e.uid, Accepted);
    }
    forall c ensures !Claims(Next(st, e), aid, c) {
      if Claims(Next(st, e), aid, c) {
        ClaimBefore(st, e, aid, c);
      }
    }
  }

  /** Messages wait until they arrive. */
  lemma DownWaits(st: State, e: Event, m: Down)
    requires Possible(st, e) && m in st.down && e != ReachesGame(m)
    ensures m in Next(st, e).down
  {
    match e
    case ReachesDatabase(Login(uid, verdict)) =>
      assert Next(st, e).down == st.down + multiset{LoginAt(st.active, uid, verdict).1};
    case ReachesGame(reply) => assert Next(st, e).down == st.down - multiset{reply};
    case _ => assert Next(st, e).down == st.down;
  }

  lemma UpWaits(st: State, e: Event, m: Up)
    requires Possible(st, e) && m in st.up && e != ReachesDatabase(m)
    ensures m in Next(st, e).up
  {
    match e
    case AsksToLogin(uid, verdict) =>
      assert Next(st, e).up == st.up || Next(st, e).up == st.up + multiset{Login(uid, verdict)};
    case Leaves(uid) => assert Next(st, e).up == st.up + multiset(Goodbye(st.users[uid], uid.server));
    case ReachesDatabase(sent) => assert Next(st, e).up == st.up - multiset{sent};
    case _ => assert Next(st, e).up == st.up;
  }

  lemma HeldStays(st: State, e: Event, aid: int, u: Uid)
    requires Possible(st, e) && Claims(st, aid, Held(u)) && st.Used(u)
    requires (forall a :: Authorization(u, a) !in st.down) && e != Leaves(u)
    ensures Claims(Next(st, e), aid, Held(u))
  {
    match e
    case ReachesGame(m) => assert m.Authorization? ==> m.uid != u;
    case _ =>
  }

  lemma GrantedStays(st: State, e: Event, aid: int, u: Uid)
    requires Possible(st, e) && Claims(st, aid, Granted(u))
    requires e != Leaves(u) && e != ReachesGame(Authorization(u, aid)) && !e.LinkCloses?
    ensures Claims(Next(st, e), aid, Granted(u))
  {
    DownWaits(st, e, Authorization(u, aid));
    UsersStay(st, e, u);
    LinksStay(st, e);
    hide Next;
  }

  lemma UsersStay(st: State, e: Event, u: Uid)
    requires Possible(st, e) && u in st.users && e != Leaves(u)
    ensures u in Next(st, e).users
  {
  }

  /** An event leaves a claim alone unless it moves it on or loses it. */
  lemma ClaimStays(st: State, e: Event, aid: int, c: Claim)
    requires Sane(st) && Possible(st, e) && Claims(st, aid, c) && !Loses(st, e, aid) && !e.LinkCloses?
    requires var m := ClaimMove(st, e); !((m.Moves? || m.Vanishes?) && m.who == aid && c == m.was)
    ensures Claims(Next(st, e), aid, c)
  {
    hide Next, OneStageEach, OneClaimEach;
    match c
    case Held(u) =>
      AcceptedIsLast(st, u);
      HeldStays(st, e, aid, u);
    case Granted(u) =>
      GrantedStays(st, e, aid, u);
    case Leaving(server) =>
      LinksStay(st, e);
      UpWaits(st, e, Disconnect(server, aid));
  }

  lemma AcceptedIsLast(st: State, u: Uid)
    requires OneStageEach(st) && u in st.users && Authorized in st.users[u].roles
    ensures st.Used(u) && forall a :: Authorization(u, a) !in st.down
  {
    assert Reached(st, u, Accepted);
    forall a ensures Authorization(u, a) !in st.down {
      assert !Reached(st, u, Answered(a));
    }
  }

  lemma LinksStay(st: State, e: Event)
    requires Possible(st, e) && !e.LinkCloses?
    ensures Next(st, e).cut == st.cut
  {
  }

  lemma MovedClaimIsThere(st: State, e: Event)
    requires Sane(st) && Possible(st, e) && !e.LinkCloses?
    ensures ClaimMove(st, e).Moves? ==> Claims(Next(st, e), ClaimMove(st, e).who, ClaimMove(st, e).now)
    ensures ClaimMove(st, e).Vanishes? ==> ClaimMove(st, e).who !in Next(st, e).active
  {
    if e.Leaves? && Authorized in st.users[e.uid].roles {
      assert Reached(st, e.uid, Accepted);
      assert Next(st, e).up == st.up + multiset(Goodbye(st.users[e.uid], e.uid.server));
    }
    hide OneStageEach, OneClaimEach;
  }

  lemma SomeClaimRemains(st: State, e: Event, aid: int)
    requires Sane(st) && Possible(st, e) && !e.LinkCloses?
    requires !Lost(st, aid) && !Loses(st, e, aid) && aid in Next(st, e).active
    ensures exists c :: Claims(Next(st, e), aid, c)
  {
    var next, m := Next(st, e), ClaimMove(st, e);
    if aid in st.active {
      var c :| Claims(st, aid, c);
      ClaimMoveStarts(st, e);
      MovedClaimIsThere(st, e);
      hide Next, Claims, OneStageEach;
      if (m.Moves? || m.Vanishes?) && m.who == aid {
        assert m.Moves? ==> Claims(next, aid, m.now);
      } else {
        ClaimStays(st, e, aid, c);
      }
    } else {
      assert Claims(next, aid, Granted(e.sent.uid));
    }
  }

  /** A lost account stays lost, and every later login to it is refused. */
  lemma {:induction false} LostForever(st: State, es: seq<Event>, aid: int)
    requires Sane(st) && Run(st, es) && LinksStayUp(es) && Lost(st, aid)
    ensures Lost(After(st, es), aid)
    ensures forall uid :: LoginAt(After(st, es).active, uid, Account(aid)).1 == Answer(uid, LaSameUser)
    decreases |es|
  {
    if es != [] {
      var e := es[0];
      StagesKept(st, e);
      ClaimsKept(st, e);
      ClaimMoveStarts(st, e);
      forall c ensures !Claims(Next(st, e), aid, c) {
        if Claims(Next(st, e), aid, c) {
          ClaimBefore(st, e, aid, c);
        }
      }
      LostForever(Next(st, e), es[1..], aid);
    }
  }

  // ------------------------------------------------------- what goes through

  /** A login to an account that nobody uses goes through once its messages arrive. */
  lemma LoginGoesThrough(st: State, uid: Uid, aid: int)
    requires MayLogin(st.users, uid) && uid.server !in st.cut && aid !in st.active
    ensures var login := Login(uid, Account(aid));
      var es := [AsksToLogin(uid, Account(aid)), ReachesDatabase(login), ReachesGame(Authorization(uid, aid))];
      && Run(st, es) && Claims(After(st, es), aid, Held(uid)) && aid in After(st, es).active
      && After(st, es).up == st.up && After(st, es).down == st.down
  {
    var login := Login(uid, Account(aid));
    var ask, request, reply := AsksToLogin(uid, Account(aid)), ReachesDatabase(login), ReachesGame(Authorization(uid, aid));
    LoginSteps(st, uid, aid);
    hide Next, Claims, MayLogin, Possible;
    var done := Next(Next(Next(st, ask), request), reply);
    assert Run(done, []) && After(done, []) == done;
    RunFrom(Next(Next(st, ask), request), reply, []);
    RunFrom(Next(st, ask), request, [reply]);
    RunFrom(st, ask, [request, reply]);
    assert [reply] + [] == [reply] && [request] + [reply] == [request, reply];
    assert [ask] + [request, reply] == [ask, request, reply];
  }

  lemma LoginSteps(st: State, uid: Uid, aid: int)
    requires MayLogin(st.users, uid) && uid.server !in st.cut && aid !in st.active
    ensures var login := Login(uid, Account(aid));
      Possible(st, AsksToLogin(uid, Account(aid))) &&
      var asked := Next(st, AsksToLogin(uid, Account(aid)));
      Possible(asked, ReachesDatabase(login)) &&
      var granted := Next(asked, ReachesDatabase(login));
      Possible(granted, ReachesGame(Authorization(uid, aid))) &&
      var done := Next(granted, ReachesGame(Authorization(uid, aid)));
      Claims(done, aid, Held(uid)) && aid in done.active && done.up == st.up && done.down == st.down
  {
    var login := Login(uid, Account(aid));
    var asked := Next(st, AsksToLogin(uid, Account(aid)));
    assert asked.up - multiset{login} == st.up;
    var granted := Next(asked, ReachesDatabase(login));
    assert granted.down - multiset{Authorization(uid, aid)} == st.down;
  }

  /** When an authorized session leaves and its goodbye arrives, its account can be used again. */
  lemma GoodbyeFrees(st: State, uid: Uid)
    requires uid in st.users && Authorized in st.users[uid].roles && uid.server !in st.cut
    ensures var aid := st.users[uid].aid;
      var es := [Leaves(uid), ReachesDatabase(Disconnect(uid.server, aid))];
      Run(st, es) && uid !in After(st, es).users && After(st, es).active == st.active - {aid}
  {
    var aid := st.users[uid].aid;
    var goodbye := ReachesDatabase(Disconnect(uid.server, aid));
    var left := Next(st, Leaves(uid));
    assert left.up == st.up + multiset{Disconnect(uid.server, aid)};
    var done := Next(left, goodbye);
    assert uid !in done.users && done.active == st.active - {aid};
    hide Next;
    assert Run(done, []) && After(done, []) == done;
    RunFrom(left, goodbye, []);
    RunFrom(st, Leaves(uid), [goodbye]);
  }

  // ------------------------------------------------- when another link closes

  /** Some run from here, with links up, ends with two sessions on one account. */
  ghost predicate CanBreak(st: State) {
    exists es :: Run(st, es) && LinksStayUp(es) && !Exclusive(After(st, es))
  }

  lemma BreaksBefore(st: State, e: Event)
    requires Possible(st, e) && !e.LinkCloses? && CanBreak(Next(st, e))
    ensures CanBreak(st)
  {
    var es :| Run(Next(st, e), es) && LinksStayUp(es) && !Exclusive(After(Next(st, e), es));
    var all := [e] + es;
    assert all[0] == e && all[1..] == es;
    assert Run(st, all) && After(st, all) == After(Next(st, e), es);
    assert LinksStayUp(all);
  }

  /** The state after a new session has logged in to an account that is not active. */
  function LoggedIn(st: State, server: nat, aid: int): State {
    var uid := st.NextUid(server);
    st.(users := st.users[uid := Session({Authorized}, aid)], counts := st.counts[server := uid.number + 1],
        active := st.active + {aid})
  }

  lemma GrantBreaksBefore(st: State, uid: Uid, aid: int)
    requires uid in st.users && aid !in st.active && Login(uid, Account(aid)) in st.up && uid.server !in st.cut
    requires CanBreak(st.(up := st.up - multiset{Login(uid, Account(aid))},
                          users := Authorizing(st.users, uid, aid), active := st.active + {aid}))
    ensures CanBreak(st)
  {
    var request, reply := ReachesDatabase(Login(uid, Account(aid))), ReachesGame(Authorization(uid, aid));
    var granted := Next(st, request);
    assert granted.down - multiset{Authorization(uid, aid)} == st.down;
    BreaksBefore(granted, reply);
    BreaksBefore(st, request);
  }

  lemma LoginBreaksBefore(st: State, server: nat, aid: int)
    requires aid !in st.active && server !in st.cut && CanBreak(LoggedIn(st, server, aid))
    ensures CanBreak(st)
  {
    hide CanBreak;
    var uid := st.NextUid(server);
    var joined := Next(st, Connects(server, aid));
    var asked := Next(joined, AsksToLogin(uid, Account(aid)));
    assert asked.up - multiset{Login(uid, Account(aid))} == st.up;
    assert {CanRequestPrimary} - {CanRequestPrimary} + {Authorized} == {Authorized};
    assert Authorizing(asked.users, uid, aid) == LoggedIn(st, server, aid).users;
    GrantBreaksBefore(asked, uid, aid);
    BreaksBefore(joined, AsksToLogin(uid, Account(aid)));
    BreaksBefore(st, Connects(server, aid));
  }

  lemma {:induction false} CutIsBounded(cut: set<nat>) returns (n: nat)
    ensures forall t <- cut :: t < n
  {
    if cut == {} {
      n := 0;
    } else {
      var t :| t in cut;
      var m := CutIsBounded(cut - {t});
      n := if t < m then m else t + 1;
      assert forall x <- cut :: x == t || x in cut - {t};
    }
  }

  lemma HeldBreaks(st: State, server: nat, aid: int, u: Uid)
    requires Claims(st, aid, Held(u)) && st.Used(u) && aid !in st.active && server !in st.cut
    ensures CanBreak(st)
  {
    var after := LoggedIn(st, server, aid);
    assert Claims(after, aid, Held(u)) && Claims(after, aid, Held(st.NextUid(server)));
    assert !Exclusive(after);
    assert Run(after, []) && After(after, []) == after && LinksStayUp([]);
    assert CanBreak(after);
    LoginBreaksBefore(st, server, aid);
  }

  lemma ClaimBreaks(st: State, server: nat, aid: int, c: Claim)
    requires OneStageEach(st) && Claims(st, aid, c) && aid !in st.active && server !in st.cut
    requires forall m: Up :: m.Disconnect? && m.from !in st.cut ==> st.up[m] <= 1
    ensures CanBreak(st)
  {
    match c
    case Held(u) =>
      assert Reached(st, u, Accepted);
      HeldBreaks(st, server, aid, u);
    case Granted(u) =>
      assert Reached(st, u, Answered(aid));
      var e := ReachesGame(Authorization(u, aid));
      assert Claims(Next(st, e), aid, Held(u));
      HeldBreaks(Next(st, e), server, aid, u);
      BreaksBefore(st, e);
    case Leaving(from) =>
      var in1 := LoggedIn(st, server, aid);
      var e := ReachesDatabase(Disconnect(from, aid));
      assert Claims(Next(in1, e), aid, Held(st.NextUid(server)));
      HeldBreaks(Next(in1, e), server, aid, st.NextUid(server));
      BreaksBefore(in1, e);
      LoginBreaksBefore(st, server, aid);
  }

  /** What a game server that loses its link takes along: grants and goodbyes on their way over it. */
  predicate GoesDownWith(c: Claim, server: nat) {
    match c
    case Held(_) => false
    case Granted(uid) => uid.server == server
    case Leaving(from) => from == server
  }

  /**
    The database forgets all active accounts whenever the link to any game server closes,
    and no game server drops its sessions then. That is harmless exactly when no account
    was claimed, except by what was on its way over that link.
  */
  lemma ForgettingIsHarmlessIff(st: State, server: nat)
    requires Sane(st)
    ensures !CanBreak(Next(st, LinkCloses(server))) <==> forall aid, c :: Claims(st, aid, c) ==> GoesDownWith(c, server)
  {
    var next := Next(st, LinkCloses(server));
    StagesKept(st, LinkCloses(server));
    if aid, c :| Claims(st, aid, c) && !GoesDownWith(c, server) {
      assert Claims(next, aid, c);
      var n := CutIsBounded(next.cut);
      ClaimBreaks(next, n, aid, c);
    } else {
      NothingClaimed(st, server);
      forall es | Run(next, es) && LinksStayUp(es) ensures Exclusive(After(next, es)) {
        RunsAreSane(next, es);
        SaneIsExclusive(After(next, es));
      }
    }
  }

  lemma NothingClaimed(st: State, server: nat)
    requires Sane(st) && forall aid, c :: Claims(st, aid, c) ==> GoesDownWith(c, server)
    ensures OneClaimEach(Next(st, LinkCloses(server)))
  {
    var next := Next(st, LinkCloses(server));
    forall aid, c ensures !Claims(next, aid, c) {
      if Claims(next, aid, c) {
        assert Claims(st, aid, c);
      }
    }
    forall u ensures !Reached(next, u, Accepted) {
      if Reached(next, u, Accepted) {
        assert Claims(next, next.users[u].aid, Held(u));
      }
    }
  }
}
