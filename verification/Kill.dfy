/**
  A kill in the world: whose shares of the experience arrive, given the parties the
  players are in.
*/
module Kills {
  import opened Parties
  import Monsters

  /** A kill takes a member of a party for a player without one exactly when the party is the first that was founded. */
  lemma TakenForAloneIff(w: World, id: nat)
    requires w.Valid() && id in w.players
    ensures var p := w.players[id];
      Monsters.Alone(w.PartyIds(), id) <==> p.party == null || (w.realm.founded != [] && p.party == w.realm.founded[0])
  {
    hide Sane;
    w.IdIsZeroIff(w.players[id]);
  }

  /** A player in the world who is not in a party, or in the first one. */
  ghost predicate IsPaid(w: World, id: nat)
    reads w, w.players.Values`party
  {
    id in w.players && (w.players[id].party == null || (w.realm.founded != [] && w.players[id].party == w.realm.founded[0]))
  }

  /** Whose share a kill pays out, in terms of the parties. */
  method Strike(w: World, m: Monsters.Monster, id: nat, damage: nat) returns (shares: map<nat, nat>, undefined: bool)
    requires w.Valid() && m.Valid() && m.curHp > 0
    modifies m
    ensures m.Valid() && m.Now() == Monsters.Next(old(m.Now()), m.maxHp, Monsters.Hit(id, damage))
    ensures m.start == if m.curHp == 0 then 0 else old(m.start)
    ensures m.curHp == 0 && (old(m.start) + m.maxHp) % Monsters.UINT64 > 0 ==>
      var hostility := Monsters.Hurt(old(m.Now()), id, old(m.curHp)).hostility;
      && (forall i :: i in shares <==> i in hostility && IsPaid(w, i))
      && (forall i <- shares :: shares[i] == Monsters.Share(m.exp, hostility[i], (old(m.start) + m.maxHp) % Monsters.UINT64))
  {
    forall i | i in w.players ensures Monsters.Alone(w.PartyIds(), i) <==> IsPaid(w, i) {
      TakenForAloneIff(w, i);
    }
    shares, undefined := m.Strike(id, damage, w.PartyIds());
  }

  lemma PointerOf(w: World, p: Player)
    requires w.Valid() && p in w.everyone
    ensures p.party == if p in w.realm.partyOf then w.realm.partyOf[p] else null
  {
  }

  method Newcomer(w: World, i: nat) returns (p: Player)
    requires w.Valid() && i !in w.players
    modifies w
    ensures w.Valid() && fresh(p) && p.id == i && p.party == null && p.inviter == 0
    ensures w.everyone == old(w.everyone) + {p} && w.players == old(w.players)[i := p]
    ensures w.realm == old(w.realm) && p !in w.realm.partyOf
  {
    hide Sane;
    p := new Player(i, 1);
    w.Enter(p);
  }

  /** One invites, the other accepts: the next party. */
  method Invite(w: World, a: Player, b: Player)
    requires w.Valid() && a in w.everyone && b in w.everyone && a != b && a.party == null && b.party == null
    requires a.id in w.players && w.players[a.id] == a && b.id in w.players && w.players[b.id] == b
    modifies w, w.everyone, w.realm.members.Keys
    ensures w.Valid() && w.players == old(w.players) && w.everyone == old(w.everyone)
    ensures a.party != null && fresh(a.party) && w.realm.founded == old(w.realm).founded + [a.party]
    ensures w.realm.members.Keys == old(w.realm.members.Keys) + {a.party}
    ensures w.realm.partyOf == old(w.realm).partyOf[a := a.party][b := a.party]
  {
    hide Sane, World.Mirrors, World.Pointers, World.Lists;
    w.PointsTo(a);
    w.PointsTo(b);
    w.OnAskParty(a, b.id, true);
    ghost var q := w.OnAskPartyAnswer(b, true, a.id, true);
    w.PointsTo(a);
  }

  /** A world with two parties of two. */
  method TwoParties() returns (w: World)
    ensures fresh(w) && w.Valid() && w.players.Keys == {1, 2, 3, 4} && |w.realm.founded| == 2
    ensures w.players[1].party == w.realm.founded[0] && w.players[3].party == w.realm.founded[1]
    ensures w.realm.founded[0] != w.realm.founded[1]
  {
    w := new World();
    hide World.Valid, World.Mirrors, Sane;
    var a := Newcomer(w, 1);
    var b := Newcomer(w, 2);
    var c := Newcomer(w, 3);
    var d := Newcomer(w, 4);
    Invite(w, a, b);
    PointerOf(w, c);
    PointerOf(w, d);
    Invite(w, c, d);
    PointerOf(w, a);
    PointerOf(w, c);
  }

  lemma HalfAndHalf()
    ensures Monsters.Next(Monsters.Fresh(200, 0), 200, Monsters.Hit(1, 100)) == Monsters.Ledger(100, map[1 := 100], 100)
    ensures var half := Monsters.Ledger(100, map[1 := 100], 100);
      && Monsters.Hurt(half, 3, 100).hostility == map[1 := 100, 3 := 100]
      && Monsters.Next(half, 200, Monsters.Hit(3, 100)).curHp == 0
    ensures Monsters.Share(1000, 100, 200) == 500
  {
  }

  method TwoBlows(w: World, m: Monsters.Monster) returns (shares: map<nat, nat>)
    requires w.Valid() && IsPaid(w, 1) && !IsPaid(w, 3)
    requires m.Valid() && m.Now() == Monsters.Fresh(200, 0) && m.start == 0 && m.maxHp == 200 && m.exp == 1000
    modifies m
    ensures shares == map[1 := 500]
  {
    HalfAndHalf();
    hide IsPaid, Monsters.Next, Monsters.Hurt, Monsters.Share, Monsters.Monster.Valid;
    var undefined;
    shares, undefined := Strike(w, m, 1, 100);
    assert m.Now() == Monsters.Ledger(100, map[1 := 100], 100) && m.Now().curHp == m.curHp;
    shares, undefined := Strike(w, m, 3, 100);
    assert shares.Keys == {1};
  }

  /**
    One of each of two parties hurts a monster, half of its health each, and the second
    kills it: the first party is paid as if it were none, and the other is not.
  */
  method FirstPartyIsPaid() returns (w: World, shares: map<nat, nat>)
    ensures w.Valid() && {1, 3} <= w.players.Keys
    ensures w.players[1].party != null && w.players[3].party != null
    ensures shares == map[1 := 500]
  {
    w := TwoParties();
    hide World.Valid;
    var m := new Monsters.Monster(200, 1000, 0);
    shares := TwoBlows(w, m);
  }
}
