/**
  The damage ledger of a monster: who hurt it how much, and how its experience is shared
  out when it dies.
*/
module Monsters {

  // --------------------------------------------------------------------- sums

  predicate IsLeast(k: nat, keys: set<nat>) {
    k in keys && forall j <- keys :: k <= j
  }

  function Least(keys: set<nat>): (k: nat)
    requires keys != {}
    ensures k in keys
  {
    LeastExists(keys);
    var k :| IsLeast(k, keys);
    k
  }

  lemma LeastExists(keys: set<nat>)
    requires keys != {}
    ensures exists k :: IsLeast(k, keys)
  {
    var k := FindLeast(keys);
  }

  lemma {:induction false} FindLeast(keys: set<nat>) returns (k: nat)
    requires keys != {}
    ensures IsLeast(k, keys)
    decreases |keys|
  {
    k :| k in keys;
    var rest := keys - {k};
    if rest == {} {
      assert keys == {k};
    } else {
      var r := FindLeast(rest);
      var x := k;
      k := if x <= r then x else r;
      forall j | j in keys ensures k <= j {
        assert j == x || j in rest;
      }
    }
  }

  /** The values of some of the keys together. */
  function SumOf(m: map<nat, nat>, keys: set<nat>): nat
    requires keys <= m.Keys
    decreases |keys|
  {
    if keys == {} then
      0
    else
      var k := Least(keys);
      m[k] + SumOf(m, keys - {k})
  }

  lemma {:induction false} SumWith(m: map<nat, nat>, keys: set<nat>, x: nat)
    requires keys <= m.Keys && x in keys
    ensures SumOf(m, keys) == m[x] + SumOf(m, keys - {x})
    decreases |keys|
  {
    var k := Least(keys);
    if x != k {
      SumWith(m, keys - {k}, x);
      SumWith(m, keys - {x}, k);
      assert keys - {k} - {x} == keys - {x} - {k};
    }
  }

  lemma {:induction false} SumSame(a: map<nat, nat>, b: map<nat, nat>, keys: set<nat>)
    requires keys <= a.Keys && keys <= b.Keys && forall k <- keys :: a[k] == b[k]
    ensures SumOf(a, keys) == SumOf(b, keys)
    decreases |keys|
  {
    if keys != {} {
      SumSame(a, b, keys - {Least(keys)});
    }
  }

  // ------------------------------------------------------------------- ledger

  const UINT32 := 0x1_0000_0000
  const UINT64 := 0x1_0000_0000_0000_0000

  datatype Ledger = Ledger(curHp: nat, hostility: map<nat, nat>, total: nat)

  /** The constructor sets the health only: the total holds whatever was in memory before. */
  function Fresh(maxHp: nat, leftover: nat): Ledger { Ledger(maxHp, map[], leftover) }

  function Hurt(l: Ledger, id: nat, damage: nat): Ledger
    requires damage <= l.curHp
  {
    var before := if id in l.hostility then l.hostility[id] else 0;
    Ledger(l.curHp - damage, l.hostility[id := before + damage], (l.total + damage) % UINT64)
  }

  function Dealt(l: Ledger): nat {
    SumOf(l.hostility, l.hostility.Keys)
  }

  /** All the health lost in this life is in the ledger, and the total is that much above what it started from. */
  predicate Accounted(l: Ledger, maxHp: nat, start: nat) {
    Dealt(l) + l.curHp == maxHp && l.total == (start + Dealt(l)) % UINT64
  }

  /** A living monster's ledger is in order; a dead one's is empty, and its total is zero. */
  predicate Balanced(l: Ledger, maxHp: nat, start: nat) {
    if l.curHp > 0 then Accounted(l, maxHp, start) else l == Ledger(0, map[], 0) && start == 0
  }

  lemma HurtIsAccounted(l: Ledger, maxHp: nat, start: nat, id: nat, damage: nat)
    requires Accounted(l, maxHp, start) && damage <= l.curHp
    ensures Accounted(Hurt(l, id, damage), maxHp, start)
    ensures Dealt(Hurt(l, id, damage)) == Dealt(l) + damage
  {
    var after := Hurt(l, id, damage);
    var others := l.hostility.Keys - {id};
    SumWith(after.hostility, after.hostility.Keys, id);
    assert after.hostility.Keys - {id} == others;
    SumSame(l.hostility, after.hostility, others);
    if id in l.hostility {
      SumWith(l.hostility, l.hostility.Keys, id);
    } else {
      assert others == l.hostility.Keys;
    }
  }

  /** The total is the damage in the ledger exactly when it started from zero. */
  lemma TotalIsDealtIff(l: Ledger, maxHp: nat, start: nat)
    requires Accounted(l, maxHp, start) && maxHp < UINT32 && start < UINT64
    ensures l.total == Dealt(l) <==> start == 0
  {
  }

  // ------------------------------------------------------------------- shares

  /** What one attacker gets: its part of the damage, rounded down. */
  function Share(exp: nat, damage: nat, total: nat): nat
    requires total > 0
  {
    damage * exp / total
  }

  /** Who is taken for a player without a party: someone in the world whose party id is zero. */
  predicate Alone(partyIds: map<nat, nat>, id: nat) {
    id in partyIds && partyIds[id] == 0
  }

  /** Only those get a share of their own; the damage of parties is added up and then dropped. */
  function Shares(hostility: map<nat, nat>, total: nat, exp: nat, partyIds: map<nat, nat>): map<nat, nat>
    requires total > 0
  {
    map id | id in hostility && Alone(partyIds, id) :: Share(exp, hostility[id], total)
  }

  lemma ShareIsFloor(exp: nat, damage: nat, total: nat)
    requires total > 0
    ensures Share(exp, damage, total) * total <= damage * exp < Share(exp, damage, total) * total + total
  {
  }

  lemma FloorsAdd(h1: nat, h2: nat, s1: nat, s2: nat, n: nat, total: nat, exp: nat)
    requires s1 * total <= h1 * exp < s1 * total + total
    requires s2 * total <= h2 * exp <= s2 * total + n * total
    ensures (s1 + s2) * total <= (h1 + h2) * exp < (s1 + s2) * total + (n + 1) * total
  {
    assert (h1 + h2) * exp == h1 * exp + h2 * exp;
    assert (s1 + s2) * total == s1 * total + s2 * total;
    assert (n + 1) * total == n * total + total;
  }

  /** Rounded shares of a part of the damage lie below that part, by less than one for each. */
  lemma {:induction false} SharesOfSome(hostility: map<nat, nat>, shares: map<nat, nat>, keys: set<nat>, total: nat, exp: nat)
    requires total > 0 && keys <= hostility.Keys && keys <= shares.Keys
    requires forall k <- keys :: shares[k] == Share(exp, hostility[k], total)
    ensures SumOf(shares, keys) * total <= SumOf(hostility, keys) * exp
    ensures SumOf(hostility, keys) * exp <= SumOf(shares, keys) * total + |keys| * total
    ensures keys != {} ==> SumOf(hostility, keys) * exp < SumOf(shares, keys) * total + |keys| * total
    decreases |keys|
  {
    if keys == {} {
      assert SumOf(shares, keys) == 0 && SumOf(hostility, keys) == 0;
    } else {
      hide Share, Least;
      var k := Least(keys);
      var rest := keys - {k};
      SharesOfSome(hostility, shares, rest, total, exp);
      ShareIsFloor(exp, hostility[k], total);
      FloorsAdd(hostility[k], SumOf(hostility, rest), shares[k], SumOf(shares, rest), |rest|, total, exp);
      assert |keys| == |rest| + 1;
    }
  }

  lemma Cancel(a: nat, b: nat, total: nat)
    requires total > 0
    ensures a * total <= b * total ==> a <= b
    ensures a * total < b * total ==> a < b
  {
    if a > b {
      assert a * total == b * total + (a - b) * total;
    }
  }

  lemma {:induction false} SumOfFewer(m: map<nat, nat>, some: set<nat>, keys: set<nat>)
    requires some <= keys <= m.Keys
    ensures SumOf(m, some) <= SumOf(m, keys)
    decreases |some|
  {
    if some != {} {
      var x := Least(some);
      SumWith(m, keys, x);
      SumOfFewer(m, some - {x}, keys - {x});
    }
  }

  /**
    With the total equal to the damage dealt, the shares never exceed the experience of the
    monster, and if every attacker gets its share, less is lost than there are attackers.
    A greater total makes all shares smaller in proportion.
  */
  lemma SharesAddUp(l: Ledger, exp: nat, partyIds: map<nat, nat>)
    requires l.total > 0
    ensures var shares := Shares(l.hostility, l.total, exp, partyIds); var sum := SumOf(shares, shares.Keys);
      && sum * l.total <= Dealt(l) * exp
      && (Dealt(l) <= l.total ==> sum <= exp)
      && (Dealt(l) == l.total && (forall id <- l.hostility :: Alone(partyIds, id)) ==> exp < sum + |l.hostility|)
  {
    var shares := Shares(l.hostility, l.total, exp, partyIds);
    hide SumOf, Share, Shares;
    var keys, sum := shares.Keys, SumOf(shares, shares.Keys);
    KeysOfShares(l.hostility, l.total, exp, partyIds);
    SharesOfSome(l.hostility, shares, keys, l.total, exp);
    SumOfFewer(l.hostility, keys, l.hostility.Keys);
    ScalesUp(SumOf(l.hostility, keys), Dealt(l), exp);
    if Dealt(l) <= l.total {
      Conclude(SumOf(l.hostility, keys), sum, |keys|, l.total, exp);
    }
    if forall id <- l.hostility :: Alone(partyIds, id) {
      assert keys == l.hostility.Keys;
    }
    NothingSums(l.hostility);
  }

  lemma KeysOfShares(hostility: map<nat, nat>, total: nat, exp: nat, partyIds: map<nat, nat>)
    requires total > 0
    ensures var shares := Shares(hostility, total, exp, partyIds);
      && shares.Keys == (set id | id in hostility && Alone(partyIds, id))
      && forall id <- shares :: shares[id] == Share(exp, hostility[id], total)
  {
  }

  lemma NothingSums(m: map<nat, nat>)
    ensures m.Keys == {} ==> SumOf(m, m.Keys) == 0
  {
  }

  lemma Conclude(part: nat, sum: nat, n: nat, total: nat, exp: nat)
    requires 0 < total && part <= total
    requires sum * total <= part * exp
    ensures sum <= exp
    ensures part == total && part * exp < sum * total + n * total ==> exp < sum + n
  {
    ScalesUp(part, total, exp);
    Cancel(sum, exp, total);
    assert (sum + n) * total == sum * total + n * total;
    Cancel(exp, sum + n, total);
  }

  lemma ScalesUp(a: nat, b: nat, exp: nat)
    requires a <= b
    ensures a * exp <= b * exp == exp * b
  {
    assert b * exp == a * exp + (b - a) * exp;
  }

  // --------------------------------------------------------------------- life

  datatype Event = Hit(id: nat, damage: nat) | Respawns

  function Cut(l: Ledger, damage: nat): nat {
    if damage > l.curHp then l.curHp else damage
  }

  predicate Kills(l: Ledger, e: Event) {
    e.Hit? && 0 < l.curHp <= e.damage
  }

  function Next(l: Ledger, maxHp: nat, e: Event): Ledger {
    match e
    case Hit(id, damage) =>
      if l.curHp == 0 then l else if Kills(l, e) then Ledger(0, map[], 0) else Hurt(l, id, damage)
    case Respawns => if l.curHp == 0 then l.(curHp := maxHp) else l
  }

  lemma HitMeans(l: Ledger, maxHp: nat, start: nat, id: nat, damage: nat)
    requires l.curHp > 0 && Balanced(l, maxHp, start)
    ensures var hit := Hurt(l, id, Cut(l, damage));
      && hit.curHp == l.curHp - Cut(l, damage) && (hit.curHp == 0 <==> Kills(l, Hit(id, damage)))
      && Next(l, maxHp, Hit(id, damage)) == (if hit.curHp == 0 then Ledger(0, map[], 0) else hit)
      && Balanced(Next(l, maxHp, Hit(id, damage)), maxHp, if hit.curHp == 0 then 0 else start)
      && (hit.curHp == 0 ==>
            && Dealt(hit) == maxHp && hit.total == (start + maxHp) % UINT64
            && (start + maxHp < UINT64 ==> hit.total == start + maxHp))
  {
    HurtIsAccounted(l, maxHp, start, id, Cut(l, damage));
    hide Hurt, Dealt;
    HurtTakesHealth(l, id, Cut(l, damage));
  }

  lemma HurtTakesHealth(l: Ledger, id: nat, damage: nat)
    requires damage <= l.curHp
    ensures Hurt(l, id, damage).curHp == l.curHp - damage
  {
  }

  class Monster {
    const maxHp: nat
    const exp: nat
    var curHp: nat
    var hostility: map<nat, nat>
    var total: nat
    ghost var start: nat  // what the total started from in this life

    function Now(): Ledger
      reads this
    {
      Ledger(curHp, hostility, total)
    }

    ghost predicate Valid()
      reads this
    {
      0 < maxHp < UINT32 && start < UINT64 && Balanced(Now(), maxHp, start)
    }

    constructor (maxHp: nat, exp: nat, leftover: nat)
      requires 0 < maxHp < UINT32 && leftover < UINT64
      ensures Valid() && Now() == Fresh(maxHp, leftover) && start == leftover
      ensures this.maxHp == maxHp && this.exp == exp
    {
      this.maxHp, this.exp := maxHp, exp;
      curHp, hostility, total, start := maxHp, map[], leftover, leftover;
      new;
      NothingSums(map[]);
    }

    /** Throws when the damage is more than what is left. */
    method ReceiveDamage(id: nat, damage: nat) returns (thrown: bool)
      modifies `curHp, `hostility, `total
      ensures thrown <==> damage > old(curHp)
      ensures Now() == if thrown then old(Now()) else Hurt(old(Now()), id, damage)
      ensures !thrown ==>
        && curHp == old(curHp) - damage && total == (old(total) + damage) % 0x1_0000_0000_0000_0000
        && hostility == old(hostility)[id := (if id in old(hostility) then old(hostility)[id] else 0) + damage]
    {
      if damage > curHp {
        return true;
      }
      curHp := curHp - damage;
      hostility := hostility[id := (if id in hostility then hostility[id] else 0) + damage];
      total := (total + damage) % UINT64;
      return false;
    }

    /**
      Goes through the attackers in any order; `partyIds` are the party ids of the players
      in the world. A share of a total of zero has no value that could be converted.
    */
    method DistributeExp(partyIds: map<nat, nat>) returns (shares: map<nat, nat>, undefined: bool)
      modifies this
      ensures undefined <==> old(total) == 0 && exists id :: id in old(hostility) && Alone(partyIds, id)
      ensures shares == if old(total) == 0 then map[] else Shares(old(hostility), old(total), exp, partyIds)
      ensures Now() == Ledger(old(curHp), map[], 0) && start == 0
    {
      hide Share;
      shares, undefined := map[], false;
      var todo := hostility.Keys;
      while todo != {}
        invariant todo <= hostility.Keys
        invariant undefined <==> total == 0 && exists id :: id in hostility && id !in todo && Alone(partyIds, id)
        invariant total == 0 ==> shares == map[]
        invariant total > 0 ==>
          shares == map id | id in hostility && Alone(partyIds, id) && id !in todo :: Share(exp, hostility[id], total)
        decreases todo
      {
        var id :| id in todo;
        todo := todo - {id};
        if Alone(partyIds, id) {
          if total == 0 {
            undefined := true;
          } else {
            shares := shares[id := Share(exp, hostility[id], total)];
          }
        }
      }
      hostility, total, start := map[], 0, 0;
    }

    /** One hit on a living monster: the damage is cut to what is left, and the last hit shares out the experience. */
    method Strike(id: nat, damage: nat, partyIds: map<nat, nat>) returns (shares: map<nat, nat>, undefined: bool)
      requires Valid() && curHp > 0
      modifies this
      ensures Valid() && Now() == Next(old(Now()), maxHp, Hit(id, damage))
      ensures start == if Kills(old(Now()), Hit(id, damage)) then 0 else old(start)
      ensures !Kills(old(Now()), Hit(id, damage)) ==> shares == map[] && !undefined
      ensures Kills(old(Now()), Hit(id, damage)) ==>
        var hit := Hurt(old(Now()), id, old(curHp));
        && Dealt(hit) == maxHp && hit.total == (old(start) + maxHp) % UINT64
        && shares == (if hit.total == 0 then map[] else Shares(hit.hostility, hit.total, exp, partyIds))
        && (undefined <==> hit.total == 0 && exists i :: i in hit.hostility && Alone(partyIds, i))
      ensures old(start) + maxHp < UINT64 ==> SumOf(shares, shares.Keys) <= exp && !undefined
    {
      HitMeans(Now(), maxHp, start, id, damage);
      hide SumOf, Shares, Alone, Dealt, Hurt, Next, Kills, Balanced;
      var thrown := ReceiveDamage(id, if damage > curHp then curHp else damage);
      shares, undefined := map[], false;
      NothingSums(shares);
      if curHp <= 0 {
        if total > 0 {
          SharesAddUp(Now(), exp, partyIds);
        }
        shares, undefined := DistributeExp(partyIds);
      }
    }

    method RestoreInitialState()
      requires Valid() && curHp == 0
      modifies `curHp
      ensures Valid() && Now() == Next(old(Now()), maxHp, Respawns) && curHp == maxHp
    {
      curHp := maxHp;
      NothingSums(map[]);
    }
  }

  // --------------------------------------------------------------------- runs

  function After(l: Ledger, maxHp: nat, es: seq<Event>): Ledger
    decreases |es|
  {
    if es == [] then l else After(Next(l, maxHp, es[0]), maxHp, es[1..])
  }

  /** Has the monster died since? */
  predicate HasDied(l: Ledger, maxHp: nat, es: seq<Event>)
    decreases |es|
  {
    es != [] && (Kills(l, es[0]) || HasDied(Next(l, maxHp, es[0]), maxHp, es[1..]))
  }

  lemma NextIsBalanced(l: Ledger, maxHp: nat, start: nat, e: Event)
    requires maxHp > 0 && Balanced(l, maxHp, start)
    ensures Balanced(Next(l, maxHp, e), maxHp, if Kills(l, e) then 0 else start)
  {
    if e.Hit? && l.curHp > 0 {
      HitMeans(l, maxHp, start, e.id, e.damage);
    }
    NothingSums(map[]);
  }

  /**
    Through any number of lives: the ledger holds all the health lost in this life, or the
    monster is dead and it is empty. What was in the total before the first life stays in
    it until the first death, and no longer.
  */
  lemma {:induction false} LivesAreBalanced(l: Ledger, maxHp: nat, start: nat, es: seq<Event>)
    requires maxHp > 0 && Balanced(l, maxHp, start)
    ensures Balanced(After(l, maxHp, es), maxHp, if HasDied(l, maxHp, es) then 0 else start)
    decreases |es|
  {
    if es != [] {
      NextIsBalanced(l, maxHp, start, es[0]);
      hide Balanced, Next, Kills;
      LivesAreBalanced(Next(l, maxHp, es[0]), maxHp, if Kills(l, es[0]) then 0 else start, es[1..]);
    }
  }

  /** The total can be trusted in every life after the first, and in the first exactly when it started from zero. */
  lemma TotalsAreRightIff(maxHp: nat, leftover: nat, es: seq<Event>)
    requires 0 < maxHp < UINT32 && leftover < UINT64
    ensures var l := After(Fresh(maxHp, leftover), maxHp, es);
      l.total == Dealt(l) <==> leftover == 0 || HasDied(Fresh(maxHp, leftover), maxHp, es)
  {
    var l := Fresh(maxHp, leftover);
    NothingSums(map[]);
    LivesAreBalanced(l, maxHp, leftover, es);
    var start := if HasDied(l, maxHp, es) then 0 else leftover;
    if After(l, maxHp, es).curHp > 0 {
      hide Dealt;
      TotalIsDealtIff(After(l, maxHp, es), maxHp, start);
    }
  }

  /** A leftover that is too great makes the first total zero; one that is merely great makes every first share zero. */
  lemma LeftoversSpoilShares(exp: nat)
    requires exp < UINT32
    ensures Hurt(Fresh(100, UINT64 - 100), 7, 100).total == 0
    ensures Shares(map[7 := 100], Hurt(Fresh(100, UINT64 / 2), 7, 100).total, exp, map[7 := 0]) == map[7 := 0]
  {
    var total := UINT64 / 2 + 100;
    assert Hurt(Fresh(100, UINT64 / 2), 7, 100).total == total;
    assert Share(exp, 100, total) == 0;
  }
}
