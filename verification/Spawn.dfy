/**
  Monsters that come back: the dead are taken out of the world, and those that belong to
  an area are put back later under a new id.
*/
module Spawns {

  class Monster {
    var id: nat
    var knockedOut: bool
    var removed: bool

    constructor (id: nat)
      ensures this.id == id && !knockedOut && !removed
    {
      this.id, knockedOut, removed := id, false, false;
    }
  }

  class World {
    var monsters: map<nat, Monster>
    var areas: seq<seq<Monster>>
    var nextId: nat
    ghost var everything: set<Monster>

    /** What is listed is listed under its id, and only while it is not removed. */
    ghost predicate Listed()
      reads this, everything
    {
      && monsters.Values <= everything
      && (forall i <- monsters :: monsters[i].id == i && !monsters[i].removed)
      && (forall m <- everything :: m.id < nextId)
    }

    /** A monster of an area is in the world exactly when it is not removed. */
    ghost predicate Kept()
      reads this, everything
    {
      && (forall area <- areas, m <- area :: m in everything)
      && (forall area <- areas, m <- area :: !m.removed <==> m.id in monsters && monsters[m.id] == m)
    }

    ghost predicate Valid()
      reads this, everything
    {
      Listed() && Kept()
    }

    constructor ()
      ensures Valid() && monsters == map[] && areas == []
    {
      monsters, areas, nextId, everything := map[], [], 0, {};
    }

    /** Throws when the id is taken. */
    method Add(m: Monster) returns (thrown: bool)
      modifies `monsters
      ensures thrown <==> m.id in old(monsters)
      ensures monsters == if thrown then old(monsters) else old(monsters)[m.id := m]
    {
      if m.id in monsters {
        return true;
      }
      monsters := monsters[m.id := m];
      return false;
    }

    /** Players, loot and other characters take ids from the same counter. */
    method CreateOther() returns (id: nat)
      requires Valid()
      modifies `nextId
      ensures Valid() && id == old(nextId) && nextId == id + 1
    {
      id := nextId;
      nextId := nextId + 1;
    }

    /** A summoned monster belongs to no area. */
    method Summon() returns (m: Monster)
      requires Valid()
      modifies this
      ensures Valid() && fresh(m) && areas == old(areas)
      ensures m.id == old(nextId) && monsters == old(monsters)[m.id := m]
      ensures everything == old(everything) + {m} && !m.removed
    {
      m := new Monster(nextId);
      nextId := nextId + 1;
      everything := everything + {m};
      var thrown := Add(m);
    }

    method CreateSpawn(amount: nat)
      requires Valid()
      modifies this
      ensures Valid()
      ensures |areas| == |old(areas)| + 1 && areas[..|old(areas)|] == old(areas)
      ensures |areas[|old(areas)|]| == amount && forall m <- areas[|old(areas)|] :: fresh(m) && !m.removed
    {
      var n := |areas|;
      areas := areas + [[]];
      var area := [];
      while |area| < amount
        invariant |area| <= amount
        invariant areas == old(areas) + [area]
        invariant Valid()
        invariant forall m <- area :: fresh(m) && !m.removed
        decreases amount - |area|
      {
        ghost var before := areas;
        assert before[n] == area;
        var m := Summon();
        assert m.id in monsters && monsters[m.id] == m && forall x <- area :: x in before[n];
        area := area + [m];
        areas := areas[..n] + [area];
        assert forall k :: 0 <= k < n ==> areas[k] == before[k] && areas[k] in before;
        assert forall x <- area :: x == m || x in before[n];
      }
    }

    method KnockOut(m: Monster)
      requires Valid() && m in everything
      modifies m`knockedOut
      ensures Valid() && m.knockedOut
    {
      m.knockedOut := true;
    }

    /** Erases while it goes through the monsters, in any order. */
    method RemoveDeadMonsters()
      requires Valid()
      modifies `monsters, everything`removed
      ensures Valid()
      ensures monsters == map i | i in old(monsters) && !old(monsters[i].knockedOut) :: old(monsters[i])
      ensures forall m <- everything :: m.removed == old(m.removed || (m.id in monsters && monsters[m.id] == m && m.knockedOut))
    {
      var todo := monsters.Keys;
      while todo != {}
        invariant Valid()
        invariant todo <= monsters.Keys <= old(monsters.Keys)
        invariant forall i <- monsters :: monsters[i] == old(monsters)[i]
        invariant forall i <- old(monsters) :: i in monsters <==> i in todo || !old(monsters[i].knockedOut)
        invariant forall m <- everything ::
                    m.removed == (old(m.removed) || (m.id in old(monsters) && old(monsters)[m.id] == m && m.id !in monsters))
        decreases todo
      {
        var i :| i in todo;
        todo := todo - {i};
        var m := monsters[i];
        if m.knockedOut {
          m.removed := true;
          monsters := monsters - {i};
        }
      }
    }

    /** A new id is taken from the counter, so it is never taken already. */
    method RespawnOnWorld(m: Monster)
      requires Valid() && m in everything && m.removed
      modifies `monsters, `nextId, m
      ensures Valid() && !m.removed && !m.knockedOut
      ensures m.id == old(nextId) && nextId == old(nextId) + 1
      ensures m.id !in old(monsters) && monsters == old(monsters)[m.id := m]
    {
      assert forall i <- monsters :: monsters[i] != m;
      m.knockedOut := false;
      m.id := nextId;
      nextId := nextId + 1;
      m.removed := false;
      var thrown := Add(m);
    }

    method TickSpawn(a: nat)
      requires Valid() && a < |areas|
      modifies `monsters, `nextId, everything
      ensures Valid() && nextId >= old(nextId)
      ensures forall m <- areas[a] :: !m.removed
      ensures forall m <- everything :: !old(m.removed) ==> m.id == old(m.id) && !m.removed && m.knockedOut == old(m.knockedOut)
      ensures forall m <- everything :: m.id == old(m.id) || (old(m.removed) && m.id >= old(nextId))
      ensures forall i <- old(monsters) :: i in monsters && monsters[i] == old(monsters)[i]
      ensures forall i <- monsters :: i in old(monsters) || i >= old(nextId)
      ensures forall m <- everything :: old(m.removed) && !m.removed ==> !m.knockedOut
      ensures forall m <- everything :: m !in areas[a] ==> m.removed == old(m.removed)
    {
      var k := 0;
      while k < |areas[a]|
        invariant 0 <= k <= |areas[a]|
        invariant Valid() && nextId >= old(nextId)
        invariant forall j :: 0 <= j < k ==> !areas[a][j].removed
        invariant forall m <- everything :: !old(m.removed) ==> m.id == old(m.id) && !m.removed && m.knockedOut == old(m.knockedOut)
        invariant forall m <- everything :: m.id == old(m.id) || (old(m.removed) && m.id >= old(nextId))
        invariant forall i <- old(monsters) :: i in monsters && monsters[i] == old(monsters)[i]
        invariant forall i <- monsters :: i in old(monsters) || i >= old(nextId)
        invariant forall m <- everything :: old(m.removed) && !m.removed ==> !m.knockedOut
        invariant forall m <- everything :: m !in areas[a] ==> m.removed == old(m.removed)
      {
        var m := areas[a][k];
        assert m in areas[a];
        if m.removed {
          RespawnOnWorld(m);
        }
        k := k + 1;
      }
    }

    /**
      A second of the world: the dead leave, and the areas whose time has come get their
      monsters back. What lives keeps its id; what comes back has one that was never used.
    */
    method Tick(due: set<nat>)
      requires Valid()
      modifies `monsters, `nextId, everything
      ensures Valid() && nextId >= old(nextId)
      ensures forall a <- due :: a < |areas| ==> forall m <- areas[a] :: m.id in monsters && monsters[m.id] == m
      ensures forall i <- old(monsters) :: !old(monsters[i].knockedOut) ==> i in monsters && monsters[i] == old(monsters)[i]
      ensures forall m <- everything :: m.id == old(m.id) || m.id >= old(nextId)
      ensures forall i <- old(monsters) :: old(monsters[i].knockedOut) ==> i !in monsters
      ensures forall m <- everything :: (forall a <- due :: a < |areas| ==> m !in areas[a]) ==>
        m.removed == old(m.removed || (m.id in monsters && monsters[m.id] == m && m.knockedOut))
    {
      RemoveDeadMonsters();
      ghost var living := monsters;
      var a := 0;
      while a < |areas|
        invariant 0 <= a <= |areas|
        invariant Valid() && nextId >= old(nextId)
        invariant forall b <- due :: b < a ==> forall m <- areas[b] :: !m.removed
        invariant forall i <- living :: i in monsters && monsters[i] == living[i]
        invariant forall m <- everything :: m.id == old(m.id) || m.id >= old(nextId)
        invariant forall i <- monsters :: i in living || i >= old(nextId)
        invariant forall m <- everything :: (forall b <- due :: b < a ==> m !in areas[b]) ==>
          m.removed == old(m.removed || (m.id in monsters && monsters[m.id] == m && m.knockedOut))
      {
        if a in due {
          TickSpawn(a);
        }
        a := a + 1;
      }
    }
  }
}
