/**
  The payload of a quadtree leaf: the entities of one region, and next to them a
  counter for every occupied position.
*/
module Containers {
  import opened Geometry
  import opened Trees

  // ------------------------------------------------------- position counters

  function Standing(items: set<Entity>, p: Point): set<Entity> {
    set e | e in items && e.pos == p
  }

  /** The counter map holds exactly the occupied positions, each with its number of entities. */
  ghost predicate Counts(sizes: map<Point, nat>, items: set<Entity>) {
    && sizes.Keys == Positions(items)
    && forall p <- sizes :: sizes[p] == |Standing(items, p)|
  }

  function Incremented(sizes: map<Point, nat>, p: Point): map<Point, nat> {
    sizes[p := (if p in sizes then sizes[p] else 0) + 1]
  }

  function Decremented(sizes: map<Point, nat>, p: Point): map<Point, nat>
    requires p in sizes && sizes[p] > 0
  {
    if sizes[p] == 1 then sizes - {p} else sizes[p := sizes[p] - 1]
  }

  lemma CountsAfterInsert(sizes: map<Point, nat>, items: set<Entity>, e: Entity)
    requires Counts(sizes, items) && e !in items
    ensures Counts(Incremented(sizes, e.pos), items + {e})
  {
    var after := items + {e};
    PositionsUnion(items, {e});
    assert Positions({e}) == {e.pos};
    assert Standing(after, e.pos) == Standing(items, e.pos) + {e};
    if e.pos !in sizes {
      assert Standing(items, e.pos) == {};
    }
    forall p | p in Positions(after) && p != e.pos ensures Standing(after, p) == Standing(items, p) {
    }
  }

  /** Erasing a counter that reaches zero erases exactly the position nobody stands at any more. */
  lemma CountsAfterRemove(sizes: map<Point, nat>, items: set<Entity>, e: Entity)
    requires Counts(sizes, items) && e in items
    ensures e.pos in sizes && sizes[e.pos] > 0
    ensures Counts(Decremented(sizes, e.pos), items - {e})
  {
    var after := items - {e};
    assert e in Standing(items, e.pos);
    assert e.pos in Positions(items);
    assert Standing(after, e.pos) == Standing(items, e.pos) - {e};
    forall p ensures p != e.pos ==> Standing(after, p) == Standing(items, p) {
    }
    forall p ensures p in Positions(items) <==> exists a :: a in Standing(items, p) {
      if p in Positions(items) {
        var a :| a in items && a.pos == p;
        assert a in Standing(items, p);
      }
    }
    forall p ensures p in Positions(after) <==> exists a :: a in Standing(after, p) {
      if p in Positions(after) {
        var a :| a in after && a.pos == p;
        assert a in Standing(after, p);
      }
    }
    assert |Standing(after, e.pos)| == sizes[e.pos] - 1;
    if sizes[e.pos] == 1 {
      assert Standing(after, e.pos) == {};
    } else {
      var a :| a in Standing(after, e.pos);
    }
  }

  /** No two entities share a kind and an id. */
  ghost predicate Keyed(items: set<Entity>) {
    forall a, b :: a in items && b in items && a.key == b.key ==> a == b
  }

  ghost predicate FreshKey(items: set<Entity>, e: Entity) {
    forall a <- items :: a.key != e.key
  }

  /** Adding entries to a map under keys it does not have adds their values. */
  lemma ValuesOfSum(m: map<Key, Entity>, n: map<Key, Entity>)
    requires m.Keys !! n.Keys
    ensures (m + n).Values == m.Values + n.Values
  {
    forall v | v in m.Values + n.Values ensures v in (m + n).Values {
      if v in n.Values {
        var k :| k in n && n[k] == v;
        assert (m + n)[k] == v;
      } else {
        var k :| k in m && m[k] == v;
        assert (m + n)[k] == v;
      }
    }
  }

  lemma ValuesWithoutKey(m: map<Key, Entity>, k: Key)
    requires k in m && forall j <- m :: m[j].key == j
    ensures (m - {k}).Values == m.Values - {m[k]}
  {
    var rest := m - {k};
    forall v | v in m.Values - {m[k]} ensures v in rest.Values {
      var j :| j in m && m[j] == v;
      assert rest[j] == v;
    }
  }

  lemma {:induction false} ValuesAsManyAsKeys(m: map<Key, Entity>)
    requires forall k <- m :: m[k].key == k
    ensures |m.Values| == |m|
    decreases |m|
  {
    if m != map[] {
      var k :| k in m;
      assert (m - {k}).Keys == m.Keys - {k};
      ValuesWithoutKey(m, k);
      ValuesAsManyAsKeys(m - {k});
    }
  }

  /** The leaf payload: entities by key, and how many of them stand at each position. */
  class Container {
    var distinctSizes: map<Point, nat>
    var entities: map<Key, Entity>

    ghost function Items(): set<Entity>
      reads this
    {
      entities.Values
    }

    ghost predicate Valid()
      reads this
    {
      (forall k <- entities :: entities[k].key == k) && Counts(distinctSizes, Items())
    }

    constructor ()
      ensures Valid() && Items() == {}
    {
      distinctSizes := map[];
      entities := map[];
    }

    lemma KeysAreUnique()
      requires Valid()
      ensures Keyed(Items())
    {
    }

    method Insert(e: Entity)
      requires Valid() && FreshKey(Items(), e)
      modifies this
      ensures Valid() && Items() == old(Items()) + {e}
    {
      CountsAfterInsert(distinctSizes, Items(), e);
      distinctSizes := Incremented(distinctSizes, e.pos);
      forall k | k in entities ensures k != e.key {
        assert entities[k] in Items();
      }
      ValuesOfSum(map[e.key := e], entities);
      assert map[e.key := e].Values == {e} by {
        assert map[e.key := e][e.key] == e;
      }
      entities := map[e.key := e] + entities;
      assert Items() == old(Items()) + {e};
    }

    /** Throws when nobody stands at the position. */
    method Remove(e: Entity) returns (thrown: bool)
      requires Valid() && (e in Items() || e.pos !in Positions(Items()))
      modifies this
      ensures thrown <==> e !in old(Items())
      ensures Valid() && Items() == old(Items()) - {e}
    {
      if e.pos !in distinctSizes {
        return true;
      }
      CountsAfterRemove(distinctSizes, Items(), e);
      distinctSizes := Decremented(distinctSizes, e.pos);
      ValuesWithoutKey(entities, e.key);
      entities := entities - {e.key};
      return false;
    }

    /** Takes over the entities of another container. */
    method Merge(c: Container)
      requires c != this && Valid() && c.Valid()
      requires forall e <- c.Items() :: FreshKey(Items(), e)
      modifies this
      ensures Valid() && Items() == old(Items()) + c.Items()
    {
      ghost var mine := Items();
      var todo := c.entities.Values;
      assert mine + (c.Items() - todo) == mine;
      while todo != {}
        invariant todo <= c.Items()
        invariant entities == old(entities) && c.entities == old(c.entities)
        invariant Counts(distinctSizes, mine + (c.Items() - todo))
      {
        var e :| e in todo;
        CountsAfterInsert(distinctSizes, mine + (c.Items() - todo), e);
        assert mine + (c.Items() - todo) + {e} == mine + (c.Items() - (todo - {e}));
        distinctSizes := Incremented(distinctSizes, e.pos);
        todo := todo - {e};
      }
      assert mine + (c.Items() - todo) == mine + c.Items();
      forall j, k | j in c.entities && k in entities ensures j != k {
        assert c.entities[j] in c.Items() && entities[k] in mine;
      }
      ValuesOfSum(c.entities, entities);
      entities := c.entities + entities;
      assert Items() == mine + c.Items();
    }

    function Size(): (n: nat)
      requires Valid()
      reads this
      ensures n == |Items()|
    {
      ValuesAsManyAsKeys(entities);
      |entities|
    }

    function DistinctSize(): (n: nat)
      requires Valid()
      reads this
      ensures n == |Positions(Items())|
    {
      |distinctSizes|
    }
  }
}
