/**
 * The entity store (`hecs::World`): a map from live handles to their
 * components and the next handle to hand out.
 */
module Ecs {
  import opened Wrappers
  import opened Components

  /** `f` applied to the components of every entity; the set of entities is unchanged. */
  function MapValues(m: map<Entity, Components>, f: Components -> Components): (r: map<Entity, Components>)
    ensures r.Keys == m.Keys
    ensures forall e :: e in m ==> r[e] == f(m[e])
  {
    map e | e in m :: f(m[e])
  }

  /** `f` applied to the entities below `n` only: a query loop stopped at handle `n`. */
  function MapPrefix(m: map<Entity, Components>, f: Components -> Components, n: nat): (r: map<Entity, Components>)
    ensures r.Keys == m.Keys
  {
    map e | e in m :: if e < n then f(m[e]) else m[e]
  }

  /** Visiting handle `n` extends the prefix by one; once past every key, all of `m` is mapped. */
  lemma MapPrefixStep(m: map<Entity, Components>, f: Components -> Components, n: nat)
    ensures n in m ==> MapPrefix(m, f, n + 1) == MapPrefix(m, f, n)[n := f(m[n])]
    ensures n !in m ==> MapPrefix(m, f, n + 1) == MapPrefix(m, f, n)
    ensures n in m ==> MapPrefix(m, f, n)[n] == m[n]
    ensures (forall e :: e in m ==> e < n) ==> MapPrefix(m, f, n) == MapValues(m, f)
  {
  }

  class World {
    var ents: map<Entity, Components>
    var nextId: Entity

    /** Every live handle was handed out before `nextId`. */
    ghost predicate Valid()
      reads this
    {
      forall e :: e in ents ==> e < nextId
    }

    constructor ()
      ensures Valid() && ents == map[] && nextId == 0
    {
      ents := map[];
      nextId := 0;
    }

    /** The components of `e`, or nothing once `e` has been despawned. */
    function Get(e: Entity): (r: Option<Components>)
      reads this
      ensures r.Some? <==> e in ents
      ensures r.Some? ==> r.value == ents[e]
    {
      if e in ents then Some(ents[e]) else None
    }

    /** Adds an entity under a handle never used before. */
    method Spawn(c: Components) returns (e: Entity)
      requires Valid()
      modifies this
      ensures Valid()
      ensures e == old(nextId) && e !in old(ents)
      ensures nextId == old(nextId) + 1
      ensures ents == old(ents)[e := c]
    {
      e := nextId;
      ents := ents[e := c];
      nextId := nextId + 1;
    }

    /** Removes `e`; `ok` is false (hecs's `NoSuchEntity`) when `e` is not live. */
    method Despawn(e: Entity) returns (ok: bool)
      requires Valid()
      modifies this
      ensures Valid() && nextId == old(nextId)
      ensures ok <==> e in old(ents)
      ensures ents == old(ents) - {e}
    {
      ok := e in ents;
      ents := ents - {e};
    }

    /**
     * A `query_mut` loop: visits every live entity in handle order and
     * replaces its components by `f` of them. `f` leaves unchanged the
     * entities the query does not match.
     */
    method QueryMut(f: Components -> Components)
      requires Valid()
      modifies this
      ensures Valid() && nextId == old(nextId)
      ensures ents == MapValues(old(ents), f)
    {
      ghost var ents0 := ents;
      for e := 0 to nextId
        invariant nextId == old(nextId) && ents == MapPrefix(ents0, f, e)
      {
        MapPrefixStep(ents0, f, e);
        if e in ents {
          ents := ents[e := f(ents[e])];
        }
      }
      MapPrefixStep(ents0, f, nextId);
    }
  }
}
