/**
 * `Mortal::system` (src/mortal.rs): every entity whose lifetime has run out
 * by the clock reading `time` is despawned; the clock is read once per sweep.
 */
module Mortality {
  import opened Wrappers
  import opened Components
  import opened Ecs

  /** `m.erase_at <= time` for the entity's `Mortal`; entities without one never expire. */
  predicate Expired(c: Components, time: real) {
    c.mortal.Some? && c.mortal.value.eraseAt <= time
  }

  /** The store after the sweep: the entities that have not expired, unchanged. */
  function Survivors(ents: map<Entity, Components>, time: real): (r: map<Entity, Components>)
    ensures r.Keys <= ents.Keys
    ensures forall e :: e in ents ==> (e in r <==> !Expired(ents[e], time))
    ensures forall e :: e in r ==> r[e] == ents[e]
  {
    map e | e in ents && !Expired(ents[e], time) :: ents[e]
  }

  /** A later sweep removes everything an earlier one would have removed. */
  lemma SurvivorsShrinkOverTime(ents: map<Entity, Components>, t1: real, t2: real)
    requires t1 <= t2
    ensures Survivors(ents, t2).Keys <= Survivors(ents, t1).Keys
  {
    forall e | e in Survivors(ents, t2) ensures e in Survivors(ents, t1) {
      assert !Expired(ents[e], t2);
    }
  }

  /**
   * The first loop: the `eol` list, in handle order. It holds exactly the
   * expired entities, each once.
   */
  method CollectExpired(ents: map<Entity, Components>, bound: Entity, time: real) returns (eol: seq<Entity>)
    requires forall e :: e in ents ==> e < bound
    ensures forall e :: e in eol <==> e in ents && Expired(ents[e], time)
    ensures forall i, j :: 0 <= i < j < |eol| ==> eol[i] < eol[j]
  {
    eol := [];
    for e := 0 to bound
      invariant forall x :: x in eol <==> x < e && x in ents && Expired(ents[x], time)
      invariant forall i, j :: 0 <= i < j < |eol| ==> eol[i] < eol[j]
      invariant forall i :: 0 <= i < |eol| ==> eol[i] < e
    {
      if e in ents && Expired(ents[e], time) {
        eol := eol + [e];
      }
    }
  }

  /**
   * The sweep: collect, then despawn each collected entity. Every despawn
   * succeeds, since the entries are distinct live entities fixed before the
   * first despawn. Afterwards nothing left has expired and every survivor
   * is unchanged.
   */
  method MortalSystem(w: World, time: real)
    requires w.Valid()
    modifies w
    ensures w.Valid() && w.nextId == old(w.nextId)
    ensures w.ents == Survivors(old(w.ents), time)
    ensures forall e :: e in w.ents ==> !Expired(w.ents[e], time)
  {
    ghost var ents0 := w.ents;
    var eol := CollectExpired(w.ents, w.nextId, time);
    for i := 0 to |eol|
      invariant w.Valid() && w.nextId == old(w.nextId)
      invariant w.ents == ents0 - set k | 0 <= k < i :: eol[k]
    {
      assert eol[i] !in set k | 0 <= k < i :: eol[k];
      var ok := w.Despawn(eol[i]);
      assert ok;
    }
    assert (set k | 0 <= k < |eol| :: eol[k]) == set e | e in ents0 && Expired(ents0[e], time);
  }
}
