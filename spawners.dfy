/**
 * `BoostToots::system`, `firetrail` and `get` (src/spawner.rs): a boosting
 * entity emits an effect each time its schedule `next_toot` falls due, and
 * the fire trail effect spawns a short-lived exhaust particle.
 */
module Spawners {
  import opened Wrappers
  import opened Components
  import opened Ecs
  import opened Mortality

  /**
   * How many times the catch-up loop advances `nextToot` by `every` before
   * it passes `time`: the least k with `nextToot + k * every > time`.
   */
  function Steps(nextToot: real, every: real, time: real): (k: nat)
    requires every > 0.0 || nextToot > time
    ensures nextToot + k as real * every > time
    ensures k > 0 ==> nextToot + (k - 1) as real * every <= time
    decreases if nextToot > time then 0 else ((time - nextToot) / every).Floor + 1
  {
    if nextToot > time then 0
    else
      DivStep(time - nextToot, every);
      var k' := Steps(nextToot + every, every, time);
      assert (k' + 1) as real * every == k' as real * every + every;
      assert k' > 0 ==> k' as real * every == (k' - 1) as real * every + every;
      k' + 1
  }

  lemma DivStep(a: real, d: real)
    requires d > 0.0
    ensures (a - d) / d == a / d - 1.0
  {
    assert (a - d) / d == a / d - d / d;
    assert d / d == 1.0;
  }

  function Abs(x: real): real {
    if x < 0.0 then -x else x
  }

  /** `boost.0.abs() > 0.00001`: the entity counts as boosting. */
  predicate Boosting(boost: real) {
    Abs(boost) > 0.00001
  }

  /**
   * The `while bt.next_toot <= time` loop for one entity: the schedule ends
   * past `time`, never moves back, moves by whole periods only, and one
   * emission is queued per period while boosting.
   */
  method CatchUp(nextToot: real, every: real, boost: real, time: real) returns (next: real, emitted: nat)
    requires every > 0.0 || nextToot > time
    ensures next > time && next >= nextToot
    ensures next == nextToot + Steps(nextToot, every, time) as real * every
    ensures emitted == if Boosting(boost) then Steps(nextToot, every, time) else 0
  {
    next := nextToot;
    emitted := 0;
    ghost var k: nat := 0;
    while next <= time
      invariant every > 0.0 || next > time
      invariant next == nextToot + k as real * every
      invariant k > 0 ==> every > 0.0
      invariant Steps(nextToot, every, time) == k + Steps(next, every, time)
      invariant emitted == if Boosting(boost) then k else 0
      decreases Steps(next, every, time)
    {
      next := next + every;
      k := k + 1;
      if Abs(boost) > 0.00001 {
        emitted := emitted + 1;
      }
    }
    assert k > 0 ==> k as real * every >= 0.0;
  }

  /** The entities the query `(&Boost, &mut BoostToots)` matches. */
  predicate Tooting(c: Components) {
    c.boost.Some? && c.boostToots.Some?
  }

  /** The catch-up loop terminates on this entity: a positive period, or nothing due yet. */
  predicate CanCatchUp(c: Components, time: real) {
    Tooting(c) ==> c.boostToots.value.every > 0.0 || c.boostToots.value.nextToot > time
  }

  /** The entity after its schedule has caught up with `time`. */
  function Advanced(c: Components, time: real): Components {
    if Tooting(c) && CanCatchUp(c, time) then
      var bt := c.boostToots.value;
      c.(boostToots := Some(bt.(nextToot := bt.nextToot + Steps(bt.nextToot, bt.every, time) as real * bt.every)))
    else c
  }

  /** The emissions queued for one entity this frame. */
  function Emitted(c: Components, time: real): nat {
    if Tooting(c) && CanCatchUp(c, time) && Boosting(c.boost.value) then
      var bt := c.boostToots.value;
      Steps(bt.nextToot, bt.every, time)
    else 0
  }

  /** A queued effect: which entity it is for and which spawner runs it. */
  datatype Emission = Emission(source: Entity, spawner: Spawner)

  /** The emissions entity `e`, holding `c`, queues this frame. */
  function EmissionsOf(e: Entity, c: Components, time: real): seq<Emission> {
    if Tooting(c) then seq(Emitted(c, time), _ => Emission(e, c.boostToots.value.spawner)) else []
  }

  /** The emissions queued while visiting entity `e`. */
  function EntityEmissions(ents: map<Entity, Components>, time: real, e: Entity): seq<Emission> {
    if e in ents then EmissionsOf(e, ents[e], time) else []
  }

  /** `f(0) + f(1) + ... + f(n - 1)`. */
  function Concat(f: nat -> seq<Emission>, n: nat): seq<Emission> {
    if n == 0 then [] else Concat(f, n - 1) + f(n - 1)
  }

  /** The `emitting` queue after the entities with handles below `n` were visited, in handle order. */
  function Queue(ents: map<Entity, Components>, time: real, n: nat): seq<Emission> {
    Concat((e: nat) => EntityEmissions(ents, time, e), n)
  }

  /** `em` is an emission entity `em.source` queues with its own spawner. */
  predicate Emits(ents: map<Entity, Components>, em: Emission) {
    em.source in ents && Tooting(ents[em.source]) && em.spawner == ents[em.source].boostToots.value.spawner
  }

  /** How many copies of `em` its source queues this frame. */
  function Owed(ents: map<Entity, Components>, time: real, em: Emission): nat {
    if Emits(ents, em) then Emitted(ents[em.source], time) else 0
  }

  /**
   * The queue holds, for every entity visited, exactly as many emissions as
   * its catch-up loop ran while boosting, each with the entity's own spawner.
   */
  lemma QueueCounts(ents: map<Entity, Components>, time: real, n: nat, em: Emission)
    ensures multiset(Queue(ents, time, n))[em] == if em.source < n then Owed(ents, time, em) else 0
  {
    forall e: nat
      ensures multiset(EntityEmissions(ents, time, e))[em] == if em.source == e then Owed(ents, time, em) else 0
    {
      EntityEmissionsCount(ents, time, e, em);
    }
    ConcatCounts((e: nat) => EntityEmissions(ents, time, e), n, em, Owed(ents, time, em));
  }

  /** Only `f(em.source)` contributes copies of `em` to the concatenation. */
  lemma {:induction false} ConcatCounts(f: nat -> seq<Emission>, n: nat, em: Emission, owed: nat)
    requires forall e: nat :: multiset(f(e))[em] == if em.source == e then owed else 0
    ensures multiset(Concat(f, n))[em] == if em.source < n then owed else 0
  {
    if n > 0 {
      ConcatCounts(f, n - 1, em, owed);
      var prefix, tail := Concat(f, n - 1), f(n - 1);
      assert Concat(f, n) == prefix + tail;
      assert multiset(prefix + tail)[em] == multiset(prefix)[em] + multiset(tail)[em];
    }
  }

  lemma EntityEmissionsCount(ents: map<Entity, Components>, time: real, e: Entity, em: Emission)
    ensures multiset(EntityEmissions(ents, time, e))[em] == if em.source == e then Owed(ents, time, em) else 0
  {
    if e in ents && Tooting(ents[e]) {
      RepeatCount(Emitted(ents[e], time), Emission(e, ents[e].boostToots.value.spawner), em);
    }
  }

  lemma {:induction false} RepeatCount(k: nat, x: Emission, y: Emission)
    ensures multiset(seq(k, _ => x))[y] == if x == y then k else 0
  {
    if k > 0 {
      RepeatCount(k - 1, x, y);
      assert seq(k, _ => x) == seq(k - 1, _ => x) + [x];
    }
  }

  /** The queue lists the emissions of lower handles first. */
  lemma {:induction false} QueueInHandleOrder(ents: map<Entity, Components>, time: real, n: nat)
    ensures forall i, j :: 0 <= i < j < |Queue(ents, time, n)| ==>
      Queue(ents, time, n)[i].source <= Queue(ents, time, n)[j].source
    ensures forall i :: 0 <= i < |Queue(ents, time, n)| ==> Queue(ents, time, n)[i].source < n
  {
    if n > 0 {
      QueueInHandleOrder(ents, time, n - 1);
      var tail := EntityEmissions(ents, time, n - 1);
      assert Queue(ents, time, n) == Queue(ents, time, n - 1) + tail;
      assert forall i :: 0 <= i < |tail| ==> tail[i].source == n - 1;
    }
  }

  /**
   * One step of the query loop of `BoostToots::system`, on an entity with
   * `Boost` and `BoostToots`: its schedule catches up with `time`, and it
   * queues one emission of its spawner per period passed while boosting.
   */
  method AdvanceEntity(e: Entity, c: Components, time: real) returns (c': Components, out: seq<Emission>)
    requires Tooting(c) && CanCatchUp(c, time)
    ensures c' == Advanced(c, time) && out == EmissionsOf(e, c, time)
    ensures c'.boostToots.value.nextToot > time
    ensures forall em :: em in out ==> em == Emission(e, c.boostToots.value.spawner)
  {
    var bt := c.boostToots.value;
    var next, emitted := CatchUp(bt.nextToot, bt.every, c.boost.value, time);
    assert emitted == Emitted(c, time);
    c' := c.(boostToots := Some(bt.(nextToot := next)));
    out := seq(emitted, _ => Emission(e, bt.spawner));
  }

  /**
   * The query loop of `BoostToots::system`: every tooting entity's schedule
   * catches up with `time` and its emissions are queued in handle order;
   * nothing else changes.
   */
  method AdvanceToots(w: World, time: real) returns (emitting: seq<Emission>)
    requires w.Valid() && forall e :: e in w.ents ==> CanCatchUp(w.ents[e], time)
    modifies w
    ensures w.Valid() && w.nextId == old(w.nextId)
    ensures w.ents == MapValues(old(w.ents), c => Advanced(c, time))
    ensures emitting == Queue(old(w.ents), time, w.nextId)
  {
    ghost var ents0 := w.ents;
    ghost var advance := (c: Components) => Advanced(c, time);
    emitting := [];
    for e := 0 to w.nextId
      invariant w.nextId == old(w.nextId) && w.ents == MapPrefix(ents0, advance, e)
      invariant emitting == Queue(ents0, time, e)
    {
      MapPrefixStep(ents0, advance, e);
      assert Queue(ents0, time, e + 1) == emitting + EntityEmissions(ents0, time, e);
      if e in w.ents && Tooting(w.ents[e]) {
        var c', out := AdvanceEntity(e, w.ents[e], time);
        w.ents := w.ents[e := c'];
        emitting := emitting + out;
      } else if e in w.ents {
        assert advance(ents0[e]) == ents0[e];
        assert EntityEmissions(ents0, time, e) == [];
      }
    }
    MapPrefixStep(ents0, advance, w.nextId);
  }

  /** `f32::signum` on the reals: -1 below zero, 1 otherwise (zero included). */
  function Signum(x: real): (s: real)
    ensures s == 1.0 || s == -1.0
    ensures s < 0.0 <==> x < 0.0
  {
    if x < 0.0 then -1.0 else 1.0
  }

  /**
   * The particle `firetrail` spawns behind `src`, or nothing when `src` has
   * no `Pos`. `rotate(angle, v)` stands for `Rot(angle).quat()` applied to `v`.
   */
  function TrailFor(src: Components, now: real, rotate: (real, Vec2) -> Vec2): (r: Option<Components>)
    ensures r.None? <==> src.pos.None?
  {
    if src.pos.None? then None
    else
      var rot := src.rot.GetOr(0.0);
      var vel := src.vel.GetOr(Zero);
      var sign := Signum(src.boost.GetOr(1.0));
      Some(Bare.(rot := Some(rot), rotVel := Some(15.0 * sign),
                 vel := Some(vel.Add(rotate(rot, Vec2(0.0, -200.0)).Scale(sign))),
                 pos := Some(src.pos.value.Add(rotate(rot, Vec2(0.0, -10.0)).Scale(sign))),
                 grav := true, drag := true, color := Some(src.color.GetOr(Black)),
                 wireframe := Some(TrashWireframe), mortal := Some(Mortal(now + 2.0))))
  }

  /** The trail for entity `source` of `ents`; a despawned source has no `Pos` either. */
  function TrailOf(ents: map<Entity, Components>, source: Entity, now: real, rotate: (real, Vec2) -> Vec2): Option<Components> {
    if source in ents then TrailFor(ents[source], now, rotate) else None
  }

  /**
   * The defaults `firetrail` applies: a source without `Rot` counts as angle 0,
   * without `Vel` as at rest, without `Color` as black and without `Boost` as
   * boosting forward, so the particle spins at +15 and is pushed backwards.
   */
  lemma TrailDefaults(src: Components, now: real, rotate: (real, Vec2) -> Vec2)
    requires src.pos.Some?
    ensures src.rot.None? ==> TrailFor(src, now, rotate).value.rot == Some(0.0)
    ensures src.rot.Some? ==> TrailFor(src, now, rotate).value.rot == src.rot
    ensures src.color.None? ==> TrailFor(src, now, rotate).value.color == Some(Black)
    ensures src.color.Some? ==> TrailFor(src, now, rotate).value.color == src.color
    ensures src.boost.None? ==> TrailFor(src, now, rotate).value.rotVel == Some(15.0)
    ensures src.boost.Some? ==>
      TrailFor(src, now, rotate).value.rotVel == Some(if src.boost.value < 0.0 then -15.0 else 15.0)
    ensures src.vel.None? ==>
      TrailFor(src, now, rotate).value.vel == Some(rotate(src.rot.GetOr(0.0), Vec2(0.0, -200.0)).Scale(Signum(src.boost.GetOr(1.0))))
    ensures src.rot.None? && src.vel.None? && src.boost.None? ==>
      && TrailFor(src, now, rotate).value.vel == Some(rotate(0.0, Vec2(0.0, -200.0)))
      && TrailFor(src, now, rotate).value.pos == Some(src.pos.value.Add(rotate(0.0, Vec2(0.0, -10.0))))
  {
    if src.rot.None? && src.vel.None? && src.boost.None? {
      var v := rotate(0.0, Vec2(0.0, -200.0));
      var p := rotate(0.0, Vec2(0.0, -10.0));
      assert v.Scale(1.0) == v;
      assert Zero.Add(v) == v;
      assert p.Scale(1.0) == p;
    }
  }

  /**
   * A trail is a short-lived, uncontrolled, non-colliding particle: it lives
   * exactly two seconds past `now`, and it neither boosts nor emits trails of its own.
   */
  lemma TrailIsInert(src: Components, now: real, rotate: (real, Vec2) -> Vec2, time: real)
    requires src.pos.Some?
    ensures var t := TrailFor(src, now, rotate).value;
      && (Expired(t, time) <==> time >= now + 2.0)
      && !Tooting(t) && !t.controls && !t.collides && !t.quit && !t.camera
      && t.grav && t.drag && t.wireframe == Some(TrashWireframe)
  {
  }

  /**
   * `firetrail`: spawns the trail of `source` as one new entity and changes
   * nothing else; a source without `Pos` spawns nothing.
   */
  method Firetrail(w: World, source: Entity, now: real, rotate: (real, Vec2) -> Vec2)
    requires w.Valid()
    modifies w
    ensures w.Valid()
    ensures TrailOf(old(w.ents), source, now, rotate).None? ==> w.ents == old(w.ents) && w.nextId == old(w.nextId)
    ensures TrailOf(old(w.ents), source, now, rotate).Some? ==>
      w.ents == old(w.ents)[old(w.nextId) := TrailOf(old(w.ents), source, now, rotate).value]
      && w.nextId == old(w.nextId) + 1
  {
    var src := w.Get(source);
    if src.None? || src.value.pos.None? {
      return;
    }
    var trail := TrailFor(src.value, now, rotate).value;
    var e := w.Spawn(trail);
  }

  /**
   * The trails the queue `q` produces, in queue order, read from `ents`;
   * `clock(i)` is the time the i-th `firetrail` call reads.
   */
  function Trails(ents: map<Entity, Components>, q: seq<Emission>, clock: nat -> real,
                  rotate: (real, Vec2) -> Vec2): seq<Components> {
    if q == [] then []
    else
      var last := TrailOf(ents, q[|q| - 1].source, clock(|q| - 1), rotate);
      Trails(ents, q[..|q| - 1], clock, rotate) + (if last.Some? then [last.value] else [])
  }

  /** `ents` with `ts` added under the consecutive handles `start`, `start + 1`, ... */
  function Appended(ents: map<Entity, Components>, start: nat, ts: seq<Components>): map<Entity, Components> {
    if ts == [] then ents
    else Appended(ents, start, ts[..|ts| - 1])[start + |ts| - 1 := ts[|ts| - 1]]
  }

  /**
   * Appending keeps every entity below `start` as it was and puts the i-th
   * trail under handle `start + i`, so trails are numbered in queue order.
   */
  lemma {:induction false} AppendedLookup(ents: map<Entity, Components>, start: nat, ts: seq<Components>)
    requires forall e :: e in ents ==> e < start
    ensures forall e :: e in Appended(ents, start, ts) <==> e in ents || start <= e < start + |ts|
    ensures forall e :: e in ents ==> Appended(ents, start, ts)[e] == ents[e]
    ensures forall i :: 0 <= i < |ts| ==> Appended(ents, start, ts)[start + i] == ts[i]
  {
    if ts != [] {
      AppendedLookup(ents, start, ts[..|ts| - 1]);
    }
  }

  /** A handle below `start` reads the same before and after appending. */
  lemma AppendedKeeps(ents: map<Entity, Components>, start: nat, ts: seq<Components>, e: Entity)
    requires forall x :: x in ents ==> x < start
    requires e < start
    ensures e in Appended(ents, start, ts) <==> e in ents
    ensures e in ents ==> Appended(ents, start, ts)[e] == ents[e]
  {
    AppendedLookup(ents, start, ts);
  }

  /** Every emission yields at most one trail, and exactly one when every source has `Pos`. */
  lemma {:induction false} TrailsCount(ents: map<Entity, Components>, q: seq<Emission>, clock: nat -> real,
                                       rotate: (real, Vec2) -> Vec2)
    ensures |Trails(ents, q, clock, rotate)| <= |q|
    ensures (forall i :: 0 <= i < |q| ==> q[i].source in ents && ents[q[i].source].pos.Some?) ==>
      |Trails(ents, q, clock, rotate)| == |q|
  {
    if q != [] {
      TrailsCount(ents, q[..|q| - 1], clock, rotate);
    }
  }

  /** The i-th emission adds its trail, if any, after the trails of the earlier ones. */
  lemma TrailsStep(ents: map<Entity, Components>, q: seq<Emission>, i: nat, clock: nat -> real,
                   rotate: (real, Vec2) -> Vec2)
    requires i < |q|
    ensures var t := TrailOf(ents, q[i].source, clock(i), rotate);
      Trails(ents, q[..i + 1], clock, rotate) == Trails(ents, q[..i], clock, rotate) + (if t.Some? then [t.value] else [])
  {
    assert q[..i + 1][..i] == q[..i] && q[..i + 1][i] == q[i];
  }

  /** Appending one more trail puts it under the next handle. */
  lemma AppendedStep(ents: map<Entity, Components>, start: nat, ts: seq<Components>, t: Components)
    ensures Appended(ents, start, ts + [t]) == Appended(ents, start, ts)[start + |ts| := t]
  {
    assert (ts + [t])[..|ts|] == ts;
  }

  /**
   * The loop `for (ent, spawner) in emitting { spawner(w, ent) }`: each queued
   * emission runs the fire trail in turn, so the trails are added under fresh
   * handles in queue order and no existing entity changes.
   */
  method RunSpawners(w: World, q: seq<Emission>, clock: nat -> real, rotate: (real, Vec2) -> Vec2)
    requires w.Valid() && forall i :: 0 <= i < |q| ==> q[i].source < w.nextId
    modifies w
    ensures w.Valid()
    ensures w.nextId == old(w.nextId) + |Trails(old(w.ents), q, clock, rotate)|
    ensures w.ents == Appended(old(w.ents), old(w.nextId), Trails(old(w.ents), q, clock, rotate))
  {
    ghost var ents0, n0 := w.ents, w.nextId;
    for i := 0 to |q|
      invariant w.Valid()
      invariant w.nextId == n0 + |Trails(ents0, q[..i], clock, rotate)|
      invariant w.ents == Appended(ents0, n0, Trails(ents0, q[..i], clock, rotate))
    {
      ghost var ts := Trails(ents0, q[..i], clock, rotate);
      ghost var t := TrailOf(ents0, q[i].source, clock(i), rotate);
      AppendedKeeps(ents0, n0, ts, q[i].source);
      assert TrailOf(w.ents, q[i].source, clock(i), rotate) == t;
      TrailsStep(ents0, q, i, clock, rotate);
      ghost var before := w.ents;
      Firetrail(w, q[i].source, clock(i), rotate);
      if t.Some? {
        assert w.ents == before[n0 + |ts| := t.value];
        AppendedStep(ents0, n0, ts, t.value);
      } else {
        assert w.ents == before;
        assert ts + [] == ts;
      }
    }
    assert q[..|q|] == q;
  }

  /**
   * `BoostToots::system`: first every schedule catches up with `time` and
   * the emissions are queued, then the queue runs against the updated world.
   * Existing entities change only in their `BoostToots`; the new entities are
   * the trails of the queued emissions, under fresh handles in queue order.
   * `clock(i)` is the time the i-th `firetrail` call reads.
   */
  method BoostTootsSystem(w: World, time: real, clock: nat -> real, rotate: (real, Vec2) -> Vec2)
    requires w.Valid() && forall e :: e in w.ents ==> CanCatchUp(w.ents[e], time)
    modifies w
    ensures w.Valid()
    ensures var advanced := MapValues(old(w.ents), c => Advanced(c, time));
      var trails := Trails(advanced, Queue(old(w.ents), time, old(w.nextId)), clock, rotate);
      w.ents == Appended(advanced, old(w.nextId), trails) && w.nextId == old(w.nextId) + |trails|
  {
    var emitting := AdvanceToots(w, time);
    QueueInHandleOrder(old(w.ents), time, w.nextId);
    RunSpawners(w, emitting, clock, rotate);
  }
}
