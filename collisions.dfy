/**
 * The collision pass of `Heli::collision` (src/system.rs): detect impacts for
 * every ordered pair of colliding entities, sort the records by
 * (a, b, toi), keep the first record of each pair, bounce entity `a` of each
 * kept record, then apply linear and rotational drag.
 */
module Collisions {
  import opened Wrappers
  import opened Components

  /** The entities the collision query matches: `(&Vel, &Pos, &Collides, &Wireframe, &Rot)`. */
  predicate Collider(c: Components) {
    c.vel.Some? && c.pos.Some? && c.collides && c.wireframe.Some? && c.rot.Some?
  }

  /** What the impact detector sees of one entity: placement, velocity and outline. */
  datatype Body = Body(pos: Vec2, rot: real, vel: Vec2, wireframe: Wireframe)

  function BodyOf(c: Components): Body
    requires Collider(c)
  {
    Body(c.pos.value, c.rot.value, c.vel.value, c.wireframe.value)
  }

  /** A detected impact: the time of impact and the contact normal in the first body's frame. */
  datatype Impact = Impact(toi: real, normal: Vec2)

  /** An entry of the `collisions` vector: the pair, the impact, and `a`'s rotation. */
  datatype Record = Record(a: Entity, b: Entity, toi: real, normal: Vec2, ra: real)

  /** The swept-shape time-of-impact query, supplied by the physics library. */
  type Detector = (Body, Body, real) -> Option<Impact>

  /** `r` is a genuine detection: two distinct colliders for which the detector reported `r`'s impact. */
  predicate Detected(ents: map<Entity, Components>, dt: real, detect: Detector, r: Record) {
    && r.a in ents && r.b in ents && r.a != r.b
    && Collider(ents[r.a]) && Collider(ents[r.b])
    && detect(BodyOf(ents[r.a]), BodyOf(ents[r.b]), dt) == Some(Impact(r.toi, r.normal))
    && r.ra == ents[r.a].rot.value
  }

  predicate SamePair(x: Record, y: Record) {
    x.a == y.a && x.b == y.b
  }

  /** Strictly earlier in (a, b) order. */
  predicate PairLess(x: Record, y: Record) {
    x.a < y.a || (x.a == y.a && x.b < y.b)
  }

  /** The sort order: lexicographic on (a, b, toi). */
  predicate KeyLe(x: Record, y: Record) {
    PairLess(x, y) || (SamePair(x, y) && x.toi <= y.toi)
  }

  predicate SortedByKey(s: seq<Record>) {
    forall k, l :: 0 <= k < l < |s| ==> KeyLe(s[k], s[l])
  }

  /** The detector reports an impact for the ordered pair (a, b) of distinct colliders. */
  predicate Impacts(ents: map<Entity, Components>, dt: real, detect: Detector, a: Entity, b: Entity) {
    && a in ents && b in ents && a != b && Collider(ents[a]) && Collider(ents[b])
    && detect(BodyOf(ents[a]), BodyOf(ents[b]), dt).Some?
  }

  predicate HasPair(recs: seq<Record>, a: Entity, b: Entity) {
    exists k :: 0 <= k < |recs| && recs[k].a == a && recs[k].b == b
  }

  /**
   * The nested query loops: every ordered pair of distinct colliders is
   * handed to the detector once, and every impact it reports is recorded.
   */
  method DetectAll(ents: map<Entity, Components>, bound: Entity, dt: real, detect: Detector)
    returns (recs: seq<Record>)
    requires forall e :: e in ents ==> e < bound
    ensures forall k :: 0 <= k < |recs| ==> Detected(ents, dt, detect, recs[k])
    ensures forall a: Entity, b: Entity :: Impacts(ents, dt, detect, a, b) ==> HasPair(recs, a, b)
    ensures forall k, l :: 0 <= k < l < |recs| ==> !SamePair(recs[k], recs[l])
  {
    recs := [];
    for ia := 0 to bound
      invariant forall k :: 0 <= k < |recs| ==> Detected(ents, dt, detect, recs[k]) && recs[k].a < ia
      invariant forall k, l :: 0 <= k < l < |recs| ==> PairLess(recs[k], recs[l])
      invariant forall a: Entity, b: Entity :: a < ia && Impacts(ents, dt, detect, a, b) ==> HasPair(recs, a, b)
    {
      if ia in ents && Collider(ents[ia]) {
        var ca := ents[ia];
        for ib := 0 to bound
          invariant forall k :: 0 <= k < |recs| ==> Detected(ents, dt, detect, recs[k])
          invariant forall k :: 0 <= k < |recs| ==> recs[k].a < ia || (recs[k].a == ia && recs[k].b < ib)
          invariant forall k, l :: 0 <= k < l < |recs| ==> PairLess(recs[k], recs[l])
          invariant forall a: Entity, b: Entity :: (a < ia || (a == ia && b < ib)) && Impacts(ents, dt, detect, a, b) ==>
            HasPair(recs, a, b)
        {
          if ia == ib {
            continue;
          }
          if ib in ents && Collider(ents[ib]) {
            var impact := detect(BodyOf(ca), BodyOf(ents[ib]), dt);
            match impact {
              case None =>
              case Some(i) =>
                ghost var before := recs;
                recs := recs + [Record(ia, ib, i.toi, i.normal, ca.rot.value)];
                assert forall a, b :: HasPair(before, a, b) ==> HasPair(recs, a, b) by {
                  forall a, b | HasPair(before, a, b) ensures HasPair(recs, a, b) {
                    var k :| 0 <= k < |before| && before[k].a == a && before[k].b == b;
                    assert recs[k] == before[k];
                  }
                }
                assert recs[|recs| - 1].a == ia && recs[|recs| - 1].b == ib;
            }
          }
        }
      }
    }
  }

  lemma KeyLeTransitive(x: Record, y: Record, z: Record)
    requires KeyLe(x, y) && KeyLe(y, z)
    ensures KeyLe(x, z)
  {
  }

  /** The key order is total. */
  lemma KeyLeTotal(x: Record, y: Record)
    ensures KeyLe(x, y) || KeyLe(y, x)
  {
  }

  /** A record not greater than the head of a sorted sequence can go in front of it. */
  lemma PrependSorted(r: Record, s: seq<Record>)
    requires SortedByKey(s)
    requires s != [] ==> KeyLe(r, s[0])
    ensures SortedByKey([r] + s)
  {
    var t := [r] + s;
    forall k, l | 0 <= k < l < |t| ensures KeyLe(t[k], t[l]) {
      if k == 0 && l > 1 {
        KeyLeTransitive(r, s[0], s[l - 1]);
      }
    }
  }

  /**
   * `r` placed into the sorted `s` after every record whose key is not
   * greater than its own, as a stable sort places it.
   */
  function Insert(s: seq<Record>, r: Record): (t: seq<Record>)
    requires SortedByKey(s)
    ensures SortedByKey(t)
    ensures multiset(t) == multiset(s) + multiset{r}
    decreases |s|
  {
    if s == [] || !KeyLe(s[0], r) then
      KeyLeTotal(r, if s == [] then r else s[0]);
      PrependSorted(r, s);
      [r] + s
    else
      var rest := Insert(s[1..], r);
      assert SortedByKey(s[1..]);
      assert s == [s[0]] + s[1..];
      assert forall x :: x in rest ==> KeyLe(s[0], x) by {
        forall x | x in rest ensures KeyLe(s[0], x) {
          assert x in multiset(rest);
          assert x in s[1..] || x == r;
        }
      }
      PrependSorted(s[0], rest);
      [s[0]] + rest
  }

  /** `collisions.sort_by(..)` on the key (a, b, toi): sorted, and a permutation of the input. */
  method SortRecords(recs: seq<Record>) returns (sorted: seq<Record>)
    ensures SortedByKey(sorted)
    ensures multiset(sorted) == multiset(recs)
  {
    sorted := [];
    for i := 0 to |recs|
      invariant SortedByKey(sorted)
      invariant multiset(sorted) == multiset(recs[..i])
    {
      sorted := Insert(sorted, recs[i]);
      assert recs[..i + 1] == recs[..i] + [recs[i]];
    }
    assert recs[..|recs|] == recs;
  }

  /** `recs[k]` opens a run: no record just before it has the same pair. */
  predicate RunStart(recs: seq<Record>, k: nat)
    requires k < |recs|
  {
    k == 0 || !SamePair(recs[k - 1], recs[k])
  }

  /**
   * What `kept` is after `dedup_by` has seen `recs[..i]`, whatever the order
   * of `recs`: `kept[l]` is `recs[src[l]]`, and `recs[k]`'s pair is kept as
   * `kept[wit[k]]`.
   */
  ghost predicate KeptFrom(recs: seq<Record>, i: nat, kept: seq<Record>, src: seq<nat>, wit: seq<nat>)
    requires i <= |recs|
  {
    && |kept| <= i && |src| == |kept| && |wit| == i
    && (forall l {:trigger src[l]} :: 0 <= l < |kept| ==> src[l] < i && kept[l] == recs[src[l]] && RunStart(recs, src[l]))
    && (forall k {:trigger wit[k]} :: 0 <= k < i ==> wit[k] < |kept| && SamePair(kept[wit[k]], recs[k]))
    && (forall l :: 0 < l < |kept| ==> !SamePair(kept[l - 1], kept[l]))
    && (i > 0 ==> |kept| > 0 && SamePair(kept[|kept| - 1], recs[i - 1]))
  }

  /** What `kept` is after `dedup_by` has seen `recs[..i]` of a sorted `recs`. */
  ghost predicate KeptSorted(recs: seq<Record>, i: nat, kept: seq<Record>)
    requires i <= |recs|
  {
    && (forall l, m :: 0 <= l < m < |kept| ==> PairLess(kept[l], kept[m]))
    && (forall l, k :: 0 <= l < |kept| && 0 <= k < i && SamePair(kept[l], recs[k]) ==> kept[l].toi <= recs[k].toi)
  }

  /** A record whose pair differs from the last kept one is appended. */
  lemma DedupPushKeeps(recs: seq<Record>, i: nat, kept: seq<Record>, src: seq<nat>, wit: seq<nat>)
    requires i < |recs| && KeptFrom(recs, i, kept, src, wit)
    requires |kept| == 0 || !SamePair(kept[|kept| - 1], recs[i])
    ensures KeptFrom(recs, i + 1, kept + [recs[i]], src + [i], wit + [|kept|])
  {
    assert RunStart(recs, i);
    PushSources(recs, i, kept, src);
    PushWitnesses(recs, i, kept, wit);
    PushNoRepeat(kept, recs[i]);
  }

  lemma PushSources(recs: seq<Record>, i: nat, kept: seq<Record>, src: seq<nat>)
    requires i < |recs| && |src| == |kept|
    requires forall l {:trigger src[l]} :: 0 <= l < |kept| ==> src[l] < i && kept[l] == recs[src[l]] && RunStart(recs, src[l])
    requires RunStart(recs, i)
    ensures forall l {:trigger (src + [i])[l]} :: 0 <= l < |kept| + 1 ==>
      (src + [i])[l] < i + 1 && (kept + [recs[i]])[l] == recs[(src + [i])[l]] && RunStart(recs, (src + [i])[l])
  {
    forall l | 0 <= l < |kept| + 1
      ensures (src + [i])[l] < i + 1 && (kept + [recs[i]])[l] == recs[(src + [i])[l]] && RunStart(recs, (src + [i])[l])
    {
      if l < |kept| {
        assert (src + [i])[l] == src[l] && (kept + [recs[i]])[l] == kept[l];
      }
    }
  }

  lemma PushWitnesses(recs: seq<Record>, i: nat, kept: seq<Record>, wit: seq<nat>)
    requires i < |recs| && |wit| == i
    requires forall k {:trigger wit[k]} :: 0 <= k < i ==> wit[k] < |kept| && SamePair(kept[wit[k]], recs[k])
    ensures forall k {:trigger (wit + [|kept|])[k]} :: 0 <= k < i + 1 ==>
      (wit + [|kept|])[k] < |kept| + 1 && SamePair((kept + [recs[i]])[(wit + [|kept|])[k]], recs[k])
  {
    var next, wit' := kept + [recs[i]], wit + [|kept|];
    forall k | 0 <= k < i + 1 ensures wit'[k] < |next| && SamePair(next[wit'[k]], recs[k]) {
      if k < i {
        assert wit'[k] == wit[k] && next[wit[k]] == kept[wit[k]];
      }
    }
  }

  lemma PushNoRepeat(kept: seq<Record>, r: Record)
    requires forall l :: 0 < l < |kept| ==> !SamePair(kept[l - 1], kept[l])
    requires |kept| == 0 || !SamePair(kept[|kept| - 1], r)
    ensures forall l :: 0 < l < |kept| + 1 ==> !SamePair((kept + [r])[l - 1], (kept + [r])[l])
  {
    var next := kept + [r];
    forall l | 0 < l < |next| ensures !SamePair(next[l - 1], next[l]) {
      if l < |kept| {
        assert next[l - 1] == kept[l - 1] && next[l] == kept[l];
      }
    }
  }

  /** A record whose pair equals the last kept one is dropped. */
  lemma DedupSkipKeeps(recs: seq<Record>, i: nat, kept: seq<Record>, src: seq<nat>, wit: seq<nat>)
    requires i < |recs| && KeptFrom(recs, i, kept, src, wit)
    requires |kept| > 0 && SamePair(kept[|kept| - 1], recs[i])
    ensures KeptFrom(recs, i + 1, kept, src, wit + [|kept| - 1])
  {
    var wit' := wit + [|kept| - 1];
    forall k | 0 <= k < i + 1 ensures wit'[k] < |kept| && SamePair(kept[wit'[k]], recs[k]) {
      if k < i {
        assert wit'[k] == wit[k];
      }
    }
  }

  /** The last record kept comes from `recs[..i]`, and its key is at most that of `recs[i]`. */
  lemma LastKeptBefore(recs: seq<Record>, i: nat, kept: seq<Record>, src: seq<nat>, wit: seq<nat>)
    requires i < |recs| && SortedByKey(recs)
    requires KeptFrom(recs, i, kept, src, wit) && |kept| > 0
    ensures KeyLe(kept[|kept| - 1], recs[i])
  {
    var j := src[|kept| - 1];
    assert KeyLe(recs[j], recs[i]);
  }

  lemma DedupSkipKeepsSorted(recs: seq<Record>, i: nat, kept: seq<Record>, src: seq<nat>, wit: seq<nat>)
    requires i < |recs| && SortedByKey(recs)
    requires KeptFrom(recs, i, kept, src, wit) && KeptSorted(recs, i, kept)
    requires |kept| > 0 && SamePair(kept[|kept| - 1], recs[i])
    ensures KeptSorted(recs, i + 1, kept)
  {
    var n := |kept| - 1;
    LastKeptBefore(recs, i, kept, src, wit);
    forall l | 0 <= l < |kept| && SamePair(kept[l], recs[i]) ensures kept[l].toi <= recs[i].toi {
      if l < n {
        assert PairLess(kept[l], kept[n]);
      }
    }
  }

  lemma DedupPushKeepsSorted(recs: seq<Record>, i: nat, kept: seq<Record>, src: seq<nat>, wit: seq<nat>)
    requires i < |recs| && SortedByKey(recs)
    requires KeptFrom(recs, i, kept, src, wit) && KeptSorted(recs, i, kept)
    requires |kept| == 0 || !SamePair(kept[|kept| - 1], recs[i])
    ensures KeptSorted(recs, i + 1, kept + [recs[i]])
  {
    var r := recs[i];
    var next := kept + [r];
    if |kept| > 0 {
      var n := |kept| - 1;
      LastKeptBefore(recs, i, kept, src, wit);
      assert PairLess(kept[n], r);
      forall k | 0 <= k < i ensures !SamePair(r, recs[k]) {
        if k < i - 1 {
          assert KeyLe(recs[k], recs[i - 1]);
        }
      }
      forall l | 0 <= l < n ensures PairLess(kept[l], r) {
        assert PairLess(kept[l], kept[n]);
      }
    } else {
      assert i == 0;
    }
    assert forall l, m :: 0 <= l < m < |next| ==> PairLess(next[l], next[m]);
  }

  /**
   * `collisions.dedup_by(same pair)`: drops every record whose pair equals
   * that of the last record kept. On a sorted input the kept records have
   * strictly increasing pairs (so at most one per pair), and the one kept
   * for a pair has the smallest toi of all that pair's records.
   */
  method DedupPairs(recs: seq<Record>) returns (kept: seq<Record>)
    ensures |kept| <= |recs|
    ensures forall l :: 0 <= l < |kept| ==> kept[l] in recs
    ensures forall k :: 0 <= k < |recs| ==> HasPair(kept, recs[k].a, recs[k].b)
    ensures forall l :: 0 < l < |kept| ==> !SamePair(kept[l - 1], kept[l])
    ensures forall l :: 0 <= l < |kept| ==> exists k :: 0 <= k < |recs| && kept[l] == recs[k] && RunStart(recs, k)
    ensures SortedByKey(recs) ==> forall l, m :: 0 <= l < m < |kept| ==> PairLess(kept[l], kept[m])
    ensures SortedByKey(recs) ==> forall l, k :: 0 <= l < |kept| && 0 <= k < |recs| && SamePair(kept[l], recs[k]) ==>
      kept[l].toi <= recs[k].toi
  {
    kept := [];
    ghost var src: seq<nat> := [];
    ghost var wit: seq<nat> := [];
    for i := 0 to |recs|
      invariant KeptFrom(recs, i, kept, src, wit)
      invariant SortedByKey(recs) ==> KeptSorted(recs, i, kept)
    {
      if |kept| == 0 || !SamePair(kept[|kept| - 1], recs[i]) {
        DedupPushKeeps(recs, i, kept, src, wit);
        if SortedByKey(recs) {
          DedupPushKeepsSorted(recs, i, kept, src, wit);
        }
        src, wit := src + [i], wit + [|kept|];
        kept := kept + [recs[i]];
      } else {
        DedupSkipKeeps(recs, i, kept, src, wit);
        if SortedByKey(recs) {
          DedupSkipKeepsSorted(recs, i, kept, src, wit);
        }
        wit := wit + [|kept| - 1];
      }
    }
    forall k | 0 <= k < |recs| ensures HasPair(kept, recs[k].a, recs[k].b) {
      assert SamePair(kept[wit[k]], recs[k]);
    }
    forall l | 0 <= l < |kept| ensures kept[l] in recs && exists k :: 0 <= k < |recs| && kept[l] == recs[k] && RunStart(recs, k) {
      assert kept[l] == recs[src[l]] && RunStart(recs, src[l]);
    }
  }

  /** `v - v.dot(n) * n * 2.0`: `v` mirrored in the line normal to `n`. */
  function Reflect(v: Vec2, n: Vec2): (r: Vec2)
    ensures n.Dot(n) == 1.0 ==> r.Dot(n) == -v.Dot(n)
  {
    v.Sub(n.Scale(v.Dot(n)).Scale(2.0))
  }

  /** Reflection leaves the component along any direction normal to `n` unchanged. */
  lemma ReflectKeepsTangent(v: Vec2, n: Vec2, t: Vec2)
    requires t.Dot(n) == 0.0
    ensures Reflect(v, n).Dot(t) == v.Dot(t)
  {
    var d := v.Dot(n);
    calc {
      Reflect(v, n).Dot(t);
      (v.x - n.x * d * 2.0) * t.x + (v.y - n.y * d * 2.0) * t.y;
      v.Dot(t) - 2.0 * d * (t.x * n.x + t.y * n.y);
    }
  }

  /** Reflection in a unit normal preserves speed. */
  lemma ReflectKeepsSpeed(v: Vec2, n: Vec2)
    requires n.Dot(n) == 1.0
    ensures Reflect(v, n).Dot(Reflect(v, n)) == v.Dot(v)
  {
    var d := v.Dot(n);
    var r := Reflect(v, n);
    calc {
      r.Dot(r);
      (v.x - n.x * d * 2.0) * (v.x - n.x * d * 2.0) + (v.y - n.y * d * 2.0) * (v.y - n.y * d * 2.0);
      v.Dot(v) - 4.0 * d * (v.x * n.x + v.y * n.y) + 4.0 * d * d * (n.x * n.x + n.y * n.y);
      v.Dot(v) - 4.0 * d * d + 4.0 * d * d * n.Dot(n);
    }
  }

  /** Both components of motion an entity may carry: `query_one_mut::<(&mut Vel, &mut Pos)>` matches it. */
  predicate HasMotion(c: Components) {
    c.vel.Some? && c.pos.Some?
  }

  /**
   * The response of entity `a` to one kept record: skip when already moving
   * away from the world-space normal; otherwise reflect, move the position
   * by `(v - v') * toi`, and lose energy while keeping the end-of-tick
   * position consistent with the slower velocity.
   */
  function Bounce(c: Components, rec: Record, dt: real, loss: real, rotate: (real, Vec2) -> Vec2): (c': Components)
    requires HasMotion(c)
    ensures HasMotion(c')
    ensures c'.(vel := c.vel, pos := c.pos) == c
    ensures c.vel.value.Dot(rotate(rec.ra, rec.normal)) <= 0.0 ==> c' == c
  {
    var v := c.vel.value;
    var p := c.pos.value;
    var n := rotate(rec.ra, rec.normal);
    if v.Dot(n) <= 0.0 then c
    else
      var bounced := Reflect(v, n);
      var p1 := p.Add(v.Sub(bounced).Scale(rec.toi));
      var p2 := p1.Add(bounced.Scale(dt));
      var slowed := bounced.Scale(1.0 - loss);
      var p3 := p2.Sub(slowed.Scale(dt));
      c.(vel := Some(slowed), pos := Some(p3))
  }

  /**
   * Against a unit world-space normal, a bounce turns an approaching
   * velocity into a separating one and scales its speed by `1 - loss`.
   */
  lemma BounceResponse(c: Components, rec: Record, dt: real, loss: real, rotate: (real, Vec2) -> Vec2)
    requires HasMotion(c)
    requires rotate(rec.ra, rec.normal).Dot(rotate(rec.ra, rec.normal)) == 1.0
    requires c.vel.value.Dot(rotate(rec.ra, rec.normal)) > 0.0
    requires loss < 1.0
    ensures Bounce(c, rec, dt, loss, rotate).vel.value.Dot(rotate(rec.ra, rec.normal)) < 0.0
    ensures Bounce(c, rec, dt, loss, rotate).vel.value.Dot(Bounce(c, rec, dt, loss, rotate).vel.value)
      == (1.0 - loss) * (1.0 - loss) * c.vel.value.Dot(c.vel.value)
  {
    var v := c.vel.value;
    var n := rotate(rec.ra, rec.normal);
    var r := Reflect(v, n);
    var k := 1.0 - loss;
    ReflectKeepsSpeed(v, n);
    assert Bounce(c, rec, dt, loss, rotate).vel.value == r.Scale(k);
    assert r.Scale(k).Dot(n) == k * r.Dot(n);
    var rk := r.Scale(k);
    assert rk.x == r.x * k && rk.y == r.y * k;
    calc {
      rk.Dot(rk);
      (r.x * k) * (r.x * k) + (r.y * k) * (r.y * k);
      k * k * (r.x * r.x + r.y * r.y);
      k * k * v.Dot(v);
    }
  }

  /** Every record names, as `a`, a live entity with a velocity and a position. */
  predicate Targets(ents: map<Entity, Components>, recs: seq<Record>) {
    forall k :: 0 <= k < |recs| ==> recs[k].a in ents && HasMotion(ents[recs[k].a])
  }

  /** The kept records applied in order; each one updates its own entity `a` only. */
  function ApplyAll(ents: map<Entity, Components>, recs: seq<Record>, dt: real, loss: real,
                    rotate: (real, Vec2) -> Vec2): (r: map<Entity, Components>)
    requires Targets(ents, recs)
    ensures r.Keys == ents.Keys
    ensures forall e :: e in ents ==> HasMotion(r[e]) == HasMotion(ents[e])
    ensures forall e :: e in ents ==> r[e].(vel := ents[e].vel, pos := ents[e].pos) == ents[e]
    ensures forall e :: e in ents && (forall k :: 0 <= k < |recs| ==> recs[k].a != e) ==> r[e] == ents[e]
    decreases |recs|
  {
    if recs == [] then ents
    else
      var a := recs[0].a;
      var next := ents[a := Bounce(ents[a], recs[0], dt, loss, rotate)];
      assert Targets(next, recs[1..]) by {
        forall k | 0 <= k < |recs[1..]| ensures recs[1..][k].a in next && HasMotion(next[recs[1..][k].a]) {
          assert recs[1..][k] == recs[k + 1];
        }
      }
      ApplyAll(next, recs[1..], dt, loss, rotate)
  }

  /** Applying the first record and then the rest is applying them all. */
  lemma ApplyFirst(ents: map<Entity, Components>, recs: seq<Record>, dt: real, loss: real,
                   rotate: (real, Vec2) -> Vec2)
    requires Targets(ents, recs) && recs != []
    ensures var next := ents[recs[0].a := Bounce(ents[recs[0].a], recs[0], dt, loss, rotate)];
      Targets(next, recs[1..]) && ApplyAll(next, recs[1..], dt, loss, rotate) == ApplyAll(ents, recs, dt, loss, rotate)
  {
    var next := ents[recs[0].a := Bounce(ents[recs[0].a], recs[0], dt, loss, rotate)];
    forall k | 0 <= k < |recs[1..]| ensures recs[1..][k].a in next && HasMotion(next[recs[1..][k].a]) {
      assert recs[1..][k] == recs[k + 1];
    }
  }

  /** `x - x * m`: one drag step on one scalar. */
  function DragScalar(x: real, m: real): (r: real)
    ensures 0.0 <= m < 1.0 ==> (0.0 <= x ==> 0.0 <= r <= x) && (x <= 0.0 ==> x <= r <= 0.0)
  {
    var r := x - x * m;
    assert 0.0 <= m < 1.0 ==> (0.0 <= x ==> 0.0 <= r <= x) && (x <= 0.0 ==> x <= r <= 0.0) by {
      if 0.0 <= m < 1.0 {
        DragFactorBounds(x, m);
      }
    }
    r
  }

  lemma DragFactorBounds(x: real, m: real)
    requires 0.0 <= m < 1.0
    ensures 0.0 <= x ==> 0.0 <= x - x * m <= x
    ensures x <= 0.0 ==> x <= x - x * m <= 0.0
  {
    if 0.0 <= x {
      MulNonneg(x, m);
      MulNonneg(x, 1.0 - m);
      assert x * (1.0 - m) == x - x * m;
    } else {
      MulNonneg(-x, m);
      MulNonneg(-x, 1.0 - m);
      assert (-x) * (1.0 - m) == x * m - x;
      assert (-x) * m == -(x * m);
    }
  }

  lemma MulNonneg(a: real, b: real)
    requires 0.0 <= a && 0.0 <= b
    ensures 0.0 <= a * b
  {
  }

  /** Drag on a velocity: each component shrinks towards zero without changing sign. */
  function DragVec(v: Vec2, m: real): (r: Vec2)
    ensures 0.0 <= m < 1.0 ==> r.Dot(r) <= v.Dot(v)
  {
    var r := Vec2(DragScalar(v.x, m), DragScalar(v.y, m));
    assert 0.0 <= m < 1.0 ==> r.x * r.x <= v.x * v.x && r.y * r.y <= v.y * v.y by {
      if 0.0 <= m < 1.0 {
        SquareShrinks(v.x, r.x);
        SquareShrinks(v.y, r.y);
      }
    }
    r
  }

  lemma SquareShrinks(x: real, r: real)
    requires (0.0 <= x ==> 0.0 <= r <= x) && (x <= 0.0 ==> x <= r <= 0.0)
    ensures r * r <= x * x
  {
    if 0.0 <= x {
      assert r * r <= r * x <= x * x;
    } else {
      assert r * r <= r * x <= x * x;
    }
  }

  /** Linear drag on entities with `Vel` and `Drag`. */
  function DragEntity(c: Components, m: real): Components {
    if c.drag && c.vel.Some? then c.(vel := Some(DragVec(c.vel.value, m))) else c
  }

  /** Rotational drag on entities with `RotVel` and `Drag`. */
  function RotDragEntity(c: Components, m: real): Components {
    if c.drag && c.rotVel.Some? then c.(rotVel := Some(DragScalar(c.rotVel.value, m))) else c
  }

  /**
   * The records `collision` acts on: detect, sort by (a, b, toi), dedup by
   * pair. Each is a genuine detection (so a != b), the pairs are strictly
   * increasing (so at most one record per ordered pair), and every pair
   * the detector reports an impact for is represented.
   */
  method KeptRecords(ents: map<Entity, Components>, bound: Entity, dt: real, detect: Detector)
    returns (kept: seq<Record>)
    requires forall e :: e in ents ==> e < bound
    ensures forall l :: 0 <= l < |kept| ==> Detected(ents, dt, detect, kept[l])
    ensures forall l, m :: 0 <= l < m < |kept| ==> PairLess(kept[l], kept[m])
    ensures forall a: Entity, b: Entity :: Impacts(ents, dt, detect, a, b) ==> HasPair(kept, a, b)
  {
    var recs := DetectAll(ents, bound, dt, detect);
    var sorted := SortRecords(recs);
    kept := DedupPairs(sorted);
    forall l | 0 <= l < |kept| ensures Detected(ents, dt, detect, kept[l]) {
      assert kept[l] in multiset(sorted);
      assert kept[l] in recs;
    }
    forall a: Entity, b: Entity | Impacts(ents, dt, detect, a, b) ensures HasPair(kept, a, b) {
      var k :| 0 <= k < |recs| && recs[k].a == a && recs[k].b == b;
      assert recs[k] in multiset(sorted);
      var j :| 0 <= j < |sorted| && sorted[j] == recs[k];
    }
  }

  /** What `KeptRecords` promises of the records the bounce loop sees. */
  ghost predicate KeptFor(ents: map<Entity, Components>, dt: real, detect: Detector, kept: seq<Record>) {
    && (forall l :: 0 <= l < |kept| ==> Detected(ents, dt, detect, kept[l]))
    && (forall l, m :: 0 <= l < m < |kept| ==> PairLess(kept[l], kept[m]))
    && (forall a: Entity, b: Entity :: Impacts(ents, dt, detect, a, b) ==> HasPair(kept, a, b))
  }

  /**
   * An entity the detector reports no impact for as the first of a pair is
   * named by no kept record, so the bounce loop leaves it as it was.
   */
  lemma UnimpactedUntouched(ents: map<Entity, Components>, dt: real, detect: Detector, kept: seq<Record>,
                            loss: real, rotate: (real, Vec2) -> Vec2, e: Entity)
    requires KeptFor(ents, dt, detect, kept) && Targets(ents, kept)
    requires e in ents && forall b: Entity :: !Impacts(ents, dt, detect, e, b)
    ensures ApplyAll(ents, kept, dt, loss, rotate)[e] == ents[e]
  {
    forall k | 0 <= k < |kept| ensures kept[k].a != e {
      assert Detected(ents, dt, detect, kept[k]);
      if kept[k].a == e {
        assert Impacts(ents, dt, detect, e, kept[k].b);
      }
    }
  }

  /** After the whole pass, an entity no impact names as the first of a pair has felt drag only. */
  lemma UnimpactedDragOnly(ents: map<Entity, Components>, dt: real, detect: Detector, kept: seq<Record>,
                           loss: real, rotate: (real, Vec2) -> Vec2, m: real, rm: real)
    requires KeptFor(ents, dt, detect, kept) && Targets(ents, kept)
    ensures forall e :: e in ents && (forall b: Entity :: !Impacts(ents, dt, detect, e, b)) ==>
      DragAll(ApplyAll(ents, kept, dt, loss, rotate), m, rm)[e] == DragBoth(ents[e], m, rm)
  {
    forall e | e in ents && (forall b: Entity :: !Impacts(ents, dt, detect, e, b))
      ensures DragAll(ApplyAll(ents, kept, dt, loss, rotate), m, rm)[e] == DragBoth(ents[e], m, rm)
    {
      UnimpactedUntouched(ents, dt, detect, kept, loss, rotate, e);
    }
  }

  /** Linear then rotational drag on one entity. */
  function DragBoth(c: Components, m: real, rm: real): (r: Components)
    ensures r.(vel := c.vel, rotVel := c.rotVel) == c
    ensures r.vel.Some? == c.vel.Some? && r.rotVel.Some? == c.rotVel.Some?
  {
    RotDragEntity(DragEntity(c, m), rm)
  }

  /** With a drag factor in [0, 1), drag never speeds an entity up, in either sense. */
  lemma DragSlows(c: Components, m: real, rm: real)
    requires 0.0 <= m < 1.0 && 0.0 <= rm < 1.0
    ensures var r := DragBoth(c, m, rm);
      && (c.vel.Some? ==> r.vel.value.Dot(r.vel.value) <= c.vel.value.Dot(c.vel.value))
      && (c.rotVel.Some? ==> r.rotVel.value * r.rotVel.value <= c.rotVel.value * c.rotVel.value)
  {
    var r := DragBoth(c, m, rm);
    if c.drag && c.rotVel.Some? {
      SquareShrinks(c.rotVel.value, r.rotVel.value);
    }
  }

  /** The two drag loops over the whole store. */
  function DragAll(ents: map<Entity, Components>, m: real, rm: real): (r: map<Entity, Components>)
    ensures r.Keys == ents.Keys
    ensures forall e :: e in ents ==> r[e] == DragBoth(ents[e], m, rm)
  {
    map e | e in ents :: DragBoth(ents[e], m, rm)
  }

  /**
   * What one collision pass does to the store: nothing is added or
   * removed, the impacts change only `Vel` and `Pos`, rotational drag is
   * the only change to `RotVel`, and an entity that is not a collider
   * feels drag only.
   */
  lemma {:induction false} CollisionFrame(ents: map<Entity, Components>, kept: seq<Record>, dt: real, loss: real,
                                          rotate: (real, Vec2) -> Vec2, m: real, rm: real)
    requires forall l :: 0 <= l < |kept| ==> kept[l].a in ents && Collider(ents[kept[l].a])
    ensures Targets(ents, kept)
    ensures var r := DragAll(ApplyAll(ents, kept, dt, loss, rotate), m, rm);
      && r.Keys == ents.Keys
      && (forall e :: e in ents ==> HasMotion(r[e]) == HasMotion(ents[e]))
      && (forall e :: e in ents ==> r[e].(vel := ents[e].vel, pos := ents[e].pos) == RotDragEntity(ents[e], rm))
      && (forall e :: e in ents && !Collider(ents[e]) ==> r[e] == DragBoth(ents[e], m, rm))
  {
    var bounced := ApplyAll(ents, kept, dt, loss, rotate);
    var r := DragAll(bounced, m, rm);
    forall e | e in ents
      ensures HasMotion(r[e]) == HasMotion(ents[e])
      ensures r[e].(vel := ents[e].vel, pos := ents[e].pos) == RotDragEntity(ents[e], rm)
      ensures !Collider(ents[e]) ==> r[e] == DragBoth(ents[e], m, rm)
    {
      DragAfterBounce(ents[e], bounced[e], m, rm);
      if !Collider(ents[e]) {
        assert forall k :: 0 <= k < |kept| ==> kept[k].a != e;
        assert bounced[e] == ents[e];
      }
    }
  }

  /** Drag on a bounced entity differs from rotational drag on the original only in `Vel` and `Pos`. */
  lemma DragAfterBounce(c: Components, b: Components, m: real, rm: real)
    requires b.(vel := c.vel, pos := c.pos) == c
    ensures DragBoth(b, m, rm).(vel := c.vel, pos := c.pos) == RotDragEntity(c, rm)
  {
    assert b.drag == c.drag && b.rotVel == c.rotVel;
    var d := DragEntity(b, m);
    assert d.(vel := c.vel, pos := c.pos) == c;
    assert d.rotVel == c.rotVel && d.drag == c.drag;
  }
}
