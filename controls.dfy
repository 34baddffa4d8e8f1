/**
 * The per-entity effect of `Heli::controls` (src/system.rs): the up/down keys
 * set `Boost`, the left/right keys add to `RotVel`, and while boosting the
 * heading is nudged back upright.
 */
module ControlMapping {
  import opened Wrappers
  import opened Components

  /** `core::f32::consts::PI` and `TAU`. */
  const PI: real := 3.1415927
  const TAU: real := 2.0 * PI

  /**
   * The keys held this frame: `up` is Up or W, `down` is Down or S, `left`
   * is Left or A, `right` is Right or D, `quit` is Escape or Q.
   */
  datatype Keys = Keys(up: bool, down: bool, left: bool, right: bool, quit: bool)

  /** The game's tuning constants. */
  datatype Tuning = Tuning(
    boostPower: real,
    rotationalAcceleration: real,
    autoUpPower: real,
    dragCoefficient: real,
    rotationalDragCoefficient: real,
    collisionEnergyLoss: real)

  /** The boost every controllable entity gets this frame: up adds the power, down subtracts it. */
  function BoostInput(keys: Keys, power: real): (b: real)
    ensures keys.up && !keys.down ==> b == power
    ensures keys.down && !keys.up ==> b == -power
    ensures keys.up == keys.down ==> b == 0.0
  {
    (if keys.up then power else 0.0) - (if keys.down then power else 0.0)
  }

  /** The rotational velocity added this frame: left turns one way, right the other. */
  function TurnInput(keys: Keys, accel: real, dt: real): (d: real)
    ensures keys.left && !keys.right ==> d == accel * dt
    ensures keys.right && !keys.left ==> d == -(accel * dt)
    ensures keys.left == keys.right ==> d == 0.0
  {
    ((if keys.left then accel else 0.0) - (if keys.right then accel else 0.0)) * dt
  }

  /** `(r + PI).rem_euclid(TAU) - PI`: the heading brought into [-PI, PI). */
  function NormalizeAngle(r: real): (n: real)
    ensures -PI <= n < PI
  {
    var x := r + PI;
    var k := (x / TAU).Floor;
    FloorBounds(x, k);
    x - k as real * TAU - PI
  }

  /** The remainder left by the floor of `x / TAU` lies in [0, TAU). */
  lemma FloorBounds(x: real, k: int)
    requires k == (x / TAU).Floor
    ensures 0.0 <= x - k as real * TAU < TAU
  {
    var q := x / TAU;
    assert k as real <= q < k as real + 1.0;
    assert x == q * TAU;
  }

  /** A heading already in [-PI, PI) is left as it is. */
  lemma NormalizeAngleFixesRange(r: real)
    requires -PI <= r < PI
    ensures NormalizeAngle(r) == r
  {
    var x := r + PI;
    assert 0.0 <= x / TAU < 1.0;
    assert (x / TAU).Floor == 0;
  }

  /** Headings that differ by whole turns normalize to the same angle. */
  lemma NormalizeAnglePeriodic(r: real, turns: int)
    ensures NormalizeAngle(r + turns as real * TAU) == NormalizeAngle(r)
  {
    var x := r + PI;
    var y := x + turns as real * TAU;
    assert y / TAU == x / TAU + turns as real;
    assert (y / TAU).Floor == (x / TAU).Floor + turns;
  }

  /** The boost step: a controllable entity's `Boost` is overwritten, never accumulated. */
  function SetBoost(c: Components, keys: Keys, t: Tuning): Components {
    if c.controls && c.boost.Some? then c.(boost := Some(BoostInput(keys, t.boostPower))) else c
  }

  /** The turning step: a controllable entity's `RotVel` gains the turn input. */
  function Turn(c: Components, keys: Keys, dt: real, t: Tuning): Components {
    if c.controls && c.rotVel.Some?
    then c.(rotVel := Some(c.rotVel.value + TurnInput(keys, t.rotationalAcceleration, dt)))
    else c
  }

  /** The auto-up correction runs for controllable entities boosting with at least 0.1. */
  predicate AutoUpApplies(c: Components) {
    c.controls && c.rotVel.Some? && c.rot.Some? && c.boost.Some? && c.boost.value >= 0.1
  }

  /** The auto-up step: steer the normalized heading back towards 0. */
  function AutoUp(c: Components, dt: real, t: Tuning): Components {
    if AutoUpApplies(c)
    then c.(rotVel := Some(c.rotVel.value + -NormalizeAngle(c.rot.value) * t.autoUpPower * dt))
    else c
  }

  /** What one frame of `Heli::controls` does to one entity: the three query loops in order. */
  function ControlEntity(c: Components, keys: Keys, dt: real, t: Tuning): (r: Components)
    ensures !c.controls ==> r == c
    ensures r.(boost := c.boost, rotVel := c.rotVel) == c
    ensures r.boost.Some? == c.boost.Some? && r.rotVel.Some? == c.rotVel.Some?
    ensures c.controls && c.boost.Some? ==> r.boost == Some(BoostInput(keys, t.boostPower))
  {
    AutoUp(Turn(SetBoost(c, keys, t), keys, dt, t), dt, t)
  }

  /**
   * The new `RotVel` of a controllable entity: the old one plus the turn
   * input, plus the auto-up correction towards heading 0 when it applies.
   */
  lemma ControlEntityTurn(c: Components, keys: Keys, dt: real, t: Tuning)
    requires c.controls && c.rotVel.Some?
    ensures var r := ControlEntity(c, keys, dt, t);
      r.rotVel == Some(c.rotVel.value + TurnInput(keys, t.rotationalAcceleration, dt)
        + (if AutoUpApplies(r) then -NormalizeAngle(r.rot.value) * t.autoUpPower * dt else 0.0))
  {
    var b := SetBoost(c, keys, t);
    assert b.rotVel == c.rotVel && b.rot == c.rot && b.controls;
    var u := Turn(b, keys, dt, t);
    var turned := c.rotVel.value + TurnInput(keys, t.rotationalAcceleration, dt);
    assert u.rotVel == Some(turned) && u.rot == c.rot && u.controls && u.boost == b.boost;
    var r := AutoUp(u, dt, t);
    assert r.rot == u.rot && r.boost == u.boost && r.controls && r.rotVel.Some?;
    if AutoUpApplies(u) {
      var fix := -NormalizeAngle(u.rot.value) * t.autoUpPower * dt;
      assert r.rotVel.value == turned + fix;
    } else {
      assert r == u;
    }
  }

  /**
   * The auto-up correction is applied only while the up key alone is held
   * (and the boost power is at least 0.1), or, with a negative boost power,
   * while the down key alone is held.
   */
  lemma AutoUpNeedsBoost(c: Components, keys: Keys, dt: real, t: Tuning)
    requires AutoUpApplies(ControlEntity(c, keys, dt, t))
    ensures keys.up != keys.down
    ensures keys.up ==> t.boostPower >= 0.1
    ensures keys.down ==> t.boostPower <= -0.1
  {
  }
}
