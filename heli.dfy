/**
 * The game object `Heli` of src/system.rs: the entity store plus the
 * per-frame systems `controls` and `collision`, and the quit query.
 */
module HeliGame {
  import opened Wrappers
  import opened Components
  import opened Ecs
  import opened ControlMapping
  import opened Collisions

  /** A player craft as `Heli::new` spawns it, at `pos` and painted `color`. */
  function Player(pos: Vec2, color: Color): Components {
    Bare.(controls := true, rot := Some(0.0), rotVel := Some(0.0), vel := Some(Zero), pos := Some(pos),
          grav := true, drag := true, boost := Some(0.0), color := Some(color), collides := true,
          wireframe := Some(PlayerWireframe))
  }

  /** The static level boundary. */
  const Walls: Components :=
    Bare.(collides := true, wireframe := Some(BoundsWireframe), pos := Some(Zero), vel := Some(Zero),
          rot := Some(0.0), color := Some(Green))

  const Camera: Components := Bare.(camera := true)

  /** The entity the quit key spawns: a lone `Quit` marker. */
  const QuitMarker: Components := Bare.(quit := true)

  /** Some entity with a handle below `n` carries `Quit`. */
  function QuitBelow(ents: map<Entity, Components>, n: nat): (r: bool)
    ensures r <==> exists e :: e < n && e in ents && ents[e].quit
  {
    if n == 0 then false
    else QuitBelow(ents, n - 1) || (n - 1 in ents && ents[n - 1].quit)
  }

  class Heli {
    const world: World
    const tuning: Tuning

    ghost predicate Valid()
      reads this, world
    {
      world.Valid()
    }

    /** `Heli::new`: a camera, two players and the walls, in that order. */
    constructor (tuning: Tuning, playerSize: real)
      ensures Valid() && fresh(world) && this.tuning == tuning
      ensures world.ents == map[0 := Camera,
                                1 := Player(Zero, DarkBrown),
                                2 := Player(Vec2(playerSize, playerSize), Maroon),
                                3 := Walls]
      ensures !ShouldQuit()
    {
      var w := new World();
      var camera := w.Spawn(Camera);
      var first := w.Spawn(Player(Zero, DarkBrown));
      var second := w.Spawn(Player(Vec2(playerSize, playerSize), Maroon));
      var walls := w.Spawn(Walls);
      world := w;
      this.tuning := tuning;
    }

    /** `should_quit`: whether any entity carries `Quit`. */
    function ShouldQuit(): (r: bool)
      reads this, world
      requires Valid()
      ensures r <==> exists e :: e in world.ents && world.ents[e].quit
    {
      QuitBelow(world.ents, world.nextId)
    }

    /**
     * `controls`: every entity is updated as `ControlEntity` says, and the
     * quit key adds one `Quit` entity; nothing is removed.
     */
    method Controls(keys: Keys, dt: real)
      requires Valid()
      modifies world
      ensures Valid()
      ensures var controlled := MapValues(old(world.ents), c => ControlEntity(c, keys, dt, tuning));
        world.ents == if keys.quit then controlled[old(world.nextId) := QuitMarker] else controlled
      ensures world.nextId == old(world.nextId) + (if keys.quit then 1 else 0)
      ensures keys.quit ==> ShouldQuit()
      ensures !keys.quit ==> ShouldQuit() == old(ShouldQuit())
    {
      var t := tuning;
      ghost var ents0 := world.ents;
      world.QueryMut(c => SetBoost(c, keys, t));
      world.QueryMut(c => Turn(c, keys, dt, t));
      world.QueryMut(c => AutoUp(c, dt, t));
      ghost var controlled := MapValues(ents0, c => ControlEntity(c, keys, dt, t));
      assert world.ents == controlled;
      if keys.quit {
        var q := world.Spawn(QuitMarker);
        assert world.ents[q].quit;
      }
    }

    /**
     * `collision`: detect, sort, dedup and apply the impact records, then
     * apply drag. No entity is added or removed; collisions change only
     * `Vel` and `Pos`, and rotational drag is the only change to `RotVel`.
     */
    method Collision(dt: real, detect: Detector, rotate: (real, Vec2) -> Vec2)
      requires Valid()
      modifies world
      ensures Valid() && world.nextId == old(world.nextId)
      ensures world.ents.Keys == old(world.ents).Keys
      ensures forall e :: e in world.ents ==> HasMotion(world.ents[e]) == HasMotion(old(world.ents[e]))
      ensures forall e :: e in world.ents ==>
        world.ents[e].(vel := old(world.ents[e]).vel, pos := old(world.ents[e]).pos)
          == RotDragEntity(old(world.ents[e]), dt * tuning.rotationalDragCoefficient)
      ensures forall e :: e in world.ents && !Collider(old(world.ents[e])) ==>
        world.ents[e] == RotDragEntity(DragEntity(old(world.ents[e]), dt * tuning.dragCoefficient),
                                       dt * tuning.rotationalDragCoefficient)
      ensures forall e :: e in world.ents && (forall b: Entity :: !Impacts(old(world.ents), dt, detect, e, b)) ==>
        world.ents[e] == DragBoth(old(world.ents[e]), dt * tuning.dragCoefficient, dt * tuning.rotationalDragCoefficient)
      ensures exists kept ::
        && KeptFor(old(world.ents), dt, detect, kept)
        && Targets(old(world.ents), kept)
        && world.ents == DragAll(ApplyAll(old(world.ents), kept, dt, tuning.collisionEnergyLoss, rotate),
                                 dt * tuning.dragCoefficient, dt * tuning.rotationalDragCoefficient)
    {
      ghost var ents0 := world.ents;
      var kept := KeptRecords(world.ents, world.nextId, dt, detect);
      assert KeptFor(ents0, dt, detect, kept);
      CollisionFrame(ents0, kept, dt, tuning.collisionEnergyLoss, rotate,
                     dt * tuning.dragCoefficient, dt * tuning.rotationalDragCoefficient);
      UnimpactedDragOnly(ents0, dt, detect, kept, tuning.collisionEnergyLoss, rotate,
                         dt * tuning.dragCoefficient, dt * tuning.rotationalDragCoefficient);
      ApplyRecords(kept, dt, rotate);
      ApplyDrag(dt);
    }

    /**
     * The loop over the kept records: each updates its entity `a` by `Bounce`;
     * `query_one_mut(a).unwrap()` never fails since every `a` has `Vel` and `Pos`.
     */
    method ApplyRecords(kept: seq<Record>, dt: real, rotate: (real, Vec2) -> Vec2)
      requires Valid() && Targets(world.ents, kept)
      modifies world
      ensures Valid() && world.nextId == old(world.nextId)
      ensures world.ents == ApplyAll(old(world.ents), kept, dt, tuning.collisionEnergyLoss, rotate)
    {
      var t := tuning;
      ghost var ents0 := world.ents;
      ghost var final := ApplyAll(ents0, kept, dt, t.collisionEnergyLoss, rotate);
      for i := 0 to |kept|
        invariant world.nextId == old(world.nextId) && world.ents.Keys == ents0.Keys
        invariant Targets(world.ents, kept[i..])
        invariant ApplyAll(world.ents, kept[i..], dt, t.collisionEnergyLoss, rotate) == final
      {
        var rec := kept[i];
        ApplyFirst(world.ents, kept[i..], dt, t.collisionEnergyLoss, rotate);
        assert kept[i..][0] == rec && kept[i..][1..] == kept[i + 1..];
        world.ents := world.ents[rec.a := Bounce(world.ents[rec.a], rec, dt, t.collisionEnergyLoss, rotate)];
      }
      assert kept[|kept|..] == [];
      assert world.ents == final;
    }

    /** Linear then rotational drag, each scaled by `dt` times its coefficient. */
    method ApplyDrag(dt: real)
      requires Valid()
      modifies world
      ensures Valid() && world.nextId == old(world.nextId)
      ensures world.ents == DragAll(old(world.ents), dt * tuning.dragCoefficient, dt * tuning.rotationalDragCoefficient)
    {
      var dragMult := dt * tuning.dragCoefficient;
      world.QueryMut(c => DragEntity(c, dragMult));
      var rdragMult := dt * tuning.rotationalDragCoefficient;
      world.QueryMut(c => RotDragEntity(c, rdragMult));
      assert world.ents == DragAll(old(world.ents), dragMult, rdragMult);
    }
  }
}
