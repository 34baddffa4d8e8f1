/**
 * The struct-of-arrays entity store of src/world.rs: six parallel columns,
 * one slot per entity, each slot an optional component.
 */
module SoaWorld {
  import opened Wrappers

  /** A drawable mesh built by the graphics context; its contents are not modelled. */
  datatype Mesh = Mesh(handle: nat)

  /** One row of the store: the components of one entity (`struct Entity`). */
  datatype Entity = Entity(
    pos: Option<(real, real)>,
    vel: Option<(real, real)>,
    rot: Option<real>,
    draw: Option<Mesh>,
    bb: Option<()>,
    grav: Option<()>)

  const MetersTall: real := 32.0

  /** The entity `spawn_player` creates around the given mesh. */
  function PlayerEntity(mesh: Mesh): (e: Entity)
    ensures e.pos == Some((0.0, 16.0)) && e.vel == Some((0.0, 0.0)) && e.rot == Some(0.0)
    ensures e.draw == Some(mesh) && e.bb.Some? && e.grav.Some?
  {
    Entity(Some((0.0, MetersTall / 2.0)), Some((0.0, 0.0)), Some(0.0), Some(mesh), Some(()), Some(()))
  }

  class World {
    var pos: seq<Option<(real, real)>>
    var vel: seq<Option<(real, real)>>
    var rot: seq<Option<real>>
    var draw: seq<Option<Mesh>>
    var bb: seq<Option<()>>
    var grav: seq<Option<()>>

    /** The check `assert_valid` makes: every column has the length of `pos`. */
    predicate Valid()
      reads this
    {
      |pos| == |vel| && |pos| == |rot| && |pos| == |draw| && |pos| == |bb| && |pos| == |grav|
    }

    /** The number of entities. */
    function Len(): nat
      reads this
    {
      |pos|
    }

    /** Row `i`, read across the six columns. */
    function Row(i: nat): Entity
      reads this
      requires Valid() && i < Len()
    {
      Entity(pos[i], vel[i], rot[i], draw[i], bb[i], grav[i])
    }

    /** `World::default()`: six empty columns. */
    constructor Default()
      ensures Valid() && Len() == 0
    {
      pos, vel, rot, draw, bb, grav := [], [], [], [], [], [];
    }

    /**
     * `World::new`: the default store with the player spawned, then checked.
     * The player's mesh comes from the graphics context.
     */
    constructor New(playerMesh: Mesh)
      ensures Valid() && Len() == 1
      ensures Row(0) == PlayerEntity(playerMesh)
    {
      pos, vel, rot, draw, bb, grav := [], [], [], [], [], [];
      new;
      SpawnPlayer(playerMesh);
      assert Valid();
    }

    /** `spawn_player`: appends the player row. */
    method SpawnPlayer(mesh: Mesh)
      modifies this
      ensures pos == old(pos) + [Some((0.0, MetersTall / 2.0))]
      ensures vel == old(vel) + [Some((0.0, 0.0))] && rot == old(rot) + [Some(0.0)]
      ensures draw == old(draw) + [Some(mesh)] && bb == old(bb) + [Some(())] && grav == old(grav) + [Some(())]
      ensures old(Valid()) ==> Valid() && Len() == old(Len()) + 1 && Row(old(Len())) == PlayerEntity(mesh)
    {
      CreateEntity(PlayerEntity(mesh));
    }

    /**
     * `create_entity`: pushes one slot onto each column. Every column grows
     * by exactly one, the new entity's fields land at the old length, the
     * existing rows are untouched, and equal lengths stay equal.
     */
    method CreateEntity(e: Entity)
      modifies this
      ensures pos == old(pos) + [e.pos] && vel == old(vel) + [e.vel] && rot == old(rot) + [e.rot]
      ensures draw == old(draw) + [e.draw] && bb == old(bb) + [e.bb] && grav == old(grav) + [e.grav]
      ensures old(Valid()) ==> Valid()
      ensures old(Valid()) ==> Len() == old(Len()) + 1 && Row(old(Len())) == e
      ensures old(Valid()) ==> forall i :: 0 <= i < old(Len()) ==> Row(i) == old(Row(i))
    {
      pos := pos + [e.pos];
      vel := vel + [e.vel];
      rot := rot + [e.rot];
      draw := draw + [e.draw];
      bb := bb + [e.bb];
      grav := grav + [e.grav];
    }
  }
}
