/**
 * The component types of the game (the unit and tuple structs at the end of
 * src/system.rs, `Mortal` in src/mortal.rs and `BoostToots` in src/spawner.rs)
 * and the record of components one entity holds.
 */
module Components {
  import opened Wrappers

  /**
   * An entity handle. The model numbers entities in spawn order and never
   * reuses a number; `hecs` reuses a freed id under a new generation.
   */
  type Entity = nat

  /** A 2D vector of reals (f32 in the game). */
  datatype Vec2 = Vec2(x: real, y: real) {
    function Add(o: Vec2): Vec2 { Vec2(x + o.x, y + o.y) }
    function Sub(o: Vec2): Vec2 { Vec2(x - o.x, y - o.y) }
    function Scale(k: real): Vec2 { Vec2(x * k, y * k) }
    function Dot(o: Vec2): real { x * o.x + y * o.y }
  }

  const Zero: Vec2 := Vec2(0.0, 0.0)

  /** The palette entries the game names; any other colour is `Rgba`. */
  datatype Color = Black | DarkBrown | Maroon | Green | Rgba(r: real, g: real, b: real, a: real)

  /** The static outlines the game draws and collides with; their points are not modelled. */
  datatype Wireframe = PlayerWireframe | BoundsWireframe | TrashWireframe

  /** The effect a `BoostToots` emits; the game registers only the fire trail. */
  datatype Spawner = FiretrailSpawner

  /** Lifetime: the entity is erased once the clock reaches `eraseAt`. */
  datatype Mortal = Mortal(eraseAt: real)

  /** Emits `spawner` every `every` seconds while its entity boosts. */
  datatype BoostToots = BoostToots(spawner: Spawner, every: real, nextToot: real)

  /**
   * The components one entity carries. Presence-only marker components
   * (`Camera2D`, `Controls`, `Grav`, `Drag`, `Collides`, `Quit`) are booleans;
   * every component with data is an `Option`.
   */
  datatype Components = Components(
    camera: bool,
    controls: bool,
    rot: Option<real>,
    rotVel: Option<real>,
    vel: Option<Vec2>,
    pos: Option<Vec2>,
    grav: bool,
    drag: bool,
    boost: Option<real>,
    color: Option<Color>,
    collides: bool,
    wireframe: Option<Wireframe>,
    quit: bool,
    mortal: Option<Mortal>,
    boostToots: Option<BoostToots>)

  /** An entity with no components at all. */
  const Bare: Components :=
    Components(false, false, None, None, None, None, false, false, None, None, false, None, false, None, None)
}
