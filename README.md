# heli — a verified model of the game's simulation core

`heli` is a small two-dimensional helicopter game. Its state is an entity
store (a `hecs::World`): each entity is a handle carrying optional
components — position, velocity, heading (`Rot`), rotational velocity,
boost, gravity and drag markers, a colour, a collision outline, a
`Mortal` lifetime, a `BoostToots` emission schedule, and the `Controls`,
`Collides`, `Quit` and camera markers.

Each frame, `Heli::update` runs `controls`, `collision`, `newtonian` and
`msc` over that store. The first two are modelled:

* `controls` reads the keyboard. Up/down sets `Boost`. Left/right turns.
  While boosting, an "auto-up" correction steers the heading back towards
  upright. Escape/Q spawns a `Quit` entity, which `should_quit` detects.
* `collision` asks the physics library for the time of impact of every
  ordered pair of colliders. It sorts the impacts by (a, b, toi) and keeps
  the earliest impact of each pair. It bounces entity `a` of each kept
  impact, losing some energy, and then applies linear and rotational drag.
The repository also holds two systems over any `hecs::World`. The game as
built does not call them: `src/main.rs` compiles only the `constants` and
`system` modules, and `Heli::new` spawns no entity with `Mortal` or
`BoostToots`. Both are modelled on the same entity store:

* `Mortal::system` despawns every entity whose lifetime has run out.
* `BoostToots::system` catches the emission schedule of every entity with
  `Boost` and `BoostToots` up with the clock, boosting or not. While the
  entity is boosting, it queues one emission per period passed. Then it
  runs the queue. The only emitter is `firetrail`, which spawns a short-lived
  exhaust particle behind its source.

An older struct-of-arrays store (`src/world.rs`), also outside the built
game, keeps six parallel component columns. It is modelled as well, with its column-length
invariant.

The modules:

| file | module | what it holds |
|---|---|---|
| `wrappers.dfy` | `Wrappers` | `Option` |
| `components.dfy` | `Components` | handles, vectors, colours, outlines, `Mortal`, `BoostToots`, and the record of one entity's components |
| `ecs.dfy` | `Ecs` | the entity store as a class: spawn, despawn, lookup, and an in-order `query_mut` loop |
| `controls.dfy` | `ControlMapping` | the key mapping, angle normalisation and per-entity control update |
| `collisions.dfy` | `Collisions` | detection, sort, dedup, bounce and drag |
| `heli.dfy` | `HeliGame` | the `Heli` game object: construction, `should_quit`, `controls`, `collision` |
| `mortality.dfy` | `Mortality` | `Mortal::system` |
| `spawners.dfy` | `Spawners` | `BoostToots::system`, `firetrail` and the trail it spawns |
| `soa_world.dfy` | `SoaWorld` | the struct-of-arrays store |

Conventions:

* Handles are natural numbers handed out in increasing order. A `query`
  loop visits entities in increasing handle order.
* `f32`/`f64` arithmetic is modelled on the reals.
* The physics library and the graphics maths are parameters:
  * `detect` stands for parry2d's `time_of_impact` query;
  * `rotate(angle, v)` stands for `Rot(angle).quat()` applied to `v`.
* The frame time (`get_frame_time`) is the parameter `dt`, and the keyboard
  state is the `Keys` record.
* The clock (`get_time`) is a parameter. `time` is the reading a system
  takes once per sweep. `firetrail` reads the clock on every call: `now`
  is that reading for one call, and `clock(i)` is the reading of the i-th
  call in a run of the emission queue.
* The tuning constants (`BOOST_POWER`, `DRAG_COEFFICIENT`, ...) are the
  fields of `ControlMapping.Tuning`. `PLAYER_SIZE` is a constructor
  parameter.

The model follows the code on three points:

* Every impact the detector reports is recorded, whatever its status.
  The check that the status is not `Failed` is only a `debug_assert!`,
  so no status is filtered out.
* `(r + PI).rem_euclid(TAU) - PI` brings a heading into [-PI, PI), not
  (-PI, PI].
* All controllable entities share one key mapping. Both players respond
  to the same keys; there is no per-player control scheme.

## Model

| member | source | states |
|---|---|---|
| Ecs.World.constructor | src/system.rs:24 | a new store is empty and valid, and its first handle is 0 |
| Ecs.World.Spawn | src/system.rs:27 | spawning adds the record under a handle never used before and leaves every other entity as it was |
| Ecs.World.Despawn | src/mortal.rs:19-21 | despawning removes exactly that handle; it reports failure exactly when the handle was not live |
| Ecs.World.QueryMut | src/system.rs:136-138 | an in-order `query_mut` loop has the effect of applying the per-entity update to every entity, with the set of entities and the next handle unchanged |
| Ecs.MapValues | src/system.rs:136-138 | mapping over the store keeps its key set and maps each entity |
| Ecs.MapPrefix | src/system.rs:136-138 | a loop stopped at a handle keeps the key set |
| Ecs.MapPrefixStep | src/system.rs:136-138 | visiting one more handle extends the updated prefix by that entity, and once past every key the prefix is the full map |
| ControlMapping.BoostInput | src/system.rs:128-138 | up alone gives `+BOOST_POWER`, down alone `-BOOST_POWER`, both or neither 0 |
| ControlMapping.TurnInput | src/system.rs:140-151 | left alone adds `ROTATIONAL_ACCELERATION * dt`, right alone subtracts it, both or neither add nothing |
| ControlMapping.NormalizeAngle | src/system.rs:159 | the normalised heading lies in [-PI, PI) |
| ControlMapping.FloorBounds | src/system.rs:159 | the Euclidean remainder modulo TAU lies in [0, TAU) |
| ControlMapping.NormalizeAngleFixesRange | src/system.rs:159 | a heading already in [-PI, PI) is left unchanged |
| ControlMapping.NormalizeAnglePeriodic | src/system.rs:159 | headings that differ by whole turns normalise to the same value |
| ControlMapping.ControlEntity | src/system.rs:125-165 | an entity without `Controls` is untouched; only `Boost` and `RotVel` change, and no component appears or disappears; a controlled entity's boost is overwritten with the key input, not accumulated |
| ControlMapping.ControlEntityTurn | src/system.rs:140-165 | the new rotational velocity is the old one plus the turn input, plus `-normalize(rot) * AUTO_UP_POWER * dt` exactly when auto-up applies (boost at least 0.1 after the boost loop) |
| ControlMapping.AutoUpNeedsBoost | src/system.rs:153-165 | auto-up runs only while exactly one of up and down is held, and only when `BOOST_POWER` is at least 0.1 for up, or at most -0.1 for down |
| Collisions.DetectAll | src/system.rs:176-208 | every record is a genuine detection between two distinct colliders; every ordered pair the detector reports is recorded; no pair is recorded twice |
| Collisions.KeyLeTransitive | src/system.rs:209-213 | the (a, b, toi) order is transitive |
| Collisions.KeyLeTotal | src/system.rs:209-213 | the (a, b, toi) order is total |
| Collisions.PrependSorted | src/system.rs:209-213 | a record not above the head of a sorted sequence may be put in front of it |
| Collisions.Insert | src/system.rs:209-213 | inserting into a sorted sequence keeps it sorted and adds exactly that record |
| Collisions.SortRecords | src/system.rs:209-213 | the result is sorted by (a, b, toi) and is a permutation of the input |
| Collisions.DedupPushKeeps | src/system.rs:214 | keeping a record whose pair differs from the last kept one preserves the dedup invariant |
| Collisions.PushSources | src/system.rs:214 | after keeping a record, every kept record is still an input record from the part already seen, and each opens a run of equal pairs |
| Collisions.PushWitnesses | src/system.rs:214 | after keeping a record, every pair seen so far is still represented among the kept records |
| Collisions.PushNoRepeat | src/system.rs:214 | after keeping a record, no two adjacent kept records share a pair |
| Collisions.DedupSkipKeeps | src/system.rs:214 | dropping a record whose pair equals the last kept one preserves the dedup invariant |
| Collisions.LastKeptBefore | src/system.rs:214 | on a sorted input, the last kept record's key is at most the next input's |
| Collisions.DedupSkipKeepsSorted | src/system.rs:214 | on a sorted input, a dropped record's toi is not below the kept record of its pair |
| Collisions.DedupPushKeepsSorted | src/system.rs:214 | on a sorted input, a newly kept record's pair is above every earlier kept pair and differs from every earlier input pair |
| Collisions.DedupPairs | src/system.rs:214 | each kept record is the first record of a run of equal pairs in the input, as `dedup_by` keeps; every input pair stays represented; adjacent kept records differ in pair; on a sorted input the kept pairs strictly increase, and each kept record has the smallest toi of its pair |
| Collisions.KeptRecords | src/system.rs:176-214 | the records the bounce loop sees are genuine detections with strictly increasing pairs, and every pair the detector reports is represented |
| Collisions.Reflect | src/system.rs:247-249 | against a unit normal, the reflected velocity's normal component is the negation of the original's |
| Collisions.ReflectKeepsTangent | src/system.rs:247-249 | reflection keeps the velocity component along any direction normal to `n` |
| Collisions.ReflectKeepsSpeed | src/system.rs:247-249 | reflection in a unit normal keeps the speed |
| Collisions.Bounce | src/system.rs:228-261 | only `Vel` and `Pos` change; an entity already moving away from the world-space normal is left as it is |
| Collisions.BounceResponse | src/system.rs:241-261 | an approaching entity ends up separating, and its squared speed is scaled by `(1 - COLLISION_ENERGY_LOSS)^2` |
| Collisions.ApplyAll | src/system.rs:215-262 | the bounce loop keeps every entity and each entity's motion components; it changes only `Vel` and `Pos`, and only for entities named as `a` |
| Collisions.ApplyFirst | src/system.rs:215-262 | applying the first record and then the rest is the whole loop |
| Collisions.DragScalar | src/system.rs:264-276 | with a factor in [0, 1), one drag step moves a value towards zero without changing its sign |
| Collisions.DragFactorBounds | src/system.rs:264-276 | `x - x * m` lies between 0 and `x` for `m` in [0, 1) |
| Collisions.DragVec | src/system.rs:264-269 | with a factor in [0, 1), drag does not increase the squared speed |
| Collisions.UnimpactedUntouched | src/system.rs:215-262 | an entity that is first in no reported impact is named by no kept record, so the bounce loop leaves it as it was |
| Collisions.UnimpactedDragOnly | src/system.rs:173-277 | after the bounce loop and the drag loops, an entity that is first in no reported impact has felt drag only |
| Collisions.DragBoth | src/system.rs:264-276 | drag changes only `Vel` and `RotVel` and adds or removes no component |
| Collisions.DragSlows | src/system.rs:264-276 | with factors in [0, 1), drag increases neither speed nor rotational speed |
| Collisions.DragAll | src/system.rs:264-276 | the two drag loops apply drag to every entity and keep the set of entities |
| Collisions.CollisionFrame | src/system.rs:173-277 | a collision pass keeps every entity; apart from `Vel` and `Pos` an entity only feels rotational drag; an entity that is not a collider feels drag only |
| Collisions.DragAfterBounce | src/system.rs:264-276 | drag after a bounce differs from rotational drag on the original only in `Vel` and `Pos` |
| HeliGame.QuitBelow | src/system.rs:119-121 | the scan finds a `Quit` entity exactly when one exists below the bound |
| HeliGame.Heli.constructor | src/system.rs:23-70 | a new game holds the camera, the two players and the walls under handles 0 to 3, and does not want to quit |
| HeliGame.Heli.ShouldQuit | src/system.rs:119-121 | true exactly when some entity carries `Quit` |
| HeliGame.Heli.Controls | src/system.rs:125-171 | every entity is updated by `ControlEntity`; the quit key adds exactly one `Quit` entity under the next handle and makes `ShouldQuit` true; otherwise `ShouldQuit` is unchanged |
| HeliGame.Heli.Collision | src/system.rs:173-277 | the new store is drag applied after `ApplyAll` of some record list that meets `KeptFor`: genuine detections, strictly increasing pairs, every reported pair present; hence no entity is added or removed, apart from `Vel` and `Pos` only rotational drag applies, and an entity that is a non-collider or is named first in no reported impact feels drag only |
| HeliGame.Heli.ApplyRecords | src/system.rs:215-262 | the in-place loop over the kept records has the effect of `ApplyAll`, and `query_one_mut(a).unwrap()` never fails |
| HeliGame.Heli.ApplyDrag | src/system.rs:264-276 | the two drag loops have the effect of `DragAll` with `dt` times each coefficient |
| SoaWorld.PlayerEntity | src/world.rs:38-47 | the player starts at (0, METERS_TALL / 2) at rest with heading 0, drawn with the given mesh, with a bounding box and gravity |
| SoaWorld.World.Valid | src/world.rs:66-80 | the check `assert_valid` makes: every column has the length of `pos` |
| SoaWorld.World.Default | src/world.rs:14-24 | the default store is valid and empty |
| SoaWorld.World.New | src/world.rs:31-36 | a new store is valid and holds only the player |
| SoaWorld.World.SpawnPlayer | src/world.rs:38-47 | spawning the player appends one player row and keeps the columns equally long |
| SoaWorld.World.CreateEntity | src/world.rs:49-64 | each column grows by exactly one slot holding the entity's field; equal column lengths stay equal, the new row is the entity, and earlier rows are untouched |
| Mortality.Survivors | src/mortal.rs:9-22 | the survivors are exactly the entities that have not expired, unchanged |
| Mortality.SurvivorsShrinkOverTime | src/mortal.rs:12-17 | a sweep at a later time removes everything an earlier sweep would |
| Mortality.CollectExpired | src/mortal.rs:12-17 | the `eol` list holds exactly the expired entities, in strictly increasing handle order |
| Mortality.MortalSystem | src/mortal.rs:9-22 | every despawn succeeds; afterwards the store is the survivors, and no remaining entity has expired |
| Spawners.Steps | src/spawner.rs:23-28 | the catch-up count is the least k with `next_toot + k * every > time` |
| Spawners.CatchUp | src/spawner.rs:23-28 | the schedule ends past `time`, never moves back, moves by whole periods only, and one emission is queued per period while boosting |
| Spawners.QueueCounts | src/spawner.rs:21-29 | each visited entity contributes exactly as many emissions as its catch-up loop ran while boosting, all with its own spawner |
| Spawners.ConcatCounts | src/spawner.rs:21-29 | if only one handle's emissions contain `em`, the queue holds exactly that many copies of it |
| Spawners.EntityEmissionsCount | src/spawner.rs:22-29 | one entity's emissions contain only its own entries, as many as it owes |
| Spawners.RepeatCount | src/spawner.rs:23-28 | k copies of an emission contain it k times and nothing else |
| Spawners.QueueInHandleOrder | src/spawner.rs:21-33 | the queue lists lower handles' emissions first, and names only visited handles |
| Spawners.AdvanceEntity | src/spawner.rs:22-29 | one query step: the schedule catches up past `time`, and the emissions are copies of this entity's own spawner entry |
| Spawners.AdvanceToots | src/spawner.rs:21-29 | every tooting entity's schedule catches up and nothing else changes; the emissions are queued in handle order |
| Spawners.Signum | src/spawner.rs:59-61 | the sign is +1 or -1, and negative exactly for negative inputs |
| Spawners.TrailFor | src/spawner.rs:37-70 | a source gets a trail exactly when it has `Pos` |
| Spawners.TrailDefaults | src/spawner.rs:49-61 | a missing `Rot`, `Color` or `Boost` defaults to heading 0, black or boosting forward; a missing `Vel` defaults to rest, so the trail's velocity is just the rotated, signed exhaust push |
| Spawners.TrailIsInert | src/spawner.rs:57-69 | a trail expires exactly two seconds after it is spawned; it has no controls, no collisions and no emitter of its own; it has gravity, drag and the trash outline |
| Spawners.Firetrail | src/spawner.rs:37-70 | a source with `Pos` adds exactly its trail under a fresh handle; otherwise the world is unchanged |
| Spawners.TrailsStep | src/spawner.rs:31-33 | the i-th emission's trail, read with the i-th clock reading, follows the trails of the earlier emissions |
| Spawners.AppendedStep | src/spawner.rs:31-33 | one more trail goes under the next fresh handle |
| Spawners.AppendedKeeps | src/spawner.rs:31-33 | a handle below the first fresh one reads the same after appending |
| Spawners.AppendedLookup | src/spawner.rs:31-33 | the trails land under consecutive fresh handles in queue order, and existing entities are kept |
| Spawners.TrailsCount | src/spawner.rs:31-33 | each emission yields at most one trail, and exactly one when every source has `Pos` |
| Spawners.RunSpawners | src/spawner.rs:31-33 | running the queue appends the trails in queue order under fresh handles, the i-th `firetrail` call reading its own clock value, and changes no existing entity |
| Spawners.BoostTootsSystem | src/spawner.rs:18-34 | existing entities change only by their schedules catching up; the new entities are the trails of the queued emissions, read from the updated world with one clock reading per `firetrail` call, under fresh handles in queue order |

## Left out

- `Heli::update`, `newtonian`, `msc`, `ui` and `draw`, and `World`'s `EventHandler` in src/world.rs: they integrate motion, move the camera, run UI widgets and draw. Their logic is floating-point integration and drawing calls outside the core that is modelled.
- src/util.rs, src/constants.rs, src/mesh.rs, src/setup.rs and src/main.rs are not part of this model. The tuning constants are the fields of `ControlMapping.Tuning`, and `PLAYER_SIZE` is a constructor parameter.
- Floating point: `f32`/`f64` are modelled as reals, so rounding, NaN and `-0.0` are not captured. `f32::signum(-0.0)` is `-1.0` in the source, while `Spawners.Signum` gives `1.0` for zero.
- `time_of_impact` and `Rot::quat` are oracles (`detect`, `rotate`). The `.unwrap()` on `time_of_impact`'s `Err` is not modelled: the oracle always answers. The `TOIStatus` and the witnesses are not inspected, just as release builds do not inspect them.
- Collisions.Bounce: its contract does not assume a unit normal. The speed and direction results hold under `BounceResponse`'s unit-normal precondition, which the oracle is expected to meet.
- Handle values and their order are the model's own numbering: every spawn takes the next unused number. `hecs` reuses the id of a despawned entity with a bumped generation, and orders handles by (generation, id). The two agree on a world without despawns, such as `Heli`'s. After `Mortal::system` has despawned entities, `hecs` would give the trails of `RunSpawners` recycled ids, not consecutive ones.
- `hecs` iteration order is modelled as increasing handle order. `hecs` iterates by archetype, so the order of the collision records before sorting and the order of the emission queue may differ in the source. The sorted collision records do not depend on it.
- The collision record vector, the `eol` list and the `emitting` queue are sequence values, not heap vectors.
- `Mortal::system` and `BoostToots::system` receive the clock as `time`, and `firetrail` as `now`, instead of calling `get_time`.
- Spawners.BoostTootsSystem: requires every tooting entity to have a positive period or nothing due. Otherwise the source's `while` loop never ends, which the model cannot express.
- Spawners.AdvanceToots: the same catch-up precondition, for the same reason.
- The only spawner modelled is `firetrail`, which is the only one the source defines. `Spawner` is a one-value datatype, not an arbitrary closure.
- `firetrail` on a source without `Pos` panics in debug builds (`debug_assert!`) and returns in release builds. The model follows the release behaviour.
- The `debug_assert!`s that `dt` times each drag coefficient is below 1 appear as the precondition of `Collisions.DragSlows`, not as run-time checks. Without them, drag is still applied as written.
- The `debug_assert!` that a collision's status is not `Failed` is not modelled.
- Colours are symbolic names. Wireframe point lists are symbolic outlines. A `Mesh` is an opaque handle. The wireframe-to-polyline conversion is left to the `detect` oracle.
- The camera's contents (`Camera2D`) are not modelled. Only the presence of the camera component is kept.
- SoaWorld.World.New: `assert_valid` panics on unequal columns; the model proves that the columns are equal instead of checking them at run time.
