# bevy_tilemap chunk lifecycle, modelled in Dafny

This project models the chunk systems of the bevy_tilemap engine
(`library/engine/src/system.rs`). These are the systems that decide which
chunks of a possibly unbounded tile grid are on screen, and that keep
each chunk layer's render entity and mesh in step with its tiles:

- `auto_spawn` enumerates a window of chunk coordinates around the
  camera's chunk. It clips each axis against an optional bounded map
  extent, requests a spawn for every coordinate it admits, and then
  requests a despawn for every resident chunk outside the window.
- `tilemap_chunk_auto_spawn` runs `auto_spawn` for every moved camera while
  auto-spawn is on.
- `tilemap_chunk_auto_radius` recomputes the radius on every window
  resize, as `ceil(window / chunk pixels) + 1` per axis, and re-runs
  `auto_spawn` for every camera.
- `tilemap_events` splits the tilemap's chunk events by kind, then:
  - spawns each new chunk: one mesh and one entity per layer with
    renderer data, placed by the grid topology;
  - bumps the `ModifiedLayer` counter of every modified layer;
  - destroys the entities of despawned chunks.
- The older handlers `tilemap_chunk_spawned` and `tilemap_chunk_modified`
  do the same per kind. They keep a per-map resident set and scale sizes
  by the texture size.
- `tilemap_chunk_update` rewrites the mesh of every layer entity whose
  counter changed.

Files:

- `options.dfy` holds the `Option` type.
- `geometry.dfy` holds the seven topologies and the placement
  translation. It also holds the radius arithmetic.
- `window.dfy` holds the auto-spawn window as a specification function,
  with its lemmas.
- `ecs.dfy` holds the part of the host scene registry and mesh store that
  the systems use (`World`), and the counter and change-detection
  specification.
- `events.dfy` holds the chunk events and their partition.
- `spawn.dfy` holds the chunk spawn as specification functions: one
  layer (`LayerStep`), the layer loop of one chunk (`Layers`,
  `ChunkLayers`), one spawned point (`AtPoint`) and the pass over all
  spawned points (`Pass`). Its lemmas state what a spawn adds to the
  registry and the mesh store, and what is on screen afterwards.
- `tilemap.dfy` holds the `Tilemap` class. Its methods are the systems
  themselves, each proved against the specification functions.

`spawn_chunk` and `despawn_chunk` belong to tilemap code that is not
part of this model. Each call is recorded in a ghost request log
(`spawnRequests`, `despawnRequests`) and has no other effect. Their
errors only reach a log line, so they need not be modelled.

Where the code does something one might not expect, the model follows
the code:

- The staggered branches compute `((p * t) as f32 * 0.75) as i32`. That is
  truncation toward zero, not a floor, so a negative offset rounds up
  (`Geometry.PackedIsIntegerTruncation`).
- `auto_spawn` calls `spawn_chunk` for every admitted coordinate, resident
  or not, not only for missing ones.
- `tilemap_events` runs all spawns, then all modifications, then all
  despawns. Modifications do not interleave with the other two.
- `tilemap_chunk_update` returns from the whole system at the first entity
  whose tilemap, chunk, mesh or renderer data is missing. It does not
  skip that entity.
- The layer test `layers.get(z_order).is_none()` runs for `z_order` in
  `0..layers().len()`, where `layers()` is a vector of optional layers. It
  therefore never fires. Only the length matters (`Tilemap.layerCount`), and
  the chunk's renderer data alone decides which layers get an entity.
- A spawned entity carries the point of the event, but its translation is
  computed from the chunk's own `point()`. The model keeps both: the
  entry's point is the key `p`, and the placement uses the stored chunk's
  point.
- HexX's x does not depend on y (system.rs:285-291). The row-driven
  shift of x belongs to HexY, and it is
  `y * chunk_height * 0.5 * tile_width`: half a tile width per tile row
  of a chunk, not per chunk. Symmetrically, HexX shifts y by
  `x * chunk_width * 0.5 * tile_height` (system.rs:299-303). The model
  follows the code (`Geometry.HexYRowBleed`, `Geometry.HexXColumnBleed`).
- The loops of `auto_spawn` cross their bounds: `y` runs over the spawn
  width and `x` over the spawn height. The model reproduces this (see
  Findings).

## Model

| member | source | states |
|---|---|---|
| `Geometry.TranslationXForm` | library/engine/src/system.rs:280-297 | column-staggered grids put a chunk column at the chunk width times three quarters of its pixel offset, truncated toward zero; HexY adds half a tile width per tile row of the chunks below |
| `Geometry.TranslationYForm` | library/engine/src/system.rs:298-315 | row-staggered grids put a chunk row at the chunk height times three quarters of its pixel offset, truncated toward zero; HexX adds half a tile height per tile column of the chunks to its left |
| `Geometry.TruncateToIntCharacterised` | library/engine/src/system.rs:282 | the `as i32` cast of a float is the integer of largest magnitude toward zero: within one of the value, on its side of zero |
| `Geometry.PackedIsIntegerTruncation` | library/engine/src/system.rs:282-283 | the float three-quarter packing `trunc(p * 0.75)` equals integer truncation toward zero of `3p / 4` |
| `Geometry.PackedBounds` | library/engine/src/system.rs:307 | the packed offset keeps the sign of the pixel offset, is at most three quarters of it in magnitude and loses less than one pixel |
| `Geometry.PackedMonotone` | library/engine/src/system.rs:282 | packing preserves order of pixel offsets |
| `Geometry.SquarePlacement` | library/engine/src/system.rs:280-316 | a Square grid places chunk (x, y) layer z at `(x*tw*cw, y*th*ch, z)` |
| `Geometry.TextureScaledSquare` | library/engine/src/system.rs:80-99 | scaling tile and chunk sizes by a texture of `sx` by `sy` pixels moves a square-grid chunk `sx*sx` times as far along x and `sy*sy` times as far along y |
| `Geometry.UnstaggeredAxes` | library/engine/src/system.rs:292-314 | Square/HexEvenRows/HexOddRows leave x a plain product, Square/HexEvenCols/HexOddCols leave y a plain product |
| `Geometry.HexYRowBleed` | library/engine/src/system.rs:285-291 | in HexY, one chunk row further shifts x by half a tile width per tile row of a chunk |
| `Geometry.HexXColumnBleed` | library/engine/src/system.rs:299-305 | in HexX, one chunk column further shifts y by half a tile height per tile column of a chunk |
| `Geometry.ColumnStaggerMonotone` | library/engine/src/system.rs:281-284 | on column-staggered grids, chunk origins along x are ordered as chunk x coordinates are |
| `Geometry.SquareExample` | library/engine/src/system.rs:292-314 | chunk (2, 3) of 8-tile chunks of 16-pixel tiles sits at (256, 384, 0) on a square grid |
| `Geometry.CeilDiv` | library/engine/src/system.rs:484 | the result is the least whole number of chunks covering the window |
| `Geometry.CeilDivIsFloatCeil` | library/engine/src/system.rs:484-485 | the float `ceil` of window over chunk pixels equals the integer ceiling division |
| `Geometry.ChunksAlong` | library/engine/src/system.rs:484-485 | the radius is at least 1, one more than the least chunk count covering the window: `r - 1` chunks cover it and `r - 2` do not, unless `r` is 1 |
| `Window.WindowMembers` | library/engine/src/system.rs:433-448 | a coordinate is requested exactly when its x offset from the centre is within the spawn height, its y offset within the spawn width, and both bounded axes admit it |
| `Window.WindowClipped` | library/engine/src/system.rs:437-448 | on a bounded axis no requested coordinate lies beyond `(extent / chunk) / 2` chunks of the origin |
| `Window.WindowDistinct` | library/engine/src/system.rs:433-453 | every admitted candidate is pushed once: no coordinate occurs twice in `new_spawned` |
| `Window.UnboundedWindowSize` | library/engine/src/system.rs:433-434 | on an unbounded map the window holds `(2w + 1)(2h + 1)` coordinates |
| `Window.UnitWindowExample` | library/engine/src/system.rs:433-453 | centre (0, 0), radius (1, 1), unbounded: the requests are exactly the 3 x 3 block |
| `Window.BoundedWidthExample` | library/engine/src/system.rs:437-441 | a 40-tile-wide map of 10-tile chunks admits x only within 2 of the origin, so x = 5 is never requested |
| `Window.CrossedAxesExample` | library/engine/src/system.rs:433-434 | with spawn width 1 and height 0 the window as written is a vertical strip: (0, 1) requested, (1, 0) not |
| `Window.IntendedWindowMembers` | library/engine/src/system.rs:433-434 | the corrected window holds exactly the admitted coordinates with x offset within the spawn width and y offset within the spawn height |
| `Window.IntendedWindowDistinct` | library/engine/src/system.rs:433-434 | the corrected window also requests each coordinate once |
| `Window.CrossedAxesAgreeWhenSquare` | library/engine/src/system.rs:433-434 | the written and corrected windows coincide when the radius is square and differ as sets on an unbounded map when it is not |
| `Tilemaps.Tilemap.AutoSpawn` | library/engine/src/system.rs:420-465 | the returned list is the window, spawns are requested for it in loop order, and the despawn requests appended are, as a multiset, exactly the resident points outside it |
| `Tilemaps.Tilemap.SpawnWindow` | library/engine/src/system.rs:433-455 | the outer loop requests and returns the window in row order |
| `Tilemaps.Tilemap.SpawnRow` | library/engine/src/system.rs:434-454 | the inner loop requests and returns the admitted candidates of one offset row, whatever the requests return |
| `Tilemaps.Tilemap.Admitted` | library/engine/src/system.rs:437-448 | the two `continue` tests let a coordinate through exactly when both bounded axes admit it |
| `Tilemaps.Tilemap.DespawnOutside` | library/engine/src/system.rs:457-464 | earlier requests are kept, and one despawn is appended for each snapshot point outside the window, none for a point inside it |
| `Tilemaps.Tilemap.SpawnChunk` | library/engine/src/system.rs:450-452 | each spawn request is logged in order |
| `Tilemaps.Tilemap.DespawnChunk` | library/engine/src/system.rs:460-462 | each despawn request is logged in order |
| `Tilemaps.Tilemap.AutoSpawnCameras` | library/engine/src/system.rs:510-524 | with auto-spawn off nothing is requested; with it on, the spawn requests are the windows of each camera in turn at the stored radius, and the despawn requests are, per camera, the resident points outside its window |
| `Tilemaps.Tilemap.AutoSpawnAll` | library/engine/src/system.rs:488-495 | the spawn requests are the windows of each camera in turn at the given radius; the despawn requests are, per camera, the resident points outside its window |
| `Tilemaps.Tilemap.AutoRadius` | library/engine/src/system.rs:477-497 | after the resizes the stored radius is the last resize's; the spawn requests are every camera's window at each successive radius, and the despawn requests the resident points outside each of those windows |
| `Tilemaps.Tilemap.Resize` | library/engine/src/system.rs:479-495 | one resize stores the radius the window asks for, requests every camera's window at it and the despawn of the resident points outside each |
| `Tilemaps.Radius` | library/engine/src/system.rs:484-486 | both axes of the auto-spawn radius are at least 1 |
| `Tilemaps.Tilemap.ChunkPixels` | library/engine/src/system.rs:482-483 | a chunk's pixel size is positive on both axes, so the radius division is defined |
| `Tilemaps.Tilemap.TexturedDims` | library/engine/src/system.rs:80-99 | the older handler's sizes coincide with the plain ones for a one-pixel texture |
| `Events.Partition` | library/engine/src/system.rs:218-238 | the reader loop yields the spawned points, modified layer lists and despawned chunks of the events, each in arrival order |
| `Events.PartitionAppend` | library/engine/src/system.rs:222-238 | partitioning distributes over concatenation, so events of a kind keep their relative order |
| `Events.PartitionSizes` | library/engine/src/system.rs:222-238 | every event lands in exactly one of the three lists |
| `Events.SpawnedPointsMembers` | library/engine/src/system.rs:228-230 | a point is to be spawned exactly when some `Spawned` event names it |
| `Events.LayerEntities` | library/engine/src/system.rs:356 | the entities of a `Modified` event are its pairs' second components, in order |
| `Events.ModifiedEntitiesAppend` | library/engine/src/system.rs:355-365 | the entities the modify pass bumps for consecutive event lists concatenate |
| `Events.FlattenAppend` | library/engine/src/system.rs:183-194 | the entities the older modify handler bumps for consecutive event lists concatenate |
| `Events.DespawnedEntitiesAppend` | library/engine/src/system.rs:367-372 | the entities the despawn pass destroys for consecutive event lists concatenate |
| `Ecs.BumpAllCounts` | library/engine/src/system.rs:355-365 | each existing counter rises by exactly the number of times its entity is named; nothing else about any entity changes and none appears or disappears |
| `Ecs.BumpAllMonotone` | library/engine/src/system.rs:363 | counters never decrease |
| `Ecs.BumpAllAppend` | library/engine/src/system.rs:183-194 | bumping along two lists in turn is bumping along their concatenation |
| `Ecs.BumpAllValid` | library/engine/src/system.rs:355-365 | bumping counters keeps every entity owning a distinct existing mesh |
| `Ecs.ChangedExactlyWhenNamed` | library/engine/src/system.rs:385 | from cleared trackers, a layer entity is due for a mesh update exactly when it exists and some modification named it |
| `Ecs.ChangedAfterPass` | library/engine/src/system.rs:385 | after an event pass, an entity is due for a mesh update exactly when it survived and was spawned by the pass or named by a modification |
| `Ecs.AddMeshFresh` | library/engine/src/system.rs:276 | `meshes.add` returns a handle no mesh and no entity used before, and keeps the store consistent |
| `Ecs.SpawnFresh` | library/engine/src/system.rs:318-345 | a spawned entity is new to the registry, and the registry stays consistent when its mesh is one no other entity owns |
| `Ecs.World.AddMesh` | library/engine/src/system.rs:276 | a mesh is stored under a handle no existing mesh or entity uses |
| `Ecs.World.Spawn` | library/engine/src/system.rs:318-345 | a spawn yields a fresh entity carrying the bundle, or nothing with the registry unchanged |
| `Ecs.World.PushChildren` | library/engine/src/system.rs:352 | every listed entity gets the tilemap as parent and no other link changes |
| `Ecs.World.DespawnRecursive` | library/engine/src/system.rs:369 | the entity and its parent link are gone; nothing else changes |
| `Ecs.World.BumpModified` | library/engine/src/system.rs:356-364 | each named entity with a counter is bumped once per occurrence, others skipped |
| `Ecs.World.SetMeshAttributes` | library/engine/src/system.rs:414-415 | the mesh's attributes are replaced wholesale and no other mesh changes |
| `Spawning.RenderedMembers` | library/engine/src/system.rs:262-273 | a layer gets an entity exactly when it is below the layer count and its chunk has renderer data for it |
| `Spawning.RenderedAscending` | library/engine/src/system.rs:262-273 | the layers a chunk spawn renders come in strictly ascending z-order |
| `Spawning.RenderedBelow` | library/engine/src/system.rs:262-273 | a rendered layer `z` comes after every rendered layer below it |
| `Spawning.LayerStepEffect` | library/engine/src/system.rs:274-350 | one layer adds a fresh mesh holding its renderer data and stores it on the chunk; exactly when the registry has room it adds a fresh entity with the event's point, the z-order, that mesh, the placement and a zero counter, and stores it on the chunk; parent links do not change |
| `Spawning.LayersStop` | library/engine/src/system.rs:340-345 | once the layer loop has returned on a missing entity, further layers change nothing |
| `Spawning.LayersValid` | library/engine/src/system.rs:262-351 | the layer loop keeps every entity owning a distinct existing mesh |
| `Spawning.LayersStore` | library/engine/src/system.rs:262-351 | the layer loop only adds: old entities and meshes keep their values, and the new entities are exactly those it lists |
| `Spawning.LayersMeshes` | library/engine/src/system.rs:262-351 | every new mesh belongs to a listed entity, except the one mesh of the layer the loop returned at |
| `Spawning.LayersFilled` | library/engine/src/system.rs:262-351 | the listed entities are those of the rendered layers below where the loop got to, in z-order, each in its layer's slot on the chunk |
| `Spawning.LayersOnScreen` | library/engine/src/system.rs:262-351 | every rendered layer below where the loop got to has an entity with the event's point, its z-order, a mesh holding its data and its placement |
| `Spawning.LayersStray` | library/engine/src/system.rs:262-351 | a completed loop leaves no unowned mesh; one that returned leaves exactly the mesh of the layer it returned at |
| `Spawning.ChunkLayersStore` | library/engine/src/system.rs:248-352 | a chunk spawn only adds entities and meshes, and the new entities are those it lists |
| `Spawning.ChunkLayersMeshes` | library/engine/src/system.rs:248-352 | every new mesh of a chunk spawn belongs to a listed entity unless the spawn returned early |
| `Spawning.ChunkLayersValid` | library/engine/src/system.rs:248-352 | a chunk spawn keeps every entity owning a distinct existing mesh |
| `Spawning.ChunkLayersStray` | library/engine/src/system.rs:248-352 | a chunk spawn that returned early leaves exactly one unowned mesh, one that completed none |
| `Spawning.ChunkLayersParents` | library/engine/src/system.rs:352 | a completed chunk spawn makes its new entities children of the tilemap; one that returned early attaches none |
| `Spawning.ChunkLayersPlaced` | library/engine/src/system.rs:248-352 | each listed entity fills a layer slot of the chunk and is on screen; a completed chunk spawn has every rendered layer on screen, each slot filled by a listed entity |
| `Spawning.AtPointValid` | library/engine/src/system.rs:241-353 | handling one spawned point keeps every entity owning a distinct existing mesh |
| `Spawning.AtPointStore` | library/engine/src/system.rs:241-353 | handling one point only adds entities and meshes, and every new mesh belongs to a new entity unless the system returned |
| `Spawning.AtPointStray` | library/engine/src/system.rs:241-353 | handling one point leaves at most one unowned mesh, none when it completes |
| `Spawning.AtPointParents` | library/engine/src/system.rs:241-353 | handling one point attaches to the tilemap only entities it spawned, and all of them when it completes |
| `Spawning.AtPointPlaced` | library/engine/src/system.rs:241-260 | every entity spawned for a point fills a slot of that point's chunk, and a new point with a chunk ends with all rendered layers on screen |
| `Spawning.PassStop` | library/engine/src/system.rs:340-345 | after the early return no later point is handled: the pass equals its prefix up to the failing point |
| `Spawning.PassValid` | library/engine/src/system.rs:240-353 | the spawn pass keeps every entity owning a distinct existing mesh |
| `Spawning.PassStore` | library/engine/src/system.rs:240-353 | the spawn pass only adds entities and meshes; old ones keep their values |
| `Spawning.PassMeshes` | library/engine/src/system.rs:240-353 | every mesh the pass adds belongs to an entity it added, except one when it returned early |
| `Spawning.PassStray` | library/engine/src/system.rs:240-353 | the pass leaves at most one unowned mesh |
| `Spawning.PassParents` | library/engine/src/system.rs:240-353 | the pass attaches to the tilemap only entities it spawned, all of them when it completes, and changes no other link |
| `Spawning.PassChunks` | library/engine/src/system.rs:240-260 | no chunk changes its point or renderer data, and chunks at resident or unhandled points do not change at all |
| `Spawning.PassHandled` | library/engine/src/system.rs:240-345 | a pass that returned early did so at a point that was new, not met before, and held a chunk |
| `Spawning.PassPlaced` | library/engine/src/system.rs:240-353 | every entity the pass spawned sits in a slot of the chunk of a handled, formerly non-resident point |
| `Spawning.PassOnScreen` | library/engine/src/system.rs:240-353 | every new point with a chunk has all its rendered layers on screen: all handled points when the pass completed, all but the last when it returned early |
| `Spawning.PassIdle` | library/engine/src/system.rs:241-246 | a pass over points that are all resident changes nothing |
| `Tilemaps.Tilemap.SpawnLayer` | library/engine/src/system.rs:266-350 | the mesh, the entity and the chunk's slots after one layer are those of the one-layer specification |
| `Tilemaps.Tilemap.SpawnLayers` | library/engine/src/system.rs:261-351 | the layer loop, with its `continue`s and its `return`, yields the outcome of the layer-loop specification |
| `Tilemaps.Tilemap.SpawnChunkLayers` | library/engine/src/system.rs:248-352 | the chunk stored at the point and the registry after a chunk spawn are those of the chunk-spawn specification |
| `Tilemaps.Tilemap.SpawnIfNew` | library/engine/src/system.rs:241-260 | the point becomes resident whatever happens next, and the chunks and registry are those of the one-point specification |
| `Tilemaps.Tilemap.SpawnAll` | library/engine/src/system.rs:240-353 | the points handled become resident, and the chunks and registry are those of the pass specification |
| `Tilemaps.Tilemap.SpawnPhase` | library/engine/src/system.rs:240-353 | the spawn pass of `tilemap_events`, against `spawned_chunks` and with plain tile and chunk sizes |
| `Tilemaps.Tilemap.ModifyPhase` | library/engine/src/system.rs:355-365 | the registry after the modify pass is the counters bumped along every `Modified` event's entities in order |
| `Tilemaps.Tilemap.DespawnPhase` | library/engine/src/system.rs:367-372 | exactly the entities of the despawned chunks are removed, with their parent links |
| `Tilemaps.Tilemap.DespawnChunkEntities` | library/engine/src/system.rs:368-370 | exactly the entities of one despawned chunk are removed, with their parent links |
| `Tilemaps.Tilemap.ProcessEvents` | library/engine/src/system.rs:207-374 | spawns, then modifications of the registry the spawns left, then despawns (entities and parent links) of what the bumps left; a failed spawn pass stops before the other two |
| `Tilemaps.Tilemap.ChunkSpawnedEvents` | library/engine/src/system.rs:31-166 | the older spawn handler: the per-map resident set is created on the first event and grows as in the spawn pass; new chunks are placed with texture-scaled sizes; other maps' sets are untouched |
| `Tilemaps.Tilemap.ChunkModifiedEvents` | library/engine/src/system.rs:180-195 | the older modify handler bumps every named entity's counter once per occurrence, in order |
| `Tilemaps.Tilemap.RefreshLayer` | library/engine/src/system.rs:388-415 | one changed layer entity is refreshed exactly when its tilemap, chunk, mesh and renderer data are all there; then only its mesh changes, to its layer's current data, and layers refreshed earlier stay so |
| `Tilemaps.Tilemap.UpdateChangedLayers` | library/engine/src/system.rs:387-416 | completes exactly when every changed entity is a child of this tilemap with its chunk, mesh and renderer data present; then every such mesh holds its layer's current data; whether or not it completes, every entity it reports refreshed is a changed entity whose mesh holds its layer's current data, and every other mesh is unchanged |

## Left out

- `tilemap_update_events` (system.rs:13-19) and the double-buffered event
  queue are Bevy code that is not part of this model. Events are given as
  a sequence per pass.
- The older handlers call `reader.iter` twice (system.rs:32-34 and
  181-183), the first time only to count the events. `EventReader` is
  Bevy code that is not part of this model. The model gives each handler
  its events once, as if counting did not consume them.
- The camera arithmetic of `auto_spawn` (system.rs:426-429) and
  `point_to_chunk_point` are left out. The camera's chunk is an input
  (`center`, one per camera) because `point_to_chunk_point` has no body
  in this repository.
- `spawn_chunk` and `despawn_chunk` are only logged. Their effect on the
  tilemap's chunk table and resident set belongs to a tilemap
  implementation that is not part of this model.
- `tiles_to_renderer_parts`, `set_mesh` and `set_entity` are trait methods
  without bodies. The renderer data of a chunk is a per-layer map
  (`Chunk.parts`) that ignores the chunk-dimensions argument. The handles
  are per-layer maps on the chunk.
- Rendering setup is left out: mesh construction, pipelines, texture
  atlas handles, visibility and the other bundle fields. They carry no
  logic the systems branch on.
- Logging (`warn!`, `info!`, `error!`) is left out.
- The 32-bit integer arithmetic and `f32` rounding are modelled over
  unbounded integers and exact reals, so `i32`/`u32` overflow is not
  modelled. This covers the placement formulas, the radius formula, and
  the window arithmetic of `auto_spawn` (system.rs:431-436). That is the
  casts `spawn_dimensions.width as i32` and `height as i32`, the range
  ends `spawn_width + 1` and `spawn_height + 1`, and the sums
  `x + chunk_x` and `y + chunk_y`. The same goes for the cast
  `(width / chunk_width) as i32` in the clipping tests
  (system.rs:438, 444).
  - `Geometry.PackedIsIntegerTruncation` holds for offsets that `f32`
    represents exactly.
  - `Geometry.CeilDivIsFloatCeil` holds for quotients computed exactly.
- `Ecs.World.Spawn`: the registry's failure to produce an entity is
  modelled by a capacity. Bevy's actual reasons for `current_entity()`
  returning `None` are not modelled.
- `Tilemaps.Tilemap.ProcessEvents`: `commands.spawn`, `push_children` and
  `despawn_recursive` take effect at once in the model. In Bevy they are
  queued `Commands`, applied after the system. So `layer_query.get_mut`
  (system.rs:357) sees the world from before this system's spawns. A
  `Modified` event naming an entity spawned earlier in the same pass is
  skipped by the code, but bumped by the model, which bumps the registry
  the spawns left. The same holds for `ChunkModifiedEvents` after
  `ChunkSpawnedEvents` in one stage.
- One tilemap is modelled per system run. The systems loop over all
  tilemaps (system.rs:31, 180, 217, 479, 510), and the model covers one
  iteration of that loop. A spawn that finds no entity hits the `return`
  at system.rs:157 or 344. That leaves the whole system, so the tilemaps
  after the failing one get no pass in that run. The model reports the
  return (`ok`/`completed` false) but does not model the other maps.
- `Tilemaps.Tilemap.UpdateChangedLayers`: `tilemap_chunk_update`
  (system.rs:387-413) walks the changed layer entities of all tilemaps at
  once, and any of its `return`s stops all of them. The model has one
  tilemap. A changed entity whose parent is another tilemap counts as
  "tilemap missing" and ends the run. The code would refresh that entity
  from its own tilemap.
- The iteration order of the `HashSet`s and of the change query is
  unspecified. It is modelled by a nondeterministic choice, and despawn
  requests are stated as a multiset.
- `Tilemaps.Tilemap.AutoSpawn`: the despawn snapshot is the resident set
  as it stands on entry. `spawn_chunk` is not modelled as inserting into
  it (see above), so the snapshot taken after the spawns is the same set.

## Findings

| source | as written | input that shows it | evidently intended | confidence | as-written member | corrected member |
|---|---|---|---|---|---|---|
| library/engine/src/system.rs:433-434 | the outer loop offset `y` runs over `-spawn_width..=spawn_width` and the inner `x` over `-spawn_height..=spawn_height`, so the window is the radius transposed | spawn dimensions (1, 0) around chunk (0, 0) on an unbounded map: (0, 1) is requested and (1, 0) is not | x offsets bounded by the spawn width (chunks across the viewport) and y offsets by the spawn height | medium, not executed | `Window.CrossedAxesExample` | `Window.IntendedWindowMembers` |

`Tilemaps.Tilemap.AutoSpawn` and the systems above it keep the window as
written, because that is what the code requests. `Window.IntendedWindow`
is the window a corrected `auto_spawn` would request.
`Window.CrossedAxesAgreeWhenSquare` shows that the two differ only for a
radius that is not square.
