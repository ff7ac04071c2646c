/** The chunk lifecycle systems of a tilemap: windowed auto-spawn around a
    camera, the auto-radius on window resize, the event pass that spawns,
    modifies and despawns chunk layers, the older per-kind handlers, and the
    mesh refresh of changed layers. */
module Tilemaps {

  import opened Options
  import opened Geometry
  import opened Ecs
  import opened Events
  import opened Spawning
  import W = Window

  /** Concatenation regroups. */
  lemma ConcatAssoc(a: seq<Point>, b: seq<Point>, c: seq<Point>)
    ensures a + (b + c) == (a + b) + c
  {
  }

  /** The resident set the older spawn handler keeps for the tilemap
      `map`; empty before its first event. */
  function ResidentOf(byMap: map<EntityId, set<Point>>, m: EntityId): set<Point> {
    if m in byMap then byMap[m] else {}
  }

  /** The layer entities `tilemap_chunk_update` visits: those with a parent
      whose `ModifiedLayer` counter changed. */
  function Pending(entries: map<EntityId, LayerEntry>, parents: map<EntityId, EntityId>, seen: map<EntityId, nat>): (r: set<EntityId>)
    ensures forall e :: e in r <==> e in Changed(entries, seen) && e in parents
    ensures r <= entries.Keys
  {
    set e | e in Changed(entries, seen) && e in parents
  }

  /** One more entity owns one more mesh: its own. */
  lemma MeshesOfInsert(entries: map<EntityId, LayerEntry>, es: set<EntityId>, e: EntityId)
    requires e in entries
    ensures MeshesOf(entries, es + {e}) == MeshesOf(entries, es) + {entries[e].mesh}
  {
  }

  /** Everything the refresh of a layer entity looks up is there: its parent
      is the tilemap `mapEntity`, which holds a chunk at its point with
      renderer data for its z-order, and its mesh exists. */
  predicate Updatable(entry: LayerEntry, parent: EntityId, mapEntity: EntityId,
                      chunks: map<Point, Chunk>, meshes: map<MeshId, RendererParts>)
  {
    parent == mapEntity && entry.point in chunks && entry.mesh in meshes && entry.zOrder in chunks[entry.point].parts
  }

  /** The layer entity's mesh holds its chunk's renderer data for its layer. */
  predicate Refreshed(entry: LayerEntry, chunks: map<Point, Chunk>, meshes: map<MeshId, RendererParts>) {
    entry.point in chunks && entry.zOrder in chunks[entry.point].parts
    && entry.mesh in meshes && meshes[entry.mesh] == chunks[entry.point].parts[entry.zOrder]
  }

  /** The resident points that a window `keep` leaves out. */
  function Outside(resident: set<Point>, keep: seq<Point>): (r: set<Point>)
    ensures forall p :: p in r <==> p in resident && p !in keep
  {
    resident - set p | p in keep
  }

  /** The spawn requests of one `auto_spawn` per camera centre, in order. */
  function Windows(e: W.Extent, centers: seq<Point>, spawnWidth: nat, spawnHeight: nat): seq<Point>
    requires W.ValidExtent(e)
    decreases |centers|
  {
    if centers == [] then []
    else Windows(e, centers[..|centers| - 1], spawnWidth, spawnHeight)
         + W.Window(e, centers[|centers| - 1], spawnWidth, spawnHeight)
  }

  /** One more camera adds the spawn requests of its own window. */
  lemma WindowsStep(e: W.Extent, centers: seq<Point>, j: nat, spawnWidth: nat, spawnHeight: nat)
    requires W.ValidExtent(e) && j < |centers|
    ensures Windows(e, centers[..j + 1], spawnWidth, spawnHeight)
            == Windows(e, centers[..j], spawnWidth, spawnHeight) + W.Window(e, centers[j], spawnWidth, spawnHeight)
  {
    assert centers[..j + 1][..j] == centers[..j];
  }

  /** The spawn requests of `tilemap_chunk_auto_spawn` for the cameras at
      `centers`: none when auto-spawn is off. */
  function CameraRequests(e: W.Extent, autoSpawn: Option<(nat, nat)>, centers: seq<Point>): seq<Point>
    requires W.ValidExtent(e)
  {
    if autoSpawn.None? then [] else Windows(e, centers, autoSpawn.value.0, autoSpawn.value.1)
  }

  /** The despawn requests of one `auto_spawn` per camera centre, counted
      with multiplicity: each leaves out the resident points outside its own
      window, in the resident set's order. */
  function Despawns(resident: set<Point>, e: W.Extent, centers: seq<Point>, spawnWidth: nat, spawnHeight: nat): multiset<Point>
    requires W.ValidExtent(e)
    decreases |centers|
  {
    if centers == [] then multiset{}
    else Despawns(resident, e, centers[..|centers| - 1], spawnWidth, spawnHeight)
         + multiset(Outside(resident, W.Window(e, centers[|centers| - 1], spawnWidth, spawnHeight)))
  }

  /** One more camera adds the despawn requests of its own window. */
  lemma DespawnsStep(resident: set<Point>, e: W.Extent, centers: seq<Point>, j: nat, spawnWidth: nat, spawnHeight: nat)
    requires W.ValidExtent(e) && j < |centers|
    ensures Despawns(resident, e, centers[..j + 1], spawnWidth, spawnHeight)
            == Despawns(resident, e, centers[..j], spawnWidth, spawnHeight)
               + multiset(Outside(resident, W.Window(e, centers[j], spawnWidth, spawnHeight)))
  {
    assert centers[..j + 1][..j] == centers[..j];
  }

  /** The despawn requests of `tilemap_chunk_auto_spawn` for the cameras at
      `centers`: none when auto-spawn is off. */
  function CameraDespawns(resident: set<Point>, e: W.Extent, autoSpawn: Option<(nat, nat)>, centers: seq<Point>): multiset<Point>
    requires W.ValidExtent(e)
  {
    if autoSpawn.None? then multiset{} else Despawns(resident, e, centers, autoSpawn.value.0, autoSpawn.value.1)
  }

  /** One more resize adds the despawn requests of every camera's window at
      its radius. */
  lemma ResizeDespawnsStep(resident: set<Point>, e: W.Extent, resizes: seq<(nat, nat)>, i: nat, centers: seq<Point>,
                           chunkPixelWidth: nat, chunkPixelHeight: nat)
    requires W.ValidExtent(e) && chunkPixelWidth > 0 && chunkPixelHeight > 0 && i < |resizes|
    ensures var radius := Radius(resizes[i].0, resizes[i].1, chunkPixelWidth, chunkPixelHeight);
            ResizeDespawns(resident, e, resizes[..i + 1], centers, chunkPixelWidth, chunkPixelHeight)
            == ResizeDespawns(resident, e, resizes[..i], centers, chunkPixelWidth, chunkPixelHeight)
               + Despawns(resident, e, centers, radius.0, radius.1)
  {
    assert resizes[..i + 1][..i] == resizes[..i];
  }

  /** The chunk-per-axis radius a resized window asks for. */
  function Radius(windowWidth: nat, windowHeight: nat, chunkPixelWidth: nat, chunkPixelHeight: nat): (r: (nat, nat))
    requires chunkPixelWidth > 0 && chunkPixelHeight > 0
    ensures r.0 >= 1 && r.1 >= 1
  {
    (ChunksAlong(windowWidth, chunkPixelWidth), ChunksAlong(windowHeight, chunkPixelHeight))
  }

  /** The spawn requests of a sequence of window resizes, each re-running
      `auto_spawn` for every camera with the radius the new size asks for. */
  function ResizeRequests(e: W.Extent, resizes: seq<(nat, nat)>, centers: seq<Point>,
                          chunkPixelWidth: nat, chunkPixelHeight: nat): seq<Point>
    requires W.ValidExtent(e) && chunkPixelWidth > 0 && chunkPixelHeight > 0
    decreases |resizes|
  {
    if resizes == [] then []
    else
      var radius := Radius(resizes[0].0, resizes[0].1, chunkPixelWidth, chunkPixelHeight);
      Windows(e, centers, radius.0, radius.1) + ResizeRequests(e, resizes[1..], centers, chunkPixelWidth, chunkPixelHeight)
  }

  /** The despawn requests of a sequence of window resizes, counted with
      multiplicity. */
  function ResizeDespawns(resident: set<Point>, e: W.Extent, resizes: seq<(nat, nat)>, centers: seq<Point>,
                          chunkPixelWidth: nat, chunkPixelHeight: nat): multiset<Point>
    requires W.ValidExtent(e) && chunkPixelWidth > 0 && chunkPixelHeight > 0
    decreases |resizes|
  {
    if resizes == [] then multiset{}
    else
      var last := resizes[|resizes| - 1];
      var radius := Radius(last.0, last.1, chunkPixelWidth, chunkPixelHeight);
      ResizeDespawns(resident, e, resizes[..|resizes| - 1], centers, chunkPixelWidth, chunkPixelHeight)
      + Despawns(resident, e, centers, radius.0, radius.1)
  }

  /** The per-map resident sets of the older spawn handler, keyed by the
      tilemap's entity. */
  class SpawnedChunks {
    var byMap: map<EntityId, set<Point>>

    constructor ()
      ensures byMap == map[]
    {
      byMap := map[];
    }
  }

  class Tilemap {
    /** The tilemap's own entity, parent of its layer entities. */
    var entity: EntityId
    var topology: GridTopology
    /** The length of `layers()`. Which of its slots hold a layer never
        matters to the chunk systems: their test `layers.get(z_order)` only
        fails out of range, so the renderer data alone decides. */
    var layerCount: nat
    var tileWidth: nat
    var tileHeight: nat
    var chunkWidth: nat
    var chunkHeight: nat
    var textureWidth: nat
    var textureHeight: nat
    /** The bounded map extent in tiles; `None` is unbounded. */
    var width: Option<nat>
    var height: Option<nat>
    /** The auto-spawn radius in chunks (width, height), if auto-spawn is on. */
    var autoSpawn: Option<(nat, nat)>
    /** `spawned_chunks`: the chunk points whose layers have been spawned. */
    var spawned: set<Point>
    var chunks: map<Point, Chunk>
    /** Every `spawn_chunk` request made, in order. */
    ghost var spawnRequests: seq<Point>
    /** Every `despawn_chunk` request made, in order. */
    ghost var despawnRequests: seq<Point>

    /** Sizes are divisors in clipping and in the radius computation. */
    ghost predicate Valid()
      reads this`tileWidth, this`tileHeight, this`chunkWidth, this`chunkHeight
    {
      tileWidth > 0 && tileHeight > 0 && chunkWidth > 0 && chunkHeight > 0
    }

    constructor (entity: EntityId, topology: GridTopology, layerCount: nat,
                 tileWidth: nat, tileHeight: nat, chunkWidth: nat, chunkHeight: nat,
                 textureWidth: nat, textureHeight: nat, width: Option<nat>, height: Option<nat>,
                 chunks: map<Point, Chunk>)
      requires tileWidth > 0 && tileHeight > 0 && chunkWidth > 0 && chunkHeight > 0
      ensures Valid()
      ensures this.entity == entity && this.topology == topology && this.layerCount == layerCount
      ensures this.tileWidth == tileWidth && this.tileHeight == tileHeight
      ensures this.chunkWidth == chunkWidth && this.chunkHeight == chunkHeight
      ensures this.textureWidth == textureWidth && this.textureHeight == textureHeight
      ensures this.width == width && this.height == height && this.chunks == chunks
      ensures autoSpawn == None && spawned == {} && spawnRequests == [] && despawnRequests == []
    {
      this.entity, this.topology, this.layerCount := entity, topology, layerCount;
      this.tileWidth, this.tileHeight := tileWidth, tileHeight;
      this.chunkWidth, this.chunkHeight := chunkWidth, chunkHeight;
      this.textureWidth, this.textureHeight := textureWidth, textureHeight;
      this.width, this.height, this.chunks := width, height, chunks;
      autoSpawn, spawned := None, {};
      spawnRequests, despawnRequests := [], [];
    }

    /** What the clipping test of `auto_spawn` reads. */
    function Extent(): (e: W.Extent)
      reads this`tileWidth, this`tileHeight, this`chunkWidth, this`chunkHeight, this`width, this`height
      requires Valid()
      ensures W.ValidExtent(e)
    {
      W.Extent(width, height, chunkWidth, chunkHeight)
    }

    /** A chunk's size in pixels, width and height. */
    function ChunkPixels(): (r: (nat, nat))
      reads this`tileWidth, this`tileHeight, this`chunkWidth, this`chunkHeight
      requires Valid()
      ensures r.0 > 0 && r.1 > 0
    {
      var w, h := chunkWidth * tileWidth, chunkHeight * tileHeight;
      assert w >= chunkWidth && h >= chunkHeight;
      (w, h)
    }

    /** The sizes `tilemap_events` places layers with. */
    function Dims(): PixelDims
      reads this`tileWidth, this`tileHeight, this`chunkWidth, this`chunkHeight
    {
      PixelDims(tileWidth, tileHeight, chunkWidth, chunkHeight)
    }

    /** The sizes the older spawn handler places layers with: tile and chunk
        sizes both scaled by the texture size. */
    function TexturedDims(): (r: PixelDims)
      reads this`tileWidth, this`tileHeight, this`chunkWidth, this`chunkHeight, this`textureWidth, this`textureHeight
      ensures textureWidth == 1 && textureHeight == 1 ==> r == Dims()
    {
      PixelDims(tileWidth * textureWidth, tileHeight * textureHeight,
                chunkWidth * textureWidth, chunkHeight * textureHeight)
    }

    /** `spawn_chunk(point)`: the request is recorded; its outcome only
        reaches a log line. */
    method SpawnChunk(p: Point)
      modifies this`spawnRequests
      ensures spawnRequests == old(spawnRequests) + [p]
    {
      spawnRequests := spawnRequests + [p];
    }

    /** `despawn_chunk(point)`: the request is recorded. */
    method DespawnChunk(p: Point)
      modifies this`despawnRequests
      ensures despawnRequests == old(despawnRequests) + [p]
    {
      despawnRequests := despawnRequests + [p];
    }

    // -------------------------------------------------------------------------
    // auto_spawn

    /** `auto_spawn` around the chunk `center`: a spawn request for every
        admitted coordinate of the window, in loop order, then a despawn
        request for every resident chunk outside it, in the resident set's
        own order. */
    method AutoSpawn(center: Point, spawnWidth: nat, spawnHeight: nat) returns (newSpawned: seq<Point>, ghost despawned: seq<Point>)
      requires Valid()
      modifies this`spawnRequests, this`despawnRequests
      ensures newSpawned == W.Window(Extent(), center, spawnWidth, spawnHeight)
      ensures spawnRequests == old(spawnRequests) + newSpawned
      ensures despawnRequests == old(despawnRequests) + despawned
      ensures multiset(despawned) == multiset(Outside(spawned, newSpawned))
    {
      newSpawned := SpawnWindow(center, spawnWidth, spawnHeight, Extent());
      despawned := DespawnOutside(newSpawned);
    }

    /** The two nested loops of `auto_spawn`: the outer offset `y` runs over
        the spawn width and the inner offset `x` over the spawn height. The
        steps of `auto_spawn` are stated against the tilemap's extent `e`,
        which they do not change. */
    method SpawnWindow(center: Point, spawnWidth: nat, spawnHeight: nat, ghost e: W.Extent) returns (newSpawned: seq<Point>)
      requires Valid() && e == Extent()
      modifies this`spawnRequests
      ensures newSpawned == W.Window(e, center, spawnWidth, spawnHeight)
      ensures spawnRequests == old(spawnRequests) + newSpawned
    {
      newSpawned := [];
      for y := -(spawnWidth as int) to spawnWidth + 1
        invariant newSpawned + W.Rows(e, center, y, spawnWidth, spawnHeight) == W.Window(e, center, spawnWidth, spawnHeight)
        invariant spawnRequests == old(spawnRequests) + newSpawned
      {
        W.RowsStep(e, center, y, spawnWidth, spawnHeight);
        var row := SpawnRow(center, y, spawnHeight, e);
        ConcatAssoc(newSpawned, row, W.Rows(e, center, y + 1, spawnWidth, spawnHeight));
        newSpawned := newSpawned + row;
      }
    }

    /** The inner loop of `auto_spawn` for offset row `y`: each admitted
        candidate is requested and pushed, whatever the request returns. */
    method SpawnRow(center: Point, y: int, spawnHeight: nat, ghost e: W.Extent) returns (row: seq<Point>)
      requires Valid() && e == Extent()
      modifies this`spawnRequests
      ensures row == W.Row(e, center, y, -(spawnHeight as int), spawnHeight)
      ensures spawnRequests == old(spawnRequests) + row
    {
      row := [];
      for x := -(spawnHeight as int) to spawnHeight + 1
        invariant row + W.Row(e, center, y, x, spawnHeight) == W.Row(e, center, y, -(spawnHeight as int), spawnHeight)
        invariant spawnRequests == old(spawnRequests) + row
      {
        var chunkX := x + center.x;
        var chunkY := y + center.y;
        W.RowStep(e, center, y, x, spawnHeight);
        var admitted := Admitted(chunkX, chunkY, e);
        if admitted {
          SpawnChunk(Point(chunkX, chunkY));
          ConcatAssoc(row, [Point(chunkX, chunkY)], W.Row(e, center, y, x + 1, spawnHeight));
          row := row + [Point(chunkX, chunkY)];
        } else {
          assert [] + W.Row(e, center, y, x + 1, spawnHeight) == W.Row(e, center, y, x + 1, spawnHeight);
        }
      }
    }

    /** The two `continue` tests of the inner loop of `auto_spawn`: on a
        bounded axis the coordinate must lie within half the map's extent in
        chunks (integer division) of the origin. */
    method Admitted(chunkX: int, chunkY: int, ghost e: W.Extent) returns (admitted: bool)
      requires Valid() && e == Extent()
      ensures admitted == W.Admits(e, Point(chunkX, chunkY))
    {
      if width.Some? {
        var w := (width.value / chunkWidth) / 2;
        if chunkX < -w || chunkX > w {
          return false;
        }
      }
      if height.Some? {
        var h := (height.value / chunkHeight) / 2;
        if chunkY < -h || chunkY > h {
          return false;
        }
      }
      return true;
    }

    /** The tail of `auto_spawn`: over a snapshot of the resident set, a
        despawn request for each point not kept, in the set's own order. */
    method DespawnOutside(keep: seq<Point>) returns (ghost despawned: seq<Point>)
      modifies this`despawnRequests
      ensures despawnRequests == old(despawnRequests) + despawned
      ensures multiset(despawned) == multiset(Outside(spawned, keep))
    {
      ghost var kept := set p | p in keep;
      var snapshot := spawned;
      var rest := snapshot;
      despawned := [];
      while rest != {}
        invariant rest <= snapshot
        invariant despawnRequests == old(despawnRequests) + despawned
        invariant multiset(despawned) == multiset((snapshot - rest) - kept)
        decreases rest
      {
        var p :| p in rest;
        if p !in keep {
          DespawnChunk(p);
          despawned := despawned + [p];
          assert (snapshot - (rest - {p})) - kept == ((snapshot - rest) - kept) + {p};
        } else {
          assert (snapshot - (rest - {p})) - kept == (snapshot - rest) - kept;
        }
        rest := rest - {p};
      }
      assert (snapshot - rest) - kept == Outside(spawned, keep);
    }

    // -------------------------------------------------------------------------
    // tilemap_chunk_auto_spawn and tilemap_chunk_auto_radius

    /** `tilemap_chunk_auto_spawn`: one `auto_spawn` per moved camera, each
        given as the chunk its translation falls in, when auto-spawn is on;
        nothing when it is off. */
    method AutoSpawnCameras(centers: seq<Point>) returns (ghost despawned: seq<Point>)
      requires Valid()
      modifies this`spawnRequests, this`despawnRequests
      ensures despawnRequests == old(despawnRequests) + despawned
      ensures autoSpawn.None? ==> spawnRequests == old(spawnRequests) && despawned == []
      ensures autoSpawn.Some? ==>
                spawnRequests == old(spawnRequests) + Windows(Extent(), centers, autoSpawn.value.0, autoSpawn.value.1)
      ensures autoSpawn.Some? ==>
                multiset(despawned) == Despawns(spawned, Extent(), centers, autoSpawn.value.0, autoSpawn.value.1)
    {
      ghost var e := Extent();
      despawned := [];
      for i := 0 to |centers|
        invariant spawnRequests == old(spawnRequests) + CameraRequests(e, autoSpawn, centers[..i])
        invariant despawnRequests == old(despawnRequests) + despawned
        invariant multiset(despawned) == CameraDespawns(spawned, e, autoSpawn, centers[..i])
      {
        var spawnDimensions;
        if autoSpawn.Some? {
          spawnDimensions := autoSpawn.value;
        } else {
          continue;
        }
        var newSpawned, more := AutoSpawn(centers[i], spawnDimensions.0, spawnDimensions.1);
        WindowsStep(e, centers, i, spawnDimensions.0, spawnDimensions.1);
        ConcatAssoc(old(spawnRequests), Windows(e, centers[..i], spawnDimensions.0, spawnDimensions.1), newSpawned);
        DespawnsStep(spawned, e, centers, i, spawnDimensions.0, spawnDimensions.1);
        ConcatAssoc(old(despawnRequests), despawned, more);
        despawned := despawned + more;
      }
      assert centers[..|centers|] == centers;
    }

    /** The camera loop of `tilemap_chunk_auto_radius`: `auto_spawn` around
        each camera's chunk with the given radius. */
    method AutoSpawnAll(centers: seq<Point>, spawnWidth: nat, spawnHeight: nat, ghost e: W.Extent)
      returns (ghost despawned: seq<Point>)
      requires Valid() && e == Extent()
      modifies this`spawnRequests, this`despawnRequests
      ensures spawnRequests == old(spawnRequests) + Windows(e, centers, spawnWidth, spawnHeight)
      ensures despawnRequests == old(despawnRequests) + despawned
      ensures multiset(despawned) == Despawns(spawned, e, centers, spawnWidth, spawnHeight)
    {
      despawned := [];
      for j := 0 to |centers|
        invariant spawnRequests == old(spawnRequests) + Windows(e, centers[..j], spawnWidth, spawnHeight)
        invariant despawnRequests == old(despawnRequests) + despawned
        invariant multiset(despawned) == Despawns(spawned, e, centers[..j], spawnWidth, spawnHeight)
      {
        var newSpawned, more := AutoSpawn(centers[j], spawnWidth, spawnHeight);
        WindowsStep(e, centers, j, spawnWidth, spawnHeight);
        ConcatAssoc(old(spawnRequests), Windows(e, centers[..j], spawnWidth, spawnHeight), newSpawned);
        DespawnsStep(spawned, e, centers, j, spawnWidth, spawnHeight);
        ConcatAssoc(old(despawnRequests), despawned, more);
        despawned := despawned + more;
      }
      assert centers[..|centers|] == centers;
    }

    /** `tilemap_chunk_auto_radius`: for each window resize, in order, the
        radius becomes `ceil(window / chunk pixels) + 1` per axis and
        `auto_spawn` runs for every camera with it. */
    method AutoRadius(resizes: seq<(nat, nat)>, centers: seq<Point>) returns (ghost despawned: seq<Point>)
      requires Valid()
      modifies this`autoSpawn, this`spawnRequests, this`despawnRequests
      ensures autoSpawn == if resizes == [] then old(autoSpawn)
                           else Some(Radius(resizes[|resizes| - 1].0, resizes[|resizes| - 1].1,
                                            ChunkPixels().0, ChunkPixels().1))
      ensures spawnRequests
           == old(spawnRequests) + ResizeRequests(Extent(), resizes, centers, ChunkPixels().0, ChunkPixels().1)
      ensures despawnRequests == old(despawnRequests) + despawned
      ensures multiset(despawned) == ResizeDespawns(spawned, Extent(), resizes, centers, ChunkPixels().0, ChunkPixels().1)
    {
      ghost var e, pixels := Extent(), ChunkPixels();
      despawned := [];
      for i := 0 to |resizes|
        invariant autoSpawn == if i == 0 then old(autoSpawn)
                               else Some(Radius(resizes[i - 1].0, resizes[i - 1].1, pixels.0, pixels.1))
        invariant spawnRequests + ResizeRequests(e, resizes[i..], centers, pixels.0, pixels.1)
                  == old(spawnRequests) + ResizeRequests(e, resizes, centers, pixels.0, pixels.1)
        invariant despawnRequests == old(despawnRequests) + despawned
        invariant multiset(despawned) == ResizeDespawns(spawned, e, resizes[..i], centers, pixels.0, pixels.1)
      {
        assert resizes[i..][1..] == resizes[i + 1..];
        ghost var requested := spawnRequests;
        var more := Resize(resizes[i].0, resizes[i].1, centers, e, pixels);
        ConcatAssoc(requested, Windows(e, centers, autoSpawn.value.0, autoSpawn.value.1),
                    ResizeRequests(e, resizes[i + 1..], centers, pixels.0, pixels.1));
        ResizeDespawnsStep(spawned, e, resizes, i, centers, pixels.0, pixels.1);
        ConcatAssoc(old(despawnRequests), despawned, more);
        despawned := despawned + more;
      }
      assert resizes[..|resizes|] == resizes;
    }

    /** One resize event of `tilemap_chunk_auto_radius`: the radius becomes
        one more than the window's size in chunks, rounded up, per axis, and
        `auto_spawn` runs for every camera with it. */
    method Resize(windowWidth: nat, windowHeight: nat, centers: seq<Point>, ghost e: W.Extent, ghost pixels: (nat, nat))
      returns (ghost despawned: seq<Point>)
      requires Valid() && e == Extent() && pixels == ChunkPixels()
      modifies this`autoSpawn, this`spawnRequests, this`despawnRequests
      ensures autoSpawn == Some(Radius(windowWidth, windowHeight, pixels.0, pixels.1))
      ensures spawnRequests == old(spawnRequests) + Windows(e, centers, autoSpawn.value.0, autoSpawn.value.1)
      ensures despawnRequests == old(despawnRequests) + despawned
      ensures multiset(despawned) == Despawns(spawned, e, centers, autoSpawn.value.0, autoSpawn.value.1)
    {
      var chunkPixelWidth, chunkPixelHeight := ChunkPixels().0, ChunkPixels().1;
      var chunksWide := ChunksAlong(windowWidth, chunkPixelWidth);
      var chunksHigh := ChunksAlong(windowHeight, chunkPixelHeight);
      autoSpawn := Some((chunksWide, chunksHigh));
      despawned := AutoSpawnAll(centers, chunksWide, chunksHigh, e);
    }

    // -------------------------------------------------------------------------
    // Spawning the layers of one chunk

    /** What the spawn pass of `tilemap_events` reads of the tilemap: its
        entity, layer count and topology, and the plain tile and chunk
        sizes. */
    function EventLayout(): Layout
      reads this`entity, this`layerCount, this`topology, this`tileWidth, this`tileHeight, this`chunkWidth, this`chunkHeight
    {
      Layout(entity, layerCount, topology, Dims())
    }

    /** What the older spawn handler reads of the tilemap: the same, with
        the sizes scaled by the texture size. */
    function HandlerLayout(): Layout
      reads this`entity, this`layerCount, this`topology, this`tileWidth, this`tileHeight, this`chunkWidth, this`chunkHeight,
            this`textureWidth, this`textureHeight
    {
      Layout(entity, layerCount, topology, TexturedDims())
    }

    /** One layer of a chunk spawn: a mesh holding the layer's renderer data
        is added and stored on the chunk `c` (held at `p`), then an entity is
        spawned for the layer; when the registry yields one it is stored on
        the chunk too. */
    method SpawnLayer(p: Point, c: Chunk, z: nat, world: World, l: Layout) returns (c': Chunk, r: Option<EntityId>)
      requires world.Valid() && z in c.parts
      modifies world`meshes, world`nextMesh, world`entries, world`nextEntity
      ensures world.Valid()
      ensures (c', r, world.State()) == LayerStep(p, c, z, old(world.State()), l)
    {
      ghost var s := world.State();
      AddMeshFresh(s, c.parts[z]);
      var h := world.AddMesh(c.parts[z]);
      c' := c.(meshes := c.meshes[z := h]);
      r := world.Spawn(LayerEntry(p, z, h, LayerTransform(l, c.point, z), 0));
      if r.Some? {
        c' := c'.(entities := c'.entities[z := r.value]);
      }
    }

    /** The z-order loop of a chunk spawn, on the chunk `c` held at `p`:
        every layer with renderer data gets a mesh and an entity, in z-order;
        when the registry yields no entity the loop stops (`ok` is false) and
        so does the whole system. */
    method SpawnLayers(p: Point, c: Chunk, world: World, l: Layout) returns (ok: bool, chunk: Chunk, entities: seq<EntityId>)
      requires world.Valid()
      modifies world`meshes, world`nextMesh, world`entries, world`nextEntity
      ensures world.Valid()
      ensures var o := Layers(p, c, l.layerCount, old(world.State()), l);
              ok == o.ok && chunk == o.chunk && entities == o.entities && world.State() == o.store
    {
      ghost var s := world.State();
      ok, chunk, entities := true, c, [];
      var z := 0;
      while ok && z < l.layerCount
        invariant world.Valid() && z <= l.layerCount
        invariant var o := Layers(p, c, z, s, l);
                  ok == o.ok && chunk == o.chunk && entities == o.entities && world.State() == o.store
        decreases l.layerCount - z
      {
        if z in chunk.parts {
          var c', r := SpawnLayer(p, chunk, z, world, l);
          if r.Some? {
            chunk, entities := c', entities + [r.value];
          } else {
            ok, chunk := false, c';
          }
        }
        z := z + 1;
      }
      if !ok {
        LayersStop(p, c, z, l.layerCount, s, l);
      }
    }

    /** A chunk spawn: the layer loop over the chunk stored at `p`, whose
        handles are stored back, then, when it completed, the new entities
        become children of the tilemap. */
    method SpawnChunkLayers(p: Point, world: World, l: Layout) returns (ok: bool, entities: seq<EntityId>)
      requires world.Valid() && p in chunks
      modifies this`chunks, world`meshes, world`nextMesh, world`entries, world`nextEntity, world`parents
      ensures world.Valid()
      ensures var o := ChunkLayers(p, old(chunks)[p], old(world.State()), l);
              ok == o.ok && entities == o.entities && chunks == old(chunks)[p := o.chunk] && world.State() == o.store
    {
      var chunk;
      ok, chunk, entities := SpawnLayers(p, chunks[p], world, l);
      chunks := chunks[p := chunk];
      if ok {
        world.PushChildren(l.mapEntity, entities);
      }
    }

    // -------------------------------------------------------------------------
    // tilemap_events

    /** One point of a spawn pass, against the resident set `resident`: a
        point already in it is skipped; otherwise it is inserted, and when the
        tilemap holds a chunk there its layers are spawned. `ok` is false when
        the registry ran out. */
    method SpawnIfNew(p: Point, resident: set<Point>, world: World, l: Layout) returns (ok: bool, resident': set<Point>)
      requires world.Valid()
      modifies this`chunks, world`meshes, world`nextMesh, world`entries, world`nextEntity, world`parents
      ensures world.Valid()
      ensures resident' == resident + {p}
      ensures var q := AtPoint(p, resident, old(chunks), old(world.State()), l);
              ok == q.ok && chunks == q.chunks && world.State() == q.store
    {
      if p in resident {
        return true, resident;
      }
      resident' := resident + {p};
      if p !in chunks {
        return true, resident';
      }
      var entities;
      ok, entities := SpawnChunkLayers(p, world, l);
    }

    /** The loop over the `Spawned` points of a spawn pass, in arrival
        order, against the resident set `resident`: the handled points join
        it, and its effect on the chunks and the registry is exactly the
        pass `Pass`. */
    method SpawnAll(points: seq<Point>, resident: set<Point>, world: World, l: Layout) returns (ok: bool, resident': set<Point>)
      requires world.Valid()
      modifies this`chunks, world`meshes, world`nextMesh, world`entries, world`nextEntity, world`parents
      ensures world.Valid()
      ensures var r := Pass(points, resident, old(chunks), old(world.State()), l);
              && ok == r.ok && chunks == r.chunks && world.State() == r.store
              && resident' == resident + Elements(points[..r.handled])
    {
      ghost var s, chunks0 := world.State(), chunks;
      ok, resident' := true, resident;
      var i := 0;
      while ok && i < |points|
        invariant world.Valid() && i <= |points|
        invariant var r := Pass(points[..i], resident, chunks0, s, l);
                  ok == r.ok && i == r.handled && chunks == r.chunks && world.State() == r.store
        invariant resident' == resident + Elements(points[..i])
        decreases |points| - i
      {
        PassSnoc(points, i, resident, chunks0, s, l);
        ElementsPrefix(points, i);
        ok, resident' := SpawnIfNew(points[i], resident', world, l);
        i := i + 1;
      }
      if !ok {
        PassStop(points, i, resident, chunks0, s, l);
      } else {
        assert points[..i] == points;
      }
    }

    /** The spawn pass of `tilemap_events`: `spawned_chunks` is the resident
        set and layers are placed with the plain tile and chunk sizes. */
    method SpawnPhase(points: seq<Point>, world: World) returns (ok: bool)
      requires world.Valid()
      modifies this`spawned, this`chunks, world`meshes, world`nextMesh, world`entries, world`nextEntity, world`parents
      ensures world.Valid()
      ensures var r := Pass(points, old(spawned), old(chunks), old(world.State()), EventLayout());
              && ok == r.ok && chunks == r.chunks && world.State() == r.store
              && spawned == old(spawned) + Elements(points[..r.handled])
    {
      ok, spawned := SpawnAll(points, spawned, world, EventLayout());
    }

    /** The modification pass of `tilemap_events`: for each `Modified` event
        in order, each named layer entity's counter is bumped; entities
        without a counter are skipped. */
    method ModifyPhase(batches: seq<seq<(nat, EntityId)>>, world: World)
      requires world.Valid()
      modifies world`entries
      ensures world.Valid()
      ensures world.entries == BumpAll(old(world.entries), ModifiedEntities(batches))
    {
      for i := 0 to |batches|
        invariant world.Valid()
        invariant world.entries == BumpAll(old(world.entries), ModifiedEntities(batches[..i]))
      {
        world.BumpModified(LayerEntities(batches[i]));
        ModifiedEntitiesPrefix(batches, i);
        BumpAllAppend(old(world.entries), ModifiedEntities(batches[..i]), LayerEntities(batches[i]));
      }
      assert batches[..|batches|] == batches;
    }

    /** The despawn pass of `tilemap_events`: every entity of every
        `Despawned` event is destroyed with its descendants. */
    method DespawnPhase(despawned: seq<(seq<EntityId>, Point)>, world: World)
      requires world.Valid()
      modifies world`entries, world`parents
      ensures world.Valid()
      ensures world.entries == old(world.entries) - set e | e in DespawnedEntities(despawned)
      ensures world.parents == old(world.parents) - set e | e in DespawnedEntities(despawned)
    {
      for i := 0 to |despawned|
        invariant world.Valid()
        invariant world.entries == old(world.entries) - Elements(DespawnedEntities(despawned[..i]))
        invariant world.parents == old(world.parents) - Elements(DespawnedEntities(despawned[..i]))
      {
        var entities := despawned[i].0;
        DespawnChunkEntities(entities, world);
        DespawnedEntitiesPrefix(despawned, i);
        WithoutConcat(old(world.entries), DespawnedEntities(despawned[..i]), entities);
        WithoutConcat(old(world.parents), DespawnedEntities(despawned[..i]), entities);
      }
      assert despawned[..|despawned|] == despawned;
    }

    /** The entities of one despawned chunk, destroyed in order. */
    method DespawnChunkEntities(entities: seq<EntityId>, world: World)
      requires world.Valid()
      modifies world`entries, world`parents
      ensures world.Valid()
      ensures world.entries == old(world.entries) - set e | e in entities
      ensures world.parents == old(world.parents) - set e | e in entities
    {
      for j := 0 to |entities|
        invariant world.Valid()
        invariant world.entries == old(world.entries) - Elements(entities[..j])
        invariant world.parents == old(world.parents) - Elements(entities[..j])
      {
        world.DespawnRecursive(entities[j]);
        WithoutPrefix(old(world.entries), entities, j);
        WithoutPrefix(old(world.parents), entities, j);
      }
      assert entities[..|entities|] == entities;
    }

    /** `tilemap_events`: the events are split by kind, then all spawns run,
        then all modifications, then all despawns. The spawn pass leaves the
        registry as `afterSpawn`; the modifications bump counters there and
        the despawns remove entities from what the bumps left, touching
        nothing else. When the spawn pass runs out of entities the system
        stops before the other two. */
    method ProcessEvents(events: seq<ChunkEvent>, world: World) returns (completed: bool, ghost afterSpawn: Store)
      requires world.Valid()
      modifies this`spawned, this`chunks, world`meshes, world`nextMesh, world`entries, world`nextEntity, world`parents
      ensures world.Valid()
      ensures var r := Pass(SpawnedPoints(events), old(spawned), old(chunks), old(world.State()), EventLayout());
              && completed == r.ok && chunks == r.chunks && afterSpawn == r.store
              && spawned == old(spawned) + Elements(SpawnedPoints(events)[..r.handled])
      ensures !completed ==> world.State() == afterSpawn
      ensures completed ==>
                world.State()
                == afterSpawn.(entries := BumpAll(afterSpawn.entries, ModifiedEntities(ModifiedLayers(events)))
                                          - (set e | e in DespawnedEntities(DespawnedChunks(events))),
                               parents := afterSpawn.parents - (set e | e in DespawnedEntities(DespawnedChunks(events))))
    {
      var spawnedPoints, modified, despawned := Partition(events);
      completed := SpawnPhase(spawnedPoints, world);
      afterSpawn := world.State();
      if !completed {
        return;
      }
      ModifyPhase(modified, world);
      DespawnPhase(despawned, world);
    }

    // -------------------------------------------------------------------------
    // tilemap_chunk_spawned and tilemap_chunk_modified

    /** `tilemap_chunk_spawned` for this tilemap, over its `Spawned` points
        in arrival order: the older variant of the spawn pass. Its resident
        set lives in `resident` under the tilemap's entity, created empty on
        the first event, and layers are placed with tile and chunk sizes
        scaled by the texture size. */
    method ChunkSpawnedEvents(points: seq<Point>, world: World, resident: SpawnedChunks) returns (ok: bool)
      requires world.Valid()
      modifies this`chunks, world`meshes, world`nextMesh, world`entries, world`nextEntity, world`parents, resident`byMap
      ensures world.Valid()
      ensures var r := Pass(points, ResidentOf(old(resident.byMap), entity), old(chunks), old(world.State()), HandlerLayout());
              ok == r.ok && chunks == r.chunks && world.State() == r.store
      ensures points == [] ==> resident.byMap == old(resident.byMap)
      ensures var r := Pass(points, ResidentOf(old(resident.byMap), entity), old(chunks), old(world.State()), HandlerLayout());
              points != [] ==>
                resident.byMap == old(resident.byMap)[entity := ResidentOf(old(resident.byMap), entity) + Elements(points[..r.handled])]
    {
      if points == [] {
        assert Pass(points, ResidentOf(resident.byMap, entity), chunks, world.State(), HandlerLayout())
               == PassOutcome(true, 0, chunks, world.State(), {}, {}, {});
        return true;
      }
      var l := HandlerLayout();
      var mine := ResidentOf(resident.byMap, entity);
      ghost var r := Pass(points, mine, chunks, world.State(), l);
      ok, mine := SpawnAll(points, mine, world, l);
      resident.byMap := resident.byMap[entity := mine];
      assert l == HandlerLayout();
    }

    /** `tilemap_chunk_modified` for this tilemap: each entity of each
        `Modified` event, in order, has its counter bumped; entities without
        a counter are skipped. */
    method ChunkModifiedEvents(batches: seq<seq<EntityId>>, world: World)
      requires world.Valid()
      modifies world`entries
      ensures world.Valid()
      ensures world.entries == BumpAll(old(world.entries), Flatten(batches))
    {
      for i := 0 to |batches|
        invariant world.Valid()
        invariant world.entries == BumpAll(old(world.entries), Flatten(batches[..i]))
      {
        world.BumpModified(batches[i]);
        FlattenPrefix(batches, i);
        BumpAllAppend(old(world.entries), Flatten(batches[..i]), batches[i]);
      }
      assert batches[..|batches|] == batches;
    }

    // -------------------------------------------------------------------------
    // tilemap_chunk_update

    /** The body of the `tilemap_chunk_update` loop for the layer entity
        `e`, after the entities `done`: its tilemap, chunk, mesh and renderer
        data are looked up, and when all are there its mesh is overwritten
        with the renderer data; `ok` is false at the first one missing. The
        meshes refreshed before stay refreshed, since each entity owns its
        mesh. */
    method RefreshLayer(e: EntityId, world: World, ghost done: set<EntityId>) returns (ok: bool)
      requires world.Valid() && e in world.entries && e in world.parents && e !in done
      requires done <= world.entries.Keys && done <= world.parents.Keys
      requires forall d :: d in done ==>
                 Updatable(world.entries[d], world.parents[d], entity, chunks, world.meshes)
                 && Refreshed(world.entries[d], chunks, world.meshes)
      modifies world`meshes
      ensures world.Valid() && world.meshes.Keys == old(world.meshes).Keys
      ensures ok <==> Updatable(world.entries[e], world.parents[e], entity, chunks, old(world.meshes))
      ensures !ok ==> world.meshes == old(world.meshes)
      ensures ok ==> world.meshes
                     == old(world.meshes)[world.entries[e].mesh := chunks[world.entries[e].point].parts[world.entries[e].zOrder]]
      ensures ok ==> forall d :: d in done + {e} ==>
                       Updatable(world.entries[d], world.parents[d], entity, chunks, world.meshes)
                       && Refreshed(world.entries[d], chunks, world.meshes)
    {
      var entry := world.entries[e];
      if world.parents[e] != entity {
        return false;
      }
      if entry.point !in chunks {
        return false;
      }
      var chunk := chunks[entry.point];
      if entry.mesh !in world.meshes {
        return false;
      }
      if entry.zOrder !in chunk.parts {
        return false;
      }
      // each layer entity owns its mesh, so those refreshed before keep theirs
      assert forall d :: d in done ==> world.entries[d].mesh != entry.mesh;
      world.SetMeshAttributes(entry.mesh, chunk.parts[entry.zOrder]);
      return true;
    }

    /** `tilemap_chunk_update` for this tilemap: every child layer entity
        whose counter changed since the trackers were cleared has its mesh
        overwritten with its chunk's current renderer data, in no particular
        order. The first entity whose tilemap, chunk, mesh or renderer data
        is missing stops the system. */
    method UpdateChangedLayers(world: World) returns (completed: bool, ghost refreshed: set<EntityId>)
      requires world.Valid()
      modifies world`meshes
      ensures world.Valid()
      ensures world.meshes.Keys == old(world.meshes).Keys
      ensures completed <==>
                forall e :: e in Pending(world.entries, world.parents, world.seen) ==>
                  Updatable(world.entries[e], world.parents[e], entity, chunks, world.meshes)
      ensures completed ==>
                forall e :: e in Pending(world.entries, world.parents, world.seen) ==>
                  Refreshed(world.entries[e], chunks, world.meshes)
      ensures forall m :: m in old(world.meshes) && m !in MeshesOf(world.entries, Pending(world.entries, world.parents, world.seen)) ==>
                world.meshes[m] == old(world.meshes)[m]
      ensures refreshed <= Pending(world.entries, world.parents, world.seen)
      ensures completed ==> refreshed == Pending(world.entries, world.parents, world.seen)
      ensures forall e :: e in refreshed ==>
                Updatable(world.entries[e], world.parents[e], entity, chunks, world.meshes)
                && Refreshed(world.entries[e], chunks, world.meshes)
      ensures forall m :: m in old(world.meshes) && m !in MeshesOf(world.entries, refreshed) ==>
                world.meshes[m] == old(world.meshes)[m]
    {
      var pending := Pending(world.entries, world.parents, world.seen);
      ghost var all := pending;
      while pending != {}
        invariant pending <= all
        invariant world.Valid() && world.meshes.Keys == old(world.meshes).Keys
        invariant forall e :: e in all && e !in pending ==>
                    Updatable(world.entries[e], world.parents[e], entity, chunks, world.meshes)
                    && Refreshed(world.entries[e], chunks, world.meshes)
        invariant forall m :: m in old(world.meshes) && m !in MeshesOf(world.entries, all - pending) ==>
                    world.meshes[m] == old(world.meshes)[m]
        decreases pending
      {
        var e :| e in pending;
        ghost var done := all - pending;
        var ok := RefreshLayer(e, world, done);
        if !ok {
          return false, done;
        }
        assert all - (pending - {e}) == done + {e};
        MeshesOfInsert(world.entries, done, e);
        pending := pending - {e};
      }
      return true, all;
    }
  }
}
