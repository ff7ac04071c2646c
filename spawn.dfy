/** The chunk spawn shared by `tilemap_events` and `tilemap_chunk_spawned`,
    as functions on values: one layer, the z-order loop of one chunk, one
    point of a pass, and the pass over all `Spawned` points. The methods of
    `Tilemaps.Tilemap` are proved equal to these; what the spawn does to the
    chunks, the registry and the mesh store is proved here, one property
    per lemma. */
module Spawning {

  import opened Options
  import opened Geometry
  import opened Ecs

  /** A chunk as the systems see it: its point, the renderer data each of
      its layers can produce (`tiles_to_renderer_parts`; a z-order without
      an entry produces none), and the mesh and entity handles stored on it
      per z-order (`set_mesh`, `set_entity`). */
  datatype Chunk = Chunk(point: Point, parts: map<nat, RendererParts>, meshes: map<nat, MeshId>, entities: map<nat, EntityId>)

  /** Tile and chunk sizes as the placement of a spawn pass reads them. */
  datatype PixelDims = PixelDims(tileWidth: int, tileHeight: int, chunkWidth: int, chunkHeight: int)

  /** What a spawn pass reads of its tilemap besides the chunks: the
      tilemap's entity (the parent of its layer entities), the length of its
      layer list, its grid topology and the sizes layers are placed with. */
  datatype Layout = Layout(mapEntity: EntityId, layerCount: nat, topology: GridTopology, dims: PixelDims)

  /** The transform of layer `z` of the chunk whose own point is `origin`. */
  function LayerTransform(l: Layout, origin: Point, z: nat): (t: Translation)
    ensures t.z == z as real
  {
    Placement(l.topology, origin, l.dims.tileWidth, l.dims.tileHeight, l.dims.chunkWidth, l.dims.chunkHeight, z)
  }

  /** The z-orders below `n` for which a chunk has renderer data, in
      ascending order: the layers a spawn pass gives a render entity. */
  function Rendered(parts: map<nat, RendererParts>, n: nat): seq<nat> {
    if n == 0 then [] else Rendered(parts, n - 1) + (if n - 1 in parts then [n - 1] else [])
  }

  /** A layer is rendered exactly when it is below the layer count and the
      chunk has renderer data for it. */
  lemma {:induction false} RenderedMembers(parts: map<nat, RendererParts>, n: nat, z: nat)
    ensures z in Rendered(parts, n) <==> z < n && z in parts
  {
    if n > 0 {
      RenderedMembers(parts, n - 1, z);
    }
  }

  /** Rendered layers come in strictly ascending z-order, so each once. */
  lemma {:induction false} RenderedAscending(parts: map<nat, RendererParts>, n: nat)
    ensures forall i, j :: 0 <= i < j < |Rendered(parts, n)| ==> Rendered(parts, n)[i] < Rendered(parts, n)[j]
  {
    if n > 0 {
      RenderedAscending(parts, n - 1);
      var below := Rendered(parts, n - 1);
      forall i | 0 <= i < |below|
        ensures below[i] < n - 1
      {
        RenderedMembers(parts, n - 1, below[i]);
      }
    }
  }

  /** The rendered layers below `z + 1`, for a layer `z` with renderer data. */
  lemma RenderedBelow(parts: map<nat, RendererParts>, z: nat)
    requires z in parts
    ensures Rendered(parts, z + 1) == Rendered(parts, z) + [z]
    ensures forall i :: 0 <= i < |Rendered(parts, z)| ==> Rendered(parts, z)[i] < z
  {
    var below := Rendered(parts, z);
    forall i | 0 <= i < |below|
      ensures below[i] < z
    {
      RenderedMembers(parts, z, below[i]);
    }
  }

  // ---------------------------------------------------------------------------
  // What "on screen" means

  /** Layer `z` of the chunk `c` stored at `p` is on screen: its mesh holds
      the layer's renderer data, and its entity carries the point `p`, the
      z-order, that mesh, the placement computed from the chunk's own point,
      and a fresh `ModifiedLayer` counter. */
  ghost predicate LayerSpawned(p: Point, c: Chunk, z: nat, l: Layout,
                               entries: map<EntityId, LayerEntry>, meshes: map<MeshId, RendererParts>)
  {
    && z in c.parts && z in c.meshes && z in c.entities
    && c.meshes[z] in meshes && meshes[c.meshes[z]] == c.parts[z]
    && c.entities[z] in entries
    && entries[c.entities[z]] == LayerEntry(p, z, c.meshes[z], LayerTransform(l, c.point, z), 0)
  }

  /** Every layer below `n` of the chunk stored at `p` that renders is on
      screen. */
  ghost predicate ChunkSpawned(p: Point, c: Chunk, n: nat, l: Layout,
                               entries: map<EntityId, LayerEntry>, meshes: map<MeshId, RendererParts>)
  {
    forall z: nat :: z < n && z in c.parts ==> LayerSpawned(p, c, z, l, entries, meshes)
  }

  /** `entities` lists, in z-order, the entities the slots `slots` hold for
      the rendered layers below `z`. */
  ghost predicate Filled(parts: map<nat, RendererParts>, slots: map<nat, EntityId>, z: nat, entities: seq<EntityId>) {
    && |entities| == |Rendered(parts, z)|
    && (forall i :: 0 <= i < |entities| ==> Rendered(parts, z)[i] in slots && entities[i] == slots[Rendered(parts, z)[i]])
  }

  /** The entity `e` fills the slot of one of the tilemap's layers of the
      chunk `c` stored at `p`, and that layer is on screen. */
  ghost predicate SlotOf(p: Point, c: Chunk, e: EntityId, l: Layout,
                         entries: map<EntityId, LayerEntry>, meshes: map<MeshId, RendererParts>)
  {
    && e in entries && entries[e].point == p && entries[e].zOrder < l.layerCount
    && LayerSpawned(p, c, entries[e].zOrder, l, entries, meshes)
    && c.entities[entries[e].zOrder] == e
  }

  /** Every rendered layer below `n` of the chunk `c` holds one of `es`. */
  ghost predicate SlotsIn(c: Chunk, n: nat, es: set<EntityId>) {
    forall z: nat :: z < n && z in c.parts ==> z in c.entities && c.entities[z] in es
  }

  /** The meshes the entities of `es` own. */
  function MeshesOf(entries: map<EntityId, LayerEntry>, es: set<EntityId>): set<MeshId> {
    set e | e in es && e in entries :: entries[e].mesh
  }

  // ---------------------------------------------------------------------------
  // One layer

  /** Layer `z` of the chunk `c` held at `p`: a mesh holding the layer's
      renderer data is added and stored on the chunk, then an entity is
      spawned for the layer and, when the registry yields one, stored on the
      chunk too. The result is the chunk, the entity and the store. */
  function LayerStep(p: Point, c: Chunk, z: nat, s: Store, l: Layout): (r: (Chunk, Option<EntityId>, Store))
    requires z in c.parts
    ensures r.0.point == c.point && r.0.parts == c.parts
    ensures z in r.0.meshes && r.0.meshes == c.meshes[z := r.0.meshes[z]]
    ensures r.1.None? ==> r.0.entities == c.entities
    ensures r.1.Some? ==> r.0.entities == c.entities[z := r.1.value]
    ensures r.2.parents == s.parents
  {
    var mesh := AddMeshTo(s, c.parts[z]);
    var spawned := SpawnIn(mesh.1, LayerEntry(p, z, mesh.0, LayerTransform(l, c.point, z), 0));
    var c' := c.(meshes := c.meshes[z := mesh.0]);
    (if spawned.0.Some? then c'.(entities := c'.entities[z := spawned.0.value]) else c', spawned.0, spawned.1)
  }

  /** One layer adds exactly one fresh mesh, holding the layer's renderer
      data, and stores its handle on the chunk; it spawns one fresh entity
      carrying the key point, the z-order, that mesh, the placement and a
      zero counter, and stores it on the chunk, unless the registry is
      exhausted, in which case no entity changes. Parent links are
      untouched. */
  lemma LayerStepEffect(p: Point, c: Chunk, z: nat, s: Store, l: Layout)
    requires StoreValid(s) && z in c.parts
    ensures var r := LayerStep(p, c, z, s, l);
            && StoreValid(r.2) && r.2.parents == s.parents
            && (r.1.None? <==> s.nextEntity >= s.capacity)
            && r.0.meshes == c.meshes[z := r.0.meshes[z]] && r.0.meshes[z] !in s.meshes
            && r.2.meshes == s.meshes[r.0.meshes[z] := c.parts[z]]
            && (r.1.None? ==> r.2.entries == s.entries && r.0.entities == c.entities)
            && (r.1.Some? ==>
                  && r.1.value !in s.entries && r.0.entities == c.entities[z := r.1.value]
                  && r.2.entries == s.entries[r.1.value := LayerEntry(p, z, r.0.meshes[z], LayerTransform(l, c.point, z), 0)])
  {
    AddMeshFresh(s, c.parts[z]);
    var mesh := AddMeshTo(s, c.parts[z]);
    SpawnFresh(mesh.1, LayerEntry(p, z, mesh.0, LayerTransform(l, c.point, z), 0));
  }

  // ---------------------------------------------------------------------------
  // The z-order loop of one chunk

  /** Where the layer loop of a chunk spawn stands: `ok` until the registry
      runs out; the chunk with the handles stored so far; the entities
      spawned, in z-order; the store; the mesh of a layer left without an
      entity (`stray`); and the z-orders below `reached`, which are done. */
  datatype LayersOutcome = LayersOutcome(ok: bool, chunk: Chunk, entities: seq<EntityId>, store: Store,
                                         stray: set<MeshId>, reached: nat)

  /** One more turn of the layer loop, over z-order `z`, from where the loop
      stood after the z-orders below it: a stopped loop stays stopped, a
      layer without renderer data is skipped, one with data is spawned, and
      a layer the registry yields no entity for stops the loop. */
  function LayerNext(p: Point, z: nat, o: LayersOutcome, l: Layout): (r: LayersOutcome)
    ensures r.chunk.point == o.chunk.point && r.chunk.parts == o.chunk.parts
    ensures r.store.parents == o.store.parents
  {
    if !o.ok then o
    else if z !in o.chunk.parts then o.(reached := z + 1)
    else
      var step := LayerStep(p, o.chunk, z, o.store, l);
      if step.1.None? then o.(ok := false, chunk := step.0, store := step.2, stray := {step.0.meshes[z]})
      else o.(chunk := step.0, entities := o.entities + [step.1.value], store := step.2, reached := z + 1)
  }

  /** The layer loop of the chunk `c` held at `p` over the z-orders below
      `z`: a layer without renderer data is skipped, one with data is
      spawned, and the first layer the registry yields no entity for ends
      the loop. */
  function Layers(p: Point, c: Chunk, z: nat, s: Store, l: Layout): (r: LayersOutcome)
    ensures r.chunk.point == c.point && r.chunk.parts == c.parts
    ensures r.reached <= z && (r.ok ==> r.reached == z)
    ensures r.store.parents == s.parents
    decreases z
  {
    if z == 0 then LayersOutcome(true, c, [], s, {}, 0)
    else LayerNext(p, z - 1, Layers(p, c, z - 1, s, l), l)
  }

  /** Once the loop has stopped it stays where it stopped. */
  lemma {:induction false} LayersStop(p: Point, c: Chunk, z: nat, n: nat, s: Store, l: Layout)
    requires z <= n && !Layers(p, c, z, s, l).ok
    ensures Layers(p, c, n, s, l) == Layers(p, c, z, s, l)
    decreases n
  {
    if n > z {
      LayersStop(p, c, z, n - 1, s, l);
    }
  }

  /** `t` grew from `s` by the fresh entities `added` alone: no entity or
      mesh is removed or overwritten. */
  ghost predicate Grew(s: Store, t: Store, added: set<EntityId>) {
    && Extends(s.entries, t.entries) && Extends(s.meshes, t.meshes)
    && t.entries.Keys == s.entries.Keys + added
    && added !! s.entries.Keys
  }

  /** The new meshes of `t` over `s` are those the entities `added` own,
      plus the meshes `stray` that no entity owns. */
  ghost predicate MeshesGrew(s: Store, t: Store, added: set<EntityId>, stray: set<MeshId>) {
    t.meshes.Keys == s.meshes.Keys + MeshesOf(t.entries, added) + stray
  }

  /** A layer that got its mesh and its entity `e` extends a growth by `e`. */
  lemma GrewByLayer(s: Store, o: Store, t: Store, added: set<EntityId>, h: MeshId, parts: RendererParts,
                    e: EntityId, entry: LayerEntry)
    requires Grew(s, o, added)
    requires h !in o.meshes && t.meshes == o.meshes[h := parts]
    requires e !in o.entries && t.entries == o.entries[e := entry]
    ensures Grew(s, t, added + {e})
  {
  }

  /** A layer that got its mesh but no entity keeps a growth by the same
      entities. */
  lemma GrewByMesh(s: Store, o: Store, t: Store, added: set<EntityId>, h: MeshId, parts: RendererParts)
    requires Grew(s, o, added)
    requires h !in o.meshes && t.meshes == o.meshes[h := parts] && t.entries == o.entries
    ensures Grew(s, t, added)
  {
  }

  /** Two growths in a row are one. */
  lemma GrewTrans(s: Store, o: Store, t: Store, a: set<EntityId>, b: set<EntityId>)
    requires Grew(s, o, a) && Grew(o, t, b)
    ensures Grew(s, t, a + b)
  {
  }

  /** The mesh of a layer that got the entity `e` is owned by `e`. */
  lemma MeshesGrewByLayer(s: Store, o: Store, t: Store, added: set<EntityId>, e: EntityId, entry: LayerEntry)
    requires MeshesGrew(s, o, added, {})
    requires e !in o.entries && t.entries == o.entries[e := entry] && t.meshes.Keys == o.meshes.Keys + {entry.mesh}
    ensures MeshesGrew(s, t, added + {e}, {})
  {
    MeshesOfAdd(o.entries, added, e, entry);
  }

  /** The mesh of a layer that got no entity is the stray one. */
  lemma MeshesGrewByMesh(s: Store, o: Store, t: Store, added: set<EntityId>, h: MeshId)
    requires MeshesGrew(s, o, added, {})
    requires t.entries == o.entries && t.meshes.Keys == o.meshes.Keys + {h}
    ensures MeshesGrew(s, t, added, {h})
  {
  }

  /** Two mesh growths in a row, the first without a stray mesh, are one. */
  lemma MeshesGrewTrans(s: Store, o: Store, t: Store, a: set<EntityId>, b: set<EntityId>, stray: set<MeshId>)
    requires MeshesGrew(s, o, a, {}) && MeshesGrew(o, t, b, stray)
    requires Extends(o.entries, t.entries) && a <= o.entries.Keys
    ensures MeshesGrew(s, t, a + b, stray)
  {
    MeshesOfGrow(o.entries, t.entries, a, b);
  }

  /** Nothing grew. */
  lemma GrewNone(s: Store)
    requires StoreValid(s)
    ensures Grew(s, s, {}) && MeshesGrew(s, s, {}, {})
  {
    var none: set<EntityId> := {};
    assert MeshesOf(s.entries, none) == {};
  }

  /** One turn of the layer loop keeps the store valid: handles still come
      from the counters and each entity owns a mesh of its own. */
  lemma NextValid(p: Point, z: nat, o: LayersOutcome, l: Layout, r: LayersOutcome)
    requires StoreValid(o.store) && r == LayerNext(p, z, o, l)
    ensures StoreValid(r.store)
  {
    if o.ok && z in o.chunk.parts {
      LayerStepEffect(p, o.chunk, z, o.store, l);
    }
  }

  /** The layer loop keeps the store valid. */
  lemma {:induction false} LayersValid(p: Point, c: Chunk, z: nat, s: Store, l: Layout)
    requires StoreValid(s)
    ensures StoreValid(Layers(p, c, z, s, l).store)
    decreases z
  {
    if z > 0 {
      LayersValid(p, c, z - 1, s, l);
      NextValid(p, z - 1, Layers(p, c, z - 1, s, l), l, Layers(p, c, z, s, l));
    }
  }

  /** One turn of the layer loop only adds: the entity it spawns, if any,
      is fresh and listed, and its mesh is fresh. */
  lemma NextStore(p: Point, z: nat, o: LayersOutcome, l: Layout, s: Store, r: LayersOutcome)
    requires StoreValid(o.store) && Grew(s, o.store, Elements(o.entities)) && r == LayerNext(p, z, o, l)
    ensures Grew(s, r.store, Elements(r.entities))
  {
    if o.ok && z in o.chunk.parts {
      LayerStepEffect(p, o.chunk, z, o.store, l);
      var step := LayerStep(p, o.chunk, z, o.store, l);
      if step.1.Some? {
        GrewByLayer(s, o.store, step.2, Elements(o.entities), step.0.meshes[z], o.chunk.parts[z], step.1.value,
                    LayerEntry(p, z, step.0.meshes[z], LayerTransform(l, o.chunk.point, z), 0));
        ElementsSnoc(o.entities, step.1.value);
      } else {
        GrewByMesh(s, o.store, step.2, Elements(o.entities), step.0.meshes[z], o.chunk.parts[z]);
      }
    }
  }

  /** The layer loop only adds: no entity or mesh is removed or
      overwritten, and the new entities, all fresh, are exactly those it
      lists. */
  lemma {:induction false} LayersStore(p: Point, c: Chunk, z: nat, s: Store, l: Layout)
    requires StoreValid(s)
    ensures Grew(s, Layers(p, c, z, s, l).store, Elements(Layers(p, c, z, s, l).entities))
    decreases z
  {
    if z == 0 {
      GrewNone(s);
      assert Elements<EntityId>([]) == {};
    } else {
      LayersValid(p, c, z - 1, s, l);
      LayersStore(p, c, z - 1, s, l);
      NextStore(p, z - 1, Layers(p, c, z - 1, s, l), l, s, Layers(p, c, z, s, l));
    }
  }

  /** One turn of the layer loop adds the mesh of the entity it spawns, or,
      when the registry yields none, the one stray mesh. */
  lemma NextMeshes(p: Point, z: nat, o: LayersOutcome, l: Layout, s: Store, r: LayersOutcome)
    requires StoreValid(o.store) && r == LayerNext(p, z, o, l)
    requires MeshesGrew(s, o.store, Elements(o.entities), o.stray) && (o.ok ==> o.stray == {})
    ensures MeshesGrew(s, r.store, Elements(r.entities), r.stray) && (r.ok ==> r.stray == {})
  {
    if o.ok && z in o.chunk.parts {
      LayerStepEffect(p, o.chunk, z, o.store, l);
      var step := LayerStep(p, o.chunk, z, o.store, l);
      if step.1.Some? {
        MeshesGrewByLayer(s, o.store, step.2, Elements(o.entities), step.1.value,
                          LayerEntry(p, z, step.0.meshes[z], LayerTransform(l, o.chunk.point, z), 0));
        ElementsSnoc(o.entities, step.1.value);
      } else {
        MeshesGrewByMesh(s, o.store, step.2, Elements(o.entities), step.0.meshes[z]);
      }
    }
  }

  /** The new meshes of the layer loop are those its entities own, plus at
      most the one mesh of the layer that got no entity. */
  lemma {:induction false} LayersMeshes(p: Point, c: Chunk, z: nat, s: Store, l: Layout)
    requires StoreValid(s)
    ensures var r := Layers(p, c, z, s, l);
            MeshesGrew(s, r.store, Elements(r.entities), r.stray) && (r.ok ==> r.stray == {})
    decreases z
  {
    if z == 0 {
      GrewNone(s);
      assert Elements<EntityId>([]) == {};
    } else {
      LayersMeshes(p, c, z - 1, s, l);
      LayersValid(p, c, z - 1, s, l);
      NextMeshes(p, z - 1, Layers(p, c, z - 1, s, l), l, s, Layers(p, c, z, s, l));
    }
  }

  /** One turn of the layer loop lists the entity it spawns after those of
      the layers below. */
  lemma NextFilled(p: Point, z: nat, o: LayersOutcome, l: Layout, r: LayersOutcome)
    requires Filled(o.chunk.parts, o.chunk.entities, o.reached, o.entities) && (o.ok ==> o.reached == z)
    requires r == LayerNext(p, z, o, l)
    ensures Filled(o.chunk.parts, r.chunk.entities, r.reached, r.entities)
  {
    if o.ok && z !in o.chunk.parts {
      assert Rendered(o.chunk.parts, z + 1) == Rendered(o.chunk.parts, z);
    } else if o.ok {
      var step := LayerStep(p, o.chunk, z, o.store, l);
      if step.1.Some? {
        FilledStep(o.chunk.parts, o.chunk.entities, z, o.entities, step.1.value);
      }
    }
  }

  /** The loop lists, in z-order, the entities of the rendered layers below
      where it got to. */
  lemma {:induction false} LayersFilled(p: Point, c: Chunk, z: nat, s: Store, l: Layout)
    ensures Filled(c.parts, Layers(p, c, z, s, l).chunk.entities, Layers(p, c, z, s, l).reached, Layers(p, c, z, s, l).entities)
    decreases z
  {
    if z > 0 {
      LayersFilled(p, c, z - 1, s, l);
      NextFilled(p, z - 1, Layers(p, c, z - 1, s, l), l, Layers(p, c, z, s, l));
    }
  }

  /** One turn of the layer loop puts the layer it spawns on screen and
      keeps the layers below there. */
  lemma NextOnScreen(p: Point, z: nat, o: LayersOutcome, l: Layout, r: LayersOutcome)
    requires StoreValid(o.store) && (o.ok ==> o.reached == z) && r == LayerNext(p, z, o, l)
    requires ChunkSpawned(p, o.chunk, o.reached, l, o.store.entries, o.store.meshes)
    ensures ChunkSpawned(p, r.chunk, r.reached, l, r.store.entries, r.store.meshes)
  {
    if o.ok && z !in o.chunk.parts {
      ChunkSpawnedSkip(p, o.chunk, z, l, o.store.entries, o.store.meshes);
    } else if o.ok {
      LayerStepEffect(p, o.chunk, z, o.store, l);
      var step := LayerStep(p, o.chunk, z, o.store, l);
      if step.1.None? {
        ChunkSpawnedRemesh(p, o.chunk, step.0, z, l, o.store.entries, o.store.meshes, step.2.meshes);
      } else {
        KeepChunkSpawned(p, o.chunk, step.0, z, step.1.value, l, o.store.entries, o.store.meshes,
                         step.2.entries, step.2.meshes);
      }
    }
  }

  /** Every rendered layer below where the loop got to is on screen. */
  lemma {:induction false} LayersOnScreen(p: Point, c: Chunk, z: nat, s: Store, l: Layout)
    requires StoreValid(s)
    ensures var r := Layers(p, c, z, s, l);
            ChunkSpawned(p, r.chunk, r.reached, l, r.store.entries, r.store.meshes)
    decreases z
  {
    if z > 0 {
      LayersOnScreen(p, c, z - 1, s, l);
      LayersValid(p, c, z - 1, s, l);
      NextOnScreen(p, z - 1, Layers(p, c, z - 1, s, l), l, Layers(p, c, z, s, l));
    }
  }

  /** One turn of the layer loop leaves a stray mesh exactly when it stops
      the loop: the mesh it stored for the layer it got no entity for. */
  lemma NextStray(p: Point, z: nat, o: LayersOutcome, l: Layout, r: LayersOutcome)
    requires (o.ok ==> o.stray == {} && o.reached == z) && r == LayerNext(p, z, o, l)
    requires !o.ok ==> o.reached in o.chunk.meshes && o.stray == {o.chunk.meshes[o.reached]}
    ensures r.ok ==> r.stray == {}
    ensures !r.ok ==> r.reached in r.chunk.meshes && r.stray == {r.chunk.meshes[r.reached]}
  {
  }

  /** The layer loop leaves no stray mesh while it runs; once stopped, the
      stray mesh is the one stored for the layer where it stopped. */
  lemma {:induction false} LayersStray(p: Point, c: Chunk, z: nat, s: Store, l: Layout)
    ensures var r := Layers(p, c, z, s, l);
            && (r.ok ==> r.stray == {})
            && (!r.ok ==> r.reached in r.chunk.meshes && r.stray == {r.chunk.meshes[r.reached]})
    decreases z
  {
    if z > 0 {
      LayersStray(p, c, z - 1, s, l);
      NextStray(p, z - 1, Layers(p, c, z - 1, s, l), l, Layers(p, c, z, s, l));
    }
  }

  /** A layer without renderer data needs nothing to be on screen. */
  lemma ChunkSpawnedSkip(p: Point, c: Chunk, z: nat, l: Layout,
                         entries: map<EntityId, LayerEntry>, meshes: map<MeshId, RendererParts>)
    requires ChunkSpawned(p, c, z, l, entries, meshes) && z !in c.parts
    ensures ChunkSpawned(p, c, z + 1, l, entries, meshes)
  {
    forall k: nat | k < z + 1 && k in c.parts
      ensures LayerSpawned(p, c, k, l, entries, meshes)
    {
    }
  }

  /** Storing the entity of rendered layer `z` extends the z-order listing. */
  lemma FilledStep(parts: map<nat, RendererParts>, slots: map<nat, EntityId>, z: nat, entities: seq<EntityId>, e: EntityId)
    requires Filled(parts, slots, z, entities) && z in parts
    ensures Filled(parts, slots[z := e], z + 1, entities + [e])
  {
    RenderedBelow(parts, z);
  }

  /** The layers below `z` stay on screen when the mesh and entity of layer
      `z` are added, and `z` joins them. */
  lemma KeepChunkSpawned(p: Point, before: Chunk, after: Chunk, z: nat, e: EntityId, l: Layout,
                         entriesBefore: map<EntityId, LayerEntry>, meshesBefore: map<MeshId, RendererParts>,
                         entries: map<EntityId, LayerEntry>, meshes: map<MeshId, RendererParts>)
    requires ChunkSpawned(p, before, z, l, entriesBefore, meshesBefore)
    requires after.point == before.point && after.parts == before.parts && z in after.parts
    requires z in after.meshes && after.meshes == before.meshes[z := after.meshes[z]]
    requires after.meshes[z] !in meshesBefore
    requires meshes == meshesBefore[after.meshes[z] := before.parts[z]]
    requires e !in entriesBefore && after.entities == before.entities[z := e]
    requires entries == entriesBefore[e := LayerEntry(p, z, after.meshes[z], LayerTransform(l, before.point, z), 0)]
    ensures ChunkSpawned(p, after, z + 1, l, entries, meshes)
  {
    forall k: nat | k < z + 1 && k in after.parts
      ensures LayerSpawned(p, after, k, l, entries, meshes)
    {
      if k < z {
        assert LayerSpawned(p, before, k, l, entriesBefore, meshesBefore);
      }
    }
  }

  /** The layers below `z` stay on screen when layer `z` gets a mesh but no
      entity. */
  lemma ChunkSpawnedRemesh(p: Point, before: Chunk, after: Chunk, z: nat, l: Layout, entries: map<EntityId, LayerEntry>,
                           meshesBefore: map<MeshId, RendererParts>, meshes: map<MeshId, RendererParts>)
    requires ChunkSpawned(p, before, z, l, entries, meshesBefore)
    requires after.point == before.point && after.parts == before.parts && after.entities == before.entities
    requires z in after.meshes && after.meshes == before.meshes[z := after.meshes[z]]
    requires Extends(meshesBefore, meshes)
    ensures ChunkSpawned(p, after, z, l, entries, meshes)
  {
    forall k: nat | k < z && k in after.parts
      ensures LayerSpawned(p, after, k, l, entries, meshes)
    {
      assert LayerSpawned(p, before, k, l, entries, meshesBefore);
    }
  }

  /** A chunk on screen stays on screen while entities and meshes are only
      added. */
  lemma ChunkSpawnedExtends(p: Point, c: Chunk, n: nat, l: Layout,
                            entries: map<EntityId, LayerEntry>, meshes: map<MeshId, RendererParts>,
                            entries': map<EntityId, LayerEntry>, meshes': map<MeshId, RendererParts>)
    requires ChunkSpawned(p, c, n, l, entries, meshes)
    requires Extends(entries, entries') && Extends(meshes, meshes')
    ensures ChunkSpawned(p, c, n, l, entries', meshes')
  {
    forall z: nat | z < n && z in c.parts
      ensures LayerSpawned(p, c, z, l, entries', meshes')
    {
      assert LayerSpawned(p, c, z, l, entries, meshes);
    }
  }

  /** An entity keeps its slot while entities and meshes are only added. */
  lemma SlotOfExtends(p: Point, c: Chunk, e: EntityId, l: Layout,
                      entries: map<EntityId, LayerEntry>, meshes: map<MeshId, RendererParts>,
                      entries': map<EntityId, LayerEntry>, meshes': map<MeshId, RendererParts>)
    requires SlotOf(p, c, e, l, entries, meshes)
    requires Extends(entries, entries') && Extends(meshes, meshes')
    ensures SlotOf(p, c, e, l, entries', meshes')
  {
  }

  /** A loop that has done the layers below `z`, with `z` at most the layer
      count, has put each of its entities into a slot of its own layer, and
      filled every rendered slot below `z` with one of them. */
  lemma LayersPlaced(p: Point, c: Chunk, chunk: Chunk, z: nat, entities: seq<EntityId>, l: Layout,
                     entries: map<EntityId, LayerEntry>, meshes: map<MeshId, RendererParts>)
    requires Filled(c.parts, chunk.entities, z, entities) && ChunkSpawned(p, chunk, z, l, entries, meshes)
    requires chunk.parts == c.parts && z <= l.layerCount
    ensures forall e :: e in entities ==> SlotOf(p, chunk, e, l, entries, meshes)
    ensures SlotsIn(chunk, z, Elements(entities))
  {
    var rendered := Rendered(c.parts, z);
    forall e | e in entities
      ensures SlotOf(p, chunk, e, l, entries, meshes)
    {
      var i :| 0 <= i < |entities| && entities[i] == e;
      RenderedMembers(c.parts, z, rendered[i]);
      assert LayerSpawned(p, chunk, rendered[i], l, entries, meshes);
    }
    forall k: nat | k < z && k in chunk.parts
      ensures k in chunk.entities && chunk.entities[k] in Elements(entities)
    {
      RenderedMembers(c.parts, z, k);
      var i :| 0 <= i < |rendered| && rendered[i] == k;
      assert entities[i] == chunk.entities[k];
    }
  }

  // ---------------------------------------------------------------------------
  // One chunk

  /** The spawn of the chunk `c` held at `p`: the layer loop over all the
      tilemap's layers, then, when it completed, the entities become
      children of the tilemap. */
  function ChunkLayers(p: Point, c: Chunk, s: Store, l: Layout): (r: LayersOutcome)
    ensures r.chunk.point == c.point && r.chunk.parts == c.parts
  {
    var o := Layers(p, c, l.layerCount, s, l);
    if o.ok then o.(store := AdoptIn(o.store, l.mapEntity, o.entities)) else o
  }

  /** A chunk spawn only adds: no entity or mesh is removed or overwritten,
      and the new entities, all fresh, are those it lists. */
  lemma ChunkLayersStore(p: Point, c: Chunk, s: Store, l: Layout)
    requires StoreValid(s)
    ensures Grew(s, ChunkLayers(p, c, s, l).store, Elements(ChunkLayers(p, c, s, l).entities))
  {
    LayersStore(p, c, l.layerCount, s, l);
  }

  /** The new meshes of a chunk spawn are those its entities own, plus at
      most the one mesh of the layer left without an entity. */
  lemma ChunkLayersMeshes(p: Point, c: Chunk, s: Store, l: Layout)
    requires StoreValid(s)
    ensures var r := ChunkLayers(p, c, s, l);
            MeshesGrew(s, r.store, Elements(r.entities), r.stray) && (r.ok ==> r.stray == {})
  {
    LayersMeshes(p, c, l.layerCount, s, l);
  }

  /** A chunk spawn keeps the store valid. */
  lemma ChunkLayersValid(p: Point, c: Chunk, s: Store, l: Layout)
    requires StoreValid(s)
    ensures StoreValid(ChunkLayers(p, c, s, l).store)
  {
    LayersValid(p, c, l.layerCount, s, l);
  }

  /** A chunk spawn that completed leaves no stray mesh; one that stopped
      leaves exactly the mesh it stored for the layer it got no entity for. */
  lemma ChunkLayersStray(p: Point, c: Chunk, s: Store, l: Layout)
    ensures var r := ChunkLayers(p, c, s, l);
            && (r.ok ==> r.stray == {})
            && (!r.ok ==> r.reached in r.chunk.meshes && r.stray == {r.chunk.meshes[r.reached]})
  {
    LayersStray(p, c, l.layerCount, s, l);
  }

  /** The entities of a chunk spawn become children of the tilemap exactly
      when the spawn completed; no other parent link changes. */
  lemma ChunkLayersParents(p: Point, c: Chunk, s: Store, l: Layout)
    ensures var r := ChunkLayers(p, c, s, l);
            && (r.ok ==> r.store.parents == s.parents + Adopted(Elements(r.entities), l.mapEntity))
            && (!r.ok ==> r.store.parents == s.parents)
  {
  }

  /** Each entity of a chunk spawn fills a slot of its own layer, on screen;
      a completed spawn has every rendered layer of the chunk on screen, each
      slot holding one of its entities. */
  lemma ChunkLayersPlaced(p: Point, c: Chunk, s: Store, l: Layout)
    requires StoreValid(s)
    ensures var r := ChunkLayers(p, c, s, l);
            && (forall e :: e in r.entities ==> SlotOf(p, r.chunk, e, l, r.store.entries, r.store.meshes))
            && (r.ok ==> ChunkSpawned(p, r.chunk, l.layerCount, l, r.store.entries, r.store.meshes))
            && (r.ok ==> SlotsIn(r.chunk, l.layerCount, Elements(r.entities)))
  {
    LayersFilled(p, c, l.layerCount, s, l);
    LayersOnScreen(p, c, l.layerCount, s, l);
    var o := Layers(p, c, l.layerCount, s, l);
    LayersPlaced(p, c, o.chunk, o.reached, o.entities, l, o.store.entries, o.store.meshes);
  }

  // ---------------------------------------------------------------------------
  // The pass over the `Spawned` points

  /** Where a spawn pass stands: `ok` until the registry runs out; how many
      points it has handled; the chunks; the store; the entities it spawned
      (`added`) and those it made children of the tilemap (`attached`); and
      the mesh of a layer left without an entity (`stray`). */
  datatype PassOutcome = PassOutcome(ok: bool, handled: nat, chunks: map<Point, Chunk>, store: Store,
                                     added: set<EntityId>, attached: set<EntityId>, stray: set<MeshId>)

  /** One point of a pass against the resident set `resident`: a resident
      point, or one the tilemap holds no chunk at, changes nothing; otherwise
      the chunk there is spawned. */
  function AtPoint(p: Point, resident: set<Point>, chunks: map<Point, Chunk>, s: Store, l: Layout): (r: PassOutcome)
    ensures r.chunks.Keys == chunks.Keys && forall k :: k in chunks && k != p ==> r.chunks[k] == chunks[k]
    ensures p in resident ==> r.chunks == chunks && r.added == {}
  {
    if p in resident || p !in chunks then PassOutcome(true, 1, chunks, s, {}, {}, {})
    else
      var o := ChunkLayers(p, chunks[p], s, l);
      PassOutcome(o.ok, 1, chunks[p := o.chunk], o.store, Elements(o.entities),
                  if o.ok then Elements(o.entities) else {}, o.stray)
  }

  /** One more step of a pass: the point `p`, its `n`-th, handled against
      `resident`, which holds the points handled before it, from where the
      pass stood (`r`). A stopped pass stays stopped. */
  function PassNext(p: Point, resident: set<Point>, n: nat, r: PassOutcome, l: Layout): (r': PassOutcome)
    ensures r'.chunks.Keys == r.chunks.Keys
  {
    if !r.ok then r
    else
      var q := AtPoint(p, resident, r.chunks, r.store, l);
      PassOutcome(q.ok, n, q.chunks, q.store, r.added + q.added, r.attached + q.attached, q.stray)
  }

  /** The pass over `points` in arrival order, against the resident set
      `resident`: every handled point joins the resident set before the next
      one, and the first point whose chunk spawn runs out of entities ends
      the pass. */
  function Pass(points: seq<Point>, resident: set<Point>, chunks: map<Point, Chunk>, s: Store, l: Layout): (r: PassOutcome)
    ensures r.handled <= |points| && (r.ok ==> r.handled == |points|) && (!r.ok ==> r.handled > 0)
    ensures r.chunks.Keys == chunks.Keys
    decreases |points|
  {
    if points == [] then PassOutcome(true, 0, chunks, s, {}, {}, {})
    else
      var before := points[..|points| - 1];
      PassNext(points[|points| - 1], resident + Elements(before), |points|, Pass(before, resident, chunks, s, l), l)
  }

  /** A pass over one more point is one more step of the pass. */
  lemma PassSnoc(points: seq<Point>, i: nat, resident: set<Point>, chunks: map<Point, Chunk>, s: Store, l: Layout)
    requires i < |points|
    ensures Pass(points[..i + 1], resident, chunks, s, l)
            == PassNext(points[i], resident + Elements(points[..i]), i + 1, Pass(points[..i], resident, chunks, s, l), l)
  {
    assert points[..i + 1][..i] == points[..i];
  }

  /** One point keeps the store valid. */
  lemma AtPointValid(p: Point, resident: set<Point>, chunks: map<Point, Chunk>, s: Store, l: Layout)
    requires StoreValid(s)
    ensures StoreValid(AtPoint(p, resident, chunks, s, l).store)
  {
    if p !in resident && p in chunks {
      ChunkLayersValid(p, chunks[p], s, l);
    }
  }

  /** One point only adds entities and meshes: the fresh entities `added`,
      the meshes they own and the stray mesh. */
  lemma AtPointStore(p: Point, resident: set<Point>, chunks: map<Point, Chunk>, s: Store, l: Layout)
    requires StoreValid(s)
    ensures var q := AtPoint(p, resident, chunks, s, l);
            Grew(s, q.store, q.added) && MeshesGrew(s, q.store, q.added, q.stray) && (q.ok ==> q.stray == {})
  {
    if p in resident || p !in chunks {
      GrewNone(s);
    } else {
      ChunkLayersStore(p, chunks[p], s, l);
      ChunkLayersMeshes(p, chunks[p], s, l);
    }
  }

  /** One point leaves at most one stray mesh, and none when its spawn
      completed. */
  lemma AtPointStray(p: Point, resident: set<Point>, chunks: map<Point, Chunk>, s: Store, l: Layout)
    ensures var q := AtPoint(p, resident, chunks, s, l);
            |q.stray| <= 1 && (q.ok ==> q.stray == {})
  {
    if p !in resident && p in chunks {
      ChunkLayersStray(p, chunks[p], s, l);
    }
  }

  /** One point attaches `attached` to the tilemap: its entities when its
      chunk spawn completed, none otherwise. */
  lemma AtPointParents(p: Point, resident: set<Point>, chunks: map<Point, Chunk>, s: Store, l: Layout)
    ensures var q := AtPoint(p, resident, chunks, s, l);
            && q.store.parents == s.parents + Adopted(q.attached, l.mapEntity)
            && q.attached <= q.added && (q.ok ==> q.attached == q.added)
  {
    var none: set<EntityId> := {};
    assert Adopted(none, l.mapEntity) == map[];
    if p !in resident && p in chunks {
      ChunkLayersParents(p, chunks[p], s, l);
    }
  }

  /** The entities of one point sit in slots of the chunk there, on screen;
      when its chunk spawn completed, so does the whole chunk. */
  lemma AtPointPlaced(p: Point, resident: set<Point>, chunks: map<Point, Chunk>, s: Store, l: Layout)
    requires StoreValid(s)
    ensures var q := AtPoint(p, resident, chunks, s, l);
            && (forall e :: e in q.added ==> Placed(e, [p], resident, q.chunks, l, q.store.entries, q.store.meshes))
            && (q.ok && p !in resident && p in chunks ==>
                  ChunkSpawned(p, q.chunks[p], l.layerCount, l, q.store.entries, q.store.meshes)
                  && SlotsIn(q.chunks[p], l.layerCount, q.added))
  {
    if p !in resident && p in chunks {
      ChunkLayersPlaced(p, chunks[p], s, l);
    }
  }

  /** Once a pass has stopped it stays where it stopped. */
  lemma {:induction false} PassStop(points: seq<Point>, k: nat, resident: set<Point>, chunks: map<Point, Chunk>,
                                    s: Store, l: Layout)
    requires k <= |points| && !Pass(points[..k], resident, chunks, s, l).ok
    ensures Pass(points, resident, chunks, s, l) == Pass(points[..k], resident, chunks, s, l)
    decreases |points|
  {
    if |points| > k {
      var before := points[..|points| - 1];
      assert before[..k] == points[..k];
      PassStop(before, k, resident, chunks, s, l);
    } else {
      assert points[..k] == points;
    }
  }

  /** One step of a pass keeps the store valid. */
  lemma PassNextValid(p: Point, resident: set<Point>, n: nat, r0: PassOutcome, l: Layout, r: PassOutcome)
    requires StoreValid(r0.store) && r == PassNext(p, resident, n, r0, l)
    ensures StoreValid(r.store)
  {
    if r0.ok {
      AtPointValid(p, resident, r0.chunks, r0.store, l);
    }
  }

  /** A pass keeps the store valid. */
  lemma {:induction false} PassValid(points: seq<Point>, resident: set<Point>, chunks: map<Point, Chunk>, s: Store, l: Layout)
    requires StoreValid(s)
    ensures StoreValid(Pass(points, resident, chunks, s, l).store)
    decreases |points|
  {
    if points != [] {
      var before := points[..|points| - 1];
      PassValid(before, resident, chunks, s, l);
      PassNextValid(points[|points| - 1], resident + Elements(before), |points|, Pass(before, resident, chunks, s, l), l,
                    Pass(points, resident, chunks, s, l));
    }
  }

  /** One step of a pass only adds, and what it adds joins `added`. */
  lemma PassNextStore(p: Point, resident: set<Point>, n: nat, r0: PassOutcome, l: Layout, s: Store, r: PassOutcome)
    requires StoreValid(r0.store) && Grew(s, r0.store, r0.added) && r == PassNext(p, resident, n, r0, l)
    ensures Grew(s, r.store, r.added)
  {
    if r0.ok {
      AtPointStore(p, resident, r0.chunks, r0.store, l);
      var q := AtPoint(p, resident, r0.chunks, r0.store, l);
      GrewTrans(s, r0.store, q.store, r0.added, q.added);
    }
  }

  /** A pass only adds: no entity or mesh is removed or overwritten, and
      the new entities, all fresh, are exactly `added`. */
  lemma {:induction false} PassStore(points: seq<Point>, resident: set<Point>, chunks: map<Point, Chunk>, s: Store, l: Layout)
    requires StoreValid(s)
    ensures Grew(s, Pass(points, resident, chunks, s, l).store, Pass(points, resident, chunks, s, l).added)
    decreases |points|
  {
    if points == [] {
      GrewNone(s);
    } else {
      var before := points[..|points| - 1];
      PassValid(before, resident, chunks, s, l);
      PassStore(before, resident, chunks, s, l);
      PassNextStore(points[|points| - 1], resident + Elements(before), |points|, Pass(before, resident, chunks, s, l), l, s,
                    Pass(points, resident, chunks, s, l));
    }
  }

  /** One step of a pass adds the meshes of the entities it adds, and its
      stray mesh replaces the former one, which only a stopped pass has. */
  lemma PassNextMeshes(p: Point, resident: set<Point>, n: nat, r0: PassOutcome, l: Layout, s: Store, r: PassOutcome)
    requires StoreValid(r0.store) && Grew(s, r0.store, r0.added) && r == PassNext(p, resident, n, r0, l)
    requires MeshesGrew(s, r0.store, r0.added, r0.stray) && (r0.ok ==> r0.stray == {})
    ensures MeshesGrew(s, r.store, r.added, r.stray) && (r.ok ==> r.stray == {})
  {
    if r0.ok {
      AtPointStore(p, resident, r0.chunks, r0.store, l);
      var q := AtPoint(p, resident, r0.chunks, r0.store, l);
      MeshesGrewTrans(s, r0.store, q.store, r0.added, q.added, q.stray);
    }
  }

  /** The new meshes of a pass are those its entities own, plus the stray
      mesh of the layer whose entity was missing. */
  lemma {:induction false} PassMeshes(points: seq<Point>, resident: set<Point>, chunks: map<Point, Chunk>, s: Store, l: Layout)
    requires StoreValid(s)
    ensures var r := Pass(points, resident, chunks, s, l);
            MeshesGrew(s, r.store, r.added, r.stray) && (r.ok ==> r.stray == {})
    decreases |points|
  {
    if points == [] {
      GrewNone(s);
    } else {
      var before := points[..|points| - 1];
      PassValid(before, resident, chunks, s, l);
      PassStore(before, resident, chunks, s, l);
      PassMeshes(before, resident, chunks, s, l);
      PassNextMeshes(points[|points| - 1], resident + Elements(before), |points|, Pass(before, resident, chunks, s, l), l, s,
                     Pass(points, resident, chunks, s, l));
    }
  }

  /** One step of a pass leaves at most one stray mesh. */
  lemma PassNextStray(p: Point, resident: set<Point>, n: nat, r0: PassOutcome, l: Layout, r: PassOutcome)
    requires |r0.stray| <= 1 && r == PassNext(p, resident, n, r0, l)
    ensures |r.stray| <= 1
  {
    if r0.ok {
      AtPointStray(p, resident, r0.chunks, r0.store, l);
    }
  }

  /** A pass leaves at most one mesh that no entity owns. */
  lemma {:induction false} PassStray(points: seq<Point>, resident: set<Point>, chunks: map<Point, Chunk>, s: Store, l: Layout)
    ensures |Pass(points, resident, chunks, s, l).stray| <= 1
    decreases |points|
  {
    if points != [] {
      var before := points[..|points| - 1];
      PassStray(before, resident, chunks, s, l);
      PassNextStray(points[|points| - 1], resident + Elements(before), |points|, Pass(before, resident, chunks, s, l), l,
                    Pass(points, resident, chunks, s, l));
    }
  }

  /** One step of a pass links the entities of a completed chunk spawn to
      the tilemap. */
  lemma PassNextParents(p: Point, resident: set<Point>, n: nat, r0: PassOutcome, l: Layout, s: Store, r: PassOutcome)
    requires r0.store.parents == s.parents + Adopted(r0.attached, l.mapEntity)
    requires r0.attached <= r0.added && (r0.ok ==> r0.attached == r0.added)
    requires r == PassNext(p, resident, n, r0, l)
    ensures r.store.parents == s.parents + Adopted(r.attached, l.mapEntity)
    ensures r.attached <= r.added && (r.ok ==> r.attached == r.added)
  {
    if r0.ok {
      AtPointParents(p, resident, r0.chunks, r0.store, l);
      var q := AtPoint(p, resident, r0.chunks, r0.store, l);
      ParentsJoin(s.parents, r0.attached, q.attached, l.mapEntity);
    }
  }

  /** The parent links of a pass gain exactly `attached`, each to the
      tilemap: entities of completed chunk spawns, so all of `added` when
      the pass completed. */
  lemma {:induction false} PassParents(points: seq<Point>, resident: set<Point>, chunks: map<Point, Chunk>, s: Store, l: Layout)
    ensures var r := Pass(points, resident, chunks, s, l);
            && r.store.parents == s.parents + Adopted(r.attached, l.mapEntity)
            && r.attached <= r.added && (r.ok ==> r.attached == r.added)
    decreases |points|
  {
    if points == [] {
      var none: set<EntityId> := {};
      assert Adopted(none, l.mapEntity) == map[];
    } else {
      var before := points[..|points| - 1];
      PassParents(before, resident, chunks, s, l);
      PassNextParents(points[|points| - 1], resident + Elements(before), |points|, Pass(before, resident, chunks, s, l), l, s,
                      Pass(points, resident, chunks, s, l));
    }
  }

  /** One step of a pass keeps every chunk's point and renderer data, and
      changes at most the chunk at its point, when that was not resident. */
  lemma PassNextChunks(points: seq<Point>, resident: set<Point>, chunks: map<Point, Chunk>,
                       r0: PassOutcome, l: Layout, r: PassOutcome)
    requires points != []
    requires r0.chunks.Keys == chunks.Keys && r0.handled < |points| && (r0.ok ==> r0.handled == |points| - 1)
    requires forall q :: q in r0.chunks ==> r0.chunks[q].point == chunks[q].point && r0.chunks[q].parts == chunks[q].parts
    requires forall q :: q in chunks && (q in resident || q !in points[..|points| - 1][..r0.handled]) ==> r0.chunks[q] == chunks[q]
    requires r == PassNext(points[|points| - 1], resident + Elements(points[..|points| - 1]), |points|, r0, l)
    ensures forall q :: q in r.chunks ==> r.chunks[q].point == chunks[q].point && r.chunks[q].parts == chunks[q].parts
    ensures forall q :: q in chunks && (q in resident || q !in points[..r.handled]) ==> r.chunks[q] == chunks[q]
  {
    var before := points[..|points| - 1];
    if !r0.ok {
      assert points[..r0.handled] == before[..r0.handled];
    } else {
      assert before[..r0.handled] == before && points[..|points|] == before + [points[|points| - 1]];
    }
  }

  /** A pass keeps every chunk's point and renderer data, and changes only
      chunks at handled points that were not resident. */
  lemma {:induction false} PassChunks(points: seq<Point>, resident: set<Point>, chunks: map<Point, Chunk>, s: Store, l: Layout)
    ensures var r := Pass(points, resident, chunks, s, l);
            && (forall q :: q in r.chunks ==> r.chunks[q].point == chunks[q].point && r.chunks[q].parts == chunks[q].parts)
            && (forall q :: q in chunks && (q in resident || q !in points[..r.handled]) ==> r.chunks[q] == chunks[q])
    decreases |points|
  {
    if points != [] {
      var before := points[..|points| - 1];
      PassChunks(before, resident, chunks, s, l);
      PassNextChunks(points, resident, chunks, Pass(before, resident, chunks, s, l), l, Pass(points, resident, chunks, s, l));
    }
  }

  /** A step of a pass that stops does so at a point that was neither
      resident nor handled before, and that holds a chunk. */
  lemma PassNextHandled(points: seq<Point>, resident: set<Point>, chunks: map<Point, Chunk>,
                        r0: PassOutcome, l: Layout, r: PassOutcome)
    requires points != [] && r0.chunks.Keys == chunks.Keys
    requires r0.handled < |points| && (r0.ok ==> r0.handled == |points| - 1) && (!r0.ok ==> r0.handled > 0)
    requires !r0.ok ==>
               && points[r0.handled - 1] !in resident && points[r0.handled - 1] !in points[..|points| - 1][..r0.handled - 1]
               && points[r0.handled - 1] in chunks
    requires r == PassNext(points[|points| - 1], resident + Elements(points[..|points| - 1]), |points|, r0, l)
    ensures !r.ok ==>
              && 0 < r.handled <= |points|
              && points[r.handled - 1] !in resident && points[r.handled - 1] !in points[..r.handled - 1]
              && points[r.handled - 1] in chunks
  {
    if !r0.ok {
      assert points[..|points| - 1][..r0.handled - 1] == points[..r0.handled - 1];
    }
  }

  /** A pass that stopped did so at a point that was neither resident nor
      handled before, and that held a chunk. */
  lemma {:induction false} PassHandled(points: seq<Point>, resident: set<Point>, chunks: map<Point, Chunk>, s: Store, l: Layout)
    ensures var r := Pass(points, resident, chunks, s, l);
            !r.ok ==>
              && points[r.handled - 1] !in resident && points[r.handled - 1] !in points[..r.handled - 1]
              && points[r.handled - 1] in chunks
    decreases |points|
  {
    if points != [] {
      var before := points[..|points| - 1];
      PassHandled(before, resident, chunks, s, l);
      PassNextHandled(points, resident, chunks, Pass(before, resident, chunks, s, l), l, Pass(points, resident, chunks, s, l));
    }
  }

  /** A layer entity spawned by a pass over `points` against the resident
      set `resident`: it belongs to a handled point that was not resident
      and that holds a chunk, and it fills the slot of its own layer there. */
  ghost predicate Placed(e: EntityId, points: seq<Point>, resident: set<Point>, chunks: map<Point, Chunk>, l: Layout,
                         entries: map<EntityId, LayerEntry>, meshes: map<MeshId, RendererParts>)
  {
    && e in entries
    && entries[e].point in points && entries[e].point !in resident && entries[e].point in chunks
    && SlotOf(entries[e].point, chunks[entries[e].point], e, l, entries, meshes)
  }

  /** One step of a pass places the entities it spawns, and those placed
      before stay placed. */
  lemma PassNextPlaced(before: seq<Point>, p: Point, resident: set<Point>, r0: PassOutcome, l: Layout, r: PassOutcome)
    requires StoreValid(r0.store) && r0.handled <= |before| && (r0.ok ==> r0.handled == |before|)
    requires forall e :: e in r0.added ==> Placed(e, before[..r0.handled], resident, r0.chunks, l, r0.store.entries, r0.store.meshes)
    requires r == PassNext(p, resident + Elements(before), |before| + 1, r0, l)
    ensures forall e :: e in r.added ==> Placed(e, (before + [p])[..r.handled], resident, r.chunks, l, r.store.entries, r.store.meshes)
  {
    if !r0.ok {
      assert (before + [p])[..r0.handled] == before[..r0.handled];
    } else {
      AtPointStore(p, resident + Elements(before), r0.chunks, r0.store, l);
      AtPointPlaced(p, resident + Elements(before), r0.chunks, r0.store, l);
      var q := AtPoint(p, resident + Elements(before), r0.chunks, r0.store, l);
      assert before[..r0.handled] == before && (before + [p])[..|before| + 1] == before + [p];
      PlacedJoin(before, p, resident, Elements(before), r0.chunks, q.chunks, l, r0.store, q.store, r0.added, q.added);
    }
  }

  /** Every entity a pass spawned sits in a slot of the chunk of a handled,
      formerly non-resident point, on screen. */
  lemma {:induction false} PassPlaced(points: seq<Point>, resident: set<Point>, chunks: map<Point, Chunk>, s: Store, l: Layout)
    requires StoreValid(s)
    ensures var r := Pass(points, resident, chunks, s, l);
            forall e :: e in r.added ==> Placed(e, points[..r.handled], resident, r.chunks, l, r.store.entries, r.store.meshes)
    decreases |points|
  {
    if points != [] {
      var before := points[..|points| - 1];
      PassValid(before, resident, chunks, s, l);
      PassPlaced(before, resident, chunks, s, l);
      // the recursive call's conclusion, spelled out so that it matches the next call's premise
      assert forall e :: e in Pass(before, resident, chunks, s, l).added ==>
               Placed(e, before[..Pass(before, resident, chunks, s, l).handled], resident, Pass(before, resident, chunks, s, l).chunks,
                      l, Pass(before, resident, chunks, s, l).store.entries, Pass(before, resident, chunks, s, l).store.meshes);
      var r0 := Pass(before, resident, chunks, s, l);
      assert before + [points[|points| - 1]] == points;
      PassNextPlaced(before, points[|points| - 1], resident, r0, l, Pass(points, resident, chunks, s, l));
    }
  }

  /** The entities placed earlier in a pass stay placed while the pass
      handles the point `p`, and those placed at `p` join them. */
  lemma PlacedJoin(before: seq<Point>, p: Point, resident: set<Point>, handled: set<Point>,
                   chunks: map<Point, Chunk>, chunks': map<Point, Chunk>, l: Layout,
                   o: Store, t: Store, added: set<EntityId>, added': set<EntityId>)
    requires handled == Elements(before)
    requires forall e :: e in added ==> Placed(e, before, resident, chunks, l, o.entries, o.meshes)
    requires forall e :: e in added' ==> Placed(e, [p], resident + handled, chunks', l, t.entries, t.meshes)
    requires chunks'.Keys == chunks.Keys && forall k :: k in chunks && k != p ==> chunks'[k] == chunks[k]
    requires p in handled ==> chunks' == chunks && added' == {}
    requires Extends(o.entries, t.entries) && Extends(o.meshes, t.meshes)
    ensures forall e :: e in added + added' ==> Placed(e, before + [p], resident, chunks', l, t.entries, t.meshes)
  {
    forall e | e in added + added'
      ensures Placed(e, before + [p], resident, chunks', l, t.entries, t.meshes)
    {
      if e in added {
        assert Placed(e, before, resident, chunks, l, o.entries, o.meshes);
        var q := o.entries[e].point;
        SlotOfExtends(q, chunks[q], e, l, o.entries, o.meshes, t.entries, t.meshes);
      } else {
        assert Placed(e, [p], resident + handled, chunks', l, t.entries, t.meshes);
      }
    }
  }

  /** Every chunk at a point among `points` that was not resident has its
      rendered layers on screen, each slot filled by one of `added`. */
  ghost predicate PassSpawned(points: seq<Point>, resident: set<Point>, chunks: map<Point, Chunk>, l: Layout,
                              entries: map<EntityId, LayerEntry>, meshes: map<MeshId, RendererParts>, added: set<EntityId>)
  {
    forall q :: q in points && q !in resident && q in chunks ==>
      ChunkSpawned(q, chunks[q], l.layerCount, l, entries, meshes) && SlotsIn(chunks[q], l.layerCount, added)
  }

  /** One step of a pass puts the chunk it completes on screen and keeps
      those completed before there. */
  lemma PassNextOnScreen(before: seq<Point>, p: Point, resident: set<Point>, r0: PassOutcome, l: Layout, r: PassOutcome)
    requires StoreValid(r0.store) && r0.handled <= |before| && (r0.ok ==> r0.handled == |before|) && (!r0.ok ==> r0.handled > 0)
    requires r0.ok ==> PassSpawned(before, resident, r0.chunks, l, r0.store.entries, r0.store.meshes, r0.added)
    requires !r0.ok ==> PassSpawned(before[..r0.handled - 1], resident, r0.chunks, l, r0.store.entries, r0.store.meshes, r0.added)
    requires r == PassNext(p, resident + Elements(before), |before| + 1, r0, l)
    ensures r.ok ==> PassSpawned(before + [p], resident, r.chunks, l, r.store.entries, r.store.meshes, r.added)
    ensures !r.ok ==> 0 < r.handled && PassSpawned((before + [p])[..r.handled - 1], resident, r.chunks, l, r.store.entries, r.store.meshes, r.added)
  {
    if !r0.ok {
      assert (before + [p])[..r0.handled - 1] == before[..r0.handled - 1];
    } else {
      AtPointStore(p, resident + Elements(before), r0.chunks, r0.store, l);
      AtPointPlaced(p, resident + Elements(before), r0.chunks, r0.store, l);
      var q := AtPoint(p, resident + Elements(before), r0.chunks, r0.store, l);
      assert (before + [p])[..|before|] == before;
      PassSpawnedJoin(before, p, resident, Elements(before), r0.chunks, q.chunks, l, r0.store, q.store, r0.added, q.added, q.ok);
    }
  }

  /** Every chunk a pass completed is on screen: those of all handled points
      when the pass completed, of all but the last handled one when it
      stopped. */
  lemma {:induction false} PassOnScreen(points: seq<Point>, resident: set<Point>, chunks: map<Point, Chunk>, s: Store, l: Layout)
    requires StoreValid(s)
    ensures var r := Pass(points, resident, chunks, s, l);
            r.ok ==> PassSpawned(points, resident, r.chunks, l, r.store.entries, r.store.meshes, r.added)
    ensures var r := Pass(points, resident, chunks, s, l);
            !r.ok ==> PassSpawned(points[..r.handled - 1], resident, r.chunks, l, r.store.entries, r.store.meshes, r.added)
    decreases |points|
  {
    if points != [] {
      var before := points[..|points| - 1];
      PassValid(before, resident, chunks, s, l);
      PassOnScreen(before, resident, chunks, s, l);
      assert before + [points[|points| - 1]] == points;
      PassNextOnScreen(before, points[|points| - 1], resident, Pass(before, resident, chunks, s, l), l,
                       Pass(points, resident, chunks, s, l));
    }
  }

  /** Chunks completed earlier in a pass stay on screen while the pass
      handles the point `p`, and the chunk at `p` joins them when its spawn
      completed. */
  lemma PassSpawnedJoin(before: seq<Point>, p: Point, resident: set<Point>, handled: set<Point>,
                        chunks: map<Point, Chunk>, chunks': map<Point, Chunk>, l: Layout,
                        o: Store, t: Store, added: set<EntityId>, added': set<EntityId>, ok: bool)
    requires handled == Elements(before)
    requires PassSpawned(before, resident, chunks, l, o.entries, o.meshes, added)
    requires chunks'.Keys == chunks.Keys && forall k :: k in chunks && k != p ==> chunks'[k] == chunks[k]
    requires ok && p !in resident + handled && p in chunks ==>
               ChunkSpawned(p, chunks'[p], l.layerCount, l, t.entries, t.meshes) && SlotsIn(chunks'[p], l.layerCount, added')
    requires p in handled ==> chunks' == chunks
    requires Extends(o.entries, t.entries) && Extends(o.meshes, t.meshes)
    ensures ok ==> PassSpawned(before + [p], resident, chunks', l, t.entries, t.meshes, added + added')
    ensures !ok ==> PassSpawned(before, resident, chunks', l, t.entries, t.meshes, added + added')
  {
    forall k | k in before && k !in resident && k in chunks
      ensures ChunkSpawned(k, chunks'[k], l.layerCount, l, t.entries, t.meshes)
      ensures SlotsIn(chunks'[k], l.layerCount, added + added')
    {
      ChunkSpawnedExtends(k, chunks[k], l.layerCount, l, o.entries, o.meshes, t.entries, t.meshes);
    }
  }

  /** A pass over points that are all resident already changes nothing. */
  lemma {:induction false} PassIdle(points: seq<Point>, resident: set<Point>, chunks: map<Point, Chunk>, s: Store, l: Layout)
    requires forall q :: q in points ==> q in resident
    ensures Pass(points, resident, chunks, s, l) == PassOutcome(true, |points|, chunks, s, {}, {}, {})
    decreases |points|
  {
    if points != [] {
      PassIdle(points[..|points| - 1], resident, chunks, s, l);
    }
  }

  // ---------------------------------------------------------------------------
  // Set helpers

  /** The elements of a sequence grown by one. */
  lemma ElementsSnoc<T>(s: seq<T>, x: T)
    ensures Elements(s + [x]) == Elements(s) + {x}
  {
    assert forall y :: y in s + [x] <==> y in s || y == x;
  }

  /** The elements of a prefix grown by one. */
  lemma ElementsPrefix<T>(s: seq<T>, i: nat)
    requires i < |s|
    ensures Elements(s[..i + 1]) == Elements(s[..i]) + {s[i]}
  {
    assert s[..i + 1] == s[..i] + [s[i]];
    ElementsSnoc(s[..i], s[i]);
  }

  /** Removing the keys of a prefix grown by one. */
  lemma WithoutPrefix<K, V>(m: map<K, V>, s: seq<K>, i: nat)
    requires i < |s|
    ensures m - Elements(s[..i + 1]) == (m - Elements(s[..i])) - {s[i]}
  {
    ElementsPrefix(s, i);
  }

  /** Removing the keys of a concatenation, one part after the other. */
  lemma WithoutConcat<K, V>(m: map<K, V>, a: seq<K>, b: seq<K>)
    ensures m - Elements(a + b) == (m - Elements(a)) - Elements(b)
  {
    assert Elements(a + b) == Elements(a) + Elements(b);
  }

  /** Attaching two groups of children one after the other. */
  lemma ParentsJoin(parents: map<EntityId, EntityId>, a: set<EntityId>, b: set<EntityId>, m: EntityId)
    ensures (parents + Adopted(a, m)) + Adopted(b, m) == parents + Adopted(a + b, m)
  {
  }

  /** Spawning `e` with an entry that owns `h` adds `h` to the meshes owned. */
  lemma MeshesOfAdd(entries: map<EntityId, LayerEntry>, es: set<EntityId>, e: EntityId, entry: LayerEntry)
    requires e !in entries
    ensures MeshesOf(entries[e := entry], es + {e}) == MeshesOf(entries, es) + {entry.mesh}
  {
    var entries' := entries[e := entry];
    forall m | m in MeshesOf(entries, es)
      ensures m in MeshesOf(entries', es + {e})
    {
      var d :| d in es && d in entries && entries[d].mesh == m;
      assert entries'[d].mesh == m;
    }
    assert entries'[e].mesh == entry.mesh;
  }

  /** Meshes owned by entities that survive a growth of the registry, and
      by two groups of entities together. */
  lemma MeshesOfGrow(entries: map<EntityId, LayerEntry>, entries': map<EntityId, LayerEntry>, a: set<EntityId>, b: set<EntityId>)
    requires Extends(entries, entries') && a <= entries.Keys
    ensures MeshesOf(entries', a + b) == MeshesOf(entries, a) + MeshesOf(entries', b)
  {
    forall m | m in MeshesOf(entries', a + b)
      ensures m in MeshesOf(entries, a) + MeshesOf(entries', b)
    {
      var d :| d in a + b && d in entries' && entries'[d].mesh == m;
      if d in a {
        assert entries[d].mesh == m;
      }
    }
    forall m | m in MeshesOf(entries, a)
      ensures m in MeshesOf(entries', a + b)
    {
      var d :| d in a && d in entries && entries[d].mesh == m;
      assert entries'[d].mesh == m;
    }
  }
}
