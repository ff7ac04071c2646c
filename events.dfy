/** The chunk events a tilemap publishes and the partition `tilemap_events`
    makes of them before it processes each kind in turn. */
module Events {

  import opened Geometry
  import opened Ecs

  /** `TilemapChunkEvent`. A `Modified` event names `(z-order, entity)`
      pairs of the layers whose tiles changed; a `Despawned` event names the
      layer entities of the chunk being removed. */
  datatype ChunkEvent =
    | Spawned(point: Point)
    | Modified(layers: seq<(nat, EntityId)>)
    | Despawned(entities: seq<EntityId>, point: Point)

  /** The points of the `Spawned` events, in arrival order. */
  function SpawnedPoints(events: seq<ChunkEvent>): seq<Point> {
    if events == [] then []
    else (if events[0].Spawned? then [events[0].point] else []) + SpawnedPoints(events[1..])
  }

  /** The layer lists of the `Modified` events, in arrival order. */
  function ModifiedLayers(events: seq<ChunkEvent>): seq<seq<(nat, EntityId)>> {
    if events == [] then []
    else (if events[0].Modified? then [events[0].layers] else []) + ModifiedLayers(events[1..])
  }

  /** The entity lists and points of the `Despawned` events, in arrival order. */
  function DespawnedChunks(events: seq<ChunkEvent>): seq<(seq<EntityId>, Point)> {
    if events == [] then []
    else (if events[0].Despawned? then [(events[0].entities, events[0].point)] else []) + DespawnedChunks(events[1..])
  }

  /** Splitting distributes over concatenation: within each kind, events that
      arrive earlier stay earlier. */
  lemma PartitionAppend(a: seq<ChunkEvent>, b: seq<ChunkEvent>)
    ensures SpawnedPoints(a + b) == SpawnedPoints(a) + SpawnedPoints(b)
    ensures ModifiedLayers(a + b) == ModifiedLayers(a) + ModifiedLayers(b)
    ensures DespawnedChunks(a + b) == DespawnedChunks(a) + DespawnedChunks(b)
  {
    SpawnedAppend(a, b);
    ModifiedAppend(a, b);
    DespawnedAppend(a, b);
  }

  lemma {:induction false} SpawnedAppend(a: seq<ChunkEvent>, b: seq<ChunkEvent>)
    ensures SpawnedPoints(a + b) == SpawnedPoints(a) + SpawnedPoints(b)
    decreases |a|
  {
    if a == [] {
      assert a + b == b;
    } else {
      assert (a + b)[0] == a[0] && (a + b)[1..] == a[1..] + b;
      SpawnedAppend(a[1..], b);
    }
  }

  lemma {:induction false} ModifiedAppend(a: seq<ChunkEvent>, b: seq<ChunkEvent>)
    ensures ModifiedLayers(a + b) == ModifiedLayers(a) + ModifiedLayers(b)
    decreases |a|
  {
    if a == [] {
      assert a + b == b;
    } else {
      assert (a + b)[0] == a[0] && (a + b)[1..] == a[1..] + b;
      ModifiedAppend(a[1..], b);
    }
  }

  lemma {:induction false} DespawnedAppend(a: seq<ChunkEvent>, b: seq<ChunkEvent>)
    ensures DespawnedChunks(a + b) == DespawnedChunks(a) + DespawnedChunks(b)
    decreases |a|
  {
    if a == [] {
      assert a + b == b;
    } else {
      assert (a + b)[0] == a[0] && (a + b)[1..] == a[1..] + b;
      DespawnedAppend(a[1..], b);
    }
  }

  /** Every event lands in exactly one of the three lists. */
  lemma {:induction false} PartitionSizes(events: seq<ChunkEvent>)
    ensures |SpawnedPoints(events)| + |ModifiedLayers(events)| + |DespawnedChunks(events)| == |events|
  {
    if events != [] {
      PartitionSizes(events[1..]);
    }
  }

  /** A point is to be spawned exactly when some `Spawned` event names it. */
  lemma {:induction false} SpawnedPointsMembers(events: seq<ChunkEvent>, p: Point)
    ensures p in SpawnedPoints(events) <==> Spawned(p) in events
  {
    if events != [] {
      SpawnedPointsMembers(events[1..], p);
      assert events == [events[0]] + events[1..];
    }
  }

  /** The entities named by a list of `(z-order, entity)` pairs, in order. */
  function LayerEntities(layers: seq<(nat, EntityId)>): (es: seq<EntityId>)
    ensures |es| == |layers| && forall i :: 0 <= i < |layers| ==> es[i] == layers[i].1
  {
    if layers == [] then [] else [layers[0].1] + LayerEntities(layers[1..])
  }

  /** The entities of a sequence of entity lists, flattened in order. */
  function Flatten(batches: seq<seq<EntityId>>): seq<EntityId> {
    if batches == [] then [] else batches[0] + Flatten(batches[1..])
  }

  /** The entities the modification phase bumps, in the order it bumps them. */
  function ModifiedEntities(layers: seq<seq<(nat, EntityId)>>): seq<EntityId> {
    if layers == [] then [] else LayerEntities(layers[0]) + ModifiedEntities(layers[1..])
  }

  lemma {:induction false} ModifiedEntitiesAppend(a: seq<seq<(nat, EntityId)>>, b: seq<seq<(nat, EntityId)>>)
    ensures ModifiedEntities(a + b) == ModifiedEntities(a) + ModifiedEntities(b)
    decreases |a|
  {
    if a == [] {
      assert a + b == b;
    } else {
      assert (a + b)[0] == a[0] && (a + b)[1..] == a[1..] + b;
      ModifiedEntitiesAppend(a[1..], b);
    }
  }

  lemma {:induction false} FlattenAppend(a: seq<seq<EntityId>>, b: seq<seq<EntityId>>)
    ensures Flatten(a + b) == Flatten(a) + Flatten(b)
    decreases |a|
  {
    if a == [] {
      assert a + b == b;
    } else {
      assert (a + b)[0] == a[0] && (a + b)[1..] == a[1..] + b;
      FlattenAppend(a[1..], b);
    }
  }

  /** The layer entities of the despawned chunks, in the order the
      despawn phase destroys them. */
  function DespawnedEntities(chunks: seq<(seq<EntityId>, Point)>): seq<EntityId> {
    if chunks == [] then [] else chunks[0].0 + DespawnedEntities(chunks[1..])
  }

  lemma {:induction false} DespawnedEntitiesAppend(a: seq<(seq<EntityId>, Point)>, b: seq<(seq<EntityId>, Point)>)
    ensures DespawnedEntities(a + b) == DespawnedEntities(a) + DespawnedEntities(b)
    decreases |a|
  {
    if a == [] {
      assert a + b == b;
    } else {
      assert (a + b)[0] == a[0] && (a + b)[1..] == a[1..] + b;
      DespawnedEntitiesAppend(a[1..], b);
    }
  }

  /** The entities of `Modified` events over a prefix grown by one event. */
  lemma ModifiedEntitiesPrefix(layers: seq<seq<(nat, EntityId)>>, i: nat)
    requires i < |layers|
    ensures ModifiedEntities(layers[..i + 1]) == ModifiedEntities(layers[..i]) + LayerEntities(layers[i])
  {
    assert layers[..i + 1] == layers[..i] + [layers[i]];
    ModifiedEntitiesAppend(layers[..i], [layers[i]]);
    var one := [layers[i]];
    assert one[1..] == [];
  }

  /** The entities of older `Modified` events over a prefix grown by one. */
  lemma FlattenPrefix(batches: seq<seq<EntityId>>, i: nat)
    requires i < |batches|
    ensures Flatten(batches[..i + 1]) == Flatten(batches[..i]) + batches[i]
  {
    assert batches[..i + 1] == batches[..i] + [batches[i]];
    FlattenAppend(batches[..i], [batches[i]]);
    var one := [batches[i]];
    assert one[1..] == [];
  }

  /** The entities of `Despawned` events over a prefix grown by one event. */
  lemma DespawnedEntitiesPrefix(chunks: seq<(seq<EntityId>, Point)>, i: nat)
    requires i < |chunks|
    ensures DespawnedEntities(chunks[..i + 1]) == DespawnedEntities(chunks[..i]) + chunks[i].0
  {
    assert chunks[..i + 1] == chunks[..i] + [chunks[i]];
    DespawnedEntitiesAppend(chunks[..i], [chunks[i]]);
    var one := [chunks[i]];
    assert one[1..] == [];
  }

  /** The reader loop of `tilemap_events`: one pass over the events, pushing
      each onto the list of its kind. */
  method Partition(events: seq<ChunkEvent>)
    returns (spawned: seq<Point>, modified: seq<seq<(nat, EntityId)>>, despawned: seq<(seq<EntityId>, Point)>)
    ensures spawned == SpawnedPoints(events)
    ensures modified == ModifiedLayers(events)
    ensures despawned == DespawnedChunks(events)
  {
    spawned, modified, despawned := [], [], [];
    for i := 0 to |events|
      invariant spawned == SpawnedPoints(events[..i])
      invariant modified == ModifiedLayers(events[..i])
      invariant despawned == DespawnedChunks(events[..i])
    {
      var event := events[i];
      match event {
        case Modified(layers) =>
          modified := modified + [layers];
        case Spawned(point) =>
          spawned := spawned + [point];
        case Despawned(entities, point) =>
          despawned := despawned + [(entities, point)];
      }
      assert events[..i + 1] == events[..i] + [event];
      PartitionAppend(events[..i], [event]);
    }
    assert events[..|events|] == events;
  }
}
