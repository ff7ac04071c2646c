/** The host scene registry and mesh assets, as far as the chunk systems use
    them: layer entities carrying a `ModifiedLayer` counter, mesh attribute
    buffers behind opaque handles, parent/child links, and the change
    detection behind `Changed<ModifiedLayer>`. */
module Ecs {

  import opened Options
  import opened Geometry

  /** Opaque identity of an entity. */
  type EntityId = nat

  /** Opaque handle of a mesh owned by the asset store. */
  type MeshId = nat

  /** The two renderer-facing attribute arrays of a chunk layer: tile
      indexes and RGBA tile colours. */
  datatype RendererParts = RendererParts(tileIndex: seq<real>, tileColor: seq<(real, real, real, real)>)

  /** The components of one spawned chunk-layer entity: its chunk point, its
      z-order, its mesh handle, its transform and its `ModifiedLayer`
      counter (zero when spawned). */
  datatype LayerEntry = LayerEntry(point: Point, zOrder: nat, mesh: MeshId, translation: Translation, modified: nat)

  /** One `modified_layer.0 += 1` on entity `e`, skipped when `e` has no
      `ModifiedLayer` (the lookup fails and the event is ignored). */
  function Bump(entries: map<EntityId, LayerEntry>, e: EntityId): map<EntityId, LayerEntry> {
    if e in entries then entries[e := entries[e].(modified := entries[e].modified + 1)] else entries
  }

  /** The counters after bumping once per occurrence in `es`, in order. */
  function BumpAll(entries: map<EntityId, LayerEntry>, es: seq<EntityId>): map<EntityId, LayerEntry>
    decreases |es|
  {
    if es == [] then entries else BumpAll(Bump(entries, es[0]), es[1..])
  }

  /** Occurrences of `e` in `es`. */
  function Count(es: seq<EntityId>, e: EntityId): nat {
    if es == [] then 0 else (if es[0] == e then 1 else 0) + Count(es[1..], e)
  }

  /** Each existing counter rises by exactly the number of times its entity
      is named; nothing else about any entity changes and no entity appears
      or disappears. */
  lemma {:induction false} BumpAllCounts(entries: map<EntityId, LayerEntry>, es: seq<EntityId>)
    ensures BumpAll(entries, es).Keys == entries.Keys
    ensures forall e :: e in entries ==>
              BumpAll(entries, es)[e] == entries[e].(modified := entries[e].modified + Count(es, e))
    decreases |es|
  {
    if es != [] {
      BumpAllCounts(Bump(entries, es[0]), es[1..]);
    }
  }

  /** Counters never decrease. */
  lemma BumpAllMonotone(entries: map<EntityId, LayerEntry>, es: seq<EntityId>, e: EntityId)
    requires e in entries
    ensures e in BumpAll(entries, es) && BumpAll(entries, es)[e].modified >= entries[e].modified
  {
    BumpAllCounts(entries, es);
  }

  /** Bumping along `a + b` is bumping along `a`, then along `b`. */
  lemma {:induction false} BumpAllAppend(entries: map<EntityId, LayerEntry>, a: seq<EntityId>, b: seq<EntityId>)
    ensures BumpAll(entries, a + b) == BumpAll(BumpAll(entries, a), b)
    decreases |a|
  {
    if a != [] {
      assert (a + b)[0] == a[0] && (a + b)[1..] == a[1..] + b;
      BumpAllAppend(Bump(entries, a[0]), a[1..], b);
    } else {
      assert a + b == b;
    }
  }

  /** Bumping counters keeps a store valid: no entity appears or
      disappears and none changes its mesh. */
  lemma BumpAllValid(s: Store, es: seq<EntityId>)
    requires StoreValid(s)
    ensures StoreValid(s.(entries := BumpAll(s.entries, es)))
  {
    BumpAllCounts(s.entries, es);
  }

  /** The counter values as change detection last recorded them. */
  function Counters(entries: map<EntityId, LayerEntry>): map<EntityId, nat> {
    map e | e in entries :: entries[e].modified
  }

  /** `Changed<ModifiedLayer>`: entities whose counter was added or moved
      since the change trackers were last cleared. */
  function Changed(entries: map<EntityId, LayerEntry>, seen: map<EntityId, nat>): set<EntityId> {
    set e | e in entries && (e !in seen || seen[e] != entries[e].modified)
  }

  /** Dirty tracking: starting from cleared trackers, after a sequence of
      modification events an entity is due for a mesh rebuild exactly when
      some event named it. */
  lemma ChangedExactlyWhenNamed(entries: map<EntityId, LayerEntry>, es: seq<EntityId>, e: EntityId)
    ensures e in Changed(BumpAll(entries, es), Counters(entries)) <==> e in entries && Count(es, e) > 0
  {
    BumpAllCounts(entries, es);
  }

  /** After an event pass that spawned entities on top of `before`, bumped
      the counters named in `mods` and destroyed `gone`, with the trackers
      cleared at `before`: an entity is due for a mesh refresh exactly when it
      survived and was either spawned by the pass or named by a modification. */
  lemma ChangedAfterPass(before: map<EntityId, LayerEntry>, afterSpawn: map<EntityId, LayerEntry>,
                         mods: seq<EntityId>, gone: set<EntityId>, e: EntityId)
    requires Extends(before, afterSpawn)
    ensures e in Changed(BumpAll(afterSpawn, mods) - gone, Counters(before))
            <==> e in afterSpawn && e !in gone && (e !in before || Count(mods, e) > 0)
  {
    BumpAllCounts(afterSpawn, mods);
  }

  /** The elements of a sequence, as a set. */
  function Elements<T>(s: seq<T>): set<T> {
    set x | x in s
  }

  /** A parent link from each of `es` to `parent`. */
  function Adopted(es: set<EntityId>, parent: EntityId): map<EntityId, EntityId> {
    map e | e in es :: parent
  }

  /** `after` keeps every key of `before` with its value. */
  ghost predicate Extends<K, V>(before: map<K, V>, after: map<K, V>) {
    forall k :: k in before ==> k in after && after[k] == before[k]
  }

  /** The registry and the mesh asset store as one value: the layer
      entities, the meshes, the parent links, the two handle counters, and
      how many entities the registry can ever hand out. */
  datatype Store = Store(entries: map<EntityId, LayerEntry>, meshes: map<MeshId, RendererParts>,
                         parents: map<EntityId, EntityId>, nextEntity: nat, nextMesh: nat, capacity: nat)

  /** Handles are allocated from counters, so every live handle is below
      its counter, and every layer entity owns a mesh of its own. */
  ghost predicate StoreValid(s: Store) {
    && (forall e :: e in s.entries ==> e < s.nextEntity && s.entries[e].mesh < s.nextMesh)
    && (forall m :: m in s.meshes ==> m < s.nextMesh)
    && (forall e1, e2 :: e1 in s.entries && e2 in s.entries && e1 != e2 ==> s.entries[e1].mesh != s.entries[e2].mesh)
  }

  /** `meshes.add(mesh)`: the handle the mesh is stored under, and the new
      store. The handle is fresh, owned by no entity, and nothing but the
      mesh store changes. */
  function AddMeshTo(s: Store, parts: RendererParts): (r: (MeshId, Store))
    ensures r.1 == s.(meshes := s.meshes[r.0 := parts], nextMesh := r.1.nextMesh) && r.0 < r.1.nextMesh
  {
    (s.nextMesh, s.(meshes := s.meshes[s.nextMesh := parts], nextMesh := s.nextMesh + 1))
  }

  /** In a valid store the new mesh handle is fresh and owned by no entity,
      and the store stays valid. */
  lemma AddMeshFresh(s: Store, parts: RendererParts)
    requires StoreValid(s)
    ensures var r := AddMeshTo(s, parts);
            && StoreValid(r.1) && r.0 !in s.meshes
            && (forall e :: e in s.entries ==> s.entries[e].mesh != r.0)
  {
  }

  /** `commands.spawn(bundle).current_entity()`: a fresh entity carrying
      `entry`, or nothing, with the store unchanged, exactly when the
      registry is exhausted. */
  function SpawnIn(s: Store, entry: LayerEntry): (r: (Option<EntityId>, Store))
    ensures r.0.None? <==> s.nextEntity >= s.capacity
    ensures r.0.None? ==> r.1 == s
    ensures r.0.Some? ==> r.1 == s.(entries := s.entries[r.0.value := entry], nextEntity := r.1.nextEntity)
  {
    if s.nextEntity < s.capacity then
      (Some(s.nextEntity), s.(entries := s.entries[s.nextEntity := entry], nextEntity := s.nextEntity + 1))
    else
      (None, s)
  }

  /** In a valid store a spawned entity is fresh, and the store stays valid
      when the entry owns a mesh of its own. */
  lemma SpawnFresh(s: Store, entry: LayerEntry)
    requires StoreValid(s)
    ensures var r := SpawnIn(s, entry);
            && (r.0.Some? ==> r.0.value !in s.entries)
            && (entry.mesh < s.nextMesh && (forall e :: e in s.entries ==> s.entries[e].mesh != entry.mesh) ==> StoreValid(r.1))
  {
  }

  /** `commands.push_children(parent, es)`: each of `es` gets `parent` as
      its `Parent`, and no other link or anything else changes. */
  function AdoptIn(s: Store, parent: EntityId, es: seq<EntityId>): (r: Store)
    ensures r == s.(parents := r.parents)
    ensures r.parents.Keys == s.parents.Keys + Elements(es)
    ensures forall e :: e in r.parents ==> r.parents[e] == if e in es then parent else s.parents[e]
  {
    s.(parents := s.parents + Adopted(Elements(es), parent))
  }

  /** The entity registry and the mesh asset store. */
  class World {
    var entries: map<EntityId, LayerEntry>
    var meshes: map<MeshId, RendererParts>
    var parents: map<EntityId, EntityId>
    var seen: map<EntityId, nat>
    var nextEntity: EntityId
    var nextMesh: MeshId
    /** How many entities the registry can ever hand out; a spawn beyond it
        yields no entity. */
    var capacity: nat

    /** The observable state, as one value. */
    ghost function State(): Store
      reads this`entries, this`meshes, this`parents, this`nextEntity, this`nextMesh, this`capacity
    {
      Store(entries, meshes, parents, nextEntity, nextMesh, capacity)
    }

    ghost predicate Valid()
      reads this`entries, this`meshes, this`parents, this`nextEntity, this`nextMesh, this`capacity
    {
      StoreValid(State())
    }

    constructor (capacity: nat)
      ensures Valid()
      ensures entries == map[] && meshes == map[] && parents == map[] && seen == map[]
      ensures this.capacity == capacity
    {
      entries, meshes, parents, seen := map[], map[], map[], map[];
      nextEntity, nextMesh := 0, 0;
      this.capacity := capacity;
    }

    /** `meshes.add(mesh)`: stores a new mesh and returns its handle. */
    method AddMesh(parts: RendererParts) returns (h: MeshId)
      requires Valid()
      modifies this`meshes, this`nextMesh
      ensures Valid()
      ensures (h, State()) == AddMeshTo(old(State()), parts)
    {
      h := nextMesh;
      meshes := meshes[h := parts];
      nextMesh := nextMesh + 1;
    }

    /** `commands.spawn(bundle).current_entity()`. */
    method Spawn(entry: LayerEntry) returns (r: Option<EntityId>)
      requires Valid()
      requires entry.mesh < nextMesh && forall e :: e in entries ==> entries[e].mesh != entry.mesh
      modifies this`entries, this`nextEntity
      ensures Valid()
      ensures (r, State()) == SpawnIn(old(State()), entry)
    {
      if nextEntity < capacity {
        r := Some(nextEntity);
        entries := entries[nextEntity := entry];
        nextEntity := nextEntity + 1;
      } else {
        r := None;
      }
    }

    /** `commands.push_children(parent, es)`. */
    method PushChildren(parent: EntityId, es: seq<EntityId>)
      modifies this`parents
      ensures State() == AdoptIn(old(State()), parent, es)
    {
      parents := parents + Adopted(Elements(es), parent);
    }

    /** `commands.despawn_recursive(e)`: the entity and its components,
        its `Parent` link among them, go. */
    method DespawnRecursive(e: EntityId)
      requires Valid()
      modifies this`entries, this`parents
      ensures Valid()
      ensures entries == old(entries) - {e}
      ensures parents == old(parents) - {e}
    {
      entries := entries - {e};
      parents := parents - {e};
    }

    /** `modified_layer.0 += 1` for every entity of `es` that still has a
        `ModifiedLayer`, in order. */
    method BumpModified(es: seq<EntityId>)
      requires Valid()
      modifies this`entries
      ensures Valid()
      ensures entries == BumpAll(old(entries), es)
    {
      for i := 0 to |es|
        invariant entries == BumpAll(old(entries), es[..i])
      {
        var e := es[i];
        if e in entries {
          entries := entries[e := entries[e].(modified := entries[e].modified + 1)];
        }
        assert es[..i + 1] == es[..i] + [e];
        BumpAllAppend(old(entries), es[..i], [e]);
      }
      assert es[..|es|] == es;
      BumpAllValid(old(State()), es);
    }

    /** Overwrites the attribute buffers of mesh `h` in place. */
    method SetMeshAttributes(h: MeshId, parts: RendererParts)
      requires Valid() && h in meshes
      modifies this`meshes
      ensures Valid()
      ensures meshes == old(meshes)[h := parts]
    {
      meshes := meshes[h := parts];
    }
  }
}
