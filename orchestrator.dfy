/** The engine's top level (`engine/orchestrator.py`): the re-entrancy guard,
    the lazily filled creation map, the garbage collection of managed
    datablocks the new plan no longer names, and the hand-off to the
    materializer. */
module Orchestrator {
  import opened Base
  import opened HostStore
  import opened UuidManager
  import opened NodeTreeData
  import opened ProxyArena
  import opened ProxyTypes
  import opened Planner
  import opened Materializer
  import opened NodeEval

  // ---------------------------------------------------------------------
  // Destruction in a safe order

  /** The four partitions the destroyer removes in turn. */
  datatype Parts = Parts(objects: seq<DbRef>, data: seq<DbRef>, collections: seq<DbRef>, scenes: seq<DbRef>)

  /** The datablock a uuid names in the census, when it is there and alive.
      A removed datablock raises ReferenceError when its type is read and is
      skipped. */
  function Live(w: World, census: map<Uuid, DbRef>, u: Uuid): (r: Option<DbRef>)
    ensures r.Some? ==> u in census && r.value == census[u] && r.value in w.dbs && w.dbs[r.value].alive
    ensures r.None? ==> u !in census || census[u] !in w.dbs || !w.dbs[census[u]].alive
  {
    if u in census && census[u] in w.dbs && w.dbs[census[u]].alive then Some(census[u]) else None
  }

  /** The live datablocks the uuids `us` name. */
  ghost function Targets(w: World, census: map<Uuid, DbRef>, us: seq<Uuid>): set<DbRef> {
    set u | u in us && Live(w, census, u).Some? :: Live(w, census, u).value
  }

  /** Partitioning by the datablock's kind: objects, then object data and
      the other ID types, then collections, then scenes. */
  function Partition(w: World, census: map<Uuid, DbRef>, us: seq<Uuid>): Parts
    decreases |us|
  {
    if us == [] then Parts([], [], [], [])
    else
      var p := Partition(w, census, us[..|us| - 1]);
      match Live(w, census, us[|us| - 1])
      case None => p
      case Some(db) =>
        match w.dbs[db].kind
        case KObject => p.(objects := p.objects + [db])
        case KCollection => p.(collections := p.collections + [db])
        case KScene => p.(scenes := p.scenes + [db])
        case _ => p.(data := p.data + [db])
  }

  /** All members of the four partitions. */
  function Members(p: Parts): seq<DbRef> {
    p.objects + p.data + p.collections + p.scenes
  }

  /** Every partition holds exactly the live targets of its kind. */
  lemma {:induction false} PartitionFacts(w: World, census: map<Uuid, DbRef>, us: seq<Uuid>)
    ensures var p := Partition(w, census, us);
      (forall x :: x in Members(p) <==> x in Targets(w, census, us))
      && (forall x :: x in p.objects ==> x in w.dbs && w.dbs[x].kind == KObject)
      && (forall x :: x in p.collections ==> x in w.dbs && w.dbs[x].kind == KCollection)
      && (forall x :: x in p.scenes ==> x in w.dbs && w.dbs[x].kind == KScene)
      && (forall x :: x in p.data ==> x in w.dbs && w.dbs[x].kind !in {KObject, KCollection, KScene})
    decreases |us|
  {
    if us != [] {
      var pre := us[..|us| - 1];
      PartitionFacts(w, census, pre);
      assert forall u :: u in us <==> u in pre || u == us[|us| - 1];
      assert Targets(w, census, us) == Targets(w, census, pre)
        + (if Live(w, census, us[|us| - 1]).Some? then {Live(w, census, us[|us| - 1]).value} else {});
    }
  }

  /** `remove(db)` on each of `xs` in turn; one already removed raises
      ReferenceError and is skipped. */
  function RemoveAll(w: World, xs: seq<DbRef>): World
    decreases |xs|
  {
    if xs == [] then w
    else
      var w1 := RemoveAll(w, xs[..|xs| - 1]);
      var x := xs[|xs| - 1];
      if x in w1.dbs && w1.dbs[x].alive then Removed(w1, x) else w1
  }

  /** Removing `xs` kills exactly the live members of `xs` and keeps every
      other datablock's liveness, uuid and kind. */
  lemma {:induction false} RemoveAllFacts(w: World, xs: seq<DbRef>)
    ensures var w2 := RemoveAll(w, xs);
      w2.dbs.Keys == w.dbs.Keys
      && forall x :: x in w.dbs ==>
        w2.dbs[x].alive == (w.dbs[x].alive && x !in xs)
        && w2.dbs[x].fnUuid == w.dbs[x].fnUuid && w2.dbs[x].kind == w.dbs[x].kind && w2.dbs[x].rna == w.dbs[x].rna
    decreases |xs|
  {
    if xs != [] {
      RemoveAllFacts(w, xs[..|xs| - 1]);
      assert forall x :: x in xs <==> x in xs[..|xs| - 1] || x == xs[|xs| - 1];
    }
  }

  /** `_destroy_datablocks_safely` with each datablock partitioned and
      removed through the collection of its kind. */
  function DestroyByKind(w: World, census: map<Uuid, DbRef>, us: seq<Uuid>): World {
    var p := Partition(w, census, us);
    RemoveAll(RemoveAll(RemoveAll(RemoveAll(w, p.objects), p.data), p.collections), p.scenes)
  }

  /** After the destroyer, a datablock is alive exactly when it was alive
      and no uuid of `us` names it; uuids and kinds are kept. */
  lemma DestroyByKindKills(w: World, census: map<Uuid, DbRef>, us: seq<Uuid>)
    ensures var w2 := DestroyByKind(w, census, us);
      w2.dbs.Keys == w.dbs.Keys
      && forall x :: x in w.dbs ==>
        w2.dbs[x].alive == (w.dbs[x].alive && x !in Targets(w, census, us))
        && w2.dbs[x].fnUuid == w.dbs[x].fnUuid && w2.dbs[x].kind == w.dbs[x].kind
  {
    var p := Partition(w, census, us);
    PartitionFacts(w, census, us);
    var w1 := RemoveAll(w, p.objects);
    var w2 := RemoveAll(w1, p.data);
    var w3 := RemoveAll(w2, p.collections);
    RemoveAllFacts(w, p.objects);
    RemoveAllFacts(w1, p.data);
    RemoveAllFacts(w2, p.collections);
    RemoveAllFacts(w3, p.scenes);
    forall x | x in w.dbs
      ensures x in Members(p) <==> x in p.objects || x in p.data || x in p.collections || x in p.scenes
    {
    }
  }

  /** The destroyer: the partition loop, then the four removal loops. */
  method DestroySafely(s: Store, census: map<Uuid, DbRef>, us: seq<Uuid>)
    requires s.Valid()
    modifies s
    ensures s.Valid() && s.order == old(s.order) && s.next == old(s.next)
    ensures s.w == DestroyByKind(old(s.w), census, us)
  {
    var p := Parts([], [], [], []);
    var i := 0;
    while i < |us|
      invariant 0 <= i <= |us|
      invariant p == Partition(s.w, census, us[..i])
    {
      assert us[..i + 1][..i] == us[..i];
      var u := us[i];
      if u in census && census[u] in s.w.dbs && s.w.dbs[census[u]].alive {
        var db := census[u];
        match s.w.dbs[db].kind
        case KObject => p := p.(objects := p.objects + [db]);
        case KCollection => p := p.(collections := p.collections + [db]);
        case KScene => p := p.(scenes := p.scenes + [db]);
        case _ => p := p.(data := p.data + [db]);
      }
      i := i + 1;
    }
    assert us[..i] == us;
    RemoveEach(s, p.objects);
    RemoveEach(s, p.data);
    RemoveEach(s, p.collections);
    RemoveEach(s, p.scenes);
  }

  /** One removal loop. */
  method RemoveEach(s: Store, xs: seq<DbRef>)
    requires s.Valid()
    modifies s
    ensures s.Valid() && s.order == old(s.order) && s.next == old(s.next)
    ensures s.w == RemoveAll(old(s.w), xs)
  {
    var i := 0;
    while i < |xs|
      invariant 0 <= i <= |xs|
      invariant s.Valid() && s.order == old(s.order) && s.next == old(s.next)
      invariant s.w == RemoveAll(old(s.w), xs[..i])
    {
      assert xs[..i + 1][..i] == xs[..i];
      var x := xs[i];
      if x in s.w.dbs && s.w.dbs[x].alive {
        s.Remove(x);
      }
      i := i + 1;
    }
    assert xs[..i] == xs;
  }

  // The destroyer as written: the type test compares `bl_rna.identifier`
  // with upper-case names, and data is removed through the attribute
  // `identifier.lower() + 's'` of `bpy.data` when there is one.

  /** The partition as written. Every ID has `users`, so what is not named
      OBJECT, SCENE or COLLECTION lands in DATA and OTHER stays empty. */
  function PartitionAsWritten(w: World, census: map<Uuid, DbRef>, us: seq<Uuid>): Parts
    decreases |us|
  {
    if us == [] then Parts([], [], [], [])
    else
      var p := PartitionAsWritten(w, census, us[..|us| - 1]);
      match Live(w, census, us[|us| - 1])
      case None => p
      case Some(db) =>
        var t := w.dbs[db].rna;
        if t == "OBJECT" then p.(objects := p.objects + [db])
        else if t == "SCENE" then p.(scenes := p.scenes + [db])
        else if t == "COLLECTION" then p.(collections := p.collections + [db])
        else p.(data := p.data + [db])
  }

  /** The attribute of `bpy.data` the DATA loop looks up. */
  function GuessedCollection(rna: string): string {
    Lower(rna) + "s"
  }

  /** The DATA loop as written: a datablock is removed only when the guessed
      attribute exists. */
  function RemoveNamed(w: World, xs: seq<DbRef>): World
    decreases |xs|
  {
    if xs == [] then w
    else
      var w1 := RemoveNamed(w, xs[..|xs| - 1]);
      var x := xs[|xs| - 1];
      if x in w1.dbs && w1.dbs[x].alive && GuessedCollection(w1.dbs[x].rna) in DataCollections then Removed(w1, x) else w1
  }

  function DestroyAsWritten(w: World, census: map<Uuid, DbRef>, us: seq<Uuid>): World {
    var p := PartitionAsWritten(w, census, us);
    RemoveAll(RemoveAll(RemoveNamed(RemoveAll(w, p.objects), p.data), p.collections), p.scenes)
  }

  /** The identifiers the host gives datablocks are capitalised words, never
      the upper-case names the partition tests. */
  predicate HostIdentifiers(w: World) {
    forall x :: x in w.dbs ==> w.dbs[x].rna != "OBJECT" && w.dbs[x].rna != "SCENE" && w.dbs[x].rna != "COLLECTION"
  }

  lemma {:induction false} PartitionAsWrittenAllData(w: World, census: map<Uuid, DbRef>, us: seq<Uuid>)
    requires HostIdentifiers(w)
    ensures var p := PartitionAsWritten(w, census, us);
      p.objects == [] && p.collections == [] && p.scenes == []
      && forall x :: x in p.data <==> x in Targets(w, census, us)
    decreases |us|
  {
    if us != [] {
      var pre := us[..|us| - 1];
      PartitionAsWrittenAllData(w, census, pre);
      assert forall u :: u in us <==> u in pre || u == us[|us| - 1];
      assert Targets(w, census, us) == Targets(w, census, pre)
        + (if Live(w, census, us[|us| - 1]).Some? then {Live(w, census, us[|us| - 1]).value} else {});
    }
  }

  lemma {:induction false} RemoveNamedFacts(w: World, xs: seq<DbRef>)
    ensures var w2 := RemoveNamed(w, xs);
      w2.dbs.Keys == w.dbs.Keys
      && forall x :: x in w.dbs ==>
        w2.dbs[x].alive == (w.dbs[x].alive && !(x in xs && GuessedCollection(w.dbs[x].rna) in DataCollections))
        && w2.dbs[x].rna == w.dbs[x].rna
    decreases |xs|
  {
    if xs != [] {
      RemoveNamedFacts(w, xs[..|xs| - 1]);
      assert forall x :: x in xs <==> x in xs[..|xs| - 1] || x == xs[|xs| - 1];
    }
  }

  /** As written, a targeted datablock is removed only when its guessed
      collection exists; every other one is kept. */
  lemma DestroyAsWrittenSurvivors(w: World, census: map<Uuid, DbRef>, us: seq<Uuid>)
    requires HostIdentifiers(w)
    ensures var w2 := DestroyAsWritten(w, census, us);
      w2.dbs.Keys == w.dbs.Keys
      && forall x :: x in w.dbs ==>
        w2.dbs[x].alive == (w.dbs[x].alive
          && !(x in Targets(w, census, us) && GuessedCollection(w.dbs[x].rna) in DataCollections))
  {
    var p := PartitionAsWritten(w, census, us);
    PartitionAsWrittenAllData(w, census, us);
    RemoveAllFacts(w, p.objects);
    RemoveNamedFacts(w, p.data);
  }

  /** There is no guessed collection for meshes, lights and node trees
      (`meshs`, `pointlights`, `shadernodetrees`, ...). */
  lemma GuessMisses(k: Kind, lightType: string)
    requires k in {KMesh, KLight, KNodeTree}
    ensures GuessedCollection(RnaOf(k, lightType)) !in DataCollections
  {
    match k
    case KMesh => Missing("Mesh", "meshs");
    case KNodeTree => Missing("ShaderNodeTree", "shadernodetrees");
    case KLight =>
      if lightType == "SUN" {
        Missing("SunLight", "sunlights");
      } else if lightType == "SPOT" {
        Missing("SpotLight", "spotlights");
      } else if lightType == "AREA" {
        Missing("AreaLight", "arealights");
      } else {
        Missing("PointLight", "pointlights");
      }
  }

  lemma Missing(rna: string, name: string)
    requires |name| == |rna| + 1 && name[|rna|] == 's' && forall i :: 0 <= i < |rna| ==> name[i] == LowerChar(rna[i])
    requires name !in DataCollections
    ensures GuessedCollection(rna) !in DataCollections
  {
    Guessed(rna, name);
  }

  /** The guessed collection exists for every other kind. */
  lemma GuessHits(k: Kind, lightType: string)
    requires k !in {KMesh, KLight, KNodeTree}
    ensures GuessedCollection(RnaOf(k, lightType)) in DataCollections
  {
    if k in {KObject, KScene, KCollection, KMaterial, KCamera} {
      GuessHitsFirst(k, lightType);
    } else {
      GuessHitsRest(k, lightType);
    }
  }

  lemma GuessHitsFirst(k: Kind, lightType: string)
    requires k in {KObject, KScene, KCollection, KMaterial, KCamera}
    ensures GuessedCollection(RnaOf(k, lightType)) in DataCollections
  {
    match k
    case KObject => Guessed("Object", "objects");
    case KScene => Guessed("Scene", "scenes");
    case KCollection => Guessed("Collection", "collections");
    case KMaterial => Guessed("Material", "materials");
    case KCamera => Guessed("Camera", "cameras");
  }

  lemma GuessHitsRest(k: Kind, lightType: string)
    requires k in {KImage, KText, KWorld, KArmature, KAction, KWorkspace}
    ensures GuessedCollection(RnaOf(k, lightType)) in DataCollections
  {
    match k
    case KImage => Guessed("Image", "images");
    case KText => Guessed("Text", "texts");
    case KWorld => Guessed("World", "worlds");
    case KArmature => Guessed("Armature", "armatures");
    case KAction => Guessed("Action", "actions");
    case KWorkspace => Guessed("WorkSpace", "workspaces");
  }

  /** `name` is the guess for `rna`. */
  lemma Guessed(rna: string, name: string)
    requires |name| == |rna| + 1 && name[|rna|] == 's' && forall i :: 0 <= i < |rna| ==> name[i] == LowerChar(rna[i])
    ensures GuessedCollection(rna) == name
  {
  }

  /** A managed mesh the plan no longer names: the destroyer as written
      leaves it alive, the one by kind removes it. */
  lemma StaleMeshSurvives(w: World, census: map<Uuid, DbRef>)
    requires w.dbs == map[0 := Datablock(KMesh, "Mesh", "Cube", true, Some("m"), map[], map[], [], [])]
    requires census == map["m" := 0]
    ensures var w2 := DestroyAsWritten(w, census, ["m"]); 0 in w2.dbs && w2.dbs[0].alive
    ensures var w2 := DestroyByKind(w, census, ["m"]); 0 in w2.dbs && !w2.dbs[0].alive
  {
    assert Live(w, census, "m") == Some(0);
    assert "m" in ["m"];
    assert 0 in Targets(w, census, ["m"]);
    Missing("Mesh", "meshs");
    DestroyAsWrittenSurvivors(w, census, ["m"]);
    DestroyByKindKills(w, census, ["m"]);
  }

  // ---------------------------------------------------------------------
  // Synchronisation

  /** `uuids_to_destroy`: the managed uuids the plan does not name. */
  function DestroySet(cache: map<Uuid, DbRef>, plan: seq<Prim>): (r: set<Uuid>)
    ensures forall u :: u in r <==> u in cache && forall i :: 0 <= i < |plan| ==> plan[i].id != u
  {
    cache.Keys - set i | 0 <= i < |plan| :: plan[i].id
  }

  /** An empty plan makes every managed datablock a candidate; a plan that
      names every managed uuid destroys nothing. */
  lemma DestroySetBounds(cache: map<Uuid, DbRef>, plan: seq<Prim>)
    ensures plan == [] ==> DestroySet(cache, plan) == cache.Keys
    ensures (forall u :: u in cache ==> exists i :: 0 <= i < |plan| && plan[i].id == u) ==> DestroySet(cache, plan) == {}
  {
  }

  /** The host after the garbage-collection step: the cache is populated,
      and a non-empty destroy set, listed by `enumerate`, is destroyed. */
  function Cleared(h: Host, plan: seq<Prim>, enumerate: set<Uuid> -> seq<Uuid>): (r: Host)
    ensures r.order == h.order && r.next == h.next && r.cache == Populated(h).cache && r.populated
  {
    var h1 := Populated(h);
    var d := DestroySet(h1.cache, plan);
    if d == {} then h1 else h1.(w := DestroyByKind(h1.w, h1.cache, enumerate(d)))
  }

  /** After the garbage-collection step, a datablock is alive exactly when
      it was alive and is not a managed datablock the plan leaves out. */
  lemma ClearedKills(h: Host, plan: seq<Prim>, enumerate: set<Uuid> -> seq<Uuid>)
    requires forall d :: forall u :: u in enumerate(d) <==> u in d
    ensures var h1 := Populated(h); var r := Cleared(h, plan, enumerate);
      r.w.dbs.Keys == h.w.dbs.Keys
      && forall x :: x in h.w.dbs ==>
        (r.w.dbs[x].alive <==>
          (h.w.dbs[x].alive
           && forall u :: u in h1.cache && h1.cache[u] == x ==> exists i :: 0 <= i < |plan| && plan[i].id == u))
  {
    var h1 := Populated(h);
    var d := DestroySet(h1.cache, plan);
    if d != {} {
      var us := enumerate(d);
      DestroyByKindKills(h1.w, h1.cache, us);
      forall x | x in h.w.dbs
        ensures x in Targets(h1.w, h1.cache, us) <==>
          (h.w.dbs[x].alive
           && exists u :: u in h1.cache && h1.cache[u] == x && forall i :: 0 <= i < |plan| ==> plan[i].id != u)
      {
        if h.w.dbs[x].alive && exists u :: u in h1.cache && h1.cache[u] == x && forall i :: 0 <= i < |plan| ==> plan[i].id != u {
          var u :| u in h1.cache && h1.cache[u] == x && forall i :: 0 <= i < |plan| ==> plan[i].id != u;
          assert u in us;
          assert Live(h1.w, h1.cache, u) == Some(x);
        }
      }
    }
  }

  /** The root asks for its scene to become the window's scene. */
  predicate SceneRoot(root: Prim) {
    Get(root.props, "datablock_type") == VStr("SCENE")
  }

  /** The engine's module state: the re-entrancy flag, the creation map and
      the window's scene. */
  class Engine {
    var executing: bool
    var creation: map<string, Kind>
    var windowScene: Option<DbRef>

    constructor (scene: Option<DbRef>)
      ensures !executing && creation == map[] && windowScene == scene
    {
      executing := false;
      creation := map[];
      windowScene := scene;
    }

    /** `_initialize_creation_map`: the standard ten entries, filled only
        while the map is empty. */
    method InitializeCreationMap()
      modifies this
      ensures creation == InitialCreation(old(creation))
      ensures executing == old(executing) && windowScene == old(windowScene)
    {
      if creation == map[] {
        creation := StandardCreation;
      }
    }

    /** `_synchronize_blender_state`: the destroy step, the materializer,
        and the scene switch. `mid` is the host just after the materializer;
        `aborted` says an exception escaped it. */
    method Synchronize(s: Store, c: UuidCache, tree: DatablockTree, plan: seq<Prim>, root: Prim,
                       enumerate: set<Uuid> -> seq<Uuid>, defaults: Kind -> Props,
                       keysOf: Props -> seq<string>, capture: (World, DbRef) -> Props)
      returns (aborted: bool, ghost mid: Host)
      requires s.Valid() && root.id != "" && forall i :: 0 <= i < |plan| ==> plan[i].id != ""
      modifies this, s, c, tree
      ensures s.Valid() && executing == old(executing) && creation == old(creation)
      ensures tree.overrides == old(tree.overrides) && tree.stateMap == old(tree.stateMap) && tree.relationships == old(tree.relationships)
      ensures Materialize(St(Cleared(old(Snap(s, c)), plan, enumerate), old(tree.initialStates)), tree.overrides, plan, creation, defaults, keysOf, capture)
        == Run(St(mid, tree.initialStates), aborted)
      ensures Snap(s, c) == if !aborted && SceneRoot(root) then Populated(mid) else mid
      ensures !aborted && SceneRoot(root) && root.id in Populated(mid).cache ==> windowScene == Some(Populated(mid).cache[root.id])
      ensures aborted || !SceneRoot(root) || root.id !in Populated(mid).cache ==> windowScene == old(windowScene)
      ensures SyncRun(old(Snap(s, c)), old(tree.initialStates), tree.overrides, plan, root, creation, enumerate, defaults, keysOf, capture)
        == Run(St(Snap(s, c), tree.initialStates), aborted)
    {
      ClearStale(s, c, plan, enumerate);
      aborted := MaterializePlan(s, c, tree, plan, creation, defaults, keysOf, capture);
      mid := Snap(s, c);
      if aborted {
        return;
      }
      if SceneRoot(root) {
        var scene := c.Find(s, root.id);
        if scene.Some? && windowScene != scene {
          windowScene := scene;
        }
      }
    }

    /** The garbage-collection step of `_synchronize`: every managed
        datablock whose uuid the plan leaves out is destroyed. */
    method ClearStale(s: Store, c: UuidCache, plan: seq<Prim>, enumerate: set<Uuid> -> seq<Uuid>)
      requires s.Valid()
      modifies s, c
      ensures s.Valid() && Snap(s, c) == Cleared(old(Snap(s, c)), plan, enumerate)
    {
      var desired := set i | 0 <= i < |plan| :: plan[i].id;
      var current := c.GetAll(s);
      var doomed := current.Keys - desired;
      assert doomed == DestroySet(current, plan);
      if doomed != {} {
        DestroySafely(s, current, enumerate(doomed));
      }
    }

    /** `execute_node_tree`: returns at once while a run is in progress;
        otherwise evaluates the active branch, plans the root's subtree and
        synchronises the host, clearing the flag however the run ends. */
    method ExecuteNodeTree(g: seq<Node>, ghost rank: seq<nat>, exec: (Node, Props) -> Option<Value>, treeValue: Value,
                           heap: ProxyHeap, s: Store, c: UuidCache, tree: DatablockTree,
                           enumerate: set<Uuid> -> seq<Uuid>, defaults: Kind -> Props,
                           keysOf: Props -> seq<string>, capture: (World, DbRef) -> Props)
      returns (r: Outcome, ghost planned: Option<seq<Handle>>)
      requires Ranked(g, rank) && heap.Valid() && s.Valid()
      modifies this, s, c, tree
      ensures executing == old(executing) && s.Valid()
      ensures r == Busy <==> old(executing)
      ensures old(executing) ==>
        (creation == old(creation) && windowScene == old(windowScene)
         && s.w == old(s.w) && c.cache == old(c.cache) && c.populated == old(c.populated)
         && tree.initialStates == old(tree.initialStates))
      ensures !old(executing) ==> creation == InitialCreation(old(creation))
      ensures !old(executing) && DistinctIds(g) ==>
        var b := ActiveRoot(g, rank, exec, treeValue);
        (b == BranchRaised ==> r == Failed)
        && (b == NoRoot ==> r == Idle)
        && (r == Synced ==> b.Root?)
        && (b.Root? && b.h !in heap.prims ==> r == Idle)
      ensures !old(executing) && DistinctIds(g) && ActiveRoot(g, rank, exec, treeValue).Root?
              && ActiveRoot(g, rank, exec, treeValue).h in heap.prims ==>
        Built(heap.prims, heap.next, ActiveRoot(g, rank, exec, treeValue).h, planned, r,
              old(Snap(s, c)), old(tree.initialStates), old(windowScene),
              Snap(s, c), tree.initialStates, windowScene, tree.overrides, creation, enumerate, defaults, keysOf, capture)
      ensures r == Idle || r == Busy || (r == Failed && !old(executing) && DistinctIds(g) && ActiveRoot(g, rank, exec, treeValue) == BranchRaised) ==>
        s.w == old(s.w) && c.cache == old(c.cache) && tree.initialStates == old(tree.initialStates)
    {
      planned := None;
      if executing {
        return Busy, None;
      }
      executing := true;
      InitializeCreationMap();
      var b := EvaluateActiveBranch(g, rank, exec, treeValue);
      r, planned := RunBranch(b, heap, s, c, tree, enumerate, defaults, keysOf, capture);
      executing := false;
    }

    /** What `execute_node_tree` does with the evaluated branch: an escaped
        exception fails the run, no root (or a root the heap does not hold)
        leaves everything as it was, and a root is built. */
    method RunBranch(b: Branch, heap: ProxyHeap, s: Store, c: UuidCache, tree: DatablockTree,
                     enumerate: set<Uuid> -> seq<Uuid>, defaults: Kind -> Props,
                     keysOf: Props -> seq<string>, capture: (World, DbRef) -> Props)
      returns (r: Outcome, ghost planned: Option<seq<Handle>>)
      requires heap.Valid() && s.Valid()
      modifies this, s, c, tree
      ensures s.Valid() && executing == old(executing) && creation == old(creation)
      ensures (b == BranchRaised ==> r == Failed) && (r == Synced ==> b.Root?)
      ensures b == NoRoot || (b.Root? && b.h !in heap.prims) ==> r == Idle
      ensures b.Root? && b.h in heap.prims ==>
        Built(heap.prims, heap.next, b.h, planned, r, old(Snap(s, c)), old(tree.initialStates), old(windowScene),
              Snap(s, c), tree.initialStates, windowScene, tree.overrides, creation, enumerate, defaults, keysOf, capture)
      ensures !(b.Root? && b.h in heap.prims) ==>
        s.w == old(s.w) && c.cache == old(c.cache) && c.populated == old(c.populated)
        && tree.initialStates == old(tree.initialStates) && windowScene == old(windowScene)
    {
      planned := None;
      if b.BranchRaised? {
        r := Failed;
      } else if b.NoRoot? || b.h !in heap.prims {
        r := Idle;
      } else {
        r, planned := BuildRoot(heap, b.h, s, c, tree, enumerate, defaults, keysOf, capture);
      }
    }

    /** The tail of `execute_node_tree` once a root prim `h` is found: plan
        its subtree, then synchronise the host; a planning failure or an
        aborted synchronisation fails the run. `planned` is the planner's
        answer; on a plan the store and the initial states are those
        `SyncRun` gives for it. */
    method BuildRoot(heap: ProxyHeap, h: Handle, s: Store, c: UuidCache, tree: DatablockTree,
                     enumerate: set<Uuid> -> seq<Uuid>, defaults: Kind -> Props,
                     keysOf: Props -> seq<string>, capture: (World, DbRef) -> Props)
      returns (r: Outcome, ghost planned: Option<seq<Handle>>)
      requires heap.Valid() && s.Valid() && h in heap.prims
      modifies this, s, c, tree
      ensures r == Failed || r == Synced
      ensures s.Valid() && executing == old(executing) && creation == old(creation)
      ensures tree.overrides == old(tree.overrides)
      ensures Built(heap.prims, heap.next, h, planned, r, old(Snap(s, c)), old(tree.initialStates), old(windowScene),
                    Snap(s, c), tree.initialStates, windowScene, tree.overrides, creation, enumerate, defaults, keysOf, capture)
    {
      var order := PlanExecution(heap, Some(h));
      planned := order;
      if order.None? {
        r := Failed;
      } else {
        PlanInHeap(heap.prims, heap.next, Flat(heap.prims, heap.next, h), order);
        var plan := PrimsAt(heap.prims, order.value);
        var aborted, _ := Synchronize(s, c, tree, plan, heap.prims[h], enumerate, defaults, keysOf, capture);
        r := if aborted then Failed else Synced;
      }
    }
  }

  /** The host after `_synchronize`: the stale datablocks are cleared, the
      plan is materialised and, for a scene root when nothing aborted, the
      uuid cache is filled. */
  ghost function SyncRun(h0: Host, initial: Option<seq<InitialRow>>, overrides: seq<OverrideRow>, plan: seq<Prim>, root: Prim,
                         creation: map<string, Kind>, enumerate: set<Uuid> -> seq<Uuid>, defaults: Kind -> Props,
                         keysOf: Props -> seq<string>, capture: (World, DbRef) -> Props): Run
  {
    var run := Materialize(St(Cleared(h0, plan, enumerate), initial), overrides, plan, creation, defaults, keysOf, capture);
    Run(St(if !run.aborted && SceneRoot(root) then Populated(run.st.h) else run.st.h, run.st.initial), run.aborted)
  }

  /** The run from a root prim `h`: `planned` is the planner's answer on the
      root's subtree; without a plan the run fails and nothing changes, with
      one the host is what `_synchronize` makes of it, and the run fails
      exactly when that aborts. */
  ghost predicate Built(m: Arena, n: nat, h: Handle, planned: Option<seq<Handle>>, r: Outcome,
                        h0: Host, init0: Option<seq<InitialRow>>, scene0: Option<DbRef>,
                        h1: Host, init1: Option<seq<InitialRow>>, scene1: Option<DbRef>,
                        overrides: seq<OverrideRow>, creation: map<string, Kind>, enumerate: set<Uuid> -> seq<Uuid>,
                        defaults: Kind -> Props, keysOf: Props -> seq<string>, capture: (World, DbRef) -> Props)
    requires WF(m, n) && h in m
  {
    (r == Failed || r == Synced)
    && PlanOutcome(m, n, Flat(m, n, h), planned)
    && (planned.None? ==> r == Failed && h1 == h0 && init1 == init0 && scene1 == scene0)
    && (planned.Some? ==>
          (forall x :: x in planned.value ==> x in m)
          && Synchronized(h0, init0, scene0, h1, init1, scene1, r == Failed, overrides, PrimsAt(m, planned.value), m[h],
                          creation, enumerate, defaults, keysOf, capture))
  }

  /** `(h1, init1, scene1)` is what `_synchronize` leaves from `(h0, init0,
      scene0)` on `plan`, and `failed` says whether it aborted; the window
      shows the root scene once it has been built. */
  ghost predicate Synchronized(h0: Host, init0: Option<seq<InitialRow>>, scene0: Option<DbRef>,
                               h1: Host, init1: Option<seq<InitialRow>>, scene1: Option<DbRef>, failed: bool,
                               overrides: seq<OverrideRow>, plan: seq<Prim>, root: Prim,
                               creation: map<string, Kind>, enumerate: set<Uuid> -> seq<Uuid>, defaults: Kind -> Props,
                               keysOf: Props -> seq<string>, capture: (World, DbRef) -> Props)
  {
    var run := SyncRun(h0, init0, overrides, plan, root, creation, enumerate, defaults, keysOf, capture);
    run == Run(St(h1, init1), failed)
    && scene1 == (if !failed && SceneRoot(root) && root.id in h1.cache then Some(h1.cache[root.id]) else scene0)
  }

  /** How a call of `execute_node_tree` ends: a run was in progress; there
      was no root to build; an exception escaped; the host was
      synchronised. */
  datatype Outcome = Busy | Idle | Failed | Synced

  /** The creation map after `_initialize_creation_map`. */
  function InitialCreation(m: map<string, Kind>): (r: map<string, Kind>)
    ensures r != map[] && (m != map[] ==> r == m)
    ensures r.Keys == if m == map[] then {"SCENE", "COLLECTION", "CAMERA", "IMAGE", "LIGHT", "MATERIAL", "MESH", "WORLD", "ARMATURE", "ACTION"} else m.Keys
  {
    assert "SCENE" in StandardCreation;
    if m == map[] then StandardCreation else m
  }

  /** Filling the creation map is idempotent. */
  lemma InitialCreationIdempotent(m: map<string, Kind>)
    ensures InitialCreation(InitialCreation(m)) == InitialCreation(m)
  {
  }

  /** The prims the handles `hs` name. */
  function PrimsAt(m: Arena, hs: seq<Handle>): (r: seq<Prim>)
    requires forall h :: h in hs ==> h in m
    ensures |r| == |hs| && forall k :: 0 <= k < |hs| ==> r[k] == m[hs[k]]
  {
    seq(|hs|, k requires 0 <= k < |hs| => m[hs[k]])
  }

  /** A plan the planner returns lists prims of the heap. */
  lemma PlanInHeap(m: Arena, n: nat, flat: seq<Handle>, r: Option<seq<Handle>>)
    requires WF(m, n) && PlanOutcome(m, n, flat, r) && r.Some?
    ensures forall h :: h in r.value ==> h in m
  {
  }
}
