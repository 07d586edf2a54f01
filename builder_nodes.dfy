/** The source nodes that build a spare prim tree: Scene, Collection, Empty,
    Cube, Camera, Light and Create Primitive. Each one allocates its prims
    through the `DatablockProxy` constructor, in source order, so every
    builder is a heap method; what it promises is the value of the tree it
    returns, and what the planner makes of that tree. */
module BuilderNodes {
  import opened Base
  import opened Strings
  import opened ProxyArena
  import opened ProxyTypes
  import opened Planner

  // ---------------------------------------------------------------------
  // Names and ids

  /** `text` is what an f-string shows for `v`, for the values whose `str`
      is fixed; any other value may show as any text. */
  predicate Shows(v: Value, text: string) {
    (v.VStr? ==> text == v.s)
    && (v.VNone? ==> text == "None")
    && (v.VBool? ==> text == (if v.b then "True" else "False"))
    && (v.VInt? ==> text == IntString(v.i))
  }

  /** The ids of the (up to) three prims a builder makes: the root, the
      object (or collection) and the object data. */
  datatype Ids = Ids(root: Uuid, obj: Uuid, data: Uuid)

  /** Every fallback id `uuid.uuid4()` would give is present. */
  predicate Filled(ids: Ids) {
    ids.root != "" && ids.obj != "" && ids.data != ""
  }

  /** The id the constructor keeps: the given one when truthy, else the
      spare one. */
  function Pick(given: Uuid, spare: Uuid): (r: Uuid)
    ensures spare != "" ==> r != ""
    ensures given != "" ==> r == given
  {
    if given != "" then given else spare
  }

  // ---------------------------------------------------------------------
  // The properties each builder writes

  function SceneProps(name: Value): Props {
    map["datablock_type" := VStr("SCENE"), "name" := name]
  }

  /** `{'collection_links': ['/root']}`, plus `'data'` when a data path is given. */
  function Links(data: Option<string>): Value {
    var links := map["collection_links" := VList([VStr("/root")])];
    VDict(if data.Some? then links["data" := VStr(data.value)] else links)
  }

  function CollectionProps(name: Value): Props {
    map["datablock_type" := VStr("COLLECTION"), "name" := name,
        "is_default_collection_prim" := VBool(true), RelKey := Links(None)]
  }

  function ObjectProps(name: Value, data: Option<string>): Props {
    map["datablock_type" := VStr("OBJECT"), "name" := name, RelKey := Links(data)]
  }

  function DataProps(kind: string, text: string): Props {
    map["datablock_type" := VStr(kind), "name" := VStr(text + "_data")]
  }

  function LightProps(text: string, lightType: string, energy: real): Props {
    DataProps("LIGHT", text)["type" := VStr(lightType)]["energy" := VReal(energy)]
  }

  // ---------------------------------------------------------------------
  // The trees the builders return

  /** The value of the tree `FN_scene` returns: a lone root. */
  function SceneTree(name: Value, id: Uuid): Tree {
    Tree("/root", id, SceneProps(name), [])
  }

  /** A root named after `text` with one leaf child at `/root/<text>`. */
  function PairTree(text: string, ids: Ids, child: Props): Tree {
    Tree("/root", ids.root, SceneProps(VStr(text + "_scene")),
      [Tree("/root/" + text, ids.obj, child, [])])
  }

  /** Root, object, and the object's data nested under the object. */
  function NestedTree(name: Value, text: string, ids: Ids, data: Props): Tree {
    var path := "/root/" + text;
    Tree("/root", ids.root, SceneProps(VStr(text + "_scene")),
      [Tree(path, ids.obj, ObjectProps(name, Some(path + "/data")),
        [Tree(path + "/data", ids.data, data, [])])])
  }

  /** Root with the data and then the object as siblings under it. */
  function SiblingTree(name: Value, text: string, ids: Ids, data: Props): Tree {
    var path := "/root/" + text;
    Tree("/root", ids.root, SceneProps(VStr(text + "_scene")),
      [Tree(path + "_data", ids.data, data, []),
       Tree(path, ids.obj, ObjectProps(name, Some(path + "_data")), [])])
  }

  /** The ids the constructor keeps for given and fresh ids. */
  function Kept(given: Ids, spare: Ids): Ids {
    Ids(Pick(given.root, spare.root), Pick(given.obj, spare.obj), Pick(given.data, spare.data))
  }

  // ---------------------------------------------------------------------
  // Reading values off the arena

  lemma ViewLeaf(m: Arena, n: nat, h: Handle)
    requires WF(m, n) && h in m && m[h].children == []
    ensures View(m, n, h) == Tree(m[h].path, m[h].id, m[h].props, [])
  {
  }

  lemma ViewOne(m: Arena, n: nat, h: Handle)
    requires WF(m, n) && h in m && |m[h].children| == 1
    ensures View(m, n, h) == Tree(m[h].path, m[h].id, m[h].props, [View(m, n, m[h].children[0])])
  {
  }

  lemma ViewTwo(m: Arena, n: nat, h: Handle)
    requires WF(m, n) && h in m && |m[h].children| == 2
    ensures View(m, n, h)
      == Tree(m[h].path, m[h].id, m[h].props, [View(m, n, m[h].children[0]), View(m, n, m[h].children[1])])
  {
  }

  // ---------------------------------------------------------------------
  // The shapes the planner sees

  /** The tree of `FN_cube`, `FN_camera` and `FN_light`: the data prim is a
      child of the object whose `'data'` relationship names it. */
  ghost predicate NestedShape(m: Arena, root: Handle, text: string) {
    var path := "/root/" + text;
    root in m && m[root].path == "/root" && m[root].parent.None? && RelKey !in m[root].props
    && |m[root].children| == 1 && m[root].children[0] in m
    && var o := m[root].children[0];
    m[o].path == path && m[o].parent == Some(root) && RelKey in m[o].props
    && m[o].props[RelKey] == Links(Some(path + "/data"))
    && |m[o].children| == 1 && m[o].children[0] in m
    && var d := m[o].children[0];
    m[d].path == path + "/data" && m[d].parent == Some(o) && m[d].children == [] && RelKey !in m[d].props
  }

  /** The tree of `FN_create_primitive`: data and object are siblings under
      the root, the data first. */
  ghost predicate SiblingShape(m: Arena, root: Handle, text: string) {
    var path := "/root/" + text;
    root in m && m[root].path == "/root" && m[root].parent.None? && RelKey !in m[root].props
    && |m[root].children| == 2 && m[root].children[0] in m && m[root].children[1] in m
    && var d := m[root].children[0];
    var o := m[root].children[1];
    m[d].path == path + "_data" && m[d].parent == Some(root) && m[d].children == [] && RelKey !in m[d].props
    && m[o].path == path && m[o].parent == Some(root) && m[o].children == []
    && RelKey in m[o].props && m[o].props[RelKey] == Links(Some(path + "_data"))
  }

  /** The relationships a builder writes are hashable, so graph building
      never raises on them. */
  lemma LinksFine(data: Option<string>, props: Props)
    requires RelKey in props && props[RelKey] == Links(data)
    ensures !RelsBad(props)
  {
    var d := props[RelKey].d;
    forall k, t | k in d && t in AsList(d[k]) ensures !Unhashable(t) {
      if k == "collection_links" {
        assert AsList(d[k]) == [VStr("/root")];
      } else {
        assert AsList(d[k]) == [d[k]];
      }
    }
  }

  /** The listing of a root with one child that has one leaf child. */
  lemma ChainFlat(m: Arena, n: nat, r: Handle, o: Handle, d: Handle)
    requires WF(m, n) && r in m && o in m && d in m
    requires m[r].children == [o] && m[o].children == [d] && m[d].children == []
    ensures Flat(m, n, r) == [r, o, d]
  {
    assert Flat(m, n, d) == [d];
    assert FlatSeq(m, n, o, [d]) == [d];
    assert Flat(m, n, o) == [o, d];
    assert FlatSeq(m, n, r, [o]) == [o, d];
  }

  /** The listing of a root with two leaf children. */
  lemma FanFlat(m: Arena, n: nat, r: Handle, d: Handle, o: Handle)
    requires WF(m, n) && r in m && o in m && d in m
    requires m[r].children == [d, o] && m[d].children == [] && m[o].children == []
    ensures Flat(m, n, r) == [r, d, o]
  {
    assert Flat(m, n, d) == [d];
    assert Flat(m, n, o) == [o];
    assert m[r].children[1] == o;
    assert FlatSeq(m, n, r, [o]) == [o];
    assert FlatSeq(m, n, r, [d, o]) == [d, o];
  }

  /** Graph building does not raise when every parent is listed and no
      relationships entry is bad. */
  lemma NoCrash(m: Arena, n: nat, flat: seq<Handle>)
    requires WF(m, n) && forall h :: h in flat ==> h in m
    requires forall i :: 0 <= i < |flat| ==> !RelsBad(m[flat[i]].props)
    requires forall i :: 0 <= i < |flat| && m[flat[i]].parent.Some? ==> m[flat[i]].parent.value in flat
    ensures !CrashesBelow(m, n, flat, |flat|)
  {
  }

  /** Two prims that depend on each other leave no ranking. */
  lemma TwoCycle(m: Arena, n: nat, flat: seq<Handle>, a: string, b: string)
    requires WF(m, n) && forall h :: h in flat ==> h in m
    requires IsEdgeBelow(m, n, flat, |flat|, a, b) && IsEdgeBelow(m, n, flat, |flat|, b, a)
    ensures !PlanAcyclic(m, n, flat)
  {
    assert forall rank :: !PlanRank(m, n, flat, rank);
  }

  /** The two edges of a cube, camera or light tree. */
  lemma NestedEdges(m: Arena, n: nat, root: Handle, text: string)
    requires WF(m, n) && NestedShape(m, root, text)
    ensures var o := m[root].children[0];
      var flat := [root, o, m[o].children[0]];
      IsEdgeBelow(m, n, flat, 3, "/root/" + text, "/root/" + text + "/data")
      && IsEdgeBelow(m, n, flat, 3, "/root/" + text + "/data", "/root/" + text)
  {
    var o := m[root].children[0];
    var d := m[o].children[0];
    var path := "/root/" + text;
    var flat := [root, o, d];
    var keys := PathSet(m, flat);
    assert DependsOn(m, n, keys, d, path);
    assert path + "/data" in keys by {
      assert d in flat;
    }
    var rels := m[o].props[RelKey].d;
    assert "data" in rels && AsList(rels["data"]) == [VStr(path + "/data")];
    assert RelTarget(m[o].props, path + "/data");
    assert DependsOn(m, n, keys, o, path + "/data");
    assert flat[1] == o && flat[2] == d;
  }

  /** `plan_execution` on a cube, camera or light tree returns the empty
      plan: the object depends on its data through the relationship and the
      data depends on the object as its parent. */
  lemma NestedDataCycle(m: Arena, n: nat, root: Handle, text: string)
    requires WF(m, n) && NestedShape(m, root, text)
    ensures forall r :: PlanOutcome(m, n, Flat(m, n, root), r) ==> r == Some([])
  {
    var o := m[root].children[0];
    var d := m[o].children[0];
    var path := "/root/" + text;
    ChainFlat(m, n, root, o, d);
    var flat := [root, o, d];
    LinksFine(Some(path + "/data"), m[o].props);
    assert !RelsBad(m[root].props) && !RelsBad(m[d].props);
    NoCrash(m, n, flat);
    NestedEdges(m, n, root, text);
    TwoCycle(m, n, flat, path, path + "/data");
  }

  /** Every dependency in a create-primitive tree climbs from the root to
      the data to the object. */
  lemma SiblingEdges(m: Arena, n: nat, root: Handle, text: string, flat: seq<Handle>, a: string, b: string)
    requires WF(m, n) && SiblingShape(m, root, text)
    requires flat == [root, m[root].children[0], m[root].children[1]]
    requires IsEdgeBelow(m, n, flat, 3, a, b)
    ensures (a == "/root" && b == "/root/" + text + "_data")
         || (a == "/root" && b == "/root/" + text)
         || (a == "/root/" + text + "_data" && b == "/root/" + text)
  {
    var i :| 0 <= i < 3 && m[flat[i]].path == b && DependsOn(m, n, PathSet(m, flat), flat[i], a);
    if i == 2 {
      var o := flat[2];
      if !(m[o].parent.Some? && m[m[o].parent.value].path == a) {
        var rels := m[o].props[RelKey].d;
        var k :| k in rels && VStr(a) in AsList(rels[k]);
        if k != "collection_links" {
          assert AsList(rels[k]) == [rels[k]];
        }
      }
    }
  }

  /** The paths of a create-primitive tree are distinct and ranked. */
  lemma SiblingRanked(m: Arena, n: nat, root: Handle, text: string)
    requires WF(m, n) && SiblingShape(m, root, text)
    ensures var flat := [root, m[root].children[0], m[root].children[1]];
      NoDup(PathsOf(m, flat)) && PlanAcyclic(m, n, flat)
  {
    var path := "/root/" + text;
    var flat := [root, m[root].children[0], m[root].children[1]];
    assert PathsOf(m, flat) == ["/root", path + "_data", path];
    assert |"/root"| < |path| < |path + "_data"|;
    var rank := map["/root" := 0, path + "_data" := 1, path := 2];
    forall a, b | IsEdgeBelow(m, n, flat, 3, a, b) ensures a in rank && b in rank && rank[a] < rank[b] {
      SiblingEdges(m, n, root, text, flat, a, b);
    }
    assert PlanRank(m, n, flat, rank);
  }

  /** `plan_execution` on a create-primitive tree returns a full plan: no
      dependency cycle, no repeated path, nothing that raises. */
  lemma SiblingDataPlans(m: Arena, n: nat, root: Handle, text: string)
    requires WF(m, n) && SiblingShape(m, root, text)
    ensures forall r :: PlanOutcome(m, n, Flat(m, n, root), r) ==>
      r.Some? && r.value != [] && IsPlan(m, n, Flat(m, n, root), r.value)
  {
    var d := m[root].children[0];
    var o := m[root].children[1];
    var path := "/root/" + text;
    FanFlat(m, n, root, d, o);
    var flat := [root, d, o];
    LinksFine(Some(path + "_data"), m[o].props);
    assert !RelsBad(m[root].props) && !RelsBad(m[d].props);
    NoCrash(m, n, flat);
    SiblingRanked(m, n, root, text);
  }

  // ---------------------------------------------------------------------
  // The cube geometry

  function Triple(x: int, y: int, z: int): Value {
    VList([VInt(x), VInt(y), VInt(z)])
  }

  function Quad(a: int, b: int, c: int, d: int): Value {
    VList([VInt(a), VInt(b), VInt(c), VInt(d)])
  }

  const CubeVertices: seq<Value> :=
    [Triple(-1, -1, -1), Triple(1, -1, -1), Triple(1, 1, -1), Triple(-1, 1, -1),
     Triple(-1, -1, 1), Triple(1, -1, 1), Triple(1, 1, 1), Triple(-1, 1, 1)]

  const CubeFaces: seq<Value> :=
    [Quad(0, 1, 2, 3), Quad(4, 5, 6, 7), Quad(0, 4, 7, 3),
     Quad(1, 5, 6, 2), Quad(0, 1, 5, 4), Quad(3, 2, 6, 7)]

  /** `_fn_geometry_data` of the create-primitive cube (tuples are lists). */
  function CubeGeometry(): Value {
    VDict(map["vertices" := VList(CubeVertices), "edges" := VList([]), "faces" := VList(CubeFaces)])
  }

  /** A face: four vertex indices, each naming one of `count` vertices. */
  predicate FaceOver(f: Value, count: nat) {
    f.VList? && |f.items| == 4
    && forall i :: 0 <= i < 4 ==> f.items[i].VInt? && 0 <= f.items[i].i < count
  }

  /** A vertex: three coordinates, each -1 or 1. */
  predicate UnitCorner(v: Value) {
    v.VList? && |v.items| == 3
    && forall i :: 0 <= i < 3 ==> v.items[i] == VInt(-1) || v.items[i] == VInt(1)
  }

  /** The cube has 8 vertices, each a corner of the box from -1 to 1, and
      no two alike. */
  lemma CubeCorners()
    ensures |CubeVertices| == 8
    ensures forall i :: 0 <= i < 8 ==> UnitCorner(CubeVertices[i])
    ensures forall i, j :: 0 <= i < j < 8 ==> CubeVertices[i] != CubeVertices[j]
  {
  }

  /** The cube has 6 quad faces over its 8 vertices and no loose edges. */
  lemma CubeFacesValid()
    ensures |CubeFaces| == 6 && forall f :: 0 <= f < 6 ==> FaceOver(CubeFaces[f], 8)
    ensures CubeGeometry().d["edges"] == VList([])
  {
  }

  // ---------------------------------------------------------------------
  // Shared construction sequences

  /** An arena holding the records of a cube, camera or light tree has that
      tree as its value and that shape. */
  lemma NestedRecords(m: Arena, n: nat, r: Handle, o: Handle, d: Handle,
                      name: Value, text: string, ids: Ids, data: Props)
    requires WF(m, n) && r in m && o in m && d in m && RelKey !in data
    requires m[d] == Prim("/root/" + text + "/data", ids.data, data, Some(o), [])
    requires m[o] == Prim("/root/" + text, ids.obj, ObjectProps(name, Some("/root/" + text + "/data")), Some(r), [d])
    requires m[r] == Prim("/root", ids.root, SceneProps(VStr(text + "_scene")), None, [o])
    ensures Linked(m, n, r) && View(m, n, r) == NestedTree(name, text, ids, data)
    ensures NestedShape(m, r, text)
  {
    assert Linked(m, n, d);
    assert Linked(m, n, o);
    ViewLeaf(m, n, d);
    ViewOne(m, n, o);
    ViewOne(m, n, r);
  }

  /** An arena holding the records of a create-primitive tree has that tree
      as its value and that shape. */
  lemma SiblingRecords(m: Arena, n: nat, r: Handle, d: Handle, o: Handle,
                       name: Value, text: string, ids: Ids, data: Props)
    requires WF(m, n) && r in m && o in m && d in m && RelKey !in data
    requires m[d] == Prim("/root/" + text + "_data", ids.data, data, Some(r), [])
    requires m[o] == Prim("/root/" + text, ids.obj, ObjectProps(name, Some("/root/" + text + "_data")), Some(r), [])
    requires m[r] == Prim("/root", ids.root, SceneProps(VStr(text + "_scene")), None, [d, o])
    ensures Linked(m, n, r) && View(m, n, r) == SiblingTree(name, text, ids, data)
    ensures SiblingShape(m, r, text)
  {
    assert Linked(m, n, d) && Linked(m, n, o);
    ViewLeaf(m, n, d);
    ViewLeaf(m, n, o);
    ViewTwo(m, n, r);
  }

  /** Three constructor calls, each under the one before: the records that
      result, and no earlier record changes. */
  lemma ChainAlloc(m0: Arena, r: Handle, p1: Prim, m1: Arena, o: Handle, p2: Prim, m2: Arena,
                   d: Handle, p3: Prim, m: Arena)
    requires WF(m0, r) && o == r + 1 && d == r + 2
    requires p1.parent.None? && p2.parent == Some(r) && p3.parent == Some(o)
    requires p1.children == [] && p2.children == [] && p3.children == []
    requires m1 == AllocAt(m0, r, p1) && m2 == AllocAt(m1, o, p2) && m == AllocAt(m2, d, p3)
    ensures Grows(m0, m, r) && r in m && o in m && d in m
    ensures m[r] == p1.(children := [o]) && m[o] == p2.(children := [d]) && m[d] == p3
  {
    assert forall k :: k in m0 ==> k < r;
  }

  /** Three constructor calls, the last two under the first. */
  lemma FanAlloc(m0: Arena, r: Handle, p1: Prim, m1: Arena, d: Handle, p2: Prim, m2: Arena,
                 o: Handle, p3: Prim, m: Arena)
    requires WF(m0, r) && d == r + 1 && o == r + 2
    requires p1.parent.None? && p2.parent == Some(r) && p3.parent == Some(r)
    requires p1.children == [] && p2.children == [] && p3.children == []
    requires m1 == AllocAt(m0, r, p1) && m2 == AllocAt(m1, d, p2) && m == AllocAt(m2, o, p3)
    ensures Grows(m0, m, r) && r in m && o in m && d in m
    ensures m[r] == p1.(children := [d, o]) && m[d] == p2 && m[o] == p3
  {
    assert forall k :: k in m0 ==> k < r;
  }

  /** Root, then one child of it: the body of `FN_collection` and `FN_empty`. */
  method BuildPair(heap: ProxyHeap, text: string, given: Ids, spare: Ids, child: Props) returns (root: Handle)
    requires heap.Valid() && Filled(spare)
    modifies heap
    ensures heap.Valid() && root == old(heap.next) && heap.next == root + 2
    ensures Grows(old(heap.prims), heap.prims, old(heap.next))
    ensures root in heap.prims && heap.prims[root].parent.None? && Linked(heap.prims, heap.next, root)
    ensures View(heap.prims, heap.next, root) == PairTree(text, Kept(given, spare), child)
  {
    ghost var m0 := heap.prims;
    root := heap.NewProxy("/root", given.root, SceneProps(VStr(text + "_scene")), None, spare.root);
    ghost var m1 := heap.prims;
    var c := heap.NewProxy("/root/" + text, given.obj, child, Some(root), spare.obj);
    PairAlloc(m0,
      root, Prim("/root", if given.root != "" then given.root else spare.root,
        SceneProps(VStr(text + "_scene")), None, []), m1,
      c, Prim("/root/" + text, if given.obj != "" then given.obj else spare.obj, child, Some(root), []), heap.prims);
    PairRecords(heap.prims, heap.next, root, c, text, Kept(given, spare), child);
  }

  /** Two constructor calls, the second under the first. */
  lemma PairAlloc(m0: Arena, r: Handle, p1: Prim, m1: Arena, c: Handle, p2: Prim, m: Arena)
    requires WF(m0, r) && c == r + 1
    requires p1.parent.None? && p2.parent == Some(r) && p1.children == [] && p2.children == []
    requires m1 == AllocAt(m0, r, p1) && m == AllocAt(m1, c, p2)
    ensures Grows(m0, m, r) && r in m && c in m
    ensures m[r] == p1.(children := [c]) && m[c] == p2
  {
    assert forall k :: k in m0 ==> k < r;
  }

  /** The records of a root and its one child read back as a pair tree. */
  lemma PairRecords(m: Arena, n: nat, r: Handle, c: Handle, text: string, ids: Ids, child: Props)
    requires WF(m, n) && r in m && c in m
    requires m[c] == Prim("/root/" + text, ids.obj, child, Some(r), [])
    requires m[r] == Prim("/root", ids.root, SceneProps(VStr(text + "_scene")), None, [c])
    ensures Linked(m, n, r) && View(m, n, r) == PairTree(text, ids, child)
  {
    assert Linked(m, n, c);
    ViewLeaf(m, n, c);
    ViewOne(m, n, r);
  }

  /** Root, object under it, data under the object: the body of `FN_cube`,
      `FN_camera` and `FN_light`. */
  method BuildNested(heap: ProxyHeap, name: Value, text: string, given: Ids, spare: Ids, data: Props)
    returns (root: Handle)
    requires heap.Valid() && Filled(spare) && RelKey !in data
    modifies heap
    ensures heap.Valid() && root == old(heap.next) && heap.next == root + 3
    ensures Grows(old(heap.prims), heap.prims, old(heap.next))
    ensures root in heap.prims && heap.prims[root].parent.None? && Linked(heap.prims, heap.next, root)
    ensures View(heap.prims, heap.next, root) == NestedTree(name, text, Kept(given, spare), data)
    ensures NestedShape(heap.prims, root, text)
  {
    var path := "/root/" + text;
    ghost var m0 := heap.prims;
    root := heap.NewProxy("/root", given.root, SceneProps(VStr(text + "_scene")), None, spare.root);
    ghost var m1 := heap.prims;
    var o := heap.NewProxy(path, given.obj, ObjectProps(name, Some(path + "/data")), Some(root), spare.obj);
    ghost var m2 := heap.prims;
    var d := heap.NewProxy(path + "/data", given.data, data, Some(o), spare.data);
    ghost var m, n := heap.prims, heap.next;
    ChainAlloc(m0,
      root, Prim("/root", if given.root != "" then given.root else spare.root,
        SceneProps(VStr(text + "_scene")), None, []), m1,
      o, Prim(path, if given.obj != "" then given.obj else spare.obj,
        ObjectProps(name, Some(path + "/data")), Some(root), []), m2,
      d, Prim(path + "/data", if given.data != "" then given.data else spare.data, data, Some(o), []), m);
    NestedRecords(m, n, root, o, d, name, text, Kept(given, spare), data);
  }

  /** Root, data under it, object under it: the body of each
      `FN_create_primitive` builder. */
  method BuildSiblings(heap: ProxyHeap, name: Value, text: string, given: Ids, spare: Ids, data: Props)
    returns (root: Handle)
    requires heap.Valid() && Filled(spare) && RelKey !in data
    modifies heap
    ensures heap.Valid() && root == old(heap.next) && heap.next == root + 3
    ensures Grows(old(heap.prims), heap.prims, old(heap.next))
    ensures root in heap.prims && heap.prims[root].parent.None? && Linked(heap.prims, heap.next, root)
    ensures View(heap.prims, heap.next, root) == SiblingTree(name, text, Kept(given, spare), data)
    ensures SiblingShape(heap.prims, root, text)
  {
    var path := "/root/" + text;
    ghost var m0 := heap.prims;
    root := heap.NewProxy("/root", given.root, SceneProps(VStr(text + "_scene")), None, spare.root);
    ghost var m1 := heap.prims;
    var d := heap.NewProxy(path + "_data", given.data, data, Some(root), spare.data);
    ghost var m2 := heap.prims;
    var o := heap.NewProxy(path, given.obj, ObjectProps(name, Some(path + "_data")), Some(root), spare.obj);
    ghost var m, n := heap.prims, heap.next;
    FanAlloc(m0,
      root, Prim("/root", if given.root != "" then given.root else spare.root,
        SceneProps(VStr(text + "_scene")), None, []), m1,
      d, Prim(path + "_data", if given.data != "" then given.data else spare.data, data, Some(root), []), m2,
      o, Prim(path, if given.obj != "" then given.obj else spare.obj,
        ObjectProps(name, Some(path + "_data")), Some(root), []), m);
    SiblingRecords(m, n, root, d, o, name, text, Kept(given, spare), data);
  }

  // ---------------------------------------------------------------------
  // The nodes

  /** `FN_scene.execute`: one parentless root named `kwargs.get("Name") or
      "scene"`. */
  method Scene(heap: ProxyHeap, kwargs: Props, outId: string, given: Uuid, spare: Uuid)
    returns (r: Value, root: Handle)
    requires heap.Valid() && spare != ""
    modifies heap
    ensures heap.Valid() && root == old(heap.next) && heap.next == root + 1
    ensures Grows(old(heap.prims), heap.prims, old(heap.next))
    ensures root in heap.prims && heap.prims[root].parent.None?
    ensures View(heap.prims, heap.next, root) == SceneTree(GetOr(kwargs, "Name", VStr("scene")), Pick(given, spare))
    ensures r == Out(outId, VProxy(root))
  {
    var name := GetOr(kwargs, "Name", VStr("scene"));
    root := heap.NewProxy("/root", given, SceneProps(name), None, spare);
    ViewLeaf(heap.prims, heap.next, root);
    r := Out(outId, VProxy(root));
  }

  /** `FN_collection.execute`: a root and the default collection prim at
      `/root/<name>`, linked to the root collection. */
  method Collection(heap: ProxyHeap, kwargs: Props, text: string, outId: string, given: Ids, spare: Ids)
    returns (r: Value, root: Handle)
    requires heap.Valid() && Filled(spare) && Shows(Get(kwargs, "Name"), text)
    modifies heap
    ensures heap.Valid() && root == old(heap.next) && heap.next == root + 2
    ensures Grows(old(heap.prims), heap.prims, old(heap.next))
    ensures root in heap.prims && heap.prims[root].parent.None? && Linked(heap.prims, heap.next, root)
    ensures View(heap.prims, heap.next, root)
      == PairTree(text, Kept(given, spare), CollectionProps(Get(kwargs, "Name")))
    ensures r == Out(outId, VProxy(root))
  {
    root := BuildPair(heap, text, given, spare, CollectionProps(Get(kwargs, "Name")));
    r := Out(outId, VProxy(root));
  }

  /** `FN_empty.execute`: a root and an object with no data at
      `/root/<name>`, linked to the root collection. */
  method Empty(heap: ProxyHeap, kwargs: Props, text: string, outId: string, given: Ids, spare: Ids)
    returns (r: Value, root: Handle)
    requires heap.Valid() && Filled(spare) && Shows(Get(kwargs, "Name"), text)
    modifies heap
    ensures heap.Valid() && root == old(heap.next) && heap.next == root + 2
    ensures Grows(old(heap.prims), heap.prims, old(heap.next))
    ensures root in heap.prims && heap.prims[root].parent.None? && Linked(heap.prims, heap.next, root)
    ensures View(heap.prims, heap.next, root)
      == PairTree(text, Kept(given, spare), ObjectProps(Get(kwargs, "Name"), None))
    ensures r == Out(outId, VProxy(root))
  {
    root := BuildPair(heap, text, given, spare, ObjectProps(Get(kwargs, "Name"), None));
    r := Out(outId, VProxy(root));
  }

  /** `FN_cube.execute`: root, object, and mesh data nested in the object. */
  method Cube(heap: ProxyHeap, kwargs: Props, text: string, outId: string, given: Ids, spare: Ids)
    returns (r: Value, root: Handle)
    requires heap.Valid() && Filled(spare) && Shows(Get(kwargs, "Name"), text)
    modifies heap
    ensures heap.Valid() && root == old(heap.next) && heap.next == root + 3
    ensures Grows(old(heap.prims), heap.prims, old(heap.next))
    ensures root in heap.prims && heap.prims[root].parent.None? && Linked(heap.prims, heap.next, root)
    ensures View(heap.prims, heap.next, root)
      == NestedTree(Get(kwargs, "Name"), text, Kept(given, spare), DataProps("MESH", text))
    ensures NestedShape(heap.prims, root, text)
    ensures r == Out(outId, VProxy(root))
  {
    root := BuildNested(heap, Get(kwargs, "Name"), text, given, spare, DataProps("MESH", text));
    r := Out(outId, VProxy(root));
  }

  /** `FN_camera.execute`: the cube's shape with camera data. */
  method Camera(heap: ProxyHeap, kwargs: Props, text: string, outId: string, given: Ids, spare: Ids)
    returns (r: Value, root: Handle)
    requires heap.Valid() && Filled(spare) && Shows(Get(kwargs, "Name"), text)
    modifies heap
    ensures heap.Valid() && root == old(heap.next) && heap.next == root + 3
    ensures Grows(old(heap.prims), heap.prims, old(heap.next))
    ensures root in heap.prims && heap.prims[root].parent.None? && Linked(heap.prims, heap.next, root)
    ensures View(heap.prims, heap.next, root)
      == NestedTree(Get(kwargs, "Name"), text, Kept(given, spare), DataProps("CAMERA", text))
    ensures NestedShape(heap.prims, root, text)
    ensures r == Out(outId, VProxy(root))
  {
    root := BuildNested(heap, Get(kwargs, "Name"), text, given, spare, DataProps("CAMERA", text));
    r := Out(outId, VProxy(root));
  }

  /** `FN_light.execute`: the cube's shape with light data carrying the
      node's light type and energy. */
  method Light(heap: ProxyHeap, kwargs: Props, text: string, lightType: string, energy: real,
               outId: string, given: Ids, spare: Ids)
    returns (r: Value, root: Handle)
    requires heap.Valid() && Filled(spare) && Shows(Get(kwargs, "Name"), text)
    modifies heap
    ensures heap.Valid() && root == old(heap.next) && heap.next == root + 3
    ensures Grows(old(heap.prims), heap.prims, old(heap.next))
    ensures root in heap.prims && heap.prims[root].parent.None? && Linked(heap.prims, heap.next, root)
    ensures View(heap.prims, heap.next, root)
      == NestedTree(Get(kwargs, "Name"), text, Kept(given, spare), LightProps(text, lightType, energy))
    ensures NestedShape(heap.prims, root, text)
    ensures r == Out(outId, VProxy(root))
  {
    root := BuildNested(heap, Get(kwargs, "Name"), text, given, spare, LightProps(text, lightType, energy));
    r := Out(outId, VProxy(root));
  }

  /** The data prim properties `FN_create_primitive` writes for a primitive
      it builds (a sphere is built as a cube). */
  function PrimitiveData(primitiveType: string, text: string): Props {
    if primitiveType == "MESH" then DataProps("MESH", text)["_fn_geometry_data" := CubeGeometry()]
    else if primitiveType == "LIGHT" then LightProps(text, "POINT", 100.0)
    else DataProps("CAMERA", text)
  }

  /** The primitive types and mesh types `FN_create_primitive` builds. */
  predicate Builds(primitiveType: string, meshType: string) {
    (primitiveType == "MESH" && (meshType == "CUBE" || meshType == "SPHERE"))
    || primitiveType == "LIGHT" || primitiveType == "CAMERA"
  }

  /** `FN_create_primitive.execute`: for a mesh (cube or sphere), light or
      camera, the data prim and then the object prim as siblings under the
      root; for any other choice an empty output and no prim. */
  method CreatePrimitive(heap: ProxyHeap, kwargs: Props, primitiveType: string, meshType: string,
                         text: string, outId: string, given: Ids, spare: Ids)
    returns (r: Value, root: Option<Handle>)
    requires heap.Valid() && Filled(spare) && Shows(Get(kwargs, "Name"), text)
    modifies heap
    ensures heap.Valid() && Grows(old(heap.prims), heap.prims, old(heap.next))
    ensures root.Some? <==> Builds(primitiveType, meshType)
    ensures root.None? ==> r == Out(outId, VNone) && heap.prims == old(heap.prims) && heap.next == old(heap.next)
    ensures root.Some? ==>
      root.value == old(heap.next) && heap.next == root.value + 3 && r == Out(outId, VProxy(root.value))
      && root.value in heap.prims && heap.prims[root.value].parent.None? && Linked(heap.prims, heap.next, root.value)
      && View(heap.prims, heap.next, root.value)
         == SiblingTree(Get(kwargs, "Name"), text, Kept(given, spare), PrimitiveData(primitiveType, text))
      && SiblingShape(heap.prims, root.value, text)
  {
    if Builds(primitiveType, meshType) {
      var h := BuildSiblings(heap, Get(kwargs, "Name"), text, given, spare, PrimitiveData(primitiveType, text));
      root := Some(h);
      r := Out(outId, VProxy(h));
    } else {
      root := None;
      r := Out(outId, VNone);
    }
  }
}
