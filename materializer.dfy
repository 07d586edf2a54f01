/** `materialize_plan`: three passes over a dependency-sorted plan of prims.
    Pass 1 creates a datablock for every prim whose uuid does not resolve;
    pass 2 writes base properties, records an initial-state snapshot and
    replays stored overrides; pass 3 parents objects along the path
    hierarchy and links them into their `collection_links` targets.
    Exceptions caught inside a pass skip one step; the ones raised outside a
    `try` end the whole run, with the changes made so far kept. */
module Materializer {
  import opened Base
  import opened Strings
  import opened HostStore
  import opened UuidManager
  import opened NodeTreeData
  import opened ProxyArena
  import opened EngineUtils

  /** The host state the materializer reads and writes: the datablock store
      and the uuid registry. */
  datatype Host = Host(w: World, order: seq<DbRef>, next: nat, cache: map<Uuid, DbRef>, populated: bool)

  function Snap(s: Store, c: UuidCache): Host
    reads s, c
  {
    Host(s.w, s.order, s.next, c.cache, c.populated)
  }

  /** The registry after `_populate_cache` has run, if it had not yet. */
  function Populated(h: Host): (r: Host)
    ensures r.populated && r.w == h.w && r.order == h.order && r.next == h.next
    ensures h.populated ==> r == h
  {
    if h.populated then h else h.(cache := ScanAll(h.w, map[], h.order, ScanKinds), populated := true)
  }

  /** `find_datablock_by_uuid(u)`: the host afterwards and the datablock. */
  function Find(h: Host, u: Uuid): (r: (Host, Option<DbRef>))
    ensures r.0.w == h.w && r.0.order == h.order && r.0.next == h.next
    ensures u != "" ==> r.0 == Populated(h) && r.1 == (if u in r.0.cache then Some(r.0.cache[u]) else None)
    ensures u == "" ==> r == (h, None)
  {
    if u == "" then (h, None)
    else
      var h1 := Populated(h);
      (h1, if u in h1.cache then Some(h1.cache[u]) else None)
  }

  // ---------------------------------------------------------------------
  // Pass 1: creation

  /** The creation functions `_initialize_creation_map` installs. */
  const StandardCreation: map<string, Kind> := map[
    "SCENE" := KScene, "COLLECTION" := KCollection, "CAMERA" := KCamera,
    "IMAGE" := KImage, "LIGHT" := KLight, "MATERIAL" := KMaterial,
    "MESH" := KMesh, "WORLD" := KWorld, "ARMATURE" := KArmature, "ACTION" := KAction]

  /** The datablock kinds `bpy.data.objects.new` accepts as object data. */
  predicate ObjectDataKind(k: Kind) {
    k == KMesh || k == KCamera || k == KLight || k == KArmature
  }

  /** `t in s` for strings. */
  predicate HasInfix(s: string, t: string)
    decreases |s|
  {
    StartsWith(s, t) || (|s| > 0 && HasInfix(s[1..], t))
  }

  /** How the `'data'` relationship of an OBJECT prim reads: absent, a path,
      or a `TypeError` (`'data' in x` on a non-container, or `x['data']` on a
      list or string that contains `'data'`). */
  datatype DataRel = NoData | DataPath(path: Value) | BadRels

  function DataRelOf(props: Props): DataRel {
    if "_fn_relationships" !in props then NoData
    else match props["_fn_relationships"]
      case VDict(d) => if "data" in d then DataPath(d["data"]) else NoData
      case VList(items) => if VStr("data") in items then BadRels else NoData
      case VStr(s) => if HasInfix(s, "data") then BadRels else NoData
      case _ => BadRels
  }

  /** `next(p for p in plan if p.path == path)`. */
  function FirstWithPath(plan: seq<Prim>, path: Value): (r: Option<Prim>)
    ensures r.Some? ==> r.value in plan && VStr(r.value.path) == path
    ensures r.None? ==> forall i :: 0 <= i < |plan| ==> VStr(plan[i].path) != path
  {
    if plan == [] then None
    else if VStr(plan[0].path) == path then Some(plan[0])
    else FirstWithPath(plan[1..], path)
  }

  /** A new datablock record, as a constructor call would make it. */
  datatype Made = Made(kind: Kind, rna: string, name: string, attrs: Props)

  /** `bpy.data.<kind>.new(name, ...)`: the record, or None when the call
      raises. The name must be a string; `images.new` needs a width and a
      height the materializer never passes; a light needs a valid type; an
      object's data must be a live datablock of an object-data kind.
      `defaults` are the attributes the host gives a new datablock of a
      kind; an object also starts without a parent. */
  function Construct(w: World, k: Kind, name: Value, lightType: Value, data: Option<DbRef>,
                     defaults: Kind -> Props): (r: Option<Made>)
    ensures r.Some? ==> r.value.kind == k && name.VStr? && r.value.name == name.s
    ensures r.Some? ==> k != KImage
    ensures r.Some? && k == KObject ==>
      Get(r.value.attrs, "data") == (if data.Some? then VRef(data.value) else VNone) && Get(r.value.attrs, "parent") == VNone && "parent" in r.value.attrs
  {
    if !name.VStr? then None
    else match k
      case KImage => None
      case KLight =>
        if LightTypeOk(lightType) then Some(Made(KLight, RnaOf(KLight, lightType.s), name.s, defaults(KLight)["type" := lightType]))
        else None
      case KObject =>
        if data.None? || (data.value in w.dbs && w.dbs[data.value].alive && ObjectDataKind(w.dbs[data.value].kind)) then
          Some(Made(KObject, "Object", name.s,
            defaults(KObject)["data" := (if data.Some? then VRef(data.value) else VNone)]["parent" := VNone]))
        else None
      case _ => Some(Made(k, RnaOf(k, ""), name.s, defaults(k)))
  }

  /** The data an OBJECT prim is created with: the registry entry of the
      first plan prim at its `'data'` path, or None. `Fail` when reading the
      relationship raises. */
  datatype DataFor = Fail | Data(data: Option<DbRef>)

  function ObjectData(cache: map<Uuid, DbRef>, plan: seq<Prim>, p: Prim): DataFor {
    match DataRelOf(p.props)
    case BadRels => Fail
    case NoData => Data(None)
    case DataPath(path) =>
      var dp := FirstWithPath(plan, path);
      Data(if dp.Some? && dp.value.id != "" && dp.value.id in cache then Some(cache[dp.value.id]) else None)
  }

  /** What creating prim `p` gives (the `try` of lines 28-64): a record, or
      None when the type has no creation function or the creation raises. */
  function MakeFor(w: World, cache: map<Uuid, DbRef>, plan: seq<Prim>, p: Prim,
                   creation: map<string, Kind>, defaults: Kind -> Props): Option<Made>
  {
    var typ := Get(p.props, "datablock_type");
    var name := GetOr(p.props, "name", VStr("unnamed"));
    if typ == VStr("OBJECT") then
      match ObjectData(cache, plan, p)
      case Fail => None
      case Data(d) => Construct(w, KObject, name, VNone, d, defaults)
    else if !typ.VStr? || typ.s !in creation then None
    else Construct(w, creation[typ.s], name, GetOr(p.props, "type", VStr("POINT")), None, defaults)
  }

  /** The host after `bpy.data.<kind>.new`: a fresh live record at `next`. */
  function Created(h: Host, m: Made): (r: Host)
    ensures r.cache == h.cache && r.populated == h.populated
  {
    h.(w := h.w.(dbs := h.w.dbs[h.next := Datablock(m.kind, m.rna, m.name, true, None, map[], m.attrs, [], [])]),
       order := h.order + [h.next], next := h.next + 1)
  }

  /** The host after `set_uuid(db, u)` with a truthy `u`. */
  function Tagged(h: Host, r: DbRef, u: Uuid): Host
    requires r in h.w.dbs
  {
    h.(w := h.w.(dbs := h.w.dbs[r := h.w.dbs[r].(fnUuid := Some(u))]), cache := h.cache[u := r])
  }

  /** One iteration of the creation pass. */
  function CreateStep(h: Host, plan: seq<Prim>, p: Prim, creation: map<string, Kind>, defaults: Kind -> Props): Host {
    var f := Find(h, p.id);
    var h1, found := f.0, f.1;
    if found.Some? then h1
    else match MakeFor(h1.w, h1.cache, plan, p, creation, defaults)
      case None => h1
      case Some(m) => Tagged(Created(h1, m), h1.next, p.id)
  }

  /** The creation pass over the prims `ps` of `plan`. */
  function CreatePass(h: Host, plan: seq<Prim>, ps: seq<Prim>, creation: map<string, Kind>, defaults: Kind -> Props): Host
    decreases |ps|
  {
    if ps == [] then h
    else CreateStep(CreatePass(h, plan, ps[..|ps| - 1], creation, defaults), plan, ps[|ps| - 1], creation, defaults)
  }

  // ---------------------------------------------------------------------
  // Pass 2: configuration, snapshot, overrides

  /** The properties pass 2 writes: not private (`'_'`) and not the type. */
  predicate Configurable(k: string) {
    !StartsWith(k, "_") && k != "datablock_type"
  }

  /** The base-property loop (lines 74-81): every configurable key, in the
      dict's order `ks`, is written with `set_nested_property`; a write that
      fails or raises is skipped. */
  function WriteBase(w: World, db: DbRef, d: Props, ks: seq<string>): World
    decreases |ks|
  {
    if ks == [] then w
    else
      var w1 := WriteBase(w, db, d, ks[..|ks| - 1]);
      var k := ks[|ks| - 1];
      if k in d && Configurable(k) then
        (match NestedWrite(w1, VRef(db), k, d[k]) case Written(w2) => w2 case _ => w1)
      else w1
  }

  /** The override loop (lines 95-103): each stored value is restored with
      `from_json_safe` and written with `set_nested_property`. A value that
      cannot be restored, or a write through a removed datablock, raises and
      ends the loop; a refused write is skipped. The flag says the loop ended
      early. */
  function ApplyOverrides(w: World, cache: map<Uuid, DbRef>, db: DbRef, d: Props, ks: seq<string>): (World, bool)
    decreases |ks|
  {
    if ks == [] then (w, false)
    else
      var prev := ApplyOverrides(w, cache, db, d, ks[..|ks| - 1]);
      var w1, stopped := prev.0, prev.1;
      var k := ks[|ks| - 1];
      if stopped then (w1, true)
      else if k !in d then (w1, false)
      else match FromJsonSafe(cache, d[k])
        case None => (w1, true)
        case Some(x) =>
          match NestedWrite(w1, VRef(db), k, x)
          case Written(w2) => (w2, false)
          case Refused => (w1, false)
          case Gone => (w1, true)
  }

  /** What the materializer keeps between steps: the host and the tree's
      initial-state rows (None: the tree has no such attribute). */
  datatype St = St(h: Host, initial: Option<seq<InitialRow>>)

  /** A state, and whether an exception has ended the run. */
  datatype Run = Run(st: St, aborted: bool)

  /** One iteration of pass 2 for prim `p`. `keysOf` gives a dict's keys in
      insertion order; `capture` is `capture_initial_state`. Reading
      `tree.fn_initial_state_map` without the attribute, or capturing a
      removed datablock, raises outside any `try`. */
  function ConfigureStep(st: St, overrides: seq<OverrideRow>, p: Prim,
                         keysOf: Props -> seq<string>, capture: (World, DbRef) -> Props): Run
  {
    var f := Find(st.h, p.id);
    var h1, found := f.0, f.1;
    if found.None? then Run(St(h1, st.initial), false)
    else
      var db := found.value;
      var w1 := WriteBase(h1.w, db, p.props, keysOf(p.props));
      if st.initial.None? then Run(St(h1.(w := w1), None), true)
      else
        var rows := st.initial.value;
        var missing := FindInitial(rows, p.id).None?;
        if missing && !(db in w1.dbs && w1.dbs[db].alive) then Run(St(h1.(w := w1), st.initial), true)
        else
          var rows2 := if missing then rows + [InitialRow(p.id, Doc(capture(w1, db)))] else rows;
          var j := FindOverride(overrides, p.id);
          var w2 := if j.Some? && overrides[j.value].data.Doc?
            then ApplyOverrides(w1, h1.cache, db, overrides[j.value].data.d, keysOf(overrides[j.value].data.d)).0
            else w1;
          Run(St(h1.(w := w2), Some(rows2)), false)
  }

  function ConfigurePass(st: St, overrides: seq<OverrideRow>, ps: seq<Prim>,
                         keysOf: Props -> seq<string>, capture: (World, DbRef) -> Props): Run
    decreases |ps|
  {
    if ps == [] then Run(st, false)
    else
      var r := ConfigurePass(st, overrides, ps[..|ps| - 1], keysOf, capture);
      if r.aborted then r else ConfigureStep(r.st, overrides, ps[|ps| - 1], keysOf, capture)
  }

  // ---------------------------------------------------------------------
  // Pass 3: relationships

  /** `proxy_map[path]` for `proxy_map = {p.path: p for p in plan}`: the last
      plan prim at that path. */
  function LastWithPath(plan: seq<Prim>, path: string): (r: Option<Prim>)
    ensures r.Some? ==> r.value in plan && r.value.path == path
    ensures r.None? ==> forall i :: 0 <= i < |plan| ==> plan[i].path != path
    decreases |plan|
  {
    if plan == [] then None
    else if plan[|plan| - 1].path == path then Some(plan[|plan| - 1])
    else LastWithPath(plan[..|plan| - 1], path)
  }

  /** The path minus its last segment, when the path has more than one
      (lines 116-117). */
  function ParentPath(path: string): Option<string> {
    var t := LStripChar(path, '/');
    if '/' !in t then None
    else
      var parts := Split(t, "/");
      Some("/" + Join(parts[..|parts| - 1], "/"))
  }

  /** A registry lookup on a populated cache. */
  function Lookup(cache: map<Uuid, DbRef>, u: Uuid): Option<DbRef> {
    if u != "" && u in cache then Some(cache[u]) else None
  }

  /** Hierarchy parenting of object `from` (lines 116-126). None: reading or
      assigning `parent` raised outside any `try`. */
  function ParentStep(w: World, cache: map<Uuid, DbRef>, plan: seq<Prim>, p: Prim, from: DbRef): Option<World> {
    match ParentPath(p.path)
    case None => Some(w)
    case Some(pp) =>
      match LastWithPath(plan, pp)
      case None => Some(w)
      case Some(pprox) =>
        match Lookup(cache, pprox.id)
        case None => Some(w)
        case Some(pdb) =>
          match GetAttr(w, VRef(from), "parent")
          case Dead => None
          case NoAttr => None
          case Got(cur) =>
            if cur == VRef(pdb) || !IsKind(w, VRef(pdb), KObject) then Some(w)
            else if !w.dbs[pdb].alive then None
            else match SetAttr(w, VRef(from), "parent", VRef(pdb))
              case Written(w2) => Some(w2)
              case _ => None
  }

  /** `name in coll.objects`: a member object has that name. */
  predicate NameIn(w: World, members: seq<DbRef>, name: string) {
    exists i :: 0 <= i < |members| && members[i] in w.dbs && w.dbs[members[i]].name == name
  }

  /** The world after appending `obj` to the member objects of `coll`. */
  function WithObject(w: World, coll: DbRef, obj: DbRef): World
    requires coll in w.dbs
  {
    w.(dbs := w.dbs[coll := w.dbs[coll].(objects := w.dbs[coll].objects + [obj])])
  }

  /** One `collection_links` target (lines 138-161). `(w, true)`: an
      exception ended the loop over targets. A Scene target stands for its
      root collection, whose members the Scene record holds. */
  function LinkTarget(w: World, cache: map<Uuid, DbRef>, plan: seq<Prim>, from: DbRef, t: Value): (World, bool)
    requires from in w.dbs
  {
    if t.VList? || t.VDict? then (w, true)
    else if !t.VStr? then (w, false)
    else match LastWithPath(plan, t.s)
      case None => (w, false)
      case Some(tp) =>
        match Lookup(cache, tp.id)
        case None => (w, false)
        case Some(tdb) =>
          if tdb !in w.dbs then (w, false)
          else
            var d := w.dbs[tdb];
            if d.kind != KScene && d.kind != KCollection then (w, !d.alive)
            else if !d.alive || !w.dbs[from].alive then (w, true)
            else if NameIn(w, d.objects, w.dbs[from].name) then (w, false)
            else (WithObject(w, tdb, from), false)
  }

  /** The loop over the targets of one relationship, ending early when a
      target raises. */
  function LinkTargets(w: World, cache: map<Uuid, DbRef>, plan: seq<Prim>, from: DbRef, ts: seq<Value>): (r: (World, bool))
    requires from in w.dbs
    ensures from in r.0.dbs && r.0.dbs.Keys == w.dbs.Keys
    decreases |ts|
  {
    if ts == [] then (w, false)
    else
      var prev := LinkTargets(w, cache, plan, from, ts[..|ts| - 1]);
      if prev.1 then prev else LinkTarget(prev.0, cache, plan, from, ts[|ts| - 1])
  }

  /** The relationship loop (lines 129-163): only `collection_links` acts;
      a single target is treated as a one-element list. */
  function RelsStep(w: World, cache: map<Uuid, DbRef>, plan: seq<Prim>, from: DbRef, rels: Props, ks: seq<string>): (r: World)
    requires from in w.dbs
    ensures from in r.dbs && r.dbs.Keys == w.dbs.Keys
    decreases |ks|
  {
    if ks == [] then w
    else
      var w1 := RelsStep(w, cache, plan, from, rels, ks[..|ks| - 1]);
      var k := ks[|ks| - 1];
      if k == "collection_links" && k in rels then
        var v := rels[k];
        LinkTargets(w1, cache, plan, from, if v.VList? then v.items else [v]).0
      else w1
  }

  /** One iteration of pass 3. Only Objects are processed. */
  function LinkStep(h: Host, plan: seq<Prim>, p: Prim, keysOf: Props -> seq<string>): (Host, bool) {
    var f := Find(h, p.id);
    var h1, found := f.0, f.1;
    if found.None? || found.value !in h1.w.dbs || h1.w.dbs[found.value].kind != KObject then (h1, false)
    else
      var from := found.value;
      match ParentStep(h1.w, h1.cache, plan, p, from)
      case None => (h1, true)
      case Some(w1) =>
        if "_fn_relationships" !in p.props then (h1.(w := w1), false)
        else if !p.props["_fn_relationships"].VDict? || from !in w1.dbs then (h1.(w := w1), true)
        else
          var rels := p.props["_fn_relationships"].d;
          (h1.(w := RelsStep(w1, h1.cache, plan, from, rels, keysOf(rels))), false)
  }

  function LinkPass(h: Host, plan: seq<Prim>, ps: seq<Prim>, keysOf: Props -> seq<string>): (Host, bool)
    decreases |ps|
  {
    if ps == [] then (h, false)
    else
      var prev := LinkPass(h, plan, ps[..|ps| - 1], keysOf);
      if prev.1 then prev else LinkStep(prev.0, plan, ps[|ps| - 1], keysOf)
  }

  /** The whole of `materialize_plan`. */
  function Materialize(st: St, overrides: seq<OverrideRow>, plan: seq<Prim>, creation: map<string, Kind>,
                       defaults: Kind -> Props, keysOf: Props -> seq<string>, capture: (World, DbRef) -> Props): Run
  {
    var h1 := CreatePass(st.h, plan, plan, creation, defaults);
    var r2 := ConfigurePass(St(h1, st.initial), overrides, plan, keysOf, capture);
    if r2.aborted then r2
    else
      var r3 := LinkPass(r2.st.h, plan, plan, keysOf);
      Run(St(r3.0, r2.st.initial), r3.1)
  }

  // ---------------------------------------------------------------------
  // A loop that an exception has ended stays ended.

  lemma {:induction false} ApplyStopped(w: World, cache: map<Uuid, DbRef>, db: DbRef, d: Props, ks: seq<string>, i: nat)
    requires i <= |ks| && ApplyOverrides(w, cache, db, d, ks[..i]).1
    ensures ApplyOverrides(w, cache, db, d, ks) == ApplyOverrides(w, cache, db, d, ks[..i])
    decreases |ks| - i
  {
    if i < |ks| {
      assert ks[..i + 1][..i] == ks[..i];
      ApplyStopped(w, cache, db, d, ks, i + 1);
    } else {
      assert ks[..i] == ks;
    }
  }

  lemma {:induction false} TargetsStopped(w: World, cache: map<Uuid, DbRef>, plan: seq<Prim>, from: DbRef, ts: seq<Value>, i: nat)
    requires from in w.dbs && i <= |ts| && LinkTargets(w, cache, plan, from, ts[..i]).1
    ensures LinkTargets(w, cache, plan, from, ts) == LinkTargets(w, cache, plan, from, ts[..i])
    decreases |ts| - i
  {
    if i < |ts| {
      assert ts[..i + 1][..i] == ts[..i];
      TargetsStopped(w, cache, plan, from, ts, i + 1);
    } else {
      assert ts[..i] == ts;
    }
  }

  lemma {:induction false} ConfigureStopped(st: St, overrides: seq<OverrideRow>, ps: seq<Prim>,
                                            keysOf: Props -> seq<string>, capture: (World, DbRef) -> Props, i: nat)
    requires i <= |ps| && ConfigurePass(st, overrides, ps[..i], keysOf, capture).aborted
    ensures ConfigurePass(st, overrides, ps, keysOf, capture) == ConfigurePass(st, overrides, ps[..i], keysOf, capture)
    decreases |ps| - i
  {
    if i < |ps| {
      assert ps[..i + 1][..i] == ps[..i];
      ConfigureStopped(st, overrides, ps, keysOf, capture, i + 1);
    } else {
      assert ps[..i] == ps;
    }
  }

  lemma {:induction false} LinkStopped(h: Host, plan: seq<Prim>, ps: seq<Prim>, keysOf: Props -> seq<string>, i: nat)
    requires i <= |ps| && LinkPass(h, plan, ps[..i], keysOf).1
    ensures LinkPass(h, plan, ps, keysOf) == LinkPass(h, plan, ps[..i], keysOf)
    decreases |ps| - i
  {
    if i < |ps| {
      assert ps[..i + 1][..i] == ps[..i];
      LinkStopped(h, plan, ps, keysOf, i + 1);
    } else {
      assert ps[..i] == ps;
    }
  }

  // ---------------------------------------------------------------------
  // The passes as the add-on runs them

  /** One iteration of the creation pass (lines 18-64). */
  method CreateOne(s: Store, c: UuidCache, plan: seq<Prim>, p: Prim, creation: map<string, Kind>, defaults: Kind -> Props)
    requires s.Valid() && p.id != ""
    modifies s, c
    ensures s.Valid() && Snap(s, c) == CreateStep(old(Snap(s, c)), plan, p, creation, defaults)
  {
    ghost var h0 := Snap(s, c);
    var found := c.Find(s, p.id);
    ghost var h1 := Snap(s, c);
    assert (h1, found) == Find(h0, p.id);
    if found.Some? {
      return;
    }
    var made := MakeRecord(s, c, plan, p, creation, defaults);
    assert Snap(s, c) == h1;
    if made.Some? {
      var m := made.value;
      var r := s.Create(m.kind, m.rna, m.name, m.attrs);
      assert Snap(s, c) == Created(h1, m);
      var _ := c.SetUuid(s, r, Some(p.id), false, p.id);
      assert Snap(s, c) == Tagged(Created(h1, m), h1.next, p.id);
    }
  }

  /** What to create for `p` once the cache is populated: the type lookup
      and the object's data link of lines 28-58, which leave the registry as
      it is. */
  method MakeRecord(s: Store, c: UuidCache, plan: seq<Prim>, p: Prim, creation: map<string, Kind>, defaults: Kind -> Props)
    returns (made: Option<Made>)
    requires c.populated
    modifies c
    ensures Snap(s, c) == old(Snap(s, c))
    ensures made == MakeFor(s.w, c.cache, plan, p, creation, defaults)
  {
    var typ := Get(p.props, "datablock_type");
    var name := GetOr(p.props, "name", VStr("unnamed"));
    made := None;
    if typ == VStr("OBJECT") {
      var rel := DataRelOf(p.props);
      if !rel.BadRels? {
        var data: Option<DbRef> := None;
        if rel.DataPath? {
          var dp := FirstWithPath(plan, rel.path);
          if dp.Some? {
            data := c.Find(s, dp.value.id);
          }
        }
        assert ObjectData(c.cache, plan, p) == Data(data);
        made := Construct(s.w, KObject, name, VNone, data, defaults);
      }
    } else if typ.VStr? && typ.s in creation {
      made := Construct(s.w, creation[typ.s], name, GetOr(p.props, "type", VStr("POINT")), None, defaults);
    }
  }

  /** Pass 1 (lines 17-64). */
  method CreationPass(s: Store, c: UuidCache, plan: seq<Prim>, creation: map<string, Kind>, defaults: Kind -> Props)
    requires s.Valid() && forall i :: 0 <= i < |plan| ==> plan[i].id != ""
    modifies s, c
    ensures s.Valid() && Snap(s, c) == CreatePass(old(Snap(s, c)), plan, plan, creation, defaults)
  {
    var i := 0;
    while i < |plan|
      invariant 0 <= i <= |plan| && s.Valid()
      invariant Snap(s, c) == CreatePass(old(Snap(s, c)), plan, plan[..i], creation, defaults)
    {
      CreateOne(s, c, plan, plan[i], creation, defaults);
      assert plan[..i + 1][..i] == plan[..i];
      i := i + 1;
    }
    assert plan[..i] == plan;
  }

  /** The base-property loop of pass 2 (lines 74-81). */
  method WriteBaseProps(s: Store, db: DbRef, d: Props, ks: seq<string>)
    requires s.Valid()
    modifies s
    ensures s.Valid() && s.next == old(s.next) && s.order == old(s.order)
    ensures s.w == WriteBase(old(s.w), db, d, ks)
  {
    var i := 0;
    while i < |ks|
      invariant 0 <= i <= |ks| && s.Valid() && s.next == old(s.next) && s.order == old(s.order)
      invariant s.w == WriteBase(old(s.w), db, d, ks[..i])
    {
      var k := ks[i];
      if k in d && Configurable(k) {
        var _ := SetNestedProperty(s, VRef(db), k, d[k]);
      }
      assert ks[..i + 1][..i] == ks[..i];
      i := i + 1;
    }
    assert ks[..i] == ks;
  }

  /** The override loop of pass 2 (lines 95-103). */
  method ApplyStoredOverrides(s: Store, cache: map<Uuid, DbRef>, db: DbRef, d: Props, ks: seq<string>)
    requires s.Valid()
    modifies s
    ensures s.Valid() && s.next == old(s.next) && s.order == old(s.order)
    ensures s.w == ApplyOverrides(old(s.w), cache, db, d, ks).0
  {
    var i := 0;
    while i < |ks|
      invariant 0 <= i <= |ks| && s.Valid() && s.next == old(s.next) && s.order == old(s.order)
      invariant ApplyOverrides(old(s.w), cache, db, d, ks[..i]) == (s.w, false)
    {
      var k := ks[i];
      assert ks[..i + 1][..i] == ks[..i];
      if k in d {
        var x := FromJsonSafe(cache, d[k]);
        if x.None? {
          ApplyStopped(old(s.w), cache, db, d, ks, i + 1);
          return;
        }
        var out := SetNestedProperty(s, VRef(db), k, x.value);
        if out == Raised {
          ApplyStopped(old(s.w), cache, db, d, ks, i + 1);
          return;
        }
      }
      i := i + 1;
    }
    assert ks[..i] == ks;
  }

  /** One iteration of pass 2 (lines 69-103). */
  method ConfigureOne(s: Store, c: UuidCache, tree: DatablockTree, p: Prim,
                      keysOf: Props -> seq<string>, capture: (World, DbRef) -> Props) returns (aborted: bool)
    requires s.Valid() && p.id != ""
    modifies s, c, tree
    ensures s.Valid()
    ensures tree.overrides == old(tree.overrides) && tree.stateMap == old(tree.stateMap) && tree.relationships == old(tree.relationships)
    ensures ConfigureStep(St(old(Snap(s, c)), old(tree.initialStates)), tree.overrides, p, keysOf, capture)
      == Run(St(Snap(s, c), tree.initialStates), aborted)
  {
    var found := c.Find(s, p.id);
    if found.None? {
      return false;
    }
    var db := found.value;
    WriteBaseProps(s, db, p.props, keysOf(p.props));
    if tree.initialStates.None? {
      return true;
    }
    var rows := tree.initialStates.value;
    var missing := FindInitial(rows, p.id).None?;
    if missing {
      if !(db in s.w.dbs && s.w.dbs[db].alive) {
        return true;
      }
      tree.initialStates := Some(rows + [InitialRow(p.id, Doc(capture(s.w, db)))]);
    }
    var j := FindOverride(tree.overrides, p.id);
    if j.Some? && tree.overrides[j.value].data.Doc? {
      var d := tree.overrides[j.value].data.d;
      ApplyStoredOverrides(s, c.cache, db, d, keysOf(d));
    }
    aborted := false;
  }

  /** Pass 2 (lines 68-103). */
  method ConfigurationPass(s: Store, c: UuidCache, tree: DatablockTree, plan: seq<Prim>,
                           keysOf: Props -> seq<string>, capture: (World, DbRef) -> Props) returns (aborted: bool)
    requires s.Valid() && forall i :: 0 <= i < |plan| ==> plan[i].id != ""
    modifies s, c, tree
    ensures s.Valid()
    ensures tree.overrides == old(tree.overrides) && tree.stateMap == old(tree.stateMap) && tree.relationships == old(tree.relationships)
    ensures ConfigurePass(St(old(Snap(s, c)), old(tree.initialStates)), tree.overrides, plan, keysOf, capture)
      == Run(St(Snap(s, c), tree.initialStates), aborted)
  {
    ghost var st0 := St(Snap(s, c), tree.initialStates);
    var i := 0;
    while i < |plan|
      invariant 0 <= i <= |plan| && s.Valid()
      invariant tree.overrides == old(tree.overrides) && tree.stateMap == old(tree.stateMap) && tree.relationships == old(tree.relationships)
      invariant ConfigurePass(st0, tree.overrides, plan[..i], keysOf, capture) == Run(St(Snap(s, c), tree.initialStates), false)
    {
      aborted := ConfigureAt(s, c, tree, plan, i, keysOf, capture, st0);
      if aborted {
        return;
      }
      i := i + 1;
    }
    assert plan[..i] == plan;
    aborted := false;
  }

  /** The `i`-th turn of the configuration loop; an abort ends the pass. */
  method ConfigureAt(s: Store, c: UuidCache, tree: DatablockTree, plan: seq<Prim>, i: nat,
                     keysOf: Props -> seq<string>, capture: (World, DbRef) -> Props, ghost st0: St) returns (aborted: bool)
    requires s.Valid() && i < |plan| && plan[i].id != ""
    requires ConfigurePass(st0, tree.overrides, plan[..i], keysOf, capture) == Run(St(Snap(s, c), tree.initialStates), false)
    modifies s, c, tree
    ensures s.Valid()
    ensures tree.overrides == old(tree.overrides) && tree.stateMap == old(tree.stateMap) && tree.relationships == old(tree.relationships)
    ensures !aborted ==> ConfigurePass(st0, tree.overrides, plan[..i + 1], keysOf, capture) == Run(St(Snap(s, c), tree.initialStates), false)
    ensures aborted ==> ConfigurePass(st0, tree.overrides, plan, keysOf, capture) == Run(St(Snap(s, c), tree.initialStates), true)
  {
    assert plan[..i + 1][..i] == plan[..i];
    aborted := ConfigureOne(s, c, tree, plan[i], keysOf, capture);
    if aborted {
      ConfigureStopped(st0, tree.overrides, plan, keysOf, capture, i + 1);
    }
  }

  /** Hierarchy parenting in pass 3 (lines 116-126); `ok` is false when it
      raised. */
  method ParentByPath(s: Store, c: UuidCache, plan: seq<Prim>, p: Prim, from: DbRef) returns (ok: bool)
    requires s.Valid() && c.populated
    modifies s, c
    ensures s.Valid() && s.next == old(s.next) && s.order == old(s.order)
    ensures c.cache == old(c.cache) && c.populated
    ensures var r := ParentStep(old(s.w), c.cache, plan, p, from);
      ok == r.Some? && s.w == (if ok then r.value else old(s.w))
  {
    var pp := ParentPath(p.path);
    if pp.None? {
      return true;
    }
    var pprox := LastWithPath(plan, pp.value);
    if pprox.None? {
      return true;
    }
    var pdb := c.Find(s, pprox.value.id);
    if pdb.None? {
      return true;
    }
    var cur := GetAttr(s.w, VRef(from), "parent");
    if !cur.Got? {
      return false;
    }
    if cur.v == VRef(pdb.value) || !IsKind(s.w, VRef(pdb.value), KObject) {
      return true;
    }
    if !s.w.dbs[pdb.value].alive {
      return false;
    }
    var res := s.Assign(VRef(from), "parent", VRef(pdb.value));
    ok := res.Written?;
  }

  /** One `collection_links` target (lines 138-161); `stop` says it raised. */
  method LinkOneTarget(s: Store, c: UuidCache, plan: seq<Prim>, from: DbRef, t: Value) returns (stop: bool)
    requires s.Valid() && c.populated && from in s.w.dbs
    modifies s, c
    ensures s.Valid() && s.next == old(s.next) && s.order == old(s.order)
    ensures c.cache == old(c.cache) && c.populated
    ensures (s.w, stop) == LinkTarget(old(s.w), c.cache, plan, from, t)
  {
    stop := false;
    if t.VList? || t.VDict? {
      return true;
    }
    if !t.VStr? {
      return;
    }
    var tp := LastWithPath(plan, t.s);
    if tp.None? {
      return;
    }
    var tdb := c.Find(s, tp.value.id);
    assert tdb == Lookup(c.cache, tp.value.id);
    if tdb.None? || tdb.value !in s.w.dbs {
      return;
    }
    var d := s.w.dbs[tdb.value];
    if d.kind != KScene && d.kind != KCollection {
      return !d.alive;
    }
    if !d.alive || !s.w.dbs[from].alive {
      return true;
    }
    if !NameIn(s.w, d.objects, s.w.dbs[from].name) {
      s.LinkObject(tdb.value, from);
    }
  }

  /** The loop over `collection_links` targets (lines 136-161). */
  method LinkInto(s: Store, c: UuidCache, plan: seq<Prim>, from: DbRef, ts: seq<Value>)
    requires s.Valid() && c.populated && from in s.w.dbs
    modifies s, c
    ensures s.Valid() && s.next == old(s.next) && s.order == old(s.order)
    ensures c.cache == old(c.cache) && c.populated
    ensures s.w == LinkTargets(old(s.w), c.cache, plan, from, ts).0
  {
    var i := 0;
    while i < |ts|
      invariant 0 <= i <= |ts| && s.Valid() && s.next == old(s.next) && s.order == old(s.order)
      invariant c.cache == old(c.cache) && c.populated && from in s.w.dbs
      invariant LinkTargets(old(s.w), c.cache, plan, from, ts[..i]) == (s.w, false)
    {
      assert ts[..i + 1][..i] == ts[..i];
      var stop := LinkOneTarget(s, c, plan, from, ts[i]);
      if stop {
        TargetsStopped(old(s.w), c.cache, plan, from, ts, i + 1);
        return;
      }
      i := i + 1;
    }
    assert ts[..i] == ts;
  }

  /** The relationship loop of pass 3 (lines 129-163). */
  method LinkRels(s: Store, c: UuidCache, plan: seq<Prim>, from: DbRef, rels: Props, ks: seq<string>)
    requires s.Valid() && c.populated && from in s.w.dbs
    modifies s, c
    ensures s.Valid() && s.next == old(s.next) && s.order == old(s.order)
    ensures c.cache == old(c.cache) && c.populated
    ensures s.w == RelsStep(old(s.w), c.cache, plan, from, rels, ks)
  {
    ghost var w0 := s.w;
    var i := 0;
    while i < |ks|
      invariant 0 <= i <= |ks| && s.Valid() && s.next == old(s.next) && s.order == old(s.order)
      invariant c.cache == old(c.cache) && c.populated && from in s.w.dbs
      invariant s.w == RelsStep(w0, c.cache, plan, from, rels, ks[..i])
    {
      assert ks[..i + 1][..i] == ks[..i];
      ghost var wi := s.w;
      var k := ks[i];
      if k == "collection_links" && k in rels {
        var v := rels[k];
        LinkInto(s, c, plan, from, if v.VList? then v.items else [v]);
        assert s.w == LinkTargets(wi, c.cache, plan, from, if v.VList? then v.items else [v]).0;
      }
      assert s.w == RelsStep(w0, c.cache, plan, from, rels, ks[..i + 1]);
      i := i + 1;
    }
    assert ks[..i] == ks;
  }

  /** One iteration of pass 3 (lines 110-163). */
  method LinkOne(s: Store, c: UuidCache, plan: seq<Prim>, p: Prim, keysOf: Props -> seq<string>) returns (aborted: bool)
    requires s.Valid() && p.id != ""
    modifies s, c
    ensures s.Valid() && LinkStep(old(Snap(s, c)), plan, p, keysOf) == (Snap(s, c), aborted)
  {
    ghost var h0 := Snap(s, c);
    var found := c.Find(s, p.id);
    assert (Snap(s, c), found) == Find(h0, p.id);
    if found.None? || found.value !in s.w.dbs || s.w.dbs[found.value].kind != KObject {
      return false;
    }
    var from := found.value;
    ghost var h1 := Snap(s, c);
    var ok := ParentByPath(s, c, plan, p, from);
    if !ok {
      return true;
    }
    assert Some(s.w) == ParentStep(h1.w, h1.cache, plan, p, from);
    if "_fn_relationships" !in p.props {
      return false;
    }
    if !p.props["_fn_relationships"].VDict? || from !in s.w.dbs {
      return true;
    }
    var rels := p.props["_fn_relationships"].d;
    LinkRels(s, c, plan, from, rels, keysOf(rels));
    aborted := false;
  }

  /** One more prim of the plan is one more linking step, unless an earlier
      one stopped the pass. */
  lemma LinkPassStep(h: Host, plan: seq<Prim>, i: nat, keysOf: Props -> seq<string>)
    requires i < |plan|
    ensures var prev := LinkPass(h, plan, plan[..i], keysOf);
      LinkPass(h, plan, plan[..i + 1], keysOf) == if prev.1 then prev else LinkStep(prev.0, plan, plan[i], keysOf)
  {
    assert plan[..i + 1][..i] == plan[..i];
  }

  /** Pass 3 (lines 106-163). */
  method LinkingPass(s: Store, c: UuidCache, plan: seq<Prim>, keysOf: Props -> seq<string>) returns (aborted: bool)
    requires s.Valid() && forall i :: 0 <= i < |plan| ==> plan[i].id != ""
    modifies s, c
    ensures s.Valid() && LinkPass(old(Snap(s, c)), plan, plan, keysOf) == (Snap(s, c), aborted)
  {
    ghost var h0 := Snap(s, c);
    var i := 0;
    while i < |plan|
      invariant 0 <= i <= |plan| && s.Valid()
      invariant LinkPass(h0, plan, plan[..i], keysOf) == (Snap(s, c), false)
    {
      LinkPassStep(h0, plan, i, keysOf);
      aborted := LinkOne(s, c, plan, plan[i], keysOf);
      if aborted {
        LinkStopped(h0, plan, plan, keysOf, i + 1);
        return;
      }
      i := i + 1;
    }
    assert plan[..i] == plan;
    aborted := false;
  }

  /** `materialize_plan(plan, tree)`: the three passes; `aborted` says an
      exception escaped. */
  method MaterializePlan(s: Store, c: UuidCache, tree: DatablockTree, plan: seq<Prim>, creation: map<string, Kind>,
                         defaults: Kind -> Props, keysOf: Props -> seq<string>, capture: (World, DbRef) -> Props)
    returns (aborted: bool)
    requires s.Valid() && forall i :: 0 <= i < |plan| ==> plan[i].id != ""
    modifies s, c, tree
    ensures s.Valid()
    ensures tree.overrides == old(tree.overrides) && tree.stateMap == old(tree.stateMap) && tree.relationships == old(tree.relationships)
    ensures Materialize(St(old(Snap(s, c)), old(tree.initialStates)), tree.overrides, plan, creation, defaults, keysOf, capture)
      == Run(St(Snap(s, c), tree.initialStates), aborted)
  {
    CreationPass(s, c, plan, creation, defaults);
    aborted := ConfigurationPass(s, c, tree, plan, keysOf, capture);
    if aborted {
      return;
    }
    aborted := LinkingPass(s, c, plan, keysOf);
  }
}
