/** The host application's datablock store (`bpy.data`), reduced to what the
    add-on reads and writes: typed, named datablocks with RNA attributes, the
    `_fn_uuid` custom property, and collection membership. A removed datablock
    keeps its record with `alive == false`: Python references to it remain
    (truthy) values, but reading or writing through them raises
    ReferenceError. */
module HostStore {
  import opened Base

  /** The `bpy.data` collection a datablock lives in. */
  datatype Kind =
    | KObject | KScene | KCollection | KMesh | KMaterial | KCamera | KLight
    | KImage | KNodeTree | KText | KWorld | KArmature | KAction | KWorkspace

  /** A struct an attribute walk can stand on: a datablock, or a nested
      struct such as `scene.cycles` (`VOpaque(t)` values point at those). */
  datatype Obj = Db(r: DbRef) | Sub(t: nat)

  /** One ID datablock.
      - `rna` is `bl_rna.identifier` (`'Object'`, `'Mesh'`, `'PointLight'`, ...);
      - `fnUuid` is the `_fn_uuid` custom property, `None` when absent;
      - `idprops` are the other custom properties (item access `db[key]`);
      - `attrs` are the RNA properties other than `name`; pointers such as
        `data`, `parent` or `world` hold `VRef`/`VNone`, nested structs `VOpaque`;
      - `objects`/`children` are the collection's members; for a Scene they
        are those of its root collection `scene.collection`. */
  datatype Datablock = Datablock(
    kind: Kind, rna: string, name: string, alive: bool,
    fnUuid: Option<Uuid>, idprops: Props, attrs: Props,
    objects: seq<DbRef>, children: seq<DbRef>)

  /** The datablocks and the nested structs they own. */
  datatype World = World(dbs: map<DbRef, Datablock>, subs: map<nat, Props>)

  /** `bl_rna.identifier` of a datablock created through `bpy.data.<kind>.new`;
      a light's identifier depends on its light type. */
  function RnaOf(k: Kind, lightType: string): string {
    match k
    case KObject => "Object"
    case KScene => "Scene"
    case KCollection => "Collection"
    case KMesh => "Mesh"
    case KMaterial => "Material"
    case KCamera => "Camera"
    case KLight =>
      if lightType == "SUN" then "SunLight"
      else if lightType == "SPOT" then "SpotLight"
      else if lightType == "AREA" then "AreaLight"
      else "PointLight"
    case KImage => "Image"
    case KNodeTree => "ShaderNodeTree"
    case KText => "Text"
    case KWorld => "World"
    case KArmature => "Armature"
    case KAction => "Action"
    case KWorkspace => "WorkSpace"
  }

  /** The light types `bpy.data.lights.new(name, type)` accepts. */
  predicate LightTypeOk(t: Value) {
    t == VStr("POINT") || t == VStr("SUN") || t == VStr("SPOT") || t == VStr("AREA")
  }

  /** The attribute names of `bpy.data` that hold datablock collections. */
  const DataCollections: set<string> := {
    "objects", "scenes", "collections", "meshes", "materials", "cameras", "lights",
    "images", "node_groups", "texts", "worlds", "armatures", "actions", "workspaces"
  }

  /** `str.lower` on one ASCII character. */
  function LowerChar(c: char): char {
    if 'A' <= c <= 'Z' then (c as int + 32) as char else c
  }

  /** Lower-casing of ASCII letters (`str.lower` on identifiers). */
  function Lower(s: string): (r: string)
    ensures |r| == |s|
    ensures forall i :: 0 <= i < |s| ==> r[i] == LowerChar(s[i])
  {
    if s == [] then []
    else [LowerChar(s[0])] + Lower(s[1..])
  }

  /** A value `isinstance(v, bpy.types.ID)` holds for, alive or not. */
  predicate IsId(w: World, v: Value) {
    v.VRef? && v.ref in w.dbs
  }

  predicate IsKind(w: World, v: Value, k: Kind) {
    IsId(w, v) && w.dbs[v.ref].kind == k
  }

  /** `get_uuid(db)` / `db.get('_fn_uuid')` as a value. */
  function UuidValue(d: Datablock): Value {
    if d.fnUuid.Some? then VStr(d.fnUuid.value) else VNone
  }

  /** Removing `x` from a member list (the host unlinks a removed datablock
      from every collection). */
  function Without(s: seq<DbRef>, x: DbRef): (r: seq<DbRef>)
    ensures x !in r
    ensures forall y :: y in r <==> y in s && y != x
  {
    if s == [] then [] else (if s[0] == x then [] else [s[0]]) + Without(s[1..], x)
  }

  /** The world after `bpy.data.<kind>.remove(db)`: the datablock is dead and
      no longer a member of any collection. */
  function Removed(w: World, r: DbRef): (w2: World)
    requires r in w.dbs
    ensures w2.subs == w.subs && w2.dbs.Keys == w.dbs.Keys && !w2.dbs[r].alive
    ensures forall k :: k in w.dbs && k != r ==> w2.dbs[k].alive == w.dbs[k].alive
    ensures forall k :: k in w.dbs ==>
      w2.dbs[k].fnUuid == w.dbs[k].fnUuid && w2.dbs[k].rna == w.dbs[k].rna
      && w2.dbs[k].kind == w.dbs[k].kind && w2.dbs[k].name == w.dbs[k].name
      && w2.dbs[k].attrs == w.dbs[k].attrs && w2.dbs[k].idprops == w.dbs[k].idprops
    ensures forall k :: k in w.dbs ==> r !in w2.dbs[k].objects && r !in w2.dbs[k].children
  {
    var dbs := map k | k in w.dbs :: w.dbs[k].(objects := Without(w.dbs[k].objects, r), children := Without(w.dbs[k].children, r));
    World(dbs[r := dbs[r].(alive := false)], w.subs)
  }

  // ---------------------------------------------------------------------
  // Attribute access through a cursor (`getattr` / `setattr`)

  /** The struct a value lets an attribute walk stand on. Plain values have
      none of the RNA attributes the add-on asks for. */
  function ObjOf(v: Value): Option<Obj> {
    match v
    case VRef(r) => Some(Db(r))
    case VOpaque(t) => Some(Sub(t))
    case _ => None
  }

  /** What `getattr(obj, name)` does: gives a value, raises AttributeError,
      or raises ReferenceError on a removed datablock. */
  datatype Got = Got(v: Value) | NoAttr | Dead

  function GetAttr(w: World, v: Value, name: string): Got {
    match ObjOf(v)
    case None => NoAttr
    case Some(Db(r)) =>
      if r !in w.dbs then NoAttr
      else if !w.dbs[r].alive then Dead
      else if name == "name" then Got(VStr(w.dbs[r].name))
      else if name in w.dbs[r].attrs then Got(w.dbs[r].attrs[name])
      else NoAttr
    case Some(Sub(t)) =>
      if t in w.subs && name in w.subs[t] then Got(w.subs[t][name]) else NoAttr
  }

  /** The values an RNA property holding `cur` accepts: numbers for numbers
      (a bool is an int), strings for strings, datablocks or None for
      pointers, and lists of the same length for arrays. Nested structs and
      anything else are read-only. */
  predicate Compatible(cur: Value, x: Value) {
    match cur
    case VBool(_) => x.VBool? || (x.VInt? && 0 <= x.i <= 1)
    case VInt(_) => x.VInt? || x.VBool?
    case VReal(_) => x.VReal? || x.VInt? || x.VBool?
    case VStr(_) => x.VStr?
    case VNone => x.VNone? || x.VRef?
    case VRef(_) => x.VNone? || x.VRef?
    case VList(xs) => x.VList? && |x.items| == |xs|
    case _ => false
  }

  /** What `setattr(obj, name, value)` does: writes, refuses with
      AttributeError or TypeError, or raises ReferenceError. */
  datatype Set = Written(w: World) | Refused | Gone

  /** `w2` differs from `w` at most in names and attribute values: the same
      datablocks, equally alive, of the same kind and uuid, with the same
      members. */
  predicate SameRecords(w: World, w2: World) {
    w2.dbs.Keys == w.dbs.Keys
    && forall x :: x in w.dbs ==>
      w2.dbs[x].alive == w.dbs[x].alive && w2.dbs[x].kind == w.dbs[x].kind && w2.dbs[x].rna == w.dbs[x].rna
      && w2.dbs[x].fnUuid == w.dbs[x].fnUuid && w2.dbs[x].objects == w.dbs[x].objects
      && w2.dbs[x].children == w.dbs[x].children
  }

  function SetAttr(w: World, v: Value, name: string, x: Value): (r: Set)
    ensures r.Written? ==> GetAttr(r.w, v, name) == Got(x)
    ensures r.Written? <==> GetAttr(w, v, name).Got? && (if name == "name" && ObjOf(v).value.Db? then x.VStr? else Compatible(GetAttr(w, v, name).v, x))
    ensures r.Gone? <==> GetAttr(w, v, name).Dead?
    ensures r.Written? ==> r.w.dbs.Keys == w.dbs.Keys && SameRecords(w, r.w)
  {
    match ObjOf(v)
    case None => Refused
    case Some(Db(r)) =>
      if r !in w.dbs then Refused
      else if !w.dbs[r].alive then Gone
      else if name == "name" then
        (if x.VStr? then Written(w.(dbs := w.dbs[r := w.dbs[r].(name := x.s)])) else Refused)
      else if name in w.dbs[r].attrs && Compatible(w.dbs[r].attrs[name], x) then
        Written(w.(dbs := w.dbs[r := w.dbs[r].(attrs := w.dbs[r].attrs[name := x])]))
      else Refused
    case Some(Sub(t)) =>
      if t in w.subs && name in w.subs[t] && Compatible(w.subs[t][name], x) then
        Written(w.(subs := w.subs[t := w.subs[t][name := x]]))
      else Refused
  }

  /** A write touches one attribute of one struct: every other attribute
      reads as before. */
  lemma SetAttrFrame(w: World, v: Value, name: string, x: Value, u: Value, other: string)
    requires SetAttr(w, v, name, x).Written? && (ObjOf(u) != ObjOf(v) || other != name)
    ensures GetAttr(SetAttr(w, v, name, x).w, u, other) == GetAttr(w, u, other)
  {
  }

  /** `getattr(bpy.data, collection).get(name)`: the first live datablock of
      that kind with that name, in creation order. */
  function ByName(w: World, order: seq<DbRef>, kind: Kind, name: string): (r: Option<DbRef>)
    ensures r.Some? ==>
      r.value in order && r.value in w.dbs && w.dbs[r.value].alive && w.dbs[r.value].kind == kind && w.dbs[r.value].name == name
    ensures r.None? ==> forall i :: 0 <= i < |order| && order[i] in w.dbs && w.dbs[order[i]].alive && w.dbs[order[i]].kind == kind ==> w.dbs[order[i]].name != name
  {
    if order == [] then None
    else if order[0] in w.dbs && w.dbs[order[0]].alive && w.dbs[order[0]].kind == kind && w.dbs[order[0]].name == name then Some(order[0])
    else
      var r := ByName(w, order[1..], kind, name);
      assert forall i :: 1 <= i < |order| ==> order[i] == order[1..][i - 1];
      r
  }

  /** The host store. */
  class Store {
    var w: World
    var next: nat

    /** `order` lists every datablock once, in creation order; handles lie
        below `next`. */
    var order: seq<DbRef>

    ghost predicate Valid()
      reads this
    {
      (forall r :: r in w.dbs ==> r < next)
      && (forall r :: r in w.dbs <==> r in order)
      && NoDup(order)
    }

    constructor ()
      ensures Valid() && w == World(map[], map[]) && next == 0 && order == []
    {
      w := World(map[], map[]);
      next := 0;
      order := [];
    }

    /** `bpy.data.<kind>.new(name, ...)`: a fresh, live, untagged datablock
        without members, whose attributes are `attrs`, the defaults the host
        gives that type. The host's renaming on a name clash is not modelled. */
    method Create(kind: Kind, rna: string, name: string, attrs: Props) returns (r: DbRef)
      requires Valid()
      modifies this
      ensures Valid() && r == old(next) && next == r + 1 && old(w).dbs.Keys !! {r}
      ensures w == old(w).(dbs := old(w).dbs[r := Datablock(kind, rna, name, true, None, map[], attrs, [], [])])
      ensures order == old(order) + [r]
    {
      r := next;
      order := order + [r];
      w := w.(dbs := w.dbs[r := Datablock(kind, rna, name, true, None, map[], attrs, [], [])]);
      next := next + 1;
    }

    /** `db.copy()`: a fresh datablock with the record of `src`, custom
        properties (the `_fn_uuid` among them) and members included. The
        host's renaming of the copy (`'.001'`) is not modelled. */
    method Copy(src: DbRef) returns (r: DbRef)
      requires Valid() && src in w.dbs && w.dbs[src].alive
      modifies this
      ensures Valid() && r == old(next) && next == r + 1 && old(w).dbs.Keys !! {r}
      ensures w == old(w).(dbs := old(w).dbs[r := old(w).dbs[src]])
      ensures order == old(order) + [r]
    {
      r := next;
      assert r !in order;
      order := order + [r];
      w := w.(dbs := w.dbs[r := w.dbs[src]]);
      next := next + 1;
    }

    /** `bpy.data.<kind>.remove(db)`. */
    method Remove(r: DbRef)
      requires Valid() && r in w.dbs
      modifies this
      ensures Valid() && next == old(next) && order == old(order) && w == Removed(old(w), r)
    {
      w := Removed(w, r);
    }

    /** `db.name = name`. */
    method Rename(r: DbRef, name: string)
      requires Valid() && r in w.dbs
      modifies this
      ensures Valid() && next == old(next) && order == old(order)
      ensures w == old(w).(dbs := old(w).dbs[r := old(w).dbs[r].(name := name)])
    {
      w := w.(dbs := w.dbs[r := w.dbs[r].(name := name)]);
    }

    /** `db['_fn_uuid'] = u`. */
    method Tag(r: DbRef, u: Uuid)
      requires Valid() && r in w.dbs
      modifies this
      ensures Valid() && next == old(next) && order == old(order)
      ensures w == old(w).(dbs := old(w).dbs[r := old(w).dbs[r].(fnUuid := Some(u))])
    {
      w := w.(dbs := w.dbs[r := w.dbs[r].(fnUuid := Some(u))]);
    }

    /** `setattr(obj, name, x)` outside a `try`: the write, or what it
        raises. */
    method Assign(v: Value, name: string, x: Value) returns (r: Set)
      requires Valid()
      modifies this
      ensures Valid() && next == old(next) && order == old(order)
      ensures r == SetAttr(old(w), v, name, x)
      ensures w == if r.Written? then r.w else old(w)
    {
      r := SetAttr(w, v, name, x);
      if r.Written? {
        w := r.w;
      }
    }

    /** `coll.objects.link(obj)`: `obj` becomes the last member object. */
    method LinkObject(coll: DbRef, obj: DbRef)
      requires Valid() && coll in w.dbs
      modifies this
      ensures Valid() && next == old(next) && order == old(order)
      ensures w == old(w).(dbs := old(w).dbs[coll := old(w).dbs[coll].(objects := old(w).dbs[coll].objects + [obj])])
    {
      w := w.(dbs := w.dbs[coll := w.dbs[coll].(objects := w.dbs[coll].objects + [obj])]);
    }

    /** `coll.children.link(child)`: `child` becomes the last child collection. */
    method LinkChild(coll: DbRef, child: DbRef)
      requires Valid() && coll in w.dbs
      modifies this
      ensures Valid() && next == old(next) && order == old(order)
      ensures w == old(w).(dbs := old(w).dbs[coll := old(w).dbs[coll].(children := old(w).dbs[coll].children + [child])])
    {
      w := w.(dbs := w.dbs[coll := w.dbs[coll].(children := w.dbs[coll].children + [child])]);
    }
  }
}
