/** The nodes that keep per-node state in the node tree's tables: Derive
    Datablock, Import Datablock, New Datablock, Set Object Data, and the
    get-or-create helper written for creator nodes. Each works in place on
    the host store, the uuid cache and the tree. The values `uuid.uuid4()`
    would give are parameters. */
module StateNodes {
  import opened Base
  import opened Strings
  import opened HostStore
  import opened UuidManager
  import opened NodeTreeData
  import opened StateRows

  /** What a node's `execute` gives back: a value, or an exception. */
  datatype Outcome = Returns(v: Value) | Raises

  // ---------------------------------------------------------------------
  // Store updates, named

  /** The store with one record put in place. */
  function Put(w: World, r: DbRef, d: Datablock): World {
    w.(dbs := w.dbs[r := d])
  }

  /** The store with one datablock renamed. */
  function Renamed(w: World, r: DbRef, name: string): World
    requires r in w.dbs
  {
    Put(w, r, w.dbs[r].(name := name))
  }

  /** The uuid `set_uuid(db, target)` writes on a datablock without one. */
  function TagOf(target: Option<Uuid>, newId: Uuid): Uuid {
    if target.Some? && target.value != "" then target.value else newId
  }

  // ---------------------------------------------------------------------
  // Resolving a recorded uuid

  /** The cache `find_datablock_by_uuid(u)` reads: populated first unless
      `u` is empty or the cache already is. */
  function CacheFor(c: map<Uuid, DbRef>, populated: bool, w: World, order: seq<DbRef>, u: Uuid): map<Uuid, DbRef> {
    if u == "" || populated then c else ScanAll(w, map[], order, ScanKinds)
  }

  /** `_UUID_CACHE.get(u)` behind the empty-string guard. */
  function Lookup(c: map<Uuid, DbRef>, u: Uuid): Option<DbRef> {
    if u != "" && u in c then Some(c[u]) else None
  }

  /** `find_datablock_by_uuid(u)` on a cache whose entries are records of
      the store: what it finds is one too. */
  method Resolve(cache: UuidCache, s: Store, u: Uuid) returns (r: Option<DbRef>)
    requires cache.Valid(s.w)
    modifies cache
    ensures cache.Valid(s.w) && cache.populated == (old(cache.populated) || u != "")
    ensures cache.cache == CacheFor(old(cache.cache), old(cache.populated), s.w, s.order, u)
    ensures r == Lookup(cache.cache, u)
    ensures r.Some? ==> r.value in s.w.dbs
  {
    r := cache.Find(s, u);
    if u != "" && !old(cache.populated) {
      PopulatedCache(s.w, s.order);
    }
  }

  /** `if db.name != name: db.name = name`. Reading the name of a removed
      datablock raises, and so does writing a name that is not a string
      (a non-string never equals the current name). */
  method RenameIfDiffers(s: Store, db: DbRef, name: Value) returns (ok: bool)
    requires s.Valid() && db in s.w.dbs
    modifies s
    ensures s.Valid() && s.next == old(s.next) && s.order == old(s.order)
    ensures ok <==> old(s.w).dbs[db].alive && name.VStr?
    ensures s.w == if ok then Renamed(old(s.w), db, name.s) else old(s.w)
  {
    if !s.w.dbs[db].alive {
      return false;
    }
    if VStr(s.w.dbs[db].name) == name {
      assert s.w.dbs[db].(name := name.s) == s.w.dbs[db];
      return true;
    }
    if !name.VStr? {
      return false;
    }
    s.Rename(db, name.s);
    ok := true;
  }

  /** A creation function's record for a new datablock. */
  datatype Made = Made(kind: Kind, rna: string, name: string, attrs: Props)

  /** The record a new datablock gets once `set_uuid` has tagged it. */
  function Fresh(m: Made, u: Uuid): Datablock {
    Datablock(m.kind, m.rna, m.name, true, Some(u), map[], m.attrs, [], [])
  }

  /** `creation_func(...)` followed by `set_uuid(db, target)`: a fresh
      datablock, tagged with `target` when it is truthy and with the fresh
      uuid otherwise, and registered in the cache. */
  method CreateTagged(s: Store, cache: UuidCache, m: Made, target: Option<Uuid>, newId: Uuid) returns (db: DbRef)
    requires s.Valid() && cache.Valid(s.w) && newId != ""
    modifies s, cache
    ensures s.Valid() && cache.Valid(s.w)
    ensures db == old(s.next) && s.next == db + 1 && s.order == old(s.order) + [db] && db !in old(s.w).dbs
    ensures s.w == Put(old(s.w), db, Fresh(m, TagOf(target, newId)))
    ensures cache.cache == old(cache.cache)[TagOf(target, newId) := db] && cache.populated == old(cache.populated)
  {
    db := s.Create(m.kind, m.rna, m.name, m.attrs);
    var _ := cache.SetUuid(s, db, target, false, newId);
  }

  // ---------------------------------------------------------------------
  // New Datablock

  /** `self.datablock_type.capitalize()` for each type of the node's enum. */
  function DefaultName(k: Kind): string {
    match k
    case KScene => "Scene"
    case KObject => "Object"
    case KCollection => "Collection"
    case KCamera => "Camera"
    case KImage => "Image"
    case KLight => "Light"
    case KMaterial => "Material"
    case KMesh => "Mesh"
    case KNodeTree => "Nodetree"
    case KText => "Text"
    case KWorkspace => "Workspace"
    case KWorld => "World"
    case KArmature => "Armature"
    case KAction => "Action"
  }

  /** `kwargs.get(key, default)`: the value under the key whenever the key
      is present, whatever that value is. */
  function ArgOr(kwargs: Props, key: string, default: Value): Value {
    if key in kwargs then kwargs[key] else default
  }

  /** The uuid a New Datablock node looks up: the first comma piece of its
      socket row, or the empty string when the row is missing or empty. */
  function ManagedUuid(rows: seq<StateRow>, nodeId: string, socket: string): Uuid {
    match FirstBySocket(rows, nodeId, socket)
    case Some(i) => if rows[i].uuids != "" then Split(rows[i].uuids, ",")[0] else ""
    case None => ""
  }

  /** After the upsert, the node looks up exactly the uuid it wrote. */
  lemma ManagedAfterUpsert(rows: seq<StateRow>, nodeId: string, socket: string, u: Uuid)
    requires ',' !in u
    ensures ManagedUuid(Upsert(rows, nodeId, socket, u), nodeId, socket) == u
  {
    UpsertFinds(rows, nodeId, socket, u);
    SplitAbsent(u, ',');
  }

  /** The datablock a New Datablock node finds it manages. */
  function Existing(rows: seq<StateRow>, nodeId: string, socket: string,
                    c: map<Uuid, DbRef>, populated: bool, w: World, order: seq<DbRef>): Option<DbRef> {
    var u := ManagedUuid(rows, nodeId, socket);
    Lookup(CacheFor(c, populated, w, order, u), u)
  }

  /** A run that creates leaves the node finding what it created, as long
      as the cache keeps the entry `set_uuid` registered. */
  lemma NewDatablockReuses(rows: seq<StateRow>, nodeId: string, socket: string,
                           c: map<Uuid, DbRef>, w: World, order: seq<DbRef>, u: Uuid, db: DbRef)
    requires u != "" && ',' !in u
    ensures Existing(Upsert(rows, nodeId, socket, u), nodeId, socket, c[u := db], true, w, order) == Some(db)
  {
    ManagedAfterUpsert(rows, nodeId, socket, u);
  }

  /** `bpy.data.<kind>.new(name, ...)` as New Datablock calls it, or None
      when the call raises: the name must be a string and an image's width
      and height integers. A light takes the node's light type; a node tree
      is a shader tree. `defaults` are the attributes the host gives a new
      datablock of each kind. */
  function Construct(k: Kind, name: Value, width: Value, height: Value, lightType: string,
                     defaults: Kind -> Props): (r: Option<Made>)
    ensures r.Some? <==> name.VStr? && (k == KImage ==> AsInt(width).Some? && AsInt(height).Some?)
    ensures r.Some? ==> r.value.kind == k && r.value.name == name.s && r.value.rna == RnaOf(k, lightType)
  {
    if !name.VStr? then None
    else if k == KImage then
      (if AsInt(width).Some? && AsInt(height).Some? then
        Some(Made(KImage, "Image", name.s, defaults(KImage)["size" := VList([width, height])]))
      else None)
    else if k == KLight then
      Some(Made(KLight, RnaOf(KLight, lightType), name.s, defaults(KLight)["type" := VStr(lightType)]))
    else Some(Made(k, RnaOf(k, lightType), name.s, defaults(k)))
  }

  /** `FN_new_datablock.execute`. The datablock recorded on the node's
      socket row is looked up; when found it is only renamed (when the name
      differs), with no creation and no state-map change. Otherwise a new
      datablock is created, tagged with a fresh uuid and upserted into the
      socket row. The name is the Name input when its key is present and
      the capitalised type otherwise; width and height default to 1024. */
  method NewDatablock(tree: DatablockTree, s: Store, cache: UuidCache, nodeId: string, socket: string,
                      k: Kind, kwargs: Props, nameId: string, widthId: string, heightId: string,
                      lightType: string, defaults: Kind -> Props, newId: Uuid) returns (r: Outcome)
    requires s.Valid() && cache.Valid(s.w) && newId != ""
    requires k == KLight ==> LightTypeOk(VStr(lightType))
    modifies tree, s, cache
    ensures s.Valid() && cache.Valid(s.w)
    ensures tree.relationships == old(tree.relationships) && tree.overrides == old(tree.overrides)
    ensures tree.initialStates == old(tree.initialStates)
    ensures var e := Existing(old(tree.stateMap), nodeId, socket, old(cache.cache), old(cache.populated), old(s.w), old(s.order));
      var name := ArgOr(kwargs, nameId, VStr(DefaultName(k)));
      e.Some? ==>
        e.value in old(s.w).dbs && tree.stateMap == old(tree.stateMap)
        && s.next == old(s.next) && s.order == old(s.order)
        && (r.Returns? <==> old(s.w).dbs[e.value].alive && name.VStr?)
        && (r.Returns? ==> r.v == Out(socket, VRef(e.value)) && s.w == Renamed(old(s.w), e.value, name.s))
        && (r.Raises? ==> s.w == old(s.w))
    ensures var e := Existing(old(tree.stateMap), nodeId, socket, old(cache.cache), old(cache.populated), old(s.w), old(s.order));
      var name := ArgOr(kwargs, nameId, VStr(DefaultName(k)));
      var m := Construct(k, name, ArgOr(kwargs, widthId, VInt(1024)), ArgOr(kwargs, heightId, VInt(1024)), lightType, defaults);
      e.None? ==>
        (m.None? ==> r == Raises && tree.stateMap == old(tree.stateMap) && s.w == old(s.w) && s.next == old(s.next))
        && (m.Some? ==>
          r == Returns(Out(socket, VRef(old(s.next))))
          && s.order == old(s.order) + [old(s.next)]
          && s.w == Put(old(s.w), old(s.next), Fresh(m.value, newId))
          && tree.stateMap == Upsert(old(tree.stateMap), nodeId, socket, newId))
  {
    var name := ArgOr(kwargs, nameId, VStr(DefaultName(k)));
    var e := Resolve(cache, s, ManagedUuid(tree.stateMap, nodeId, socket));
    if e.Some? {
      var ok := RenameIfDiffers(s, e.value, name);
      r := if ok then Returns(Out(socket, VRef(e.value))) else Raises;
      return;
    }
    var m := Construct(k, name, ArgOr(kwargs, widthId, VInt(1024)), ArgOr(kwargs, heightId, VInt(1024)), lightType, defaults);
    if m.None? {
      return Raises;
    }
    var db := CreateTagged(s, cache, m.value, None, newId);
    UpsertRows(tree, nodeId, socket, newId);
    r := Returns(Out(socket, VRef(db)));
  }

  // ---------------------------------------------------------------------
  // Import Datablock

  /** `FN_import_datablock.execute`. The datablock of the node's type with
      the node's name is looked up; none, or an empty name, gives None.
      Otherwise it is promoted (`set_uuid` without target or force, so an
      already tagged datablock keeps its uuid) unless the node's socket row
      already lists it, and its uuid is then added to the socket row. */
  method Import(tree: DatablockTree, s: Store, cache: UuidCache, nodeId: string, socket: string,
                k: Kind, name: string, newId: Uuid) returns (r: Value)
    requires s.Valid() && newId != ""
    modifies tree, s, cache
    ensures s.Valid() && s.order == old(s.order) && s.next == old(s.next)
    ensures cache.populated == old(cache.populated)
    ensures tree.relationships == old(tree.relationships) && tree.overrides == old(tree.overrides)
    ensures tree.initialStates == old(tree.initialStates)
    ensures name == "" || ByName(old(s.w), old(s.order), k, name).None? ==>
      r == VNone && tree.stateMap == old(tree.stateMap) && s.w == old(s.w) && cache.cache == old(cache.cache)
    ensures name != "" && ByName(old(s.w), old(s.order), k, name).Some? ==>
      var db := ByName(old(s.w), old(s.order), k, name).value;
      var cur := old(s.w).dbs[db].fnUuid;
      var u := TagOf(cur, newId);
      r == Out(socket, VRef(db))
      && s.w == (if cur.None? then Put(old(s.w), db, old(s.w).dbs[db].(fnUuid := Some(newId))) else old(s.w))
      && cache.cache == (if cur.None? then old(cache.cache)[newId := db] else old(cache.cache))
      && tree.stateMap == Imported(old(tree.stateMap), nodeId, socket, cur, if cur.Some? then cur.value else newId)
  {
    if name == "" {
      return VNone;
    }
    var found := ByName(s.w, s.order, k, name);
    if found.None? {
      return VNone;
    }
    var db := found.value;
    var cur := s.w.dbs[db].fnUuid;
    var u := if cur.Some? then cur.value else newId;
    if MustPromote(tree.stateMap, nodeId, socket, cur) {
      var _ := cache.SetUuid(s, db, None, false, newId);
      tree.stateMap := Promoted(tree.stateMap, nodeId, socket, u);
    }
    tree.stateMap := Listed(tree.stateMap, nodeId, socket, u);
    r := Out(socket, VRef(db));
  }

  // ---------------------------------------------------------------------
  // Derive Datablock

  /** The uuid `set_uuid(source)` leaves on the source: its own when it has
      one, else the fresh one. */
  function SourceUuid(d: Datablock, newId: Uuid): Uuid {
    if d.fnUuid.Some? then d.fnUuid.value else newId
  }

  /** The source uuid of the node's record, when the node has a record. */
  function PreviousSource(rows: seq<StateRow>, nodeId: string): Option<Uuid> {
    match RecordOf(rows, nodeId)
    case Some(p) => Some(p.0)
    case None => None
  }

  /** The copy the node's record points at, resolved through the cache. */
  function ManagedCopy(rows: seq<StateRow>, nodeId: string,
                       c: map<Uuid, DbRef>, populated: bool, w: World, order: seq<DbRef>): Option<DbRef> {
    match RecordOf(rows, nodeId)
    case Some(p) => Lookup(CacheFor(c, populated, w, order, p.1), p.1)
    case None => None
  }

  /** A uuid no datablock carries yet. */
  predicate Unused(w: World, u: Uuid) {
    forall r :: r in w.dbs ==> w.dbs[r].fnUuid != Some(u)
  }

  /** The copy a derivation makes: the source's record under the forced
      fresh uuid, renamed when a name is given. */
  method CopyTagged(s: Store, cache: UuidCache, src: DbRef, newName: Value, newCopyId: Uuid) returns (ok: bool, c: DbRef)
    requires s.Valid() && cache.Valid(s.w) && src in s.w.dbs && s.w.dbs[src].alive && newCopyId != ""
    modifies s, cache
    ensures s.Valid() && cache.Valid(s.w) && cache.populated == old(cache.populated)
    ensures c == old(s.next) && s.next == c + 1 && s.order == old(s.order) + [c] && c !in old(s.w).dbs
    ensures ok <==> !Truthy(newName) || newName.VStr?
    ensures var d := old(s.w).dbs[src].(fnUuid := Some(newCopyId));
      s.w == Put(old(s.w), c, if Truthy(newName) && newName.VStr? then d.(name := newName.s) else d)
    ensures cache.cache == old(cache.cache)[newCopyId := c]
  {
    c := s.Copy(src);
    var _ := cache.SetUuid(s, c, None, true, newCopyId);
    ok := true;
    if Truthy(newName) {
      if !newName.VStr? {
        return false, c;
      }
      s.Rename(c, newName.s);
    }
  }

  /** The reuse branch: the managed copy's name is printed first, which
      raises for a removed datablock; then `if new_name and
      managed_copy.name != new_name`, rename; the managed copy is returned. */
  method Reuse(s: Store, copy: DbRef, newName: Value, socket: string) returns (r: Outcome)
    requires s.Valid() && copy in s.w.dbs
    modifies s
    ensures s.Valid() && s.next == old(s.next) && s.order == old(s.order)
    ensures r.Returns? <==> old(s.w).dbs[copy].alive && (!Truthy(newName) || newName.VStr?)
    ensures r.Returns? ==> r.v == Out(socket, VRef(copy))
    ensures s.w == if Truthy(newName) && r.Returns? then Renamed(old(s.w), copy, newName.s) else old(s.w)
  {
    if !s.w.dbs[copy].alive {
      return Raises;
    }
    if !Truthy(newName) {
      return Returns(Out(socket, VRef(copy)));
    }
    var ok := RenameIfDiffers(s, copy, newName);
    r := if ok then Returns(Out(socket, VRef(copy))) else Raises;
  }

  /** The derivation proper, from a live source. */
  method DeriveFrom(tree: DatablockTree, s: Store, cache: UuidCache, nodeId: string, socket: string,
                    src: DbRef, newName: Value, newSourceId: Uuid, newCopyId: Uuid) returns (r: Outcome)
    requires s.Valid() && cache.Valid(s.w) && src in s.w.dbs && s.w.dbs[src].alive
    requires newSourceId != "" && newCopyId != "" && newCopyId != newSourceId && Unused(s.w, newCopyId)
    modifies tree, s, cache
    ensures s.Valid() && cache.Valid(s.w) && old(s.w).dbs.Keys <= s.w.dbs.Keys
    ensures tree.relationships == old(tree.relationships) && tree.overrides == old(tree.overrides)
    ensures tree.initialStates == old(tree.initialStates)
    ensures var su := SourceUuid(old(s.w).dbs[src], newSourceId);
      var m := ManagedCopy(old(tree.stateMap), nodeId, old(cache.cache), old(cache.populated), old(s.w), old(s.order));
      s.w.dbs[src].fnUuid == Some(su)
      && (ShouldCreate(PreviousSource(old(tree.stateMap), nodeId), m, su) ==>
        var c := old(s.next);
        s.next == c + 1 && c in s.w.dbs && c !in old(s.w).dbs && s.w.dbs[c].kind == old(s.w).dbs[src].kind
        && s.w.dbs[c].fnUuid == Some(newCopyId) && newCopyId != su
        && (r.Returns? <==> !Truthy(newName) || newName.VStr?)
        && (r.Returns? ==> r.v == Out(socket, VRef(c)) && tree.stateMap == Record(old(tree.stateMap), nodeId, Format(su, newCopyId)))
        && (r.Raises? ==> tree.stateMap == old(tree.stateMap)))
      && (!ShouldCreate(PreviousSource(old(tree.stateMap), nodeId), m, su) ==>
        m.Some? && s.next == old(s.next) && tree.stateMap == old(tree.stateMap)
        && m.value in old(s.w).dbs
        && (r.Returns? <==> old(s.w).dbs[m.value].alive && (!Truthy(newName) || newName.VStr?))
        && (r.Returns? ==> r.v == Out(socket, VRef(m.value))))
  {
    var previous, managed := ReadRecord(tree, s, cache, nodeId);
    var current := cache.SetUuid(s, src, None, false, newSourceId);
    var su := current.value;
    if ShouldCreate(previous, managed, su) {
      r := DeriveCopy(tree, s, cache, nodeId, socket, src, su, newName, newCopyId);
    } else {
      r := Reuse(s, managed.value, newName, socket);
    }
  }

  /** nodes/derive_datablock.py:97-106: the node's record, and the copy it points at, resolved
      through the cache (which may populate it). */
  method ReadRecord(tree: DatablockTree, s: Store, cache: UuidCache, nodeId: string)
    returns (previous: Option<Uuid>, managed: Option<DbRef>)
    requires cache.Valid(s.w)
    modifies cache
    ensures cache.Valid(s.w)
    ensures previous == PreviousSource(tree.stateMap, nodeId)
    ensures managed == ManagedCopy(tree.stateMap, nodeId, old(cache.cache), old(cache.populated), s.w, s.order)
    ensures managed.Some? ==> managed.value in s.w.dbs
  {
    previous := PreviousSource(tree.stateMap, nodeId);
    managed := None;
    var rec := RecordOf(tree.stateMap, nodeId);
    if rec.Some? {
      managed := Resolve(cache, s, rec.value.1);
    }
  }

  /** nodes/derive_datablock.py:114-127: copy, tag, rename, record. */
  method DeriveCopy(tree: DatablockTree, s: Store, cache: UuidCache, nodeId: string, socket: string,
                    src: DbRef, su: Uuid, newName: Value, newCopyId: Uuid) returns (r: Outcome)
    requires s.Valid() && cache.Valid(s.w) && src in s.w.dbs && s.w.dbs[src].alive && newCopyId != ""
    modifies tree, s, cache
    ensures s.Valid() && cache.Valid(s.w) && old(s.w).dbs.Keys <= s.w.dbs.Keys
    ensures tree.relationships == old(tree.relationships) && tree.overrides == old(tree.overrides)
    ensures tree.initialStates == old(tree.initialStates)
    ensures s.w.dbs[src] == old(s.w).dbs[src]
    ensures var c := old(s.next);
      s.next == c + 1 && c in s.w.dbs && c !in old(s.w).dbs && s.w.dbs[c].kind == old(s.w).dbs[src].kind
      && s.w.dbs[c].fnUuid == Some(newCopyId)
      && (r.Returns? <==> !Truthy(newName) || newName.VStr?)
      && (r.Returns? ==> r.v == Out(socket, VRef(c)) && tree.stateMap == Record(old(tree.stateMap), nodeId, Format(su, newCopyId)))
      && (r.Raises? ==> tree.stateMap == old(tree.stateMap))
  {
    var ok, c := CopyTagged(s, cache, src, newName, newCopyId);
    if !ok {
      return Raises;
    }
    tree.stateMap := Record(tree.stateMap, nodeId, Format(su, newCopyId));
    r := Returns(Out(socket, VRef(c)));
  }

  /** `FN_derive_datablock.execute`, with the source's uuid obtained as
      `set_uuid(source)` does (its own, or a fresh one). With no source the
      node's record is emptied and `{}` returned. A new copy is made when no
      managed copy resolves or the recorded source uuid is not the current
      one; it carries a forced fresh uuid, different from the source's, and
      the node's record becomes `'{source},{copy}'`. Otherwise the managed
      copy is reused, which raises when it was removed, and nothing is
      recorded. */
  method Derive(tree: DatablockTree, s: Store, cache: UuidCache, nodeId: string, socket: string,
                source: Value, newName: Value, newSourceId: Uuid, newCopyId: Uuid) returns (r: Outcome)
    requires s.Valid() && cache.Valid(s.w) && (source.VRef? ==> source.ref in s.w.dbs)
    requires newSourceId != "" && newCopyId != "" && newCopyId != newSourceId && Unused(s.w, newCopyId)
    modifies tree, s, cache
    ensures s.Valid() && cache.Valid(s.w) && old(s.w).dbs.Keys <= s.w.dbs.Keys
    ensures tree.relationships == old(tree.relationships) && tree.overrides == old(tree.overrides)
    ensures tree.initialStates == old(tree.initialStates)
    ensures !Truthy(source) ==>
      r == Returns(VDict(map[])) && tree.stateMap == Cleared(old(tree.stateMap), nodeId)
      && s.w == old(s.w) && cache.cache == old(cache.cache)
    ensures Truthy(source) && !(source.VRef? && old(s.w).dbs[source.ref].alive) ==>
      r == Raises && tree.stateMap == old(tree.stateMap) && s.w == old(s.w)
    ensures Truthy(source) && source.VRef? && old(s.w).dbs[source.ref].alive ==>
      var su := SourceUuid(old(s.w).dbs[source.ref], newSourceId);
      var m := ManagedCopy(old(tree.stateMap), nodeId, old(cache.cache), old(cache.populated), old(s.w), old(s.order));
      s.w.dbs[source.ref].fnUuid == Some(su)
      && (ShouldCreate(PreviousSource(old(tree.stateMap), nodeId), m, su) ==>
        var c := old(s.next);
        s.next == c + 1 && c in s.w.dbs && c !in old(s.w).dbs
        && s.w.dbs[c].fnUuid == Some(newCopyId) && newCopyId != su
        && (r.Returns? ==> r.v == Out(socket, VRef(c)) && tree.stateMap == Record(old(tree.stateMap), nodeId, Format(su, newCopyId))))
      && (!ShouldCreate(PreviousSource(old(tree.stateMap), nodeId), m, su) ==>
        m.Some? && s.next == old(s.next) && tree.stateMap == old(tree.stateMap)
        && m.value in old(s.w).dbs
        && (r.Returns? <==> old(s.w).dbs[m.value].alive && (!Truthy(newName) || newName.VStr?))
        && (r.Returns? ==> r.v == Out(socket, VRef(m.value))))
  {
    if !Truthy(source) {
      tree.stateMap := Cleared(tree.stateMap, nodeId);
      return Returns(VDict(map[]));
    }
    if !source.VRef? || !s.w.dbs[source.ref].alive {
      return Raises;
    }
    r := DeriveFrom(tree, s, cache, nodeId, socket, source.ref, newName, newSourceId, newCopyId);
  }

  /** `FN_derive_datablock.execute` as written: nodes/derive_datablock.py
      calls `uuid_manager.get_or_create_uuid`, which the uuid manager does
      not define, so every run with a source raises AttributeError once the
      record has been read (and the cache possibly populated); nothing is
      copied or recorded. */
  method DeriveAsWritten(tree: DatablockTree, s: Store, cache: UuidCache, nodeId: string,
                         source: Value) returns (r: Outcome)
    requires cache.Valid(s.w)
    modifies tree, cache
    ensures cache.Valid(s.w)
    ensures tree.relationships == old(tree.relationships) && tree.overrides == old(tree.overrides)
    ensures tree.initialStates == old(tree.initialStates)
    ensures !Truthy(source) ==> r == Returns(VDict(map[])) && tree.stateMap == Cleared(old(tree.stateMap), nodeId)
    ensures Truthy(source) ==> r == Raises && tree.stateMap == old(tree.stateMap)
  {
    if !Truthy(source) {
      tree.stateMap := Cleared(tree.stateMap, nodeId);
      return Returns(VDict(map[]));
    }
    var rec := RecordOf(tree.stateMap, nodeId);
    if rec.Some? {
      var _ := Resolve(cache, s, rec.value.1);
    }
    r := Raises;
  }

  /** After a derivation that recorded `source,copy` and left the copy
      registered, the next run from the same source reuses that copy, and a
      run from any other source derives again. */
  lemma DeriveThenReuse(rows: seq<StateRow>, nodeId: string, c: map<Uuid, DbRef>, w: World, order: seq<DbRef>,
                        source: Uuid, copy: Uuid, copyRef: DbRef, next: Uuid)
    requires ',' !in source && ',' !in copy && copy != ""
    ensures var rows2 := Record(rows, nodeId, Format(source, copy));
      ManagedCopy(rows2, nodeId, c[copy := copyRef], true, w, order) == Some(copyRef)
      && (ShouldCreate(PreviousSource(rows2, nodeId), ManagedCopy(rows2, nodeId, c[copy := copyRef], true, w, order), next)
          <==> next != source)
  {
    RecordRoundTrip(rows, nodeId, source, copy);
  }

  // ---------------------------------------------------------------------
  // get_or_create_datablock

  /** `get_or_create_datablock(node, tree, creation_func, update_func)` with
      the row field it means, `datablock_uuids`. The node's row is found by
      node id alone. When its recorded uuid resolves, that datablock is
      reused (its name is printed first, which raises for a removed one) and
      `update_func` (one attribute write here) applied to it;
      when it does not, the datablock is recreated under the recorded uuid.
      With no row, a datablock is created with a fresh uuid and one row
      appended. `make` is what `creation_func()` builds, None when it
      raises. */
  method GetOrCreate(tree: DatablockTree, s: Store, cache: UuidCache, nodeId: string,
                     make: Option<Made>, update: Option<(string, Value)>, newId: Uuid) returns (r: Outcome)
    requires s.Valid() && cache.Valid(s.w) && newId != ""
    modifies tree, s, cache
    ensures s.Valid() && cache.Valid(s.w)
    ensures tree.relationships == old(tree.relationships) && tree.overrides == old(tree.overrides)
    ensures tree.initialStates == old(tree.initialStates)
    ensures FirstByNode(old(tree.stateMap), nodeId).None? ==>
      (make.None? ==> r == Raises && tree.stateMap == old(tree.stateMap) && s.w == old(s.w) && s.next == old(s.next))
      && (make.Some? ==>
        r == Returns(VRef(old(s.next))) && s.w == Put(old(s.w), old(s.next), Fresh(make.value, newId))
        && tree.stateMap == old(tree.stateMap) + [StateRow(nodeId, "", newId)]
        && cache.cache == old(cache.cache)[newId := old(s.next)])
    ensures FirstByNode(old(tree.stateMap), nodeId).Some? ==>
      var u := old(tree.stateMap)[FirstByNode(old(tree.stateMap), nodeId).value].uuids;
      var f := Lookup(CacheFor(old(cache.cache), old(cache.populated), old(s.w), old(s.order), u), u);
      tree.stateMap == old(tree.stateMap)
      && (f.Some? ==>
        f.value in old(s.w).dbs && s.next == old(s.next) && s.order == old(s.order)
        && (!old(s.w).dbs[f.value].alive ==> r == Raises && s.w == old(s.w))
        && (old(s.w).dbs[f.value].alive && update.None? ==> r == Returns(VRef(f.value)) && s.w == old(s.w))
        && (old(s.w).dbs[f.value].alive && update.Some? ==>
          var wr := SetAttr(old(s.w), VRef(f.value), update.value.0, update.value.1);
          (r.Returns? <==> wr.Written?) && (r.Returns? ==> r.v == VRef(f.value))
          && s.w == (if wr.Written? then wr.w else old(s.w))))
      && (f.None? ==>
        (make.None? ==> r == Raises && s.w == old(s.w) && s.next == old(s.next))
        && (make.Some? ==>
          r == Returns(VRef(old(s.next))) && s.w == Put(old(s.w), old(s.next), Fresh(make.value, TagOf(Some(u), newId)))))
  {
    var i := FirstByNode(tree.stateMap, nodeId);
    if i.Some? {
      var u := tree.stateMap[i.value].uuids;
      var found := Resolve(cache, s, u);
      if found.Some? {
        if !s.w.dbs[found.value].alive {
          return Raises;
        }
        r := Returns(VRef(found.value));
        if update.Some? {
          var wr := s.Assign(VRef(found.value), update.value.0, update.value.1);
          if !wr.Written? {
            r := Raises;
          }
        }
        return;
      }
      if make.None? {
        return Raises;
      }
      var db := CreateTagged(s, cache, make.value, Some(u), newId);
      return Returns(VRef(db));
    }
    if make.None? {
      return Raises;
    }
    var db := CreateTagged(s, cache, make.value, None, newId);
    tree.stateMap := tree.stateMap + [StateRow(nodeId, "", newId)];
    r := Returns(VRef(db));
  }

  /** The datablock made on a node's first run is what the next run finds:
      the appended row is the node's row, and it records the uuid the
      datablock was registered under. A recreated datablock keeps the
      recorded uuid. */
  lemma GetOrCreateReuses(rows: seq<StateRow>, nodeId: string, c: map<Uuid, DbRef>, w: World, order: seq<DbRef>,
                          u: Uuid, db: DbRef)
    requires FirstByNode(rows, nodeId).None? && u != ""
    ensures var rows2 := rows + [StateRow(nodeId, "", u)];
      FirstByNode(rows2, nodeId) == Some(|rows|)
      && Lookup(CacheFor(c[u := db], true, w, order, rows2[|rows|].uuids), rows2[|rows|].uuids) == Some(db)
    ensures forall recorded :: recorded != "" ==> TagOf(Some(recorded), u) == recorded
  {
    FirstByNodeAt(rows + [StateRow(nodeId, "", u)], nodeId, |rows|);
  }

  /** `get_or_create_datablock` as written: nodes/utils.py reads and writes
      `datablock_uuid`, which the state-map row type does not declare (it
      declares `datablock_uuids`). A node with a row raises at once; a node
      without one creates and tags a datablock, appends a row holding only
      its node id, and then raises. No run returns a datablock. */
  method GetOrCreateAsWritten(tree: DatablockTree, s: Store, cache: UuidCache, nodeId: string,
                              make: Option<Made>, newId: Uuid) returns (r: Outcome)
    requires s.Valid() && cache.Valid(s.w) && newId != ""
    modifies tree, s, cache
    ensures s.Valid() && cache.Valid(s.w) && r == Raises
    ensures tree.relationships == old(tree.relationships) && tree.overrides == old(tree.overrides)
    ensures tree.initialStates == old(tree.initialStates)
    ensures FirstByNode(old(tree.stateMap), nodeId).Some? || make.None? ==>
      tree.stateMap == old(tree.stateMap) && s.w == old(s.w) && s.next == old(s.next)
    ensures FirstByNode(old(tree.stateMap), nodeId).None? && make.Some? ==>
      s.w == Put(old(s.w), old(s.next), Fresh(make.value, newId))
      && tree.stateMap == old(tree.stateMap) + [NewRow(nodeId)]
      && FirstByNode(tree.stateMap, nodeId).Some?
  {
    if FirstByNode(tree.stateMap, nodeId).Some? {
      return Raises;
    }
    if make.None? {
      return Raises;
    }
    var db := CreateTagged(s, cache, make.value, None, newId);
    tree.stateMap := tree.stateMap + [NewRow(nodeId)];
    FirstByNodeAt(tree.stateMap, nodeId, |tree.stateMap| - 1);
    r := Raises;
  }

  // ---------------------------------------------------------------------
  // Set Object Data

  /** The data types the node offers; `DataNone` clears. */
  datatype DataType = DataNone | DataMesh | DataArmature | DataLight | DataCamera

  /** The enum identifier of a data type. */
  function TypeName(t: DataType): string {
    match t
    case DataNone => "NONE"
    case DataMesh => "MESH"
    case DataArmature => "ARMATURE"
    case DataLight => "LIGHT"
    case DataCamera => "CAMERA"
  }

  /** Whether the node assigns: a data type other than NONE (so a Data
      socket exists) and a truthy ID on it. */
  predicate Assigns(w: World, t: DataType, data: Value) {
    t != DataNone && Truthy(data) && IsId(w, data)
  }

  /** `obj.data = new_data`: using a removed datablock raises. */
  function AssignData(w: World, obj: Value, data: Value): Set
    requires IsId(w, data)
  {
    if !w.dbs[data.ref].alive then Gone else SetAttr(w, obj, "data", data)
  }

  /** The row `fn_relationships_map.add()` leaves once its fields are set in
      order; a uuid that is None makes its assignment raise and leaves the
      fields after it empty. */
  function RelAdded(nodeId: string, source: Option<Uuid>, target: Option<Uuid>, relType: string): RelRow {
    if source.None? then RelRow(nodeId, "", "", "")
    else if target.None? then RelRow(nodeId, source.value, "", "")
    else RelRow(nodeId, source.value, target.value, relType)
  }

  /** `if obj.data is not None: obj.data = None`, or None when the read or
      the write raises. Afterwards the object reads as having no data, and
      nothing else changed. */
  function ClearData(w: World, obj: Value): (r: Option<World>)
    ensures r.Some? ==> GetAttr(r.value, obj, "data") == Got(VNone) && SameRecords(w, r.value)
    ensures r.Some? <==> GetAttr(w, obj, "data").Got? && (GetAttr(w, obj, "data").v == VNone || SetAttr(w, obj, "data", VNone).Written?)
  {
    match GetAttr(w, obj, "data")
    case Got(v) =>
      if v == VNone then Some(w)
      else (match SetAttr(w, obj, "data", VNone)
        case Written(w2) => Some(w2)
        case _ => None)
    case _ => None
  }

  /** The assignment branch: `obj.data = new_data` and one relationship row
      appended, with no check for an equal row already there. */
  method AssignBranch(tree: DatablockTree, s: Store, nodeId: string, socket: string,
                      obj: Value, t: DataType, data: Value) returns (r: Outcome)
    requires s.Valid() && IsKind(s.w, obj, KObject) && Assigns(s.w, t, data)
    modifies tree, s
    ensures s.Valid() && s.next == old(s.next) && s.order == old(s.order)
    ensures tree.stateMap == old(tree.stateMap) && tree.overrides == old(tree.overrides)
    ensures tree.initialStates == old(tree.initialStates)
    ensures var wr := AssignData(old(s.w), obj, data);
      var su, tu := old(s.w).dbs[obj.ref].fnUuid, old(s.w).dbs[data.ref].fnUuid;
      (!wr.Written? ==> r == Raises && s.w == old(s.w) && tree.relationships == old(tree.relationships))
      && (wr.Written? ==>
        s.w == wr.w
        && tree.relationships == old(tree.relationships) + [RelAdded(nodeId, su, tu, AssignType(TypeName(t)))]
        && (r.Returns? <==> su.Some? && tu.Some?)
        && (r.Returns? ==> r.v == Out(socket, obj)))
  {
    if !s.w.dbs[data.ref].alive {
      return Raises;
    }
    var wr := s.Assign(obj, "data", data);
    if !wr.Written? {
      return Raises;
    }
    var su, tu := s.w.dbs[obj.ref].fnUuid, s.w.dbs[data.ref].fnUuid;
    tree.relationships := tree.relationships + [RelAdded(nodeId, su, tu, AssignType(TypeName(t)))];
    r := if su.Some? && tu.Some? then Returns(Out(socket, obj)) else Raises;
  }

  /** `FN_set_object_data.execute`. A missing or non-Object input gives
      None. With a data type other than NONE and an ID on the Data input,
      the object's data is set and a relationship row
      `'OBJECT_DATA_ASSIGN_' + type` is appended. Otherwise the object's
      data is cleared and every row of this node, for this object, whose
      type starts with `OBJECT_DATA_ASSIGN` is removed, in descending index
      order; other rows stay in their order. */
  method SetObjectData(tree: DatablockTree, s: Store, nodeId: string, socket: string,
                       obj: Value, t: DataType, data: Value) returns (r: Outcome)
    requires s.Valid()
    modifies tree, s
    ensures s.Valid() && s.next == old(s.next) && s.order == old(s.order)
    ensures tree.stateMap == old(tree.stateMap) && tree.overrides == old(tree.overrides)
    ensures tree.initialStates == old(tree.initialStates)
    ensures !IsKind(old(s.w), obj, KObject) ==>
      r == Returns(VNone) && s.w == old(s.w) && tree.relationships == old(tree.relationships)
    ensures IsKind(old(s.w), obj, KObject) && Assigns(old(s.w), t, data) ==>
      var wr := AssignData(old(s.w), obj, data);
      var su, tu := old(s.w).dbs[obj.ref].fnUuid, old(s.w).dbs[data.ref].fnUuid;
      (!wr.Written? ==> r == Raises && s.w == old(s.w) && tree.relationships == old(tree.relationships))
      && (wr.Written? ==>
        s.w == wr.w
        && tree.relationships == old(tree.relationships) + [RelAdded(nodeId, su, tu, AssignType(TypeName(t)))]
        && (r.Returns? <==> su.Some? && tu.Some?)
        && (r.Returns? ==> r.v == Out(socket, obj)))
    ensures IsKind(old(s.w), obj, KObject) && !Assigns(old(s.w), t, data) ==>
      var cleared := ClearData(old(s.w), obj);
      (cleared.None? ==> r == Raises && s.w == old(s.w) && tree.relationships == old(tree.relationships))
      && (cleared.Some? ==>
        r == Returns(Out(socket, obj)) && s.w == cleared.value
        && tree.relationships == Unmatched(old(tree.relationships), nodeId, old(s.w).dbs[obj.ref].fnUuid))
  {
    if !Truthy(obj) || !IsKind(s.w, obj, KObject) {
      return Returns(VNone);
    }
    if Assigns(s.w, t, data) {
      r := AssignBranch(tree, s, nodeId, socket, obj, t, data);
      return;
    }
    var got := GetAttr(s.w, obj, "data");
    if !got.Got? {
      return Raises;
    }
    if got.v != VNone {
      var wr := s.Assign(obj, "data", VNone);
      if !wr.Written? {
        return Raises;
      }
    }
    var u := s.w.dbs[obj.ref].fnUuid;
    var idx := CollectMatches(tree, nodeId, u);
    RemoveDescending(tree, idx, nodeId, u);
    r := Returns(Out(socket, obj));
  }
}
