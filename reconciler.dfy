/** The older datablock engine's entry point (`reconciler.py`): evaluate the
    tree from the active socket, scan the host for managed datablocks,
    remove the ones the evaluation no longer produced, and make the active
    socket's scene or object the active one. Also the RNA path writer the
    nodes of that engine use. */
module Reconciler {
  import opened Base
  import opened Strings
  import opened HostStore
  import opened UuidManager
  import opened EngineUtils
  import opened NodeEval
  import opened ReconcilerEval

  // ---------------------------------------------------------------------
  // `_get_managed_datablocks_in_scene`

  /** The `bpy.data` collections the scan visits, in its order. */
  const ReconcilerKinds: seq<Kind> :=
    [KObject, KScene, KCollection, KMesh, KMaterial, KImage, KLight, KCamera,
     KWorld, KNodeTree, KText, KAction]

  /** `{uuid: datablock}` over the scanned collections: for a uuid several
      datablocks carry, the last one met. */
  function Managed(w: World, order: seq<DbRef>): map<Uuid, DbRef> {
    ScanAll(w, map[], order, ReconcilerKinds)
  }

  /** `_get_managed_datablocks_in_scene()`. */
  method GetManagedDatablocks(s: Store) returns (r: map<Uuid, DbRef>)
    ensures r == Managed(s.w, s.order)
  {
    r := ScanStore(s, ReconcilerKinds);
  }

  /** Every entry points at a live datablock of a scanned collection that
      carries that uuid, and every live, tagged datablock other than an
      armature or a workspace has its uuid there. */
  lemma ManagedCensus(w: World, order: seq<DbRef>)
    ensures forall u :: u in Managed(w, order) ==> Carries(w, Managed(w, order)[u], u, ReconcilerKinds)
    ensures forall i :: (0 <= i < |order| && order[i] in w.dbs && w.dbs[order[i]].alive
      && w.dbs[order[i]].kind !in {KArmature, KWorkspace} && w.dbs[order[i]].fnUuid.Some? && w.dbs[order[i]].fnUuid.value != ""
      ==> w.dbs[order[i]].fnUuid.value in Managed(w, order))
  {
    ScanAllSound(w, order, ReconcilerKinds);
    forall i | 0 <= i < |order| && order[i] in w.dbs && w.dbs[order[i]].alive
      && w.dbs[order[i]].kind !in {KArmature, KWorkspace} && w.dbs[order[i]].fnUuid.Some? && w.dbs[order[i]].fnUuid.value != ""
      ensures w.dbs[order[i]].fnUuid.value in Managed(w, order)
    {
      ScannedKinds(w.dbs[order[i]].kind);
      ScanAllComplete(w, order, ReconcilerKinds, i);
    }
  }

  /** Every kind but armatures and workspaces is scanned. */
  lemma ScannedKinds(k: Kind)
    requires k !in {KArmature, KWorkspace}
    ensures k in ReconcilerKinds
  {
    match k
    case KObject => assert ReconcilerKinds[0] == k;
    case KScene => assert ReconcilerKinds[1] == k;
    case KCollection => assert ReconcilerKinds[2] == k;
    case KMesh => assert ReconcilerKinds[3] == k;
    case KMaterial => assert ReconcilerKinds[4] == k;
    case KImage => assert ReconcilerKinds[5] == k;
    case KLight => assert ReconcilerKinds[6] == k;
    case KCamera => assert ReconcilerKinds[7] == k;
    case KWorld => assert ReconcilerKinds[8] == k;
    case KNodeTree => assert ReconcilerKinds[9] == k;
    case KText => assert ReconcilerKinds[10] == k;
    case KAction => assert ReconcilerKinds[11] == k;
  }

  // ---------------------------------------------------------------------
  // `_diff_and_sync`

  /** The managed uuids the evaluation did not produce. */
  function Stale(required: map<Value, Value>, current: map<Uuid, DbRef>): (r: set<Uuid>)
    ensures forall u :: u in r <==> u in current && VStr(u) !in required
  {
    set u | u in current && VStr(u) !in required
  }

  /** The class names `removal_map` lists, compared with `type(db)` exactly. */
  const RemovalTypes: set<string> :=
    {"Object", "Scene", "Mesh", "Material", "Image", "Camera", "Light", "NodeTree", "Text", "Collection", "World"}

  /** The collections `removal_map` leads to. */
  const RemovalKinds: set<Kind> :=
    {KObject, KScene, KMesh, KMaterial, KImage, KCamera, KLight, KNodeTree, KText, KCollection, KWorld}

  /** Whether the sweep finds a remover for `d`: by its exact class as
      written, or by the collection it lives in. */
  predicate Handles(d: Datablock, exact: bool) {
    if exact then d.rna in RemovalTypes else d.kind in RemovalKinds
  }

  /** The removal loop over the stale uuids `us`, in the order the set
      yields them. A datablock already removed raises ReferenceError, which
      is caught and skipped; one without a remover is skipped. */
  function SweepBy(w: World, current: map<Uuid, DbRef>, us: seq<Uuid>, exact: bool): World
    decreases |us|
  {
    if us == [] then w
    else
      var w1 := SweepBy(w, current, us[..|us| - 1], exact);
      var u := us[|us| - 1];
      if u in current && current[u] in w1.dbs && w1.dbs[current[u]].alive && Handles(w1.dbs[current[u]], exact)
      then Removed(w1, current[u])
      else w1
  }

  /** The datablocks the sweep over `us` has a remover for. */
  ghost function Doomed(w: World, current: map<Uuid, DbRef>, us: seq<Uuid>, exact: bool): set<DbRef> {
    set u | u in us && u in current && current[u] in w.dbs && Handles(w.dbs[current[u]], exact) :: current[u]
  }

  /** `w2` is `w` with exactly the live datablocks in `doomed` killed and
      every record's kind, class, uuid and properties kept. */
  ghost predicate Swept(w: World, w2: World, doomed: set<DbRef>) {
    w2.dbs.Keys == w.dbs.Keys
    && forall x :: x in w.dbs ==>
      w2.dbs[x].alive == (w.dbs[x].alive && x !in doomed)
      && w2.dbs[x].kind == w.dbs[x].kind && w2.dbs[x].rna == w.dbs[x].rna && w2.dbs[x].fnUuid == w.dbs[x].fnUuid
      && w2.dbs[x].attrs == w.dbs[x].attrs && w2.dbs[x].idprops == w.dbs[x].idprops
  }

  /** Removing one more datablock extends the doomed set by it. */
  lemma SweptRemove(w: World, w1: World, doomed: set<DbRef>, r: DbRef)
    requires Swept(w, w1, doomed) && r in w1.dbs
    ensures Swept(w, Removed(w1, r), doomed + {r})
  {
  }

  /** A datablock already dead may join the doomed set. */
  lemma SweptDead(w: World, w1: World, doomed: set<DbRef>, r: DbRef)
    requires Swept(w, w1, doomed) && r in w1.dbs && !w1.dbs[r].alive
    ensures Swept(w, w1, doomed + {r})
  {
  }

  /** The sweep kills exactly the live datablocks it has a remover for and
      keeps every record's kind, class, name, uuid and properties. */
  lemma {:induction false} SweepFacts(w: World, current: map<Uuid, DbRef>, us: seq<Uuid>, exact: bool)
    ensures Swept(w, SweepBy(w, current, us, exact), Doomed(w, current, us, exact))
    decreases |us|
  {
    if us != [] {
      var pre := us[..|us| - 1];
      var u := us[|us| - 1];
      SweepFacts(w, current, pre, exact);
      var w1 := SweepBy(w, current, pre, exact);
      var d1 := Doomed(w, current, pre, exact);
      DoomedSnoc(w, current, pre, u, exact);
      assert us == pre + [u];
      if u in current && current[u] in w.dbs && Handles(w.dbs[current[u]], exact) {
        var r := current[u];
        assert Handles(w1.dbs[r], exact);
        if w1.dbs[r].alive {
          SweptRemove(w, w1, d1, r);
        } else {
          SweptDead(w, w1, d1, r);
        }
      }
    }
  }

  /** One more uuid adds its datablock to the doomed set when the sweep
      has a remover for it. */
  lemma DoomedSnoc(w: World, current: map<Uuid, DbRef>, pre: seq<Uuid>, u: Uuid, exact: bool)
    ensures Doomed(w, current, pre + [u], exact) == Doomed(w, current, pre, exact)
      + (if u in current && current[u] in w.dbs && Handles(w.dbs[current[u]], exact) then {current[u]} else {})
  {
    assert forall v :: v in pre + [u] <==> v in pre || v == u;
  }

  /** `_diff_and_sync(required_state, current_state)` with each stale
      datablock removed through the collection of its kind. `us` is the
      order in which the set of stale uuids was visited. */
  method DiffAndSync(s: Store, required: map<Value, Value>, current: map<Uuid, DbRef>) returns (ghost us: seq<Uuid>)
    requires s.Valid()
    modifies s
    ensures s.Valid() && s.next == old(s.next) && s.order == old(s.order)
    ensures (forall u :: u in us <==> u in Stale(required, current)) && NoDup(us)
    ensures s.w == SweepBy(old(s.w), current, us, false)
  {
    ghost var w0 := s.w;
    var todo := Stale(required, current);
    us := [];
    while todo != {}
      invariant s.Valid() && s.next == old(s.next) && s.order == old(s.order)
      invariant Visited(us, todo, Stale(required, current))
      invariant s.w == SweepBy(w0, current, us, false)
      decreases todo
    {
      var u :| u in todo;
      var x := current[u];
      SweepSnoc(w0, current, us, u, false);
      if x in s.w.dbs && s.w.dbs[x].alive && s.w.dbs[x].kind in RemovalKinds {
        s.Remove(x);
      }
      VisitOne(us, todo, Stale(required, current), u);
      us := us + [u];
      todo := todo - {u};
    }
  }

  /** The loop over a set has visited `us`, each once, and `todo` is what is
      left of `all`. */
  ghost predicate Visited(us: seq<Uuid>, todo: set<Uuid>, all: set<Uuid>) {
    (forall u :: u in us || u in todo <==> u in all) && NoDup(us)
    && forall u :: u in us ==> u !in todo
  }

  /** Visiting one more element of `todo` keeps the split. */
  lemma VisitOne(us: seq<Uuid>, todo: set<Uuid>, all: set<Uuid>, u: Uuid)
    requires Visited(us, todo, all) && u in todo
    ensures Visited(us + [u], todo - {u}, all)
  {
  }

  /** One more stale uuid is one more step of the removal loop. */
  lemma SweepSnoc(w: World, current: map<Uuid, DbRef>, us: seq<Uuid>, u: Uuid, exact: bool)
    ensures var w1 := SweepBy(w, current, us, exact);
      SweepBy(w, current, us + [u], exact) ==
        if u in current && current[u] in w1.dbs && w1.dbs[current[u]].alive && Handles(w1.dbs[current[u]], exact)
        then Removed(w1, current[u]) else w1
  {
    assert (us + [u])[..|us|] == us;
  }

  /** No two live datablocks carry the same uuid. */
  ghost predicate UniqueTags(w: World) {
    forall x, y :: (x in w.dbs && y in w.dbs && w.dbs[x].alive && w.dbs[y].alive
      && w.dbs[x].fnUuid.Some? && w.dbs[x].fnUuid == w.dbs[y].fnUuid) ==> x == y
  }

  /** The garbage collection of a sync: with uuids unique, a datablock dies
      exactly when it was alive, is of a kind the sweep removes, and
      carries a uuid the evaluation did not produce; every other
      datablock keeps its liveness. */
  lemma GarbageCollected(w: World, order: seq<DbRef>, required: map<Value, Value>, us: seq<Uuid>)
    requires forall x :: x in w.dbs ==> x in order
    requires UniqueTags(w)
    requires forall u :: u in us <==> u in Stale(required, Managed(w, order))
    ensures var w2 := SweepBy(w, Managed(w, order), us, false);
      w2.dbs.Keys == w.dbs.Keys
      && forall x :: x in w.dbs ==>
        (w2.dbs[x].alive <==> (w.dbs[x].alive && !(
          w.dbs[x].kind in RemovalKinds && w.dbs[x].fnUuid.Some? && w.dbs[x].fnUuid.value != ""
          && VStr(w.dbs[x].fnUuid.value) !in required)))
  {
    var m := Managed(w, order);
    SweepFacts(w, m, us, false);
    forall x | x in w.dbs && w.dbs[x].alive
      ensures x in Doomed(w, m, us, false) <==> (
        w.dbs[x].kind in RemovalKinds && w.dbs[x].fnUuid.Some? && w.dbs[x].fnUuid.value != ""
        && VStr(w.dbs[x].fnUuid.value) !in required)
    {
      DoomedIff(w, order, required, us, x);
    }
  }

  /** A live datablock is doomed by the sweep exactly when it is of a kind
      the sweep removes and carries a uuid the evaluation did not produce. */
  lemma DoomedIff(w: World, order: seq<DbRef>, required: map<Value, Value>, us: seq<Uuid>, x: DbRef)
    requires forall x :: x in w.dbs ==> x in order
    requires UniqueTags(w)
    requires forall u :: u in us <==> u in Stale(required, Managed(w, order))
    requires x in w.dbs && w.dbs[x].alive
    ensures x in Doomed(w, Managed(w, order), us, false) <==> (
      w.dbs[x].kind in RemovalKinds && w.dbs[x].fnUuid.Some? && w.dbs[x].fnUuid.value != ""
      && VStr(w.dbs[x].fnUuid.value) !in required)
  {
    var m := Managed(w, order);
    ManagedCensus(w, order);
    if x in Doomed(w, m, us, false) {
      var u :| u in us && u in m && m[u] in w.dbs && Handles(w.dbs[m[u]], false) && m[u] == x;
      assert Carries(w, x, u, ReconcilerKinds);
    }
    if w.dbs[x].kind in RemovalKinds && w.dbs[x].fnUuid.Some? && w.dbs[x].fnUuid.value != ""
      && VStr(w.dbs[x].fnUuid.value) !in required {
      var u := w.dbs[x].fnUuid.value;
      var i :| 0 <= i < |order| && order[i] == x;
      assert u in m;
      assert Carries(w, m[u], u, ReconcilerKinds);
      assert m[u] == x;
      assert u in us;
    }
  }

  /** `_diff_and_sync` as written: `removal_map.get(type(db))` compares the
      exact class, so a light (`PointLight`, `SunLight`, ...) or a node group
      (`ShaderNodeTree`, ...) finds no remover and stays. */
  function SweepAsWritten(w: World, current: map<Uuid, DbRef>, us: seq<Uuid>): World {
    SweepBy(w, current, us, true)
  }

  /** A stale light created through `bpy.data.lights.new` survives the sweep
      as written, and is removed by the sweep by kind. */
  lemma StaleLightSurvives(lightType: string)
    ensures var d := Datablock(KLight, RnaOf(KLight, lightType), "Light", true, Some("u"), map[], map[], [], []);
      var w := World(map[0 := d], map[]);
      SweepAsWritten(w, map["u" := 0], ["u"]).dbs[0].alive
      && !SweepBy(w, map["u" := 0], ["u"], false).dbs[0].alive
  {
    var d := Datablock(KLight, RnaOf(KLight, lightType), "Light", true, Some("u"), map[], map[], [], []);
    var w := World(map[0 := d], map[]);
    assert ["u"][..0] == [];
    assert RnaOf(KLight, lightType) !in RemovalTypes;
  }

  // ---------------------------------------------------------------------
  // `_set_rna_property_value`

  /** Where the `getattr` walk along the leading path segments ends: at the
      owner of the last segment, at a struct lacking the next segment, or
      at a removed datablock. */
  datatype Nav = Reached(v: Value) | Broken(at: Value) | Lost

  function Navigate(w: World, cur: Value, parts: seq<string>): Nav
    decreases |parts|
  {
    if parts == [] then Reached(cur)
    else match GetAttr(w, cur, parts[0])
      case Got(v) => Navigate(w, v, parts[1..])
      case NoAttr => Broken(cur)
      case Dead => Lost
  }

  /** The walk is `getattr` repeated, as in `set_nested_property`. */
  lemma {:induction false} NavigateWalk(w: World, cur: Value, parts: seq<string>)
    ensures Navigate(w, cur, parts).Reached? <==> AttrWalk(w, cur, parts).Got?
    ensures Navigate(w, cur, parts).Reached? ==> Navigate(w, cur, parts).v == AttrWalk(w, cur, parts).v
    ensures Navigate(w, cur, parts).Lost? <==> AttrWalk(w, cur, parts).Dead?
    decreases |parts|
  {
    if parts != [] && GetAttr(w, cur, parts[0]).Got? {
      NavigateWalk(w, GetAttr(w, cur, parts[0]).v, parts[1..]);
    }
  }

  /** How a call of `_set_rna_property_value` ends: the property written,
      nothing written (perhaps with a warning), or an exception escaping. */
  datatype RnaWrite = Stored(w: World) | Untouched | Escaped

  /** The warning handlers print `obj.name`: reading it on a struct without
      a name raises AttributeError, on a removed datablock ReferenceError. */
  function Warn(w: World, obj: Value): RnaWrite {
    if GetAttr(w, obj, "name").Got? then Untouched else Escaped
  }

  /** A last segment of the form `prop[index]`. */
  predicate Indexed(part: string) {
    '[' in part && |part| > 0 && part[|part| - 1] == ']'
  }

  /** `part.split('[')[0]`. */
  function PropName(part: string): string {
    Split(part, "[")[0]
  }

  /** `part.split('[')[1][:-1]`. */
  function IndexText(part: string): string {
    var ps := Split(part, "[");
    var piece := if |ps| > 1 then ps[1] else "";
    if piece == [] then [] else piece[..|piece| - 1]
  }

  /** Python's index into a sequence of length `n`, negative from the end. */
  function Slot(n: nat, idx: int): Option<nat> {
    if 0 <= idx < n then Some(idx)
    else if -(n as int) <= idx < 0 then var j: nat := idx + n; Some(j)
    else None
  }

  /** `cur[prop][index] = x`: item access on a datablock reads its custom
      property `prop`, which must be a list long enough; anything else
      raises (KeyError, TypeError, IndexError). */
  function IdPropItemWrite(w: World, cur: Value, prop: string, idx: int, x: Value): Option<World> {
    if cur.VRef? && cur.ref in w.dbs && w.dbs[cur.ref].alive && prop in w.dbs[cur.ref].idprops
      && w.dbs[cur.ref].idprops[prop].VList? && Slot(|w.dbs[cur.ref].idprops[prop].items|, idx).Some?
    then
      var d := w.dbs[cur.ref];
      var xs := d.idprops[prop].items;
      Some(w.(dbs := w.dbs[cur.ref := d.(idprops := d.idprops[prop := VList(xs[Slot(|xs|, idx).value := x])])]))
    else None
  }

  /** `getattr(cur, prop)[index] = x`: the element of the RNA array
      property, which accepts values its element accepts. */
  function AttrItemWrite(w: World, cur: Value, prop: string, idx: int, x: Value): Set {
    match GetAttr(w, cur, prop)
    case Dead => Gone
    case NoAttr => Refused
    case Got(v) =>
      if v.VList? && Slot(|v.items|, idx).Some? && Compatible(v.items[Slot(|v.items|, idx).value], x)
      then SetAttr(w, cur, prop, VList(v.items[Slot(|v.items|, idx).value := x]))
      else Refused
  }

  /** The plain last segment: `setattr(cur, part, x)`, its failures caught. */
  function PlainWrite(w: World, root: Value, cur: Value, part: string, x: Value): RnaWrite {
    match SetAttr(w, cur, part, x)
    case Written(w2) => Stored(w2)
    case Refused => Warn(w, root)
    case Gone => Warn(w, root)
  }

  /** The last segment as written: an indexed segment passes the `hasattr`
      test on the RNA property but then writes the element of the custom
      property of the same name. */
  function LastWriteAsWritten(w: World, root: Value, cur: Value, last: string, x: Value): RnaWrite {
    if Indexed(last) then
      match ParseInt(IndexText(last))
      case None => Warn(w, root)
      case Some(idx) =>
        match GetAttr(w, cur, PropName(last))
        case NoAttr => Untouched
        case Dead => Warn(w, root)
        case Got(_) =>
          match IdPropItemWrite(w, cur, PropName(last), idx, x)
          case Some(w2) => Stored(w2)
          case None => Warn(w, root)
    else PlainWrite(w, root, cur, last, x)
  }

  /** The last segment, an indexed one writing the element of the RNA array
      property it names. */
  function LastWrite(w: World, root: Value, cur: Value, last: string, x: Value): RnaWrite {
    if Indexed(last) then
      match ParseInt(IndexText(last))
      case None => Warn(w, root)
      case Some(idx) =>
        match AttrItemWrite(w, cur, PropName(last), idx, x)
        case Written(w2) => Stored(w2)
        case _ => Warn(w, root)
    else PlainWrite(w, root, cur, last, x)
  }

  /** `_set_rna_property_value(root, path, x)` as written. */
  function SetRnaPropertyAsWritten(w: World, root: Value, path: string, x: Value): RnaWrite {
    var parts := Split(path, ".");
    match Navigate(w, root, parts[..|parts| - 1])
    case Lost => Escaped
    case Broken(at) => Warn(w, at)
    case Reached(cur) => LastWriteAsWritten(w, root, cur, parts[|parts| - 1], x)
  }

  /** `_set_rna_property_value(root, path, x)` with the intended indexed
      write. */
  function SetRnaProperty(w: World, root: Value, path: string, x: Value): RnaWrite {
    var parts := Split(path, ".");
    match Navigate(w, root, parts[..|parts| - 1])
    case Lost => Escaped
    case Broken(at) => Warn(w, at)
    case Reached(cur) => LastWrite(w, root, cur, parts[|parts| - 1], x)
  }

  /** Without an index in the last segment both writers do what
      `set_nested_property` does; they differ only in which failures
      escape. */
  lemma PlainPathAgrees(w: World, root: Value, path: string, x: Value)
    requires var parts := Split(path, "."); !Indexed(parts[|parts| - 1])
    ensures SetRnaProperty(w, root, path, x) == SetRnaPropertyAsWritten(w, root, path, x)
    ensures SetRnaProperty(w, root, path, x).Stored? <==> NestedWrite(w, root, path, x).Written?
    ensures SetRnaProperty(w, root, path, x).Stored? ==> SetRnaProperty(w, root, path, x).w == NestedWrite(w, root, path, x).w
  {
    var parts := Split(path, ".");
    NavigateWalk(w, root, parts[..|parts| - 1]);
    if Navigate(w, root, parts[..|parts| - 1]).Reached? {
      PlainReached(w, root, path, x);
      PlainWriteSets(w, root, Navigate(w, root, parts[..|parts| - 1]).v, parts[|parts| - 1], x);
    } else {
      PlainStuck(w, root, path, x);
    }
  }

  /** The walk reaches the owner: all three write it with `setattr`. */
  lemma PlainReached(w: World, root: Value, path: string, x: Value)
    requires var parts := Split(path, "."); !Indexed(parts[|parts| - 1])
    requires var parts := Split(path, "."); Navigate(w, root, parts[..|parts| - 1]).Reached?
    requires var parts := Split(path, "."); AttrWalk(w, root, parts[..|parts| - 1]) == Got(Navigate(w, root, parts[..|parts| - 1]).v)
    ensures var parts := Split(path, "."); var cur := Navigate(w, root, parts[..|parts| - 1]).v;
      SetRnaProperty(w, root, path, x) == PlainWrite(w, root, cur, parts[|parts| - 1], x)
      && SetRnaPropertyAsWritten(w, root, path, x) == PlainWrite(w, root, cur, parts[|parts| - 1], x)
      && NestedWrite(w, root, path, x) == SetAttr(w, cur, parts[|parts| - 1], x)
  {
  }

  /** The plain write stores exactly what `setattr` writes. */
  lemma PlainWriteSets(w: World, root: Value, cur: Value, part: string, x: Value)
    ensures PlainWrite(w, root, cur, part, x).Stored? <==> SetAttr(w, cur, part, x).Written?
    ensures PlainWrite(w, root, cur, part, x).Stored? ==> PlainWrite(w, root, cur, part, x).w == SetAttr(w, cur, part, x).w
  {
  }

  /** The walk stops short: neither writer stores anything. */
  lemma PlainStuck(w: World, root: Value, path: string, x: Value)
    requires var parts := Split(path, "."); !Navigate(w, root, parts[..|parts| - 1]).Reached?
    requires var parts := Split(path, "."); !AttrWalk(w, root, parts[..|parts| - 1]).Got?
    ensures SetRnaProperty(w, root, path, x) == SetRnaPropertyAsWritten(w, root, path, x)
    ensures !SetRnaProperty(w, root, path, x).Stored? && !NestedWrite(w, root, path, x).Written?
  {
    StuckWrite(w, root, path, x);
    StuckWriteAsWritten(w, root, path, x);
  }

  lemma StuckWrite(w: World, root: Value, path: string, x: Value)
    requires var parts := Split(path, "."); !Navigate(w, root, parts[..|parts| - 1]).Reached?
    ensures var parts := Split(path, "."); var nav := Navigate(w, root, parts[..|parts| - 1]);
      SetRnaProperty(w, root, path, x) == if nav.Lost? then Escaped else Warn(w, nav.at)
  {
  }

  lemma StuckWriteAsWritten(w: World, root: Value, path: string, x: Value)
    requires var parts := Split(path, "."); !Navigate(w, root, parts[..|parts| - 1]).Reached?
    ensures var parts := Split(path, "."); var nav := Navigate(w, root, parts[..|parts| - 1]);
      SetRnaPropertyAsWritten(w, root, path, x) == if nav.Lost? then Escaped else Warn(w, nav.at)
  {
  }

  /** An indexed last segment that is written holds `x` at that element of
      the RNA array property; records are otherwise as they were. */
  lemma LastWriteLands(w: World, root: Value, cur: Value, last: string, x: Value)
    requires Indexed(last) && LastWrite(w, root, cur, last, x).Stored?
    ensures var w2 := LastWrite(w, root, cur, last, x).w;
      var g := GetAttr(w2, cur, PropName(last));
      ParseInt(IndexText(last)).Some?
      && g.Got? && g.v.VList? && Slot(|g.v.items|, ParseInt(IndexText(last)).value).Some?
      && g.v.items[Slot(|g.v.items|, ParseInt(IndexText(last)).value).value] == x
      && SameRecords(w, w2)
  {
    var idx := ParseInt(IndexText(last)).value;
    var v := GetAttr(w, cur, PropName(last)).v;
    var j := Slot(|v.items|, idx).value;
    assert AttrItemWrite(w, cur, PropName(last), idx, x) == SetAttr(w, cur, PropName(last), VList(v.items[j := x]));
  }

  /** A write keeps every record: the same datablocks, equally alive, of
      the same kind and uuid. */
  lemma LastWriteKeeps(w: World, root: Value, cur: Value, last: string, x: Value)
    requires LastWrite(w, root, cur, last, x).Stored?
    ensures LastWrite(w, root, cur, last, x).w.dbs.Keys == w.dbs.Keys && SameRecords(w, LastWrite(w, root, cur, last, x).w)
  {
    if Indexed(last) {
      LastWriteLands(w, root, cur, last, x);
    }
  }

  /** An indexed write through a path stores `x` at that element of the
      RNA array property of the struct the path leads to. */
  lemma IndexedWriteLands(w: World, root: Value, path: string, x: Value)
    requires var parts := Split(path, "."); Indexed(parts[|parts| - 1])
    requires SetRnaProperty(w, root, path, x).Stored?
    ensures var parts := Split(path, ".");
      var last := parts[|parts| - 1];
      var owner := Navigate(w, root, parts[..|parts| - 1]);
      var w2 := SetRnaProperty(w, root, path, x).w;
      var g := GetAttr(w2, owner.v, PropName(last));
      owner.Reached? && ParseInt(IndexText(last)).Some?
      && g.Got? && g.v.VList? && Slot(|g.v.items|, ParseInt(IndexText(last)).value).Some?
      && g.v.items[Slot(|g.v.items|, ParseInt(IndexText(last)).value).value] == x
      && SameRecords(w, w2)
  {
    var parts := Split(path, ".");
    var owner := Navigate(w, root, parts[..|parts| - 1]);
    LastWriteLands(w, root, owner.v, parts[|parts| - 1], x);
  }

  /** The last segment as written never changes an RNA property when it
      is indexed: only custom properties change. */
  lemma LastWriteAsWrittenKeepsAttributes(w: World, root: Value, cur: Value, last: string, x: Value)
    requires Indexed(last) && LastWriteAsWritten(w, root, cur, last, x).Stored?
    ensures var w2 := LastWriteAsWritten(w, root, cur, last, x).w;
      w2.subs == w.subs && w2.dbs.Keys == w.dbs.Keys
      && forall r :: r in w.dbs ==> w2.dbs[r].attrs == w.dbs[r].attrs && w2.dbs[r].name == w.dbs[r].name
  {
    var idx := ParseInt(IndexText(last)).value;
    assert IdPropItemWrite(w, cur, PropName(last), idx, x).Some?;
  }

  /** `'location[0]'` and the like: the path `p[n]` names element `n` of
      property `p`. */
  lemma IndexedPath(p: string, n: nat)
    requires '[' !in p && '.' !in p
    ensures var path := p + "[" + NatString(n) + "]";
      Split(path, ".") == [path] && Indexed(path) && PropName(path) == p && ParseInt(IndexText(path)) == Some(n)
  {
    var digits := NatString(n);
    var piece := digits + "]";
    var path := p + "[" + digits + "]";
    assert path == p + ['['] + piece;
    DigitsPiece(digits);
    BracketPath(p, piece);
    assert ParseInt(IndexText(path)) == Some(n) by {
      assert IndexText(path) == digits;
      ParseIntString(n);
    }
  }

  /** Digits closed by `]` hold neither a dot nor an opening bracket. */
  lemma DigitsPiece(digits: string)
    requires AllDigits(digits)
    ensures '.' !in digits + "]" && '[' !in digits + "]"
  {
    var piece := digits + "]";
    assert forall i :: 0 <= i < |piece| ==> piece[i] == (if i < |digits| then digits[i] else ']');
  }

  /** `p[piece]` with no dot is one path segment, an indexed one, whose
      parts around the bracket are `p` and `piece`. */
  lemma BracketPath(p: string, piece: string)
    requires '[' !in p && '.' !in p && '.' !in piece && '[' !in piece
    requires |piece| > 0 && piece[|piece| - 1] == ']'
    ensures var path := p + ['['] + piece;
      Split(path, ".") == [path] && Indexed(path) && Split(path, "[") == [p, piece]
  {
    var path := p + ['['] + piece;
    assert Split(path, ".") == [path] by {
      assert forall i :: 0 <= i < |path| ==> path[i] == (if i < |p| then p[i] else if i == |p| then '[' else piece[i - |p| - 1]);
      SplitAbsent(path, '.');
    }
    assert Split(path, "[") == [p, piece] by {
      SplitConcat(p, '[', piece);
      SplitAbsent(p, '[');
      SplitAbsent(piece, '[');
    }
    assert path[|path| - 1] == ']' && path[|p|] == '[';
  }

  /** `'location[0]'` on an object whose `location` has no custom property
      of the same name: the write as written leaves the object untouched,
      the intended write sets the element. */
  lemma IndexedAttributeUnwritten(w: World, obj: DbRef, p: string, n: nat, x: Value)
    requires obj in w.dbs && w.dbs[obj].alive
    requires '[' !in p && '.' !in p && p != "name"
    requires p in w.dbs[obj].attrs && w.dbs[obj].attrs[p].VList? && n < |w.dbs[obj].attrs[p].items|
    requires Compatible(w.dbs[obj].attrs[p].items[n], x)
    requires p !in w.dbs[obj].idprops
    ensures SetRnaPropertyAsWritten(w, VRef(obj), p + "[" + NatString(n) + "]", x) == Untouched
    ensures var r := SetRnaProperty(w, VRef(obj), p + "[" + NatString(n) + "]", x);
      r.Stored? && GetAttr(r.w, VRef(obj), p) == Got(VList(w.dbs[obj].attrs[p].items[n := x]))
  {
    var path := p + "[" + NatString(n) + "]";
    IndexedPath(p, n);
    assert [path][..0] == [];
    var xs := w.dbs[obj].attrs[p].items;
    assert GetAttr(w, VRef(obj), p) == Got(VList(xs));
    assert Slot(|xs|, n) == Some(n);
    assert LastWriteAsWritten(w, VRef(obj), VRef(obj), path, x) == Untouched;
    assert AttrItemWrite(w, VRef(obj), p, n, x) == SetAttr(w, VRef(obj), p, VList(xs[n := x]));
    var w2 := SetAttr(w, VRef(obj), p, VList(xs[n := x]));
    assert w2.Written?;
    assert LastWrite(w, VRef(obj), VRef(obj), path, x) == Stored(w2.w);
    assert SetRnaProperty(w, VRef(obj), path, x) == Stored(w2.w);
  }

  /** The loop of `_set_rna_property_value`: walk with `getattr`, then
      write the last segment, catching what the source catches. */
  method SetRnaPropertyValue(s: Store, root: Value, path: string, x: Value) returns (r: RnaWrite)
    requires s.Valid()
    modifies s
    ensures s.Valid() && s.next == old(s.next) && s.order == old(s.order)
    ensures r == SetRnaProperty(old(s.w), root, path, x)
    ensures s.w == if r.Stored? then r.w else old(s.w)
  {
    var parts := Split(path, ".");
    var k := |parts| - 1;
    var nav := NavigateLoop(s.w, root, parts[..k]);
    if nav.Lost? {
      return Escaped;
    }
    if nav.Broken? {
      return Warn(s.w, nav.at);
    }
    r := WriteLast(s, root, nav.v, parts[k], x);
  }

  /** The write of the last segment, stored in the host. */
  method WriteLast(s: Store, root: Value, cur: Value, last: string, x: Value) returns (r: RnaWrite)
    requires s.Valid()
    modifies s
    ensures s.Valid() && s.next == old(s.next) && s.order == old(s.order)
    ensures r == LastWrite(old(s.w), root, cur, last, x)
    ensures s.w == if r.Stored? then r.w else old(s.w)
  {
    r := LastWrite(s.w, root, cur, last, x);
    if r.Stored? {
      LastWriteKeeps(s.w, root, cur, last, x);
      s.w := r.w;
    }
  }

  /** The `getattr` loop over all segments but the last. */
  method NavigateLoop(w: World, root: Value, parts: seq<string>) returns (r: Nav)
    ensures r == Navigate(w, root, parts)
  {
    var cur := root;
    var i := 0;
    while i < |parts|
      invariant 0 <= i <= |parts|
      invariant Navigate(w, root, parts) == Navigate(w, cur, parts[i..])
    {
      assert parts[i..][0] == parts[i] && parts[i..][1..] == parts[i + 1..];
      var g := GetAttr(w, cur, parts[i]);
      if g.Dead? {
        return Lost;
      }
      if g.NoAttr? {
        return Broken(cur);
      }
      cur := g.v;
      i := i + 1;
    }
    return Reached(cur);
  }

  // ---------------------------------------------------------------------
  // `sync_active_socket`

  /** `next(iter(d.values()), None)`, `keysOf` giving the dict's order. */
  function FirstValue(d: Props, keysOf: Props -> seq<string>): Value {
    if keysOf(d) != [] && keysOf(d)[0] in d then d[keysOf(d)[0]] else VNone
  }

  /** The datablock the active socket's output points at: a dict is reduced
      to the socket's entry, a list to its first item; a falsy value points
      nowhere (None) and a truthy dict at its first value. */
  function Target(out: Value, ident: string, keysOf: Props -> seq<string>): (r: Value)
    ensures !out.VDict? && !out.VList? && Truthy(out) ==> r == out
    ensures out.VDict? && ident in out.d && out.d[ident].VRef? ==> r == out.d[ident]
    ensures out.VList? && out.items != [] && out.items[0].VRef? ==> r == out.items[0]
  {
    var o := if out.VDict? then Get(out.d, ident) else out;
    var t := if o.VList? then (if o.items != [] then o.items[0] else VNone) else o;
    if !Truthy(t) then VNone
    else if t.VDict? then FirstValue(t.d, keysOf)
    else t
  }

  /** What activating the target does: make a scene the window's scene,
      make an object active and selected, raise on a removed datablock, or
      leave the context alone. */
  datatype Activation = Keep | ToScene(scene: DbRef) | ToObject(obj: DbRef) | ActivationRaises

  function ActivationOf(w: World, t: Value): (r: Activation)
    ensures r.ToScene? ==> t == VRef(r.scene) && r.scene in w.dbs && w.dbs[r.scene].alive && w.dbs[r.scene].kind == KScene
    ensures r.ToObject? ==> t == VRef(r.obj) && r.obj in w.dbs && w.dbs[r.obj].alive && w.dbs[r.obj].kind == KObject
    ensures r.ActivationRaises? <==> t.VRef? && t.ref in w.dbs && !w.dbs[t.ref].alive && w.dbs[t.ref].kind in {KScene, KObject}
  {
    if t.VRef? && t.ref in w.dbs && w.dbs[t.ref].kind in {KScene, KObject} then
      if !w.dbs[t.ref].alive then ActivationRaises
      else if w.dbs[t.ref].kind == KScene then ToScene(t.ref)
      else ToObject(t.ref)
    else Keep
  }

  /** A falsy output (None, an empty list, an empty dict, a missing
      socket entry) changes nothing. */
  lemma FalsyOutputKeeps(w: World, out: Value, ident: string, keysOf: Props -> seq<string>)
    requires !Truthy(if out.VDict? then Get(out.d, ident) else out)
    ensures ActivationOf(w, Target(out, ident, keysOf)) == Keep
  {
  }

  /** The window's scene, the active object and the selection. */
  class Context {
    var windowScene: Option<DbRef>
    var activeObject: Option<DbRef>
    var selected: set<DbRef>

    constructor (scene: Option<DbRef>, active: Option<DbRef>, sel: set<DbRef>)
      ensures windowScene == scene && activeObject == active && selected == sel
    {
      windowScene := scene;
      activeObject := active;
      selected := sel;
    }

    /** Step 4 of `sync_active_socket` once the target is known. */
    method Activate(a: Activation) returns (raised: bool)
      modifies this
      ensures raised <==> a.ActivationRaises?
      ensures windowScene == if a.ToScene? then Some(a.scene) else old(windowScene)
      ensures activeObject == if a.ToObject? then Some(a.obj) else old(activeObject)
      ensures selected == if a.ToObject? then old(selected) + {a.obj} else old(selected)
    {
      raised := false;
      match a {
        case ToScene(r) =>
          windowScene := Some(r);
        case ToObject(r) =>
          activeObject := Some(r);
          selected := selected + {r};
        case ActivationRaises =>
          raised := true;
        case Keep =>
      }
    }
  }

  /** `sync_active_socket(tree, active_socket)`: evaluate from the active
      socket, scan, sweep what was not produced, then activate the
      socket's target in the swept store. `result` is what the evaluation
      returned, `cache` and `order` the execution cache it left (the
      required state is collected from it), `us` the order the stale uuids
      were visited in. */
  method SyncActiveSocket(ctx: Context, s: Store, g: seq<Node>, ghost rank: seq<nat>, exec: (Node, Props) -> Option<Value>,
                          tree: Value, active: Socket, keysOf: Props -> seq<string>)
    returns (raised: bool, ghost result: Option<TreeResult>, ghost cache: map<string, Value>, ghost order: seq<string>,
             ghost us: seq<Uuid>)
    requires s.Valid() && Ranked(g, rank) && active.node < |g|
    modifies s, ctx
    ensures s.Valid() && s.next == old(s.next) && s.order == old(s.order)
    ensures DistinctIds(g) && REval(g, rank, exec, tree, active.node).None? ==> result.None?
    ensures result.Some? ==>
      Listed(cache, order) && FsNodes(old(s.w), map[], cache, order, keysOf) == Some(result.value.required)
    ensures Sound(g, rank, exec, tree, cache)
    ensures result.Some? && DistinctIds(g) ==> cache.Keys == UpIds(g, rank, active.node)
    ensures result.None? ==> (raised && s.w == old(s.w)
      && ctx.windowScene == old(ctx.windowScene) && ctx.activeObject == old(ctx.activeObject) && ctx.selected == old(ctx.selected))
    ensures result.Some? ==>
      var current := Managed(old(s.w), old(s.order));
      (forall u :: u in us <==> u in Stale(result.value.required, current))
      && s.w == SweepBy(old(s.w), current, us, false)
    ensures result.Some? ==>
      var a := ActivationOf(s.w, Target(result.value.output, active.ident, keysOf));
      (raised <==> a.ActivationRaises?)
      && ctx.windowScene == (if a.ToScene? then Some(a.scene) else old(ctx.windowScene))
      && ctx.activeObject == (if a.ToObject? then Some(a.obj) else old(ctx.activeObject))
      && ctx.selected == (if a.ToObject? then old(ctx.selected) + {a.obj} else old(ctx.selected))
    ensures result.Some? && DistinctIds(g) ==>
      var src := if g[active.node].executes then REval(g, rank, exec, tree, active.node).value else VDict(map[]);
      REval(g, rank, exec, tree, active.node).Some? && GetOf(old(s.w), src, active.ident) == Some(result.value.output)
  {
    var r, c, o := EvaluateNodeTree(g, rank, exec, tree, s.w, active, keysOf);
    result, cache, order := r, c, o;
    us := [];
    if r.None? {
      return true, result, cache, order, us;
    }
    var current := GetManagedDatablocks(s);
    us := DiffAndSync(s, r.value.required, current);
    var t := Target(r.value.output, active.ident, keysOf);
    raised := ctx.Activate(ActivationOf(s.w, t));
  }
}
