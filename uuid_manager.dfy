/** The uuid registry: a module-level cache from `_fn_uuid` strings to
    datablocks, filled from the host store on first use and marked stale by
    `invalidate_cache`. */
module UuidManager {
  import opened Base
  import opened HostStore

  /** The `bpy.data` collections `_populate_cache` scans, in its order.
      Workspaces are not among them. */
  const ScanKinds: seq<Kind> :=
    [KObject, KScene, KMaterial, KMesh, KCollection, KCamera, KLight, KImage,
     KNodeTree, KText, KWorld, KArmature, KAction]

  /** `_UUID_CACHE[uuid_val] = datablock` for one datablock met during the
      scan of the collection of `k`, when it belongs there and has a truthy
      `_fn_uuid`. */
  function ScanOne(w: World, c: map<Uuid, DbRef>, r: DbRef, k: Kind): map<Uuid, DbRef> {
    if r in w.dbs && w.dbs[r].alive && w.dbs[r].kind == k && w.dbs[r].fnUuid.Some? && w.dbs[r].fnUuid.value != ""
    then c[w.dbs[r].fnUuid.value := r]
    else c
  }

  /** The scan of one collection: every datablock in store order. */
  function ScanKind(w: World, c: map<Uuid, DbRef>, xs: seq<DbRef>, k: Kind): map<Uuid, DbRef>
    decreases |xs|
  {
    if xs == [] then c else ScanOne(w, ScanKind(w, c, xs[..|xs| - 1], k), xs[|xs| - 1], k)
  }

  /** The scan of the collections `ks`, one after the other. */
  function ScanAll(w: World, c: map<Uuid, DbRef>, order: seq<DbRef>, ks: seq<Kind>): map<Uuid, DbRef>
    decreases |ks|
  {
    if ks == [] then c else ScanKind(w, ScanAll(w, c, order, ks[..|ks| - 1]), order, ks[|ks| - 1])
  }

  /** A live datablock of a scanned kind whose `_fn_uuid` is `u`. */
  ghost predicate Carries(w: World, r: DbRef, u: Uuid, ks: seq<Kind>) {
    r in w.dbs && w.dbs[r].alive && w.dbs[r].kind in ks && w.dbs[r].fnUuid == Some(u) && u != ""
  }

  /** Every entry the scan adds points to a live datablock of a scanned kind
      that carries that uuid; entries already there stay unless overwritten. */
  lemma {:induction false} ScanKindSound(w: World, c: map<Uuid, DbRef>, xs: seq<DbRef>, k: Kind, ks: seq<Kind>)
    requires k in ks
    ensures forall u :: u in ScanKind(w, c, xs, k) ==>
      (u in c && ScanKind(w, c, xs, k)[u] == c[u]) || Carries(w, ScanKind(w, c, xs, k)[u], u, ks)
    decreases |xs|
  {
    if xs != [] {
      ScanKindSound(w, c, xs[..|xs| - 1], k, ks);
    }
  }

  lemma {:induction false} ScanAllSound(w: World, order: seq<DbRef>, ks: seq<Kind>)
    ensures forall u :: u in ScanAll(w, map[], order, ks) ==> Carries(w, ScanAll(w, map[], order, ks)[u], u, ks)
    decreases |ks|
  {
    if ks != [] {
      var pre := ks[..|ks| - 1];
      ScanAllSound(w, order, pre);
      var c := ScanAll(w, map[], order, pre);
      ScanKindSound(w, c, order, ks[|ks| - 1], ks);
      forall u | u in c ensures Carries(w, c[u], u, ks) {
        assert Carries(w, c[u], u, pre);
        assert w.dbs[c[u]].kind in pre;
      }
    }
  }

  /** The scan never forgets a uuid: what is in the map before stays there. */
  lemma {:induction false} ScanKindKeeps(w: World, c: map<Uuid, DbRef>, xs: seq<DbRef>, k: Kind)
    ensures c.Keys <= ScanKind(w, c, xs, k).Keys
    decreases |xs|
  {
    if xs != [] {
      ScanKindKeeps(w, c, xs[..|xs| - 1], k);
    }
  }

  lemma {:induction false} ScanKindComplete(w: World, c: map<Uuid, DbRef>, xs: seq<DbRef>, k: Kind, i: nat)
    requires i < |xs| && xs[i] in w.dbs && w.dbs[xs[i]].alive && w.dbs[xs[i]].kind == k
    requires w.dbs[xs[i]].fnUuid.Some? && w.dbs[xs[i]].fnUuid.value != ""
    ensures w.dbs[xs[i]].fnUuid.value in ScanKind(w, c, xs, k)
    decreases |xs|
  {
    if i < |xs| - 1 {
      ScanKindComplete(w, c, xs[..|xs| - 1], k, i);
      ScanKindKeeps(w, ScanKind(w, c, xs[..|xs| - 1], k), [xs[|xs| - 1]], k);
      assert ScanKind(w, ScanKind(w, c, xs[..|xs| - 1], k), [xs[|xs| - 1]], k)
        == ScanOne(w, ScanKind(w, c, xs[..|xs| - 1], k), xs[|xs| - 1], k) by {
        assert [xs[|xs| - 1]][..0] == [];
      }
    }
  }

  lemma {:induction false} ScanAllKeeps(w: World, c: map<Uuid, DbRef>, order: seq<DbRef>, ks: seq<Kind>)
    ensures c.Keys <= ScanAll(w, c, order, ks).Keys
    decreases |ks|
  {
    if ks != [] {
      ScanAllKeeps(w, c, order, ks[..|ks| - 1]);
      ScanKindKeeps(w, ScanAll(w, c, order, ks[..|ks| - 1]), order, ks[|ks| - 1]);
    }
  }

  /** After the scan, the uuid of every live, tagged datablock of a scanned
      kind is in the cache. */
  lemma {:induction false} ScanAllComplete(w: World, order: seq<DbRef>, ks: seq<Kind>, i: nat)
    requires i < |order| && order[i] in w.dbs && w.dbs[order[i]].alive && w.dbs[order[i]].kind in ks
    requires w.dbs[order[i]].fnUuid.Some? && w.dbs[order[i]].fnUuid.value != ""
    ensures w.dbs[order[i]].fnUuid.value in ScanAll(w, map[], order, ks)
    decreases |ks|
  {
    var pre := ks[..|ks| - 1];
    var c := ScanAll(w, map[], order, pre);
    if w.dbs[order[i]].kind == ks[|ks| - 1] {
      ScanKindComplete(w, c, order, ks[|ks| - 1], i);
    } else {
      assert w.dbs[order[i]].kind in pre by {
        var j :| 0 <= j < |ks| && ks[j] == w.dbs[order[i]].kind;
        assert j < |ks| - 1 && pre[j] == ks[j];
      }
      ScanAllComplete(w, order, pre, i);
      ScanKindKeeps(w, c, order, ks[|ks| - 1]);
    }
  }

  /** The scan loop: the collections of `ks` in turn, each in store order,
      recording every live datablock with a truthy `_fn_uuid`. */
  method ScanStore(s: Store, ks: seq<Kind>) returns (c: map<Uuid, DbRef>)
    ensures c == ScanAll(s.w, map[], s.order, ks)
  {
    c := map[];
    var i := 0;
    while i < |ks|
      invariant 0 <= i <= |ks|
      invariant c == ScanAll(s.w, map[], s.order, ks[..i])
    {
      var k := ks[i];
      var j := 0;
      ghost var c0 := c;
      while j < |s.order|
        invariant 0 <= j <= |s.order|
        invariant c == ScanKind(s.w, c0, s.order[..j], k)
      {
        var r := s.order[j];
        if r in s.w.dbs && s.w.dbs[r].alive && s.w.dbs[r].kind == k {
          var u := s.w.dbs[r].fnUuid;
          if u.Some? && u.value != "" {
            c := c[u.value := r];
          }
        }
        assert s.order[..j + 1][..j] == s.order[..j];
        j := j + 1;
      }
      assert s.order[..j] == s.order;
      assert ks[..i + 1][..i] == ks[..i];
      i := i + 1;
    }
    assert ks[..i] == ks;
  }

  /** `_UUID_CACHE` and `_CACHE_POPULATED`. */
  class UuidCache {
    var cache: map<Uuid, DbRef>
    var populated: bool

    /** Every entry points at a datablock record of `w`. */
    ghost predicate Valid(w: World)
      reads this
    {
      forall u :: u in cache ==> cache[u] in w.dbs
    }

    constructor ()
      ensures cache == map[] && !populated
    {
      cache := map[];
      populated := false;
    }

    /** `_populate_cache()`: nothing when the flag is set; otherwise the cache
        is rebuilt from the store and the flag set. */
    method Populate(s: Store)
      modifies this
      ensures populated
      ensures cache == if old(populated) then old(cache) else ScanAll(s.w, map[], s.order, ScanKinds)
    {
      if populated {
        return;
      }
      cache := ScanStore(s, ScanKinds);
      populated := true;
    }

    /** `register_datablock(db, u)`. */
    method Register(r: DbRef, u: Uuid)
      modifies this
      ensures cache == old(cache)[u := r] && populated == old(populated)
    {
      cache := cache[u := r];
    }

    /** `unregister_datablock(db)`: drops the entry of the datablock's current
        uuid when it is truthy and present. Reading the uuid of a removed
        datablock raises; `raised` says so. */
    method Unregister(w: World, r: DbRef) returns (raised: bool)
      requires r in w.dbs
      modifies this
      ensures raised <==> !w.dbs[r].alive
      ensures populated == old(populated)
      ensures cache == if !raised && w.dbs[r].fnUuid.Some? && w.dbs[r].fnUuid.value != ""
        then old(cache) - {w.dbs[r].fnUuid.value} else old(cache)
    {
      if !w.dbs[r].alive {
        return true;
      }
      raised := false;
      var u := w.dbs[r].fnUuid;
      if u.Some? && u.value != "" && u.value in cache {
        cache := cache - {u.value};
      }
    }

    /** `find_datablock_by_uuid(u)`: None for the empty string; otherwise the
        cache entry, after populating the cache if needed. */
    method Find(s: Store, u: Uuid) returns (r: Option<DbRef>)
      modifies this
      ensures u == "" ==> r == None && cache == old(cache) && populated == old(populated)
      ensures u != "" ==> populated && cache == (if old(populated) then old(cache) else ScanAll(s.w, map[], s.order, ScanKinds))
      ensures u != "" ==> r == (if u in cache then Some(cache[u]) else None)
    {
      if u == "" {
        return None;
      }
      Populate(s);
      r := if u in cache then Some(cache[u]) else None;
    }

    /** `get_all_managed_datablocks()`: the whole cache, populated. */
    method GetAll(s: Store) returns (r: map<Uuid, DbRef>)
      modifies this
      ensures populated && r == cache
      ensures cache == if old(populated) then old(cache) else ScanAll(s.w, map[], s.order, ScanKinds)
    {
      Populate(s);
      r := cache;
    }

    /** `invalidate_cache()`: only the flag changes. */
    method Invalidate()
      modifies this
      ensures !populated && cache == old(cache)
    {
      populated := false;
    }

    /** `set_uuid(db, target_uuid, force_new)`. A truthy `target` is written;
        otherwise `newId` (the value `uuid.uuid4()` would give) is written
        when `forceNew` holds or the datablock has no uuid; otherwise nothing
        changes. Every write also registers the datablock under the written
        uuid, and no entry is removed. The result is the datablock's uuid
        afterwards; `None` means the datablock was removed, where Python
        raises ReferenceError. */
    method SetUuid(s: Store, r: DbRef, target: Option<Uuid>, forceNew: bool, newId: Uuid) returns (res: Option<Uuid>)
      requires s.Valid() && r in s.w.dbs && newId != ""
      modifies this, s
      ensures s.Valid() && s.order == old(s.order) && s.next == old(s.next) && populated == old(populated)
      ensures res.None? <==> !old(s.w).dbs[r].alive
      ensures res.None? ==> s.w == old(s.w) && cache == old(cache)
      ensures res.Some? ==>
        var written := if target.Some? && target.value != "" then Some(target.value)
          else if forceNew || old(s.w).dbs[r].fnUuid.None? then Some(newId) else None;
        (written.Some? ==>
          (res == written
           && s.w == old(s.w).(dbs := old(s.w).dbs[r := old(s.w).dbs[r].(fnUuid := written)])
           && cache == old(cache)[written.value := r]))
        && (written.None? ==> res == old(s.w).dbs[r].fnUuid && s.w == old(s.w) && cache == old(cache))
    {
      if !s.w.dbs[r].alive {
        return None;
      }
      var written: Option<Uuid> := None;
      if target.Some? && target.value != "" {
        written := target;
      } else if forceNew || s.w.dbs[r].fnUuid.None? {
        written := Some(newId);
      }
      if written.Some? {
        s.Tag(r, written.value);
        Register(r, written.value);
        return written;
      }
      res := s.w.dbs[r].fnUuid;
    }
  }

  /** The populated cache only points at live datablocks of the scanned
      collections, each under its own uuid, and it misses none of them. */
  lemma PopulatedCache(w: World, order: seq<DbRef>)
    ensures forall u :: u in ScanAll(w, map[], order, ScanKinds) ==>
      Carries(w, ScanAll(w, map[], order, ScanKinds)[u], u, ScanKinds)
    ensures forall i :: (0 <= i < |order| && order[i] in w.dbs && w.dbs[order[i]].alive
      && w.dbs[order[i]].kind != KWorkspace && w.dbs[order[i]].fnUuid.Some? && w.dbs[order[i]].fnUuid.value != ""
      ==> w.dbs[order[i]].fnUuid.value in ScanAll(w, map[], order, ScanKinds))
  {
    ScanAllSound(w, order, ScanKinds);
    forall i | 0 <= i < |order| && order[i] in w.dbs && w.dbs[order[i]].alive
      && w.dbs[order[i]].kind != KWorkspace && w.dbs[order[i]].fnUuid.Some? && w.dbs[order[i]].fnUuid.value != ""
      ensures w.dbs[order[i]].fnUuid.value in ScanAll(w, map[], order, ScanKinds)
    {
      assert w.dbs[order[i]].kind in ScanKinds;
      ScanAllComplete(w, order, ScanKinds, i);
    }
  }

  /** A workspace is never found through a populated cache, even when tagged. */
  lemma WorkspacesUnseen(w: World, order: seq<DbRef>, u: Uuid)
    requires u in ScanAll(w, map[], order, ScanKinds)
    ensures ScanAll(w, map[], order, ScanKinds)[u] in w.dbs
    ensures w.dbs[ScanAll(w, map[], order, ScanKinds)[u]].kind != KWorkspace
  {
    ScanAllSound(w, order, ScanKinds);
  }
}
