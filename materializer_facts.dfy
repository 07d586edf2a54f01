/** What the three passes of `materialize_plan` guarantee, stated over the
    functions that specify them. */
module MaterializerFacts {
  import opened Base
  import opened Strings
  import opened HostStore
  import opened UuidManager
  import opened NodeTreeData
  import opened ProxyArena
  import opened EngineUtils
  import opened Materializer

  /** Property names without a `'.'`: `set_nested_property` writes them on
      the datablock itself. */
  predicate DotFree(ks: seq<string>) {
    forall i :: 0 <= i < |ks| ==> '.' !in ks[i]
  }

  /** A dot-free path names an attribute of the base itself. */
  lemma DotFreeWrite(w: World, db: DbRef, k: string, x: Value)
    requires '.' !in k
    ensures NestedWrite(w, VRef(db), k, x) == SetAttr(w, VRef(db), k, x)
  {
    SplitAbsent(k, '.');
    var parts := Split(k, ".");
    assert parts == [k] && parts[..0] == [];
  }

  lemma SameRecordsTrans(w1: World, w2: World, w3: World)
    requires SameRecords(w1, w2) && SameRecords(w2, w3)
    ensures SameRecords(w1, w3)
  {
  }

  // ---------------------------------------------------------------------
  // Pass 2: base properties

  /** The base-property loop changes attribute values and names only. */
  lemma {:induction false} WriteBaseSame(w: World, db: DbRef, d: Props, ks: seq<string>)
    ensures SameRecords(w, WriteBase(w, db, d, ks))
    decreases |ks|
  {
    if ks != [] {
      WriteBaseSame(w, db, d, ks[..|ks| - 1]);
      var w1 := WriteBase(w, db, d, ks[..|ks| - 1]);
      var k := ks[|ks| - 1];
      if k in d && Configurable(k) {
        var r := NestedWrite(w1, VRef(db), k, d[k]);
        if r.Written? {
          SameRecordsTrans(w, w1, r.w);
        }
      }
    }
  }

  /** A property that is private, the type, or not in the loop is never
      written. */
  lemma {:induction false} WriteBaseKeeps(w: World, db: DbRef, d: Props, ks: seq<string>, k: string)
    requires DotFree(ks) && (k !in ks || k !in d || !Configurable(k))
    ensures GetAttr(WriteBase(w, db, d, ks), VRef(db), k) == GetAttr(w, VRef(db), k)
    decreases |ks|
  {
    if ks != [] {
      var pre := ks[..|ks| - 1];
      assert DotFree(pre) && (k in pre ==> k in ks);
      WriteBaseKeeps(w, db, d, pre, k);
      var w1 := WriteBase(w, db, d, pre);
      var k2 := ks[|ks| - 1];
      if k2 in d && Configurable(k2) {
        assert k2 != k;
        DotFreeWrite(w1, db, k2, d[k2]);
        if SetAttr(w1, VRef(db), k2, d[k2]).Written? {
          SetAttrFrame(w1, VRef(db), k2, d[k2], VRef(db), k);
        }
      }
    }
  }

  /** Every configurable property in the loop is written: afterwards it
      reads as the proxy's value when the host accepts that value for it,
      and as before otherwise. */
  lemma {:induction false} WriteBaseReads(w: World, db: DbRef, d: Props, ks: seq<string>, k: string)
    requires DotFree(ks) && NoDup(ks) && k in ks && k in d && Configurable(k)
    ensures GetAttr(WriteBase(w, db, d, ks), VRef(db), k)
      == if SetAttr(w, VRef(db), k, d[k]).Written? then Got(d[k]) else GetAttr(w, VRef(db), k)
    decreases |ks|
  {
    var pre := ks[..|ks| - 1];
    var w1 := WriteBase(w, db, d, pre);
    var k2 := ks[|ks| - 1];
    assert DotFree(pre) && NoDup(pre);
    if k2 == k {
      assert k !in pre by {
        forall i | 0 <= i < |pre| ensures pre[i] != k {
          assert pre[i] == ks[i];
        }
      }
      WriteBaseKeeps(w, db, d, pre, k);
      DotFreeWrite(w1, db, k, d[k]);
    } else {
      assert k in pre by {
        var i :| 0 <= i < |ks| && ks[i] == k;
        assert i < |ks| - 1 && pre[i] == k;
      }
      WriteBaseReads(w, db, d, pre, k);
      if k2 in d && Configurable(k2) {
        DotFreeWrite(w1, db, k2, d[k2]);
        if SetAttr(w1, VRef(db), k2, d[k2]).Written? {
          SetAttrFrame(w1, VRef(db), k2, d[k2], VRef(db), k);
        }
      }
    }
  }

  // ---------------------------------------------------------------------
  // Pass 2: stored overrides

  lemma {:induction false} ApplySame(w: World, cache: map<Uuid, DbRef>, db: DbRef, d: Props, ks: seq<string>)
    ensures SameRecords(w, ApplyOverrides(w, cache, db, d, ks).0)
    decreases |ks|
  {
    if ks != [] {
      ApplySame(w, cache, db, d, ks[..|ks| - 1]);
      var w1 := ApplyOverrides(w, cache, db, d, ks[..|ks| - 1]).0;
      var k := ks[|ks| - 1];
      if k in d && FromJsonSafe(cache, d[k]).Some? {
        var r := NestedWrite(w1, VRef(db), k, FromJsonSafe(cache, d[k]).value);
        if r.Written? {
          SameRecordsTrans(w, w1, r.w);
        }
      }
    }
  }

  /** A property without a stored override keeps its value. */
  lemma {:induction false} ApplyKeeps(w: World, cache: map<Uuid, DbRef>, db: DbRef, d: Props, ks: seq<string>, k: string)
    requires DotFree(ks) && (k !in ks || k !in d)
    ensures GetAttr(ApplyOverrides(w, cache, db, d, ks).0, VRef(db), k) == GetAttr(w, VRef(db), k)
    decreases |ks|
  {
    if ks != [] {
      var pre := ks[..|ks| - 1];
      assert DotFree(pre) && (k in pre ==> k in ks);
      ApplyKeeps(w, cache, db, d, pre, k);
      var w1 := ApplyOverrides(w, cache, db, d, pre).0;
      var k2 := ks[|ks| - 1];
      if k2 in d && FromJsonSafe(cache, d[k2]).Some? {
        var x := FromJsonSafe(cache, d[k2]).value;
        assert k2 != k;
        DotFreeWrite(w1, db, k2, x);
        if SetAttr(w1, VRef(db), k2, x).Written? {
          SetAttrFrame(w1, VRef(db), k2, x, VRef(db), k);
        }
      }
    }
  }

  /** With every stored value restorable and the datablock alive, the
      override loop runs to its end. */
  lemma {:induction false} ApplyRuns(w: World, cache: map<Uuid, DbRef>, db: DbRef, d: Props, ks: seq<string>)
    requires DotFree(ks) && db in w.dbs && w.dbs[db].alive
    requires forall i :: 0 <= i < |ks| && ks[i] in d ==> FromJsonSafe(cache, d[ks[i]]).Some?
    ensures !ApplyOverrides(w, cache, db, d, ks).1
    decreases |ks|
  {
    if ks != [] {
      var pre := ks[..|ks| - 1];
      assert DotFree(pre);
      assert forall i :: 0 <= i < |pre| ==> pre[i] == ks[i];
      ApplyRuns(w, cache, db, d, pre);
      ApplySame(w, cache, db, d, pre);
      var w1 := ApplyOverrides(w, cache, db, d, pre).0;
      var k := ks[|ks| - 1];
      if k in d {
        DotFreeWrite(w1, db, k, FromJsonSafe(cache, d[k]).value);
      }
    }
  }

  /** A stored override is applied: when the loop runs to its end, each
      overridden property reads as the restored value when the host accepts
      it, and as before otherwise. */
  lemma {:induction false} ApplyReads(w: World, cache: map<Uuid, DbRef>, db: DbRef, d: Props, ks: seq<string>, k: string)
    requires DotFree(ks) && NoDup(ks) && k in ks && k in d && !ApplyOverrides(w, cache, db, d, ks).1
    ensures FromJsonSafe(cache, d[k]).Some?
    ensures var x := FromJsonSafe(cache, d[k]).value;
      GetAttr(ApplyOverrides(w, cache, db, d, ks).0, VRef(db), k)
        == if SetAttr(w, VRef(db), k, x).Written? then Got(x) else GetAttr(w, VRef(db), k)
    decreases |ks|
  {
    var pre := ks[..|ks| - 1];
    var w1 := ApplyOverrides(w, cache, db, d, pre).0;
    var k2 := ks[|ks| - 1];
    assert DotFree(pre) && NoDup(pre);
    assert !ApplyOverrides(w, cache, db, d, pre).1;
    if k2 == k {
      assert k !in pre by {
        forall i | 0 <= i < |pre| ensures pre[i] != k {
          assert pre[i] == ks[i];
        }
      }
      ApplyKeeps(w, cache, db, d, pre, k);
      DotFreeWrite(w1, db, k, FromJsonSafe(cache, d[k]).value);
    } else {
      assert k in pre by {
        var i :| 0 <= i < |ks| && ks[i] == k;
        assert i < |ks| - 1 && pre[i] == k;
      }
      ApplyReads(w, cache, db, d, pre, k);
      if k2 in d {
        var x2 := FromJsonSafe(cache, d[k2]).value;
        DotFreeWrite(w1, db, k2, x2);
        if SetAttr(w1, VRef(db), k2, x2).Written? {
          SetAttrFrame(w1, VRef(db), k2, x2, VRef(db), k);
        }
      }
    }
  }

  // ---------------------------------------------------------------------
  // Pass 2 as a whole

  /** One iteration of pass 2 populates the registry and changes attribute
      values and names only. */
  lemma ConfigureStepHost(st: St, overrides: seq<OverrideRow>, p: Prim,
                          keysOf: Props -> seq<string>, capture: (World, DbRef) -> Props)
    requires p.id != ""
    ensures var r := ConfigureStep(st, overrides, p, keysOf, capture);
      SameRecords(st.h.w, r.st.h.w) && r.st.h.populated && r.st.h.cache == Populated(st.h).cache
      && r.st.h.order == st.h.order && r.st.h.next == st.h.next
  {
    var f := Find(st.h, p.id);
    if f.1.Some? {
      var db := f.1.value;
      var w1 := WriteBase(f.0.w, db, p.props, keysOf(p.props));
      WriteBaseSame(f.0.w, db, p.props, keysOf(p.props));
      var j := FindOverride(overrides, p.id);
      if j.Some? && overrides[j.value].data.Doc? {
        var d := overrides[j.value].data.d;
        ApplySame(w1, f.0.cache, db, d, keysOf(d));
        SameRecordsTrans(f.0.w, w1, ApplyOverrides(w1, f.0.cache, db, d, keysOf(d)).0);
      }
    }
  }

  /** Pass 2 populates the registry once and changes attribute values and
      names only. */
  lemma {:induction false} ConfigurePassHost(st: St, overrides: seq<OverrideRow>, ps: seq<Prim>,
                                             keysOf: Props -> seq<string>, capture: (World, DbRef) -> Props)
    requires forall i :: 0 <= i < |ps| ==> ps[i].id != ""
    ensures var r := ConfigurePass(st, overrides, ps, keysOf, capture);
      SameRecords(st.h.w, r.st.h.w) && r.st.h.order == st.h.order && r.st.h.next == st.h.next
      && Populated(r.st.h).cache == Populated(st.h).cache
    decreases |ps|
  {
    if ps != [] {
      var pre := ps[..|ps| - 1];
      ConfigurePassHost(st, overrides, pre, keysOf, capture);
      var r := ConfigurePass(st, overrides, pre, keysOf, capture);
      if !r.aborted {
        ConfigureStepHost(r.st, overrides, ps[|ps| - 1], keysOf, capture);
        SameRecordsTrans(st.h.w, r.st.h.w, ConfigurePass(st, overrides, ps, keysOf, capture).st.h.w);
      }
    }
  }

  /** No two initial-state rows carry the same uuid. */
  predicate OnePerUuid(rows: seq<InitialRow>) {
    forall i, j :: 0 <= i < j < |rows| ==> rows[i].uuid != rows[j].uuid
  }

  /** Pass 2 only appends initial-state rows, one for a uuid without one,
      so there stays at most one row per uuid; every new row belongs to a
      prim of the pass. A tree without the map stays without it. */
  lemma {:induction false} ConfigurePassRows(st: St, overrides: seq<OverrideRow>, ps: seq<Prim>,
                                             keysOf: Props -> seq<string>, capture: (World, DbRef) -> Props)
    requires st.initial.Some? ==> OnePerUuid(st.initial.value)
    ensures var r := ConfigurePass(st, overrides, ps, keysOf, capture);
      (r.st.initial.Some? <==> st.initial.Some?)
      && (st.initial.Some? ==>
        OnePerUuid(r.st.initial.value) && st.initial.value <= r.st.initial.value
        && forall j :: |st.initial.value| <= j < |r.st.initial.value| ==>
             exists i :: 0 <= i < |ps| && ps[i].id == r.st.initial.value[j].uuid)
    decreases |ps|
  {
    if ps != [] {
      var pre := ps[..|ps| - 1];
      ConfigurePassRows(st, overrides, pre, keysOf, capture);
      var r := ConfigurePass(st, overrides, pre, keysOf, capture);
      var p := ps[|ps| - 1];
      if !r.aborted && st.initial.Some? {
        var rows := r.st.initial.value;
        var r2 := ConfigureStep(r.st, overrides, p, keysOf, capture);
        assert r2.st.initial.value == rows || (FindInitial(rows, p.id).None? && r2.st.initial.value == rows + [InitialRow(p.id, r2.st.initial.value[|rows|].data)]);
        forall j | |st.initial.value| <= j < |r2.st.initial.value|
          ensures exists i :: 0 <= i < |ps| && ps[i].id == r2.st.initial.value[j].uuid
        {
          if j < |rows| {
            var i :| 0 <= i < |pre| && pre[i].id == rows[j].uuid;
            assert ps[i] == pre[i];
          } else {
            assert ps[|ps| - 1].id == r2.st.initial.value[j].uuid;
          }
        }
      }
    }
  }

  /** Stored overrides are applied after the base properties: an overridden
      property ends with the restored override value when the host accepts
      it after the base writes, and with what the base writes left
      otherwise. */
  lemma OverrideWins(st: St, overrides: seq<OverrideRow>, p: Prim,
                     keysOf: Props -> seq<string>, capture: (World, DbRef) -> Props, k: string)
    requires p.id != "" && st.initial.Some? && DotFree(keysOf(p.props))
    requires var f := Find(st.h, p.id);
      f.1.Some? && f.1.value in f.0.w.dbs && f.0.w.dbs[f.1.value].alive
    requires var j := FindOverride(overrides, p.id);
      j.Some? && overrides[j.value].data.Doc?
    requires var d := overrides[FindOverride(overrides, p.id).value].data.d;
      DotFree(keysOf(d)) && NoDup(keysOf(d)) && k in keysOf(d) && k in d
      && forall i :: 0 <= i < |keysOf(d)| && keysOf(d)[i] in d ==> FromJsonSafe(Find(st.h, p.id).0.cache, d[keysOf(d)[i]]).Some?
    ensures var f := Find(st.h, p.id);
      var db := f.1.value;
      var d := overrides[FindOverride(overrides, p.id).value].data.d;
      var w1 := WriteBase(f.0.w, db, p.props, keysOf(p.props));
      var x := FromJsonSafe(f.0.cache, d[k]).value;
      var r := ConfigureStep(st, overrides, p, keysOf, capture);
      !r.aborted && GetAttr(r.st.h.w, VRef(db), k) == if SetAttr(w1, VRef(db), k, x).Written? then Got(x) else GetAttr(w1, VRef(db), k)
  {
    var f := Find(st.h, p.id);
    var db := f.1.value;
    var d := overrides[FindOverride(overrides, p.id).value].data.d;
    var w1 := WriteBase(f.0.w, db, p.props, keysOf(p.props));
    WriteBaseSame(f.0.w, db, p.props, keysOf(p.props));
    ApplyRuns(w1, f.0.cache, db, d, keysOf(d));
    ApplyReads(w1, f.0.cache, db, d, keysOf(d), k);
  }

  // ---------------------------------------------------------------------
  // The undeclared `fn_initial_state_map`

  /** As the tree class is declared, without `fn_initial_state_map`: pass 2
      raises at the first prim whose uuid resolves, so it ends early exactly
      when some prim of the plan resolves. */
  lemma {:induction false} UndeclaredMapAborts(h: Host, overrides: seq<OverrideRow>, ps: seq<Prim>,
                                               keysOf: Props -> seq<string>, capture: (World, DbRef) -> Props)
    requires forall i :: 0 <= i < |ps| ==> ps[i].id != ""
    ensures var r := ConfigurePass(St(h, None), overrides, ps, keysOf, capture);
      r.st.initial.None?
      && (r.aborted <==> exists i :: 0 <= i < |ps| && ps[i].id in Populated(h).cache)
      && (!r.aborted ==> Populated(r.st.h) == Populated(h))
    decreases |ps|
  {
    if ps != [] {
      var pre := ps[..|ps| - 1];
      UndeclaredMapAborts(h, overrides, pre, keysOf, capture);
      var r := ConfigurePass(St(h, None), overrides, pre, keysOf, capture);
      if r.aborted {
        var i :| 0 <= i < |pre| && pre[i].id in Populated(h).cache;
        assert ps[i] == pre[i];
      } else {
        var p := ps[|ps| - 1];
        if !(exists i :: 0 <= i < |ps| && ps[i].id in Populated(h).cache) {
          assert p.id !in Populated(h).cache;
        }
        forall i | 0 <= i < |pre| ensures pre[i].id !in Populated(h).cache {
        }
        assert forall i :: 0 <= i < |pre| ==> pre[i] == ps[i];
      }
    }
  }

  /** As declared, the whole run: once pass 1 makes a datablock, pass 2
      raises, so nothing is linked or parented. */
  lemma UndeclaredMapMaterialize(h: Host, overrides: seq<OverrideRow>, plan: seq<Prim>, creation: map<string, Kind>,
                                 defaults: Kind -> Props, keysOf: Props -> seq<string>, capture: (World, DbRef) -> Props)
    requires Below(h) && forall i :: 0 <= i < |plan| ==> plan[i].id != ""
    requires CreatePass(h, plan, plan, creation, defaults).next > h.next
    ensures var h1 := CreatePass(h, plan, plan, creation, defaults);
      var r := Materialize(St(h, None), overrides, plan, creation, defaults, keysOf, capture);
      r.aborted && r == ConfigurePass(St(h1, None), overrides, plan, keysOf, capture)
  {
    var h1 := CreatePass(h, plan, plan, creation, defaults);
    CreatePassGrows(h, plan, plan, creation, defaults);
    assert h.next in h1.w.dbs;
    var i :| 0 <= i < |plan| && plan[i].id == h1.w.dbs[h.next].fnUuid.value;
    assert Populated(h1) == h1;
    UndeclaredMapAborts(h1, overrides, plan, keysOf, capture);
  }

  /** The evidently intended behaviour, with the map declared: pass 2 runs
      to its end whenever every uuid the registry knows names a live
      datablock. */
  lemma {:induction false} DeclaredMapRuns(h: Host, rows: seq<InitialRow>, overrides: seq<OverrideRow>, ps: seq<Prim>,
                                           keysOf: Props -> seq<string>, capture: (World, DbRef) -> Props)
    requires forall i :: 0 <= i < |ps| ==> ps[i].id != ""
    requires forall u :: u in Populated(h).cache ==>
      Populated(h).cache[u] in h.w.dbs && h.w.dbs[Populated(h).cache[u]].alive
    ensures var r := ConfigurePass(St(h, Some(rows)), overrides, ps, keysOf, capture);
      !r.aborted && r.st.initial.Some?
    decreases |ps|
  {
    if ps != [] {
      var pre := ps[..|ps| - 1];
      DeclaredMapRuns(h, rows, overrides, pre, keysOf, capture);
      ConfigurePassHost(St(h, Some(rows)), overrides, pre, keysOf, capture);
      var r := ConfigurePass(St(h, Some(rows)), overrides, pre, keysOf, capture);
      var p := ps[|ps| - 1];
      var f := Find(r.st.h, p.id);
      if f.1.Some? {
        var db := f.1.value;
        assert db == Populated(h).cache[p.id];
        WriteBaseSame(f.0.w, db, p.props, keysOf(p.props));
      }
    }
  }

  // ---------------------------------------------------------------------
  // Pass 1: creation

  /** Every handle in use lies below the next one the store hands out. */
  predicate Below(h: Host) {
    forall x :: x in h.w.dbs ==> x < h.next
  }

  /** One iteration of pass 1: a prim whose uuid resolves, or whose type
      has no creation function, leaves the store as it was; otherwise at
      most one datablock is made, live, of the prim's type, tagged with the
      prim's uuid and registered under it, and no other datablock changes. */
  lemma CreateStepShape(h: Host, plan: seq<Prim>, p: Prim, creation: map<string, Kind>, defaults: Kind -> Props)
    requires p.id != "" && Below(h)
    ensures var h1 := Populated(h);
      var r := CreateStep(h, plan, p, creation, defaults);
      var typ := Get(p.props, "datablock_type");
      Below(r) && r.populated
      && (p.id in h1.cache ==> r == h1)
      && (typ != VStr("OBJECT") && !(typ.VStr? && typ.s in creation) ==> r == h1)
      && (r != h1 ==>
        p.id !in h1.cache && r.next == h1.next + 1 && r.order == h1.order + [h1.next]
        && r.cache == h1.cache[p.id := h1.next]
        && h1.next in r.w.dbs && r.w.dbs[h1.next].alive && r.w.dbs[h1.next].fnUuid == Some(p.id)
        && r.w.dbs[h1.next].kind == (if typ == VStr("OBJECT") then KObject else creation[typ.s])
        && r.w.dbs.Keys == h1.w.dbs.Keys + {h1.next}
        && forall x :: x in h1.w.dbs ==> r.w.dbs[x] == h1.w.dbs[x])
  {
    var h1 := Populated(h);
    var r := CreateStep(h, plan, p, creation, defaults);
    if r != h1 {
      var m := MakeFor(h1.w, h1.cache, plan, p, creation, defaults).value;
      assert r == Tagged(Created(h1, m), h1.next, p.id);
      assert h1.next !in h1.w.dbs;
    }
  }

  /** `next(p for p in plan if p.path == path)` finds the first prim at
      that path. */
  lemma {:induction false} FirstWithPathAt(plan: seq<Prim>, i: nat)
    requires i < |plan| && forall j :: 0 <= j < i ==> plan[j].path != plan[i].path
    ensures FirstWithPath(plan, VStr(plan[i].path)) == Some(plan[i])
    decreases i
  {
    if i > 0 {
      assert forall j :: 0 <= j < i - 1 ==> plan[1..][j] == plan[j + 1];
      FirstWithPathAt(plan[1..], i - 1);
    }
  }

  /** An OBJECT made by pass 1 has no parent, and as data the datablock
      registered for the first plan prim at the path its `'data'`
      relationship names; without such a relationship, or without a prim at
      that path, it has no data. */
  lemma CreatedObjectData(h: Host, plan: seq<Prim>, p: Prim, creation: map<string, Kind>, defaults: Kind -> Props)
    requires p.id != "" && Below(h) && Get(p.props, "datablock_type") == VStr("OBJECT")
    requires CreateStep(h, plan, p, creation, defaults) != Populated(h)
    ensures var h1 := Populated(h);
      var a := CreateStep(h, plan, p, creation, defaults).w.dbs[h1.next].attrs;
      Get(a, "parent") == VNone && !DataRelOf(p.props).BadRels?
      && (forall i :: 0 <= i < |plan| && DataRelOf(p.props) == DataPath(VStr(plan[i].path))
            && (forall j :: 0 <= j < i ==> plan[j].path != plan[i].path)
            && plan[i].id != "" && plan[i].id in h1.cache
            ==> Get(a, "data") == VRef(h1.cache[plan[i].id]))
      && (DataRelOf(p.props).NoData?
          || (forall i :: 0 <= i < |plan| ==> VStr(plan[i].path) != DataRelOf(p.props).path)
          ==> Get(a, "data") == VNone)
  {
    var h1 := Populated(h);
    CreateStepShape(h, plan, p, creation, defaults);
    forall i | 0 <= i < |plan| && DataRelOf(p.props) == DataPath(VStr(plan[i].path))
      && (forall j :: 0 <= j < i ==> plan[j].path != plan[i].path)
      ensures FirstWithPath(plan, DataRelOf(p.props).path) == Some(plan[i])
    {
      FirstWithPathAt(plan, i);
    }
  }

  /** What pass 1 over the prims `ps` has done to `h` once it reached `r`. */
  ghost predicate Grown(h: Host, r: Host, ps: seq<Prim>) {
    Below(r) && r.next >= h.next
    && (forall x :: x in h.w.dbs ==> x in r.w.dbs && r.w.dbs[x] == h.w.dbs[x])
    && (|ps| > 0 ==> r.populated && forall u :: u in Populated(h).cache ==> u in r.cache && r.cache[u] == Populated(h).cache[u])
    && (forall x :: h.next <= x < r.next ==>
          x in r.w.dbs && r.w.dbs[x].alive && r.w.dbs[x].fnUuid.Some?
          && r.w.dbs[x].fnUuid.value in r.cache && r.cache[r.w.dbs[x].fnUuid.value] == x
          && exists i :: 0 <= i < |ps| && ps[i].id == r.w.dbs[x].fnUuid.value)
  }

  /** An iteration that makes nothing keeps `Grown`. */
  lemma GrownSame(h: Host, r0: Host, pre: seq<Prim>, p: Prim)
    requires Grown(h, r0, pre) && (pre == [] ==> r0 == h)
    ensures Grown(h, Populated(r0), pre + [p])
  {
    var ps := pre + [p];
    var h1 := Populated(r0);
    assert pre != [] ==> h1 == r0;
    forall x | h.next <= x < h1.next
      ensures exists i :: 0 <= i < |ps| && ps[i].id == h1.w.dbs[x].fnUuid.value
    {
      var i :| 0 <= i < |pre| && pre[i].id == r0.w.dbs[x].fnUuid.value;
      assert ps[i] == pre[i];
    }
  }

  /** An iteration that makes one datablock, tagged and registered under
      `p.id`, keeps `Grown`. */
  lemma GrownNew(h: Host, r0: Host, pre: seq<Prim>, p: Prim, r: Host)
    requires Grown(h, r0, pre) && (pre == [] ==> r0 == h) && Below(r)
    requires var h1 := Populated(r0);
      p.id !in h1.cache && r.next == h1.next + 1 && r.populated
      && r.cache == h1.cache[p.id := h1.next]
      && h1.next in r.w.dbs && r.w.dbs[h1.next].alive && r.w.dbs[h1.next].fnUuid == Some(p.id)
      && forall x :: x in h1.w.dbs ==> x in r.w.dbs && r.w.dbs[x] == h1.w.dbs[x]
    ensures Grown(h, r, pre + [p])
  {
    var ps := pre + [p];
    var h1 := Populated(r0);
    assert pre != [] ==> h1 == r0;
    forall x | h.next <= x < r.next
      ensures x in r.w.dbs && r.w.dbs[x].alive && r.w.dbs[x].fnUuid.Some?
        && r.w.dbs[x].fnUuid.value in r.cache && r.cache[r.w.dbs[x].fnUuid.value] == x
        && exists i :: 0 <= i < |ps| && ps[i].id == r.w.dbs[x].fnUuid.value
    {
      if x < r0.next {
        var i :| 0 <= i < |pre| && pre[i].id == r0.w.dbs[x].fnUuid.value;
        assert ps[i] == pre[i];
      } else {
        assert ps[|ps| - 1] == p;
      }
    }
  }

  /** One more iteration of pass 1 keeps `Grown`. */
  lemma GrownStep(h: Host, r0: Host, plan: seq<Prim>, pre: seq<Prim>, p: Prim, creation: map<string, Kind>, defaults: Kind -> Props)
    requires Below(h) && Below(r0) && p.id != "" && Grown(h, r0, pre)
    requires pre == [] ==> r0 == h
    ensures Grown(h, CreateStep(r0, plan, p, creation, defaults), pre + [p])
  {
    CreateStepShape(r0, plan, p, creation, defaults);
    var r := CreateStep(r0, plan, p, creation, defaults);
    if r == Populated(r0) {
      GrownSame(h, r0, pre, p);
    } else {
      GrownNew(h, r0, pre, p, r);
    }
  }

  lemma {:induction false} CreatePassGrown(h: Host, plan: seq<Prim>, ps: seq<Prim>, creation: map<string, Kind>, defaults: Kind -> Props)
    requires Below(h) && forall i :: 0 <= i < |ps| ==> ps[i].id != ""
    ensures Grown(h, CreatePass(h, plan, ps, creation, defaults), ps)
    decreases |ps|
  {
    if ps != [] {
      var pre := ps[..|ps| - 1];
      var p := ps[|ps| - 1];
      assert forall i :: 0 <= i < |pre| ==> pre[i] == ps[i];
      CreatePassGrown(h, plan, pre, creation, defaults);
      var r0 := CreatePass(h, plan, pre, creation, defaults);
      GrownStep(h, r0, plan, pre, p, creation, defaults);
      assert pre + [p] == ps;
    }
  }

  /** Pass 1 keeps every datablock that existed, registers the uuids it
      found, and each datablock it makes is live, tagged with the uuid of a
      prim of the pass and registered under that uuid. */
  lemma CreatePassGrows(h: Host, plan: seq<Prim>, ps: seq<Prim>, creation: map<string, Kind>, defaults: Kind -> Props)
    requires Below(h) && forall i :: 0 <= i < |ps| ==> ps[i].id != ""
    ensures var r := CreatePass(h, plan, ps, creation, defaults);
      Below(r) && r.next >= h.next
      && (forall x :: x in h.w.dbs ==> x in r.w.dbs && r.w.dbs[x] == h.w.dbs[x])
      && (|ps| > 0 ==> r.populated && forall u :: u in Populated(h).cache ==> u in r.cache && r.cache[u] == Populated(h).cache[u])
      && (forall x :: h.next <= x < r.next ==>
            x in r.w.dbs && r.w.dbs[x].alive && r.w.dbs[x].fnUuid.Some?
            && r.w.dbs[x].fnUuid.value in r.cache && r.cache[r.w.dbs[x].fnUuid.value] == x
            && exists i :: 0 <= i < |ps| && ps[i].id == r.w.dbs[x].fnUuid.value)
  {
    CreatePassGrown(h, plan, ps, creation, defaults);
  }

  /** Pass 1 over prims whose uuids all resolve creates nothing: re-running
      a plan that was fully materialized leaves the store as it is. */
  lemma {:induction false} CreatePassRerun(h: Host, plan: seq<Prim>, ps: seq<Prim>, creation: map<string, Kind>, defaults: Kind -> Props)
    requires h.populated && forall i :: 0 <= i < |ps| ==> ps[i].id != "" && ps[i].id in h.cache
    ensures CreatePass(h, plan, ps, creation, defaults) == h
    decreases |ps|
  {
    if ps != [] {
      assert forall i :: 0 <= i < |ps| - 1 ==> ps[..|ps| - 1][i] == ps[i];
      CreatePassRerun(h, plan, ps[..|ps| - 1], creation, defaults);
    }
  }

  // ---------------------------------------------------------------------
  // Pass 3: what linking may change

  /** Record `b` differs from record `a` only as pass 3 may make it, with
      the kinds of datablocks read in `w`. */
  ghost predicate RecFrame(w: World, a: Datablock, b: Datablock) {
    b.kind == a.kind && b.rna == a.rna && b.name == a.name && b.alive == a.alive && b.fnUuid == a.fnUuid
    && b.idprops == a.idprops && b.children == a.children
    && a.objects <= b.objects
    && (NoDup(a.objects) ==> NoDup(b.objects))
    && (forall i :: |a.objects| <= i < |b.objects| ==> b.objects[i] in w.dbs && w.dbs[b.objects[i]].kind == KObject)
    && b.attrs.Keys == a.attrs.Keys
    && (forall k :: k in a.attrs && (k != "parent" || a.kind != KObject) ==> b.attrs[k] == a.attrs[k])
    && ("parent" in a.attrs && b.attrs["parent"] != a.attrs["parent"] ==> IsKind(w, b.attrs["parent"], KObject))
  }

  /** The same datablocks, of the same kinds. */
  predicate SameKinds(w: World, w2: World) {
    w2.dbs.Keys == w.dbs.Keys && forall x :: x in w.dbs ==> w2.dbs[x].kind == w.dbs[x].kind
  }

  /** `w2` differs from `w` only as pass 3 may make it: the same datablocks
      with the same names, uuids and child collections; member object lists
      only grow, by Objects not already members; and attribute values
      change only in an Object's `parent`, which then holds an Object. */
  ghost predicate LinkFrame(w: World, w2: World) {
    w2.subs == w.subs && SameKinds(w, w2)
    && forall x :: x in w.dbs ==> RecFrame(w, w.dbs[x], w2.dbs[x])
  }

  lemma RecFrameRefl(w: World, a: Datablock)
    ensures RecFrame(w, a, a)
  {
    assert a.objects <= a.objects;
  }

  lemma LinkFrameRefl(w: World)
    ensures LinkFrame(w, w)
  {
    forall x | x in w.dbs ensures RecFrame(w, w.dbs[x], w.dbs[x]) {
      RecFrameRefl(w, w.dbs[x]);
    }
  }

  lemma RecFrameTrans(w1: World, w2: World, a: Datablock, b: Datablock, c: Datablock)
    requires SameKinds(w1, w2) && RecFrame(w1, a, b) && RecFrame(w2, b, c)
    ensures RecFrame(w1, a, c)
  {
    forall i | |a.objects| <= i < |c.objects|
      ensures c.objects[i] in w1.dbs && w1.dbs[c.objects[i]].kind == KObject
    {
      if i < |b.objects| {
        assert c.objects[i] == b.objects[i];
      }
    }
  }

  lemma LinkFrameTrans(w1: World, w2: World, w3: World)
    requires LinkFrame(w1, w2) && LinkFrame(w2, w3)
    ensures LinkFrame(w1, w3)
  {
    forall x | x in w1.dbs ensures RecFrame(w1, w1.dbs[x], w3.dbs[x]) {
      RecFrameTrans(w1, w2, w1.dbs[x], w2.dbs[x], w3.dbs[x]);
    }
  }

  /** A world that differs from `w` in record `r` only. */
  lemma LinkFrameAt(w: World, r: DbRef, b: Datablock)
    requires r in w.dbs && b.kind == w.dbs[r].kind && RecFrame(w, w.dbs[r], b)
    ensures LinkFrame(w, w.(dbs := w.dbs[r := b]))
  {
    forall x | x in w.dbs && x != r ensures RecFrame(w, w.dbs[x], w.dbs[x]) {
      RecFrameRefl(w, w.dbs[x]);
    }
  }

  /** Hierarchy parenting changes at most the `parent` of the Object. */
  lemma ParentStepFrame(w: World, cache: map<Uuid, DbRef>, plan: seq<Prim>, p: Prim, from: DbRef)
    requires from in w.dbs && w.dbs[from].kind == KObject
    ensures var r := ParentStep(w, cache, plan, p, from);
      r.Some? ==> LinkFrame(w, r.value)
  {
    var r := ParentStep(w, cache, plan, p, from);
    if r.Some? && r.value != w {
      var pp := ParentPath(p.path).value;
      var pdb := Lookup(cache, LastWithPath(plan, pp).value.id).value;
      var a := w.dbs[from];
      assert "parent" in a.attrs && IsKind(w, VRef(pdb), KObject);
      var b := a.(attrs := a.attrs["parent" := VRef(pdb)]);
      assert r.value == w.(dbs := w.dbs[from := b]);
      assert RecFrame(w, a, b) by {
        assert a.objects <= b.objects;
      }
      LinkFrameAt(w, from, b);
    } else if r.Some? {
      LinkFrameRefl(w);
    }
  }

  /** One `collection_links` target adds at most the Object to one
      collection, and only when no member has its name. */
  lemma LinkTargetFrame(w: World, cache: map<Uuid, DbRef>, plan: seq<Prim>, from: DbRef, t: Value)
    requires from in w.dbs && w.dbs[from].kind == KObject
    ensures LinkFrame(w, LinkTarget(w, cache, plan, from, t).0)
  {
    var r := LinkTarget(w, cache, plan, from, t).0;
    if r != w {
      var tdb := Lookup(cache, LastWithPath(plan, t.s).value.id).value;
      var ms := w.dbs[tdb].objects;
      assert r == WithObject(w, tdb, from);
      assert !NameIn(w, ms, w.dbs[from].name);
      assert from !in ms by {
        forall i | 0 <= i < |ms| ensures ms[i] != from {
          if ms[i] in w.dbs {
            assert w.dbs[ms[i]].name != w.dbs[from].name;
          }
        }
      }
      var a := w.dbs[tdb];
      var b := a.(objects := ms + [from]);
      assert RecFrame(w, a, b) by {
        assert NoDup(ms) ==> NoDup(ms + [from]);
      }
      LinkFrameAt(w, tdb, b);
    } else {
      LinkFrameRefl(w);
    }
  }

  lemma {:induction false} LinkTargetsFrame(w: World, cache: map<Uuid, DbRef>, plan: seq<Prim>, from: DbRef, ts: seq<Value>)
    requires from in w.dbs && w.dbs[from].kind == KObject
    ensures LinkFrame(w, LinkTargets(w, cache, plan, from, ts).0)
    decreases |ts|
  {
    if ts != [] {
      LinkTargetsFrame(w, cache, plan, from, ts[..|ts| - 1]);
      var prev := LinkTargets(w, cache, plan, from, ts[..|ts| - 1]);
      if !prev.1 {
        LinkTargetFrame(prev.0, cache, plan, from, ts[|ts| - 1]);
        LinkFrameTrans(w, prev.0, LinkTarget(prev.0, cache, plan, from, ts[|ts| - 1]).0);
      }
    } else {
      LinkFrameRefl(w);
    }
  }

  lemma {:induction false} RelsStepFrame(w: World, cache: map<Uuid, DbRef>, plan: seq<Prim>, from: DbRef, rels: Props, ks: seq<string>)
    requires from in w.dbs && w.dbs[from].kind == KObject
    ensures LinkFrame(w, RelsStep(w, cache, plan, from, rels, ks))
    decreases |ks|
  {
    if ks != [] {
      RelsStepFrame(w, cache, plan, from, rels, ks[..|ks| - 1]);
      var w1 := RelsStep(w, cache, plan, from, rels, ks[..|ks| - 1]);
      var k := ks[|ks| - 1];
      if k == "collection_links" && k in rels {
        var v := rels[k];
        var ts := if v.VList? then v.items else [v];
        LinkTargetsFrame(w1, cache, plan, from, ts);
        LinkFrameTrans(w, w1, LinkTargets(w1, cache, plan, from, ts).0);
      }
    } else {
      LinkFrameRefl(w);
    }
  }

  lemma LinkStepFrame(h: Host, plan: seq<Prim>, p: Prim, keysOf: Props -> seq<string>)
    requires p.id != ""
    ensures var r := LinkStep(h, plan, p, keysOf).0;
      LinkFrame(h.w, r.w) && r.order == h.order && r.next == h.next && r.populated && r.cache == Populated(h).cache
  {
    var f := Find(h, p.id);
    LinkFrameRefl(h.w);
    if f.1.Some? && f.1.value in f.0.w.dbs && f.0.w.dbs[f.1.value].kind == KObject {
      var from := f.1.value;
      ParentStepFrame(f.0.w, f.0.cache, plan, p, from);
      var w1 := ParentStep(f.0.w, f.0.cache, plan, p, from);
      if w1.Some? && "_fn_relationships" in p.props && p.props["_fn_relationships"].VDict? && from in w1.value.dbs {
        var rels := p.props["_fn_relationships"].d;
        RelsStepFrame(w1.value, f.0.cache, plan, from, rels, keysOf(rels));
        LinkFrameTrans(h.w, w1.value, RelsStep(w1.value, f.0.cache, plan, from, rels, keysOf(rels)));
      }
    }
  }

  /** Pass 3 changes the store only as `LinkFrame` allows: it never makes,
      removes, renames or retags a datablock, never unlinks a member, never
      links an Object twice into one collection, and writes no attribute but
      an Object's `parent`. */
  lemma {:induction false} LinkPassFrame(h: Host, plan: seq<Prim>, ps: seq<Prim>, keysOf: Props -> seq<string>)
    requires forall i :: 0 <= i < |ps| ==> ps[i].id != ""
    ensures var r := LinkPass(h, plan, ps, keysOf).0;
      LinkFrame(h.w, r.w) && r.order == h.order && r.next == h.next && Populated(r).cache == Populated(h).cache
    decreases |ps|
  {
    if ps != [] {
      LinkPassFrame(h, plan, ps[..|ps| - 1], keysOf);
      var prev := LinkPass(h, plan, ps[..|ps| - 1], keysOf);
      if !prev.1 {
        LinkStepFrame(prev.0, plan, ps[|ps| - 1], keysOf);
        LinkFrameTrans(h.w, prev.0.w, LinkStep(prev.0, plan, ps[|ps| - 1], keysOf).0.w);
      }
    } else {
      LinkFrameRefl(h.w);
    }
  }
}
