/** The link-if-absent nodes, Link to Collection and Link to Scene: each
    links collections as children and objects as members of a target (a
    collection, or a scene's root collection), skipping any item whose name
    the target already holds. They write to the host store in place. */
module LinkNodes {
  import opened Base
  import opened HostStore

  /** The member list a pass writes: `objects`, or `children`. */
  function Members(d: Datablock, objects: bool): seq<DbRef> {
    if objects then d.objects else d.children
  }

  function WithMembers(d: Datablock, objects: bool, ms: seq<DbRef>): (r: Datablock)
    ensures Members(r, objects) == ms && Members(r, !objects) == Members(d, !objects)
  {
    if objects then d.(objects := ms) else d.(children := ms)
  }

  /** `name in members`: the names of the datablocks a member list holds. */
  predicate NamedIn(w: World, ms: seq<DbRef>, name: string)
    decreases |ms|
  {
    ms != [] && ((ms[0] in w.dbs && w.dbs[ms[0]].name == name) || NamedIn(w, ms[1..], name))
  }

  /** `NamedIn` says that some member has that name. */
  lemma {:induction false} NamedInIff(w: World, ms: seq<DbRef>, name: string)
    ensures NamedIn(w, ms, name) <==> exists i :: 0 <= i < |ms| && ms[i] in w.dbs && w.dbs[ms[i]].name == name
    decreases |ms|
  {
    if ms != [] {
      NamedInIff(w, ms[1..], name);
      if NamedIn(w, ms[1..], name) {
        var i :| 0 <= i < |ms[1..]| && ms[1..][i] in w.dbs && w.dbs[ms[1..][i]].name == name;
        assert ms[i + 1] == ms[1..][i];
      }
      if exists i :: 0 <= i < |ms| && ms[i] in w.dbs && w.dbs[ms[i]].name == name {
        var i :| 0 <= i < |ms| && ms[i] in w.dbs && w.dbs[ms[i]].name == name;
        if i > 0 {
          assert ms[1..][i - 1] == ms[i];
        }
      }
    }
  }

  /** `item and isinstance(item, bpy.types.Object)` (or `Collection`). */
  predicate ItemOk(w: World, v: Value, objects: bool) {
    Truthy(v) && IsKind(w, v, if objects then KObject else KCollection)
  }

  /** The target is a live datablock of the kind the node expects. */
  predicate TargetOk(w: World, t: Value, tkind: Kind) {
    IsKind(w, t, tkind) && w.dbs[t.ref].alive
  }

  /** The world after a pass, and whether it raised. */
  datatype Linked = Linked(w: World, raised: bool)

  /** `w2` is `w` with members appended to the target's list, and nothing
      else changed. */
  ghost predicate Appended(w: World, w2: World, t: Value, objects: bool) {
    w2.subs == w.subs && w2.dbs.Keys == w.dbs.Keys
    && (forall k :: k in w.dbs && t != VRef(k) ==> w2.dbs[k] == w.dbs[k])
    && (t.VRef? && t.ref in w.dbs ==> Extends(w.dbs[t.ref], w2.dbs[t.ref], objects))
  }

  /** `d2` is `d` with members appended to one of its lists. */
  ghost predicate Extends(d: Datablock, d2: Datablock, objects: bool) {
    var ms, ms2 := Members(d, objects), Members(d2, objects);
    d2 == WithMembers(d, objects, ms2) && |ms| <= |ms2| && ms2[..|ms|] == ms
  }

  lemma AppendedTrans(w: World, w1: World, w2: World, t: Value, objects: bool)
    requires Appended(w, w1, t, objects) && Appended(w1, w2, t, objects)
    ensures Appended(w, w2, t, objects)
  {
    if t.VRef? && t.ref in w.dbs {
      var d, d1, d2 := w.dbs[t.ref], w1.dbs[t.ref], w2.dbs[t.ref];
      var ms, ms1, ms2 := Members(d, objects), Members(d1, objects), Members(d2, objects);
      assert ms2[..|ms1|][..|ms|] == ms2[..|ms|];
    }
  }

  /** One item: skipped unless it is an object (or collection); reading the
      name of a removed one, or the members of a target that is not a live
      datablock of the expected kind, raises; a name already present is
      skipped; otherwise the item is appended. */
  function LinkOne(w: World, t: Value, v: Value, objects: bool, tkind: Kind): (r: Linked)
    ensures r.w.dbs.Keys == w.dbs.Keys
    ensures r.raised <==> ItemOk(w, v, objects) && !(w.dbs[v.ref].alive && TargetOk(w, t, tkind))
    ensures !r.raised && ItemOk(w, v, objects) ==>
      NamedIn(r.w, Members(r.w.dbs[t.ref], objects), w.dbs[v.ref].name)
    ensures r.w != w ==>
      (ItemOk(w, v, objects) && TargetOk(w, t, tkind)
       && Members(r.w.dbs[t.ref], objects) == Members(w.dbs[t.ref], objects) + [v.ref])
  {
    if !ItemOk(w, v, objects) then Linked(w, false)
    else if !w.dbs[v.ref].alive || !TargetOk(w, t, tkind) then Linked(w, true)
    else
      var d := w.dbs[t.ref];
      var name := w.dbs[v.ref].name;
      if NamedIn(w, Members(d, objects), name) then Linked(w, false)
      else
        var ms := Members(d, objects) + [v.ref];
        var r := Linked(w.(dbs := w.dbs[t.ref := WithMembers(d, objects, ms)]), false);
        NamedInIff(r.w, ms, name);
        assert ms[|ms| - 1] == v.ref;
        r
  }

  /** `for item in items: ...`: the items in order, stopping at the first
      that raises. */
  function LinkSeq(w: World, t: Value, items: seq<Value>, objects: bool, tkind: Kind): (r: Linked)
    ensures r.w.dbs.Keys == w.dbs.Keys
    decreases |items|
  {
    if items == [] then Linked(w, false)
    else
      var r1 := LinkOne(w, t, items[0], objects, tkind);
      if r1.raised then r1
      else LinkSeq(r1.w, t, items[1..], objects, tkind)
  }

  /** One item appends at most itself to the target's list. */
  lemma LinkOneAppends(w: World, t: Value, v: Value, objects: bool, tkind: Kind)
    ensures Appended(w, LinkOne(w, t, v, objects, tkind).w, t, objects)
  {
    var r := LinkOne(w, t, v, objects, tkind);
    if r.w != w {
      var ms := Members(w.dbs[t.ref], objects);
      assert (ms + [v.ref])[..|ms|] == ms;
    }
  }

  /** A pass only appends to the target's list it writes. */
  lemma {:induction false} LinkSeqAppends(w: World, t: Value, items: seq<Value>, objects: bool, tkind: Kind)
    ensures Appended(w, LinkSeq(w, t, items, objects, tkind).w, t, objects)
    decreases |items|
  {
    if items != [] {
      var r1 := LinkOne(w, t, items[0], objects, tkind);
      LinkOneAppends(w, t, items[0], objects, tkind);
      if !r1.raised {
        LinkSeqAppends(r1.w, t, items[1..], objects, tkind);
        AppendedTrans(w, r1.w, LinkSeq(r1.w, t, items[1..], objects, tkind).w, t, objects);
      }
    }
  }

  /** Every item that is an object (or collection) is alive and already
      named in the live target's list. */
  ghost predicate Covered(w: World, t: Value, items: seq<Value>, objects: bool, tkind: Kind) {
    forall i :: 0 <= i < |items| ==> CoveredItem(w, t, items[i], objects, tkind)
  }

  /** The item, when it is an object (or collection), is alive and named
      in the live target's list. */
  ghost predicate CoveredItem(w: World, t: Value, v: Value, objects: bool, tkind: Kind) {
    ItemOk(w, v, objects) ==>
      w.dbs[v.ref].alive && TargetOk(w, t, tkind)
      && NamedIn(w, Members(w.dbs[t.ref], objects), w.dbs[v.ref].name)
  }

  /** Appending members keeps every name that was there. */
  lemma NamedInPrefix(w: World, w2: World, ms: seq<DbRef>, ms2: seq<DbRef>, name: string)
    requires w2.dbs.Keys == w.dbs.Keys && forall k :: k in w.dbs ==> w2.dbs[k].name == w.dbs[k].name
    requires |ms| <= |ms2| && ms2[..|ms|] == ms && NamedIn(w, ms, name)
    ensures NamedIn(w2, ms2, name)
  {
    NamedInIff(w, ms, name);
    NamedInIff(w2, ms2, name);
    var i :| 0 <= i < |ms| && ms[i] in w.dbs && w.dbs[ms[i]].name == name;
    assert ms2[i] == ms[i];
  }

  /** Coverage survives appending: names, kinds and liveness do not change. */
  lemma CoveredKept(w: World, w2: World, t: Value, items: seq<Value>, objects: bool, tkind: Kind, objects2: bool)
    requires Covered(w, t, items, objects, tkind) && Appended(w, w2, t, objects2)
    ensures Covered(w2, t, items, objects, tkind)
  {
    forall i | 0 <= i < |items| ensures CoveredItem(w2, t, items[i], objects, tkind) {
      CoveredItemKept(w, w2, t, items[i], objects, tkind, objects2);
    }
  }

  lemma CoveredItemKept(w: World, w2: World, t: Value, v: Value, objects: bool, tkind: Kind, objects2: bool)
    requires CoveredItem(w, t, v, objects, tkind) && Appended(w, w2, t, objects2)
    ensures CoveredItem(w2, t, v, objects, tkind)
  {
    AppendedKeeps(w, w2, t, objects2);
    if ItemOk(w2, v, objects) {
      AppendedMembers(w, w2, t, objects2, objects);
      NamedInPrefix(w, w2, Members(w.dbs[t.ref], objects), Members(w2.dbs[t.ref], objects), w.dbs[v.ref].name);
    }
  }

  /** Appending keeps every datablock's kind, name and liveness. */
  lemma AppendedKeeps(w: World, w2: World, t: Value, objects: bool)
    requires Appended(w, w2, t, objects)
    ensures forall k :: k in w.dbs ==>
      w2.dbs[k].kind == w.dbs[k].kind && w2.dbs[k].name == w.dbs[k].name && w2.dbs[k].alive == w.dbs[k].alive
  {
    if t.VRef? && t.ref in w.dbs {
      assert Extends(w.dbs[t.ref], w2.dbs[t.ref], objects);
    }
  }

  /** Each of the target's lists is extended (the one not written, kept). */
  lemma AppendedMembers(w: World, w2: World, t: Value, objects: bool, which: bool)
    requires Appended(w, w2, t, objects) && t.VRef? && t.ref in w.dbs
    ensures var ms, ms2 := Members(w.dbs[t.ref], which), Members(w2.dbs[t.ref], which);
      |ms| <= |ms2| && ms2[..|ms|] == ms
  {
    assert Extends(w.dbs[t.ref], w2.dbs[t.ref], objects);
  }

  /** A pass that does not raise leaves every item it accepts covered. */
  lemma {:induction false} LinkSeqCovers(w: World, t: Value, items: seq<Value>, objects: bool, tkind: Kind)
    ensures !LinkSeq(w, t, items, objects, tkind).raised ==> Covered(LinkSeq(w, t, items, objects, tkind).w, t, items, objects, tkind)
    decreases |items|
  {
    if items != [] {
      var r1 := LinkOne(w, t, items[0], objects, tkind);
      if !r1.raised {
        var r := LinkSeq(r1.w, t, items[1..], objects, tkind);
        LinkSeqCovers(r1.w, t, items[1..], objects, tkind);
        if !r.raised {
          LinkSeqAppends(r1.w, t, items[1..], objects, tkind);
          LinkOneCovers(w, t, items[0], objects, tkind);
          CoveredItemKept(r1.w, r.w, t, items[0], objects, tkind, objects);
          CoveredCons(r.w, t, items, objects, tkind);
        }
      }
    }
  }

  /** An item that does not raise is covered afterwards. */
  lemma LinkOneCovers(w: World, t: Value, v: Value, objects: bool, tkind: Kind)
    ensures var r := LinkOne(w, t, v, objects, tkind);
      !r.raised ==> CoveredItem(r.w, t, v, objects, tkind)
  {
    LinkOneAppends(w, t, v, objects, tkind);
    AppendedKeeps(w, LinkOne(w, t, v, objects, tkind).w, t, objects);
  }

  /** Coverage of a list from that of its head and of its tail. */
  lemma CoveredCons(w: World, t: Value, items: seq<Value>, objects: bool, tkind: Kind)
    requires items != [] && CoveredItem(w, t, items[0], objects, tkind) && Covered(w, t, items[1..], objects, tkind)
    ensures Covered(w, t, items, objects, tkind)
  {
    forall i | 0 <= i < |items| ensures CoveredItem(w, t, items[i], objects, tkind) {
      if i > 0 {
        assert items[i] == items[1..][i - 1];
      }
    }
  }

  /** A pass over covered items changes nothing and does not raise. */
  lemma {:induction false} CoveredNoop(w: World, t: Value, items: seq<Value>, objects: bool, tkind: Kind)
    requires Covered(w, t, items, objects, tkind)
    ensures LinkSeq(w, t, items, objects, tkind) == Linked(w, false)
    decreases |items|
  {
    if items != [] {
      assert LinkOne(w, t, items[0], objects, tkind) == Linked(w, false);
      assert Covered(w, t, items[1..], objects, tkind) by {
        forall i | 0 <= i < |items[1..]| ensures items[1..][i] == items[i + 1] {}
      }
      CoveredNoop(w, t, items[1..], objects, tkind);
    }
  }

  /** The loop of one pass, on the store. */
  method LinkItems(s: Store, t: Value, items: seq<Value>, objects: bool, tkind: Kind) returns (raised: bool)
    requires s.Valid()
    modifies s
    ensures s.Valid() && s.next == old(s.next) && s.order == old(s.order)
    ensures Linked(s.w, raised) == LinkSeq(old(s.w), t, items, objects, tkind)
  {
    var i := 0;
    while i < |items|
      invariant 0 <= i <= |items| && s.Valid() && s.next == old(s.next) && s.order == old(s.order)
      invariant LinkSeq(old(s.w), t, items, objects, tkind) == LinkSeq(s.w, t, items[i..], objects, tkind)
    {
      var v := items[i];
      assert items[i..][0] == v && items[i..][1..] == items[i + 1..];
      if ItemOk(s.w, v, objects) {
        if !s.w.dbs[v.ref].alive || !TargetOk(s.w, t, tkind) {
          return true;
        }
        if !NamedIn(s.w, Members(s.w.dbs[t.ref], objects), s.w.dbs[v.ref].name) {
          if objects {
            s.LinkObject(t.ref, v.ref);
          } else {
            s.LinkChild(t.ref, v.ref);
          }
        }
      }
      i := i + 1;
    }
    return false;
  }

  /** What a link node returns: its output, or the exception it raises. */
  datatype Outcome = Returns(v: Value) | Raises

  /** The node on worlds: with no target, `None` and nothing changes;
      otherwise the collection pass (when its input is truthy), then the
      object pass, then `{out: target}`. */
  /** A pass runs only when its input is truthy; a single item is a list
      of one. */
  function PassOn(w: World, t: Value, items: Value, objects: bool, tkind: Kind): (r: Linked)
    ensures r.w.dbs.Keys == w.dbs.Keys
  {
    LinkSeq(w, t, Items(items), objects, tkind)
  }

  /** The items a pass walks: none for a falsy input. */
  function Items(v: Value): seq<Value> {
    if Truthy(v) then AsList(v) else []
  }

  function LinkNode(w: World, target: Value, colls: Value, objs: Value, tkind: Kind, outId: string): (World, Outcome) {
    if !Truthy(target) then (w, Returns(VNone))
    else
      var r1 := PassOn(w, target, colls, false, tkind);
      if r1.raised then (r1.w, Raises)
      else
        var r2 := PassOn(r1.w, target, objs, true, tkind);
        if r2.raised then (r2.w, Raises)
        else (r2.w, Returns(Out(outId, target)))
  }

  method RunLinkNode(s: Store, target: Value, colls: Value, objs: Value, tkind: Kind, outId: string)
    returns (r: Outcome)
    requires s.Valid()
    modifies s
    ensures s.Valid() && s.next == old(s.next) && s.order == old(s.order)
    ensures (s.w, r) == LinkNode(old(s.w), target, colls, objs, tkind, outId)
  {
    if !Truthy(target) {
      return Returns(VNone);
    }
    r := Passes(s, target, colls, objs, tkind, outId);
  }

  /** The two passes under a truthy target. */
  method Passes(s: Store, target: Value, colls: Value, objs: Value, tkind: Kind, outId: string)
    returns (r: Outcome)
    requires s.Valid() && Truthy(target)
    modifies s
    ensures s.Valid() && s.next == old(s.next) && s.order == old(s.order)
    ensures (s.w, r) == LinkNode(old(s.w), target, colls, objs, tkind, outId)
  {
    ghost var w0 := s.w;
    var raised := Pass(s, target, colls, false, tkind);
    ghost var w1 := s.w;
    if !raised {
      raised := Pass(s, target, objs, true, tkind);
    }
    r := if raised then Raises else Returns(Out(outId, target));
    LinkNodeSteps(w0, w1, s.w, raised, target, colls, objs, tkind, outId);
  }

  lemma LinkNodeSteps(w0: World, w1: World, w2: World, raised: bool, target: Value, colls: Value, objs: Value, tkind: Kind, outId: string)
    requires Truthy(target)
    requires PassOn(w0, target, colls, false, tkind).w == w1
    requires PassOn(w0, target, colls, false, tkind).raised ==> raised && w2 == w1
    requires !PassOn(w0, target, colls, false, tkind).raised ==> Linked(w2, raised) == PassOn(w1, target, objs, true, tkind)
    ensures LinkNode(w0, target, colls, objs, tkind, outId) == (w2, if raised then Raises else Returns(Out(outId, target)))
  {
  }

  /** One pass, run only when its input is truthy. */
  method Pass(s: Store, target: Value, items: Value, objects: bool, tkind: Kind) returns (raised: bool)
    requires s.Valid()
    modifies s
    ensures s.Valid() && s.next == old(s.next) && s.order == old(s.order)
    ensures Linked(s.w, raised) == PassOn(old(s.w), target, items, objects, tkind)
  {
    raised := LinkItems(s, target, Items(items), objects, tkind);
  }

  /** `FN_link_to_collection.execute`: the target is a collection. */
  method LinkToCollection(s: Store, target: Value, colls: Value, objs: Value, outId: string)
    returns (r: Outcome)
    requires s.Valid()
    modifies s
    ensures s.Valid() && s.next == old(s.next) && s.order == old(s.order)
    ensures (s.w, r) == LinkNode(old(s.w), target, colls, objs, KCollection, outId)
  {
    r := RunLinkNode(s, target, colls, objs, KCollection, outId);
  }

  /** `FN_link_to_scene.execute`: the target is a scene, whose root
      collection holds the members. */
  method LinkToScene(s: Store, target: Value, colls: Value, objs: Value, outId: string)
    returns (r: Outcome)
    requires s.Valid()
    modifies s
    ensures s.Valid() && s.next == old(s.next) && s.order == old(s.order)
    ensures (s.w, r) == LinkNode(old(s.w), target, colls, objs, KScene, outId)
  {
    r := RunLinkNode(s, target, colls, objs, KScene, outId);
  }

  // ---------------------------------------------------------------------
  // What the node promises

  /** Running the node a second time on its own result changes nothing. */
  lemma LinkNodeIdempotent(w: World, target: Value, colls: Value, objs: Value, tkind: Kind, outId: string)
    requires LinkNode(w, target, colls, objs, tkind, outId).1.Returns?
    ensures var w2 := LinkNode(w, target, colls, objs, tkind, outId).0;
      LinkNode(w2, target, colls, objs, tkind, outId) == LinkNode(w, target, colls, objs, tkind, outId)
  {
    if Truthy(target) {
      var cs, os := Items(colls), Items(objs);
      var r1 := LinkSeq(w, target, cs, false, tkind);
      var r2 := LinkSeq(r1.w, target, os, true, tkind);
      LinkSeqCovers(w, target, cs, false, tkind);
      LinkSeqCovers(r1.w, target, os, true, tkind);
      LinkSeqAppends(r1.w, target, os, true, tkind);
      CoveredKept(r1.w, r2.w, target, cs, false, tkind, true);
      CoveredNoop(r2.w, target, cs, false, tkind);
      CoveredNoop(r2.w, target, os, true, tkind);
    }
  }

  /** After the node, every collection (object) item is named among the
      target's children (objects), and the only change is members appended
      to the target's two lists. */
  lemma LinkNodeCovers(w: World, target: Value, colls: Value, objs: Value, tkind: Kind, outId: string)
    requires Truthy(target) && LinkNode(w, target, colls, objs, tkind, outId).1.Returns?
    ensures var w2 := LinkNode(w, target, colls, objs, tkind, outId).0;
      (Truthy(colls) ==> Covered(w2, target, AsList(colls), false, tkind))
      && (Truthy(objs) ==> Covered(w2, target, AsList(objs), true, tkind))
  {
    var cs, os := Items(colls), Items(objs);
    var r1 := LinkSeq(w, target, cs, false, tkind);
    var r2 := LinkSeq(r1.w, target, os, true, tkind);
    LinkSeqCovers(w, target, cs, false, tkind);
    LinkSeqCovers(r1.w, target, os, true, tkind);
    LinkSeqAppends(r1.w, target, os, true, tkind);
    CoveredKept(r1.w, r2.w, target, cs, false, tkind, true);
  }

  /** The node changes no datablock but the target, and on the target only
      extends its children and objects lists. */
  lemma LinkNodeFrame(w: World, target: Value, colls: Value, objs: Value, tkind: Kind, outId: string)
    ensures var w2 := LinkNode(w, target, colls, objs, tkind, outId).0;
      w2.subs == w.subs && w2.dbs.Keys == w.dbs.Keys
      && (forall k :: k in w.dbs && target != VRef(k) ==> w2.dbs[k] == w.dbs[k])
      && (target.VRef? && target.ref in w.dbs ==>
            var d, d2 := w.dbs[target.ref], w2.dbs[target.ref];
            d2 == d.(children := d2.children, objects := d2.objects)
            && |d.children| <= |d2.children| && d2.children[..|d.children|] == d.children
            && |d.objects| <= |d2.objects| && d2.objects[..|d.objects|] == d.objects)
  {
    if Truthy(target) {
      var r1 := PassOn(w, target, colls, false, tkind);
      var r2 := PassOn(r1.w, target, objs, true, tkind);
      PassAppends(w, target, colls, false, tkind);
      PassAppends(r1.w, target, objs, true, tkind);
      if target.VRef? && target.ref in w.dbs {
        AppendedMembers(w, r1.w, target, false, true);
        AppendedMembers(r1.w, r2.w, target, true, false);
      }
    }
  }

  lemma PassAppends(w: World, t: Value, items: Value, objects: bool, tkind: Kind)
    ensures Appended(w, PassOn(w, t, items, objects, tkind).w, t, objects)
  {
    LinkSeqAppends(w, t, Items(items), objects, tkind);
  }

  /** Every member the node adds to the target's children (objects) is a
      collection (object) item of its input. */
  lemma LinkNodeAdds(w: World, target: Value, colls: Value, objs: Value, tkind: Kind, outId: string)
    requires target.VRef? && target.ref in w.dbs
    ensures var d, d2 := w.dbs[target.ref], LinkNode(w, target, colls, objs, tkind, outId).0.dbs[target.ref];
      (forall x :: x in d2.children && x !in d.children ==> VRef(x) in AsList(colls) && ItemOk(w, VRef(x), false))
      && (forall x :: x in d2.objects && x !in d.objects ==> VRef(x) in AsList(objs) && ItemOk(w, VRef(x), true))
  {
    if Truthy(target) {
      var r1 := PassOn(w, target, colls, false, tkind);
      var r2 := PassOn(r1.w, target, objs, true, tkind);
      PassAdds(w, target, colls, false, tkind);
      PassAdds(r1.w, target, objs, true, tkind);
      PassAppends(w, target, colls, false, tkind);
      PassAppends(r1.w, target, objs, true, tkind);
      AppendedKeeps(w, r1.w, target, false);
      assert Extends(w.dbs[target.ref], r1.w.dbs[target.ref], false);
      assert Extends(r1.w.dbs[target.ref], r2.w.dbs[target.ref], true);
    }
  }

  /** What one pass appends are items of its input, of the pass's kind. */
  lemma PassAdds(w: World, t: Value, items: Value, objects: bool, tkind: Kind)
    requires t.VRef? && t.ref in w.dbs
    ensures var ms, ms2 := Members(w.dbs[t.ref], objects), Members(PassOn(w, t, items, objects, tkind).w.dbs[t.ref], objects);
      forall x :: x in ms2 && x !in ms ==> VRef(x) in AsList(items) && ItemOk(w, VRef(x), objects)
  {
    var cs := Items(items);
    forall x | x in Members(LinkSeq(w, t, cs, objects, tkind).w.dbs[t.ref], objects) && x !in Members(w.dbs[t.ref], objects)
      ensures VRef(x) in AsList(items) && ItemOk(w, VRef(x), objects)
    {
      LinkSeqAddsItems(w, t, cs, objects, tkind, x);
    }
  }

  /** Only items of the pass's kind are ever appended, one at a time. */
  lemma {:induction false} LinkSeqAddsItems(w: World, t: Value, items: seq<Value>, objects: bool, tkind: Kind, x: DbRef)
    requires t.VRef? && t.ref in w.dbs
    ensures var w2 := LinkSeq(w, t, items, objects, tkind).w;
      x in Members(w2.dbs[t.ref], objects) && x !in Members(w.dbs[t.ref], objects) ==>
        VRef(x) in items && ItemOk(w, VRef(x), objects)
    decreases |items|
  {
    if items != [] {
      var r1 := LinkOne(w, t, items[0], objects, tkind);
      if !r1.raised {
        LinkSeqAddsItems(r1.w, t, items[1..], objects, tkind, x);
        LinkOneAdds(w, t, items[0], objects, tkind, x);
        assert forall v :: v in items[1..] ==> v in items;
      }
    }
  }

  /** A member new after one item is that item, or was new after the rest;
      a kind test passed after the item also passed before it. */
  lemma LinkOneAdds(w: World, t: Value, v: Value, objects: bool, tkind: Kind, x: DbRef)
    requires t.VRef? && t.ref in w.dbs
    ensures var w1 := LinkOne(w, t, v, objects, tkind).w;
      (x in Members(w1.dbs[t.ref], objects) && x !in Members(w.dbs[t.ref], objects) ==> v == VRef(x) && ItemOk(w, v, objects))
      && (ItemOk(w1, VRef(x), objects) ==> ItemOk(w, VRef(x), objects))
  {
  }
}
