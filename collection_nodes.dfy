/** The collection nodes Set Collection and Parent Collection. Collection
    membership lives in the prims themselves: the list
    `properties['_fn_relationships']['collection_links']` holds the paths of
    the collections a prim belongs to. Both nodes work on a clone of their
    input tree and edit those lists in place. */
module CollectionNodes {
  import opened Base
  import opened Strings
  import opened ProxyArena
  import opened ProxyTypes
  import opened EngineUtils
  import opened TreeNodes

  const RelKey := "_fn_relationships"
  const LinksKey := "collection_links"

  /** The relationships dictionary of a prim; a missing one (or one that is
      not a dictionary) reads as empty. */
  function RelsOf(props: Props): map<string, Value> {
    if RelKey in props && props[RelKey].VDict? then props[RelKey].d else map[]
  }

  /** The collection links of a prim; missing ones read as the empty list. */
  function LinksOf(props: Props): seq<Value> {
    var rels := RelsOf(props);
    if LinksKey in rels && rels[LinksKey].VList? then rels[LinksKey].items else []
  }

  /** What the nodes do to one prim's links: `Link(path, move)` is
      `setdefault` of the dictionary and the list, `clear()` when moving, and
      `append(path)` when absent; `Unlink(path)` is `list.remove(path)` when
      the list holds the path, and nothing otherwise. */
  datatype Edit = Link(path: string, move: bool) | Unlink(path: string)

  function Apply(props: Props, e: Edit): (r: Props)
    ensures forall k :: k != RelKey ==> (k in r <==> k in props)
    ensures forall k :: k in props && k != RelKey ==> r[k] == props[k]
  {
    var rels, links := RelsOf(props), LinksOf(props);
    match e
    case Link(path, move) =>
      var kept := if move then [] else links;
      var now := if VStr(path) in kept then kept else kept + [VStr(path)];
      props[RelKey := VDict(rels[LinksKey := VList(now)])]
    case Unlink(path) =>
      if VStr(path) in links then props[RelKey := VDict(rels[LinksKey := VList(RemoveFirst(links, VStr(path)))])]
      else props
  }

  /** The type and name of a prim are out of reach of an edit. */
  lemma ApplyKeepsTypeAndName(props: Props, e: Edit)
    ensures Get(Apply(props, e), "datablock_type") == Get(props, "datablock_type")
    ensures Get(Apply(props, e), "name") == Get(props, "name")
  {
    assert |RelKey| == 17 && |"datablock_type"| == 14 && |"name"| == 4;
  }

  /** Linking puts the path into the list exactly once when it was absent,
      keeps every earlier link unless moving, and leaves the other
      relationships alone. */
  lemma LinkAdds(props: Props, path: string, move: bool)
    ensures var r := Apply(props, Link(path, move));
      VStr(path) in LinksOf(r)
      && (move ==> LinksOf(r) == [VStr(path)])
      && (!move && VStr(path) in LinksOf(props) ==> LinksOf(r) == LinksOf(props))
      && (!move && VStr(path) !in LinksOf(props) ==> LinksOf(r) == LinksOf(props) + [VStr(path)])
      && forall k :: k != LinksKey ==>
          (k in RelsOf(r) <==> k in RelsOf(props)) && (k in RelsOf(props) ==> RelsOf(r)[k] == RelsOf(props)[k])
  {
  }

  /** Linking the same path twice is linking it once. */
  lemma LinkIdempotent(props: Props, path: string, move: bool)
    ensures Apply(Apply(props, Link(path, move)), Link(path, move)) == Apply(props, Link(path, move))
  {
    var r := Apply(props, Link(path, move));
    LinkAdds(props, path, move);
    assert RelsOf(r)[LinksKey := VList(LinksOf(r))] == RelsOf(r);
    assert r[RelKey := VDict(RelsOf(r))] == r;
  }

  /** Moving to one path and then to another is moving to the second. */
  lemma MoveAbsorbs(props: Props, a: string, b: string)
    ensures Apply(Apply(props, Link(a, true)), Link(b, true)) == Apply(props, Link(b, true))
  {
    var rels := RelsOf(props);
    var p1 := Apply(props, Link(a, true));
    var none: seq<Value> := [];
    assert none + [VStr(a)] == [VStr(a)] && none + [VStr(b)] == [VStr(b)];
    assert p1 == props[RelKey := VDict(rels[LinksKey := VList([VStr(a)])])];
    assert RelsOf(p1) == rels[LinksKey := VList([VStr(a)])];
    assert RelsOf(p1)[LinksKey := VList([VStr(b)])] == rels[LinksKey := VList([VStr(b)])];
    assert Apply(p1, Link(b, true)) == p1[RelKey := VDict(rels[LinksKey := VList([VStr(b)])])];
  }

  /** Unlinking takes out the first occurrence of the path; when the list
      held it once, the path is gone afterwards. */
  lemma UnlinkRemoves(props: Props, path: string)
    ensures LinksOf(Apply(props, Unlink(path))) == RemoveFirst(LinksOf(props), VStr(path))
    ensures NoDup(LinksOf(props)) ==> VStr(path) !in LinksOf(Apply(props, Unlink(path)))
  {
    var links := LinksOf(props);
    if NoDup(links) && VStr(path) in links {
      RemoveFirstNoDup(links, VStr(path));
    }
  }

  /** Taking the first `x` out of a list without repeats leaves no `x`. */
  lemma {:induction false} RemoveFirstNoDup<T>(s: seq<T>, x: T)
    requires NoDup(s) && x in s
    ensures x !in RemoveFirst(s, x) && NoDup(RemoveFirst(s, x))
  {
    TailNoDup(s);
    if s[0] != x {
      RemoveFirstNoDup(s[1..], x);
      var t := RemoveFirst(s[1..], x);
      RemoveFirstSub(s[1..], x);
      forall i, j | 0 <= i < j < |[s[0]] + t| ensures ([s[0]] + t)[i] != ([s[0]] + t)[j] {
        if i == 0 {
          assert ([s[0]] + t)[j] == t[j - 1];
        } else {
          assert ([s[0]] + t)[i] == t[i - 1] && ([s[0]] + t)[j] == t[j - 1];
        }
      }
    }
  }

  /** `list.remove` keeps only elements of the list. */
  lemma {:induction false} RemoveFirstSub<T>(s: seq<T>, x: T)
    ensures forall y :: y in RemoveFirst(s, x) ==> y in s
  {
    if s != [] && s[0] != x {
      RemoveFirstSub(s[1..], x);
    }
  }

  /** Removing a link that was just added restores the list. */
  lemma UnlinkUndoesLink(props: Props, path: string)
    requires VStr(path) !in LinksOf(props)
    ensures LinksOf(Apply(Apply(props, Link(path, false)), Unlink(path))) == LinksOf(props)
  {
    LinkAdds(props, path, false);
    UnlinkRemoves(Apply(props, Link(path, false)), path);
    RemoveFirstLast(LinksOf(props), VStr(path));
  }

  lemma {:induction false} RemoveFirstLast<T>(s: seq<T>, x: T)
    requires x !in s
    ensures RemoveFirst(s + [x], x) == s
  {
    if s == [] {
      assert [x][1..] == [];
    } else {
      assert (s + [x])[1..] == s[1..] + [x];
      RemoveFirstLast(s[1..], x);
      assert s == [s[0]] + s[1..];
    }
  }

  // ---------------------------------------------------------------------
  // Editing the links of several prims, one after the other

  /** The arena after the loop `for prim in hs: <edit prim>` has run. */
  function EditSeq(m: Arena, hs: seq<Handle>, e: Edit): (r: Arena)
    ensures r.Keys == m.Keys
    ensures forall k :: k in m ==> r[k] == m[k].(props := r[k].props)
    ensures forall k :: k in m && k !in hs ==> r[k] == m[k]
    decreases |hs|
  {
    if hs == [] then m
    else
      var r0 := EditSeq(m, hs[..|hs| - 1], e);
      var k := hs[|hs| - 1];
      if k in r0 then r0[k := r0[k].(props := Apply(r0[k].props, e))] else r0
  }

  /** Editing a list without repeats edits each of its prims once. */
  lemma {:induction false} EditSeqOnce(m: Arena, hs: seq<Handle>, e: Edit, k: Handle)
    requires NoDup(hs) && k in hs && k in m
    ensures EditSeq(m, hs, e)[k].props == Apply(m[k].props, e)
    decreases |hs|
  {
    var init := hs[..|hs| - 1];
    if hs[|hs| - 1] != k {
      assert k in init by {
        var i :| 0 <= i < |hs| && hs[i] == k;
        assert init[i] == k;
      }
      assert NoDup(init);
      EditSeqOnce(m, init, e, k);
    } else {
      assert k !in init by {
        forall i | 0 <= i < |init| ensures init[i] != k {
          assert init[i] == hs[i];
        }
      }
    }
  }

  /** Editing keeps the arena well formed and its listings unchanged. */
  lemma EditSeqShape(m: Arena, n: nat, hs: seq<Handle>, e: Edit)
    requires WF(m, n)
    ensures SameShape(m, EditSeq(m, hs, e)) && WF(EditSeq(m, hs, e), n)
    ensures forall h :: h in m ==> Flat(EditSeq(m, hs, e), n, h) == Flat(m, n, h)
  {
    var r := EditSeq(m, hs, e);
    assert SameShape(m, r);
    forall h | h in m ensures WF(r, n) && Flat(r, n, h) == Flat(m, n, h) {
      ShapeFlat(m, r, n, h);
    }
    if m == map[] {
      assert WF(r, n);
    } else {
      var h :| h in m;
      ShapeFlat(m, r, n, h);
    }
  }

  /** The edit loop of the nodes: each prim of `hs` gets the edit `e`. */
  method EditAll(heap: ProxyHeap, hs: seq<Handle>, e: Edit)
    requires heap.Valid()
    modifies heap
    ensures heap.Valid() && heap.next == old(heap.next)
    ensures heap.prims == EditSeq(old(heap.prims), hs, e)
  {
    ghost var m0 := heap.prims;
    var i := 0;
    while i < |hs|
      invariant 0 <= i <= |hs| && heap.next == old(heap.next)
      invariant heap.prims == EditSeq(m0, hs[..i], e)
    {
      var x := hs[i];
      assert hs[..i + 1][..i] == hs[..i];
      if x in heap.prims {
        heap.prims := heap.prims[x := heap.prims[x].(props := Apply(heap.prims[x].props, e))];
      }
      i := i + 1;
    }
    assert hs[..i] == hs;
    EditSeqShape(m0, heap.next, hs, e);
  }

  // ---------------------------------------------------------------------
  // Set Collection on arenas

  datatype Mode = Add | Remove | Create

  /** The properties of a collection prim the node makes. */
  function CollectionProps(name: string): Props {
    map["datablock_type" := VStr("COLLECTION"), "name" := VStr(name)]
  }

  /** The collection prim for `name`: the first child of the root named
      `name`, which is where the node puts the collections it makes. */
  function Lookup(m: Arena, n: nat, c: Handle, name: string): (r: Option<Handle>)
    requires WF(m, n) && c in m
    ensures r.Some? ==> r.value in m[c].children && LastSegment(m[r.value].path) == name
    ensures r.None? ==> forall k :: k in m[c].children ==> LastSegment(m[k].path) != name
  {
    NamedChildSpec(m, m[c].children, name);
    NamedChild(m, m[c].children, name)
  }

  lemma {:induction false} NamedChildSpec(m: Arena, ks: seq<Handle>, name: string)
    requires forall i :: 0 <= i < |ks| ==> ks[i] in m
    ensures NamedChild(m, ks, name).Some? ==>
      NamedChild(m, ks, name).value in ks && LastSegment(m[NamedChild(m, ks, name).value].path) == name
    ensures NamedChild(m, ks, name).None? ==> forall k :: k in ks ==> LastSegment(m[k].path) != name
    decreases |ks|
  {
    if ks != [] {
      NamedChildStep(m, ks, name);
      NamedChildSpec(m, ks[1..], name);
    }
  }

  /** `prim.parent.children.remove(prim)`: only the parent's list changes. */
  function Detach(m: Arena, x: Handle): (r: Arena)
    ensures r.Keys == m.Keys
    ensures forall k :: k in m ==> r[k] == m[k].(children := r[k].children)
  {
    if x in m && m[x].parent.Some? && m[x].parent.value in m then
      var p := m[x].parent.value;
      m[p := m[p].(children := RemoveFirst(m[p].children, x))]
    else m
  }

  /** A list without repeats keeps none after `list.remove`. */
  lemma RemoveFirstKeepsNoDup<T>(s: seq<T>, x: T)
    requires NoDup(s)
    ensures NoDup(RemoveFirst(s, x))
  {
    if x in s {
      RemoveFirstNoDup(s, x);
    }
  }

  /** Every entry of `RemoveFirst(s, x)` sits somewhere in `s`. */
  lemma RemoveFirstIndex<T>(s: seq<T>, x: T, i: nat)
    requires i < |RemoveFirst(s, x)|
    ensures exists j :: 0 <= j < |s| && s[j] == RemoveFirst(s, x)[i]
  {
    RemoveFirstSub(s, x);
    assert RemoveFirst(s, x)[i] in RemoveFirst(s, x);
  }

  /** Every child slot after `Detach` holds a handle some slot held before. */
  lemma DetachSlotFrom(m: Arena, x: Handle, h: Handle, i: int)
    requires h in Detach(m, x) && 0 <= i < |Detach(m, x)[h].children|
    ensures exists j :: 0 <= j < |m[h].children| && m[h].children[j] == Detach(m, x)[h].children[i]
  {
    if x in m && m[x].parent.Some? && m[x].parent.value in m && h == m[x].parent.value {
      RemoveFirstIndex(m[h].children, x, i);
    } else {
      assert Detach(m, x)[h].children[i] == m[h].children[i];
    }
  }

  lemma DetachSlotsUnique(m: Arena, n: nat, x: Handle)
    requires WF(m, n)
    ensures SlotsUnique(Detach(m, x))
  {
    var r := Detach(m, x);
    if x in m && m[x].parent.Some? && m[x].parent.value in m {
      var p := m[x].parent.value;
      ChildrenNoDup(m, n, p);
      RemoveFirstKeepsNoDup(m[p].children, x);
      forall h1, i, h2, j | h1 in r && h2 in r && 0 <= i < |r[h1].children| && 0 <= j < |r[h2].children|
        && r[h1].children[i] == r[h2].children[j]
        ensures h1 == h2 && i == j
      {
        var v := r[h1].children[i];
        DetachSlotFrom(m, x, h1, i);
        DetachSlotFrom(m, x, h2, j);
        var i1 :| 0 <= i1 < |m[h1].children| && m[h1].children[i1] == v;
        var j1 :| 0 <= j1 < |m[h2].children| && m[h2].children[j1] == v;
        assert h1 == h2;
      }
    }
  }

  lemma DetachWF(m: Arena, n: nat, x: Handle)
    requires WF(m, n)
    ensures WF(Detach(m, x), n)
  {
    forall h, i | h in Detach(m, x) && 0 <= i < |Detach(m, x)[h].children|
      ensures Detach(m, x)[h].children[i] in m && h < Detach(m, x)[h].children[i]
    {
      DetachSlotFrom(m, x, h, i);
    }
    DetachSlotsUnique(m, n, x);
  }

  /** The new collection prim at the next handle, appended to the root's
      children with no parent set. */
  function AddCollection(m: Arena, n: nat, c: Handle, name: string, id: Uuid): (r: Arena)
    requires c in m
    ensures r.Keys == m.Keys + {n}
  {
    var m1 := AllocAt(m, n, Prim("/" + name, id, CollectionProps(name), None, []));
    m1[c := m1[c].(children := m1[c].children + [n])]
  }

  /** Appending an orphan to an earlier prim's children, without setting its
      parent, keeps the arena well formed. */
  lemma AppendWF(m: Arena, n: nat, c: Handle, h: Handle)
    requires WF(m, n) && c in m && h in m && c < h && Orphan(m, h)
    ensures WF(m[c := m[c].(children := m[c].children + [h])], n)
  {
    var m2 := m[c := m[c].(children := m[c].children + [h])];
    forall k, i | k in m2 && 0 <= i < |m2[k].children| && !(k == c && i == |m[c].children|)
      ensures k in m && i < |m[k].children| && m2[k].children[i] == m[k].children[i]
    {
    }
  }

  lemma AddCollectionWF(m: Arena, n: nat, c: Handle, name: string, id: Uuid)
    requires WF(m, n) && c in m && id != ""
    ensures WF(AddCollection(m, n, c, name, id), n + 1)
  {
    var p := Prim("/" + name, id, CollectionProps(name), None, []);
    AllocWF(m, n, p);
    var m1 := AllocAt(m, n, p);
    assert Orphan(m1, n) by {
      forall k, i | k in m1 && 0 <= i < |m1[k].children| ensures m1[k].children[i] != n {
        if k != n { assert m1[k].children[i] == m[k].children[i]; }
      }
    }
    AppendWF(m1, n + 1, c, n);
  }

  /** The prim a pass of the loop links, once the lookup and the CREATE
      replacement are done: the existing one, or a new one at handle `n`. */
  function Target(found: Option<Handle>, n: nat, mode: Mode): Option<Handle> {
    if mode == Remove then found
    else if mode == Create || found.None? then Some(n)
    else found
  }

  /** The first half of a pass, on arenas: the lookup, the CREATE
      replacement and the creation of a missing collection prim. Returns the
      new arena, the next free handle and the prim the pass links. */
  ghost function Prepare(m: Arena, n: nat, c: Handle, name: string, mode: Mode, id: Uuid): (Arena, nat, Option<Handle>)
    requires WF(m, n) && c in m
  {
    var found := Lookup(m, n, c, name);
    var t := Target(found, n, mode);
    var made := mode != Remove && t == Some(n);
    var m1 := Replaced(m, n, c, name, mode);
    (if made then AddCollection(m1, n, c, name, id) else m1, if made then n + 1 else n, t)
  }

  /** The CREATE replacement on arenas, when the collection is found: its
      path leaves the links of every prim of the tree, and the old prim
      leaves its parent's children. In the other cases the arena as it is. */
  ghost function Replaced(m: Arena, n: nat, c: Handle, name: string, mode: Mode): (r: Arena)
    requires WF(m, n) && c in m
    ensures r.Keys == m.Keys
  {
    var found := Lookup(m, n, c, name);
    if mode == Create && found.Some? then Detach(EditSeq(m, Bfs(m, n, [c]), Unlink("/" + name)), found.value)
    else m
  }

  /** The replacement keeps the arena well formed and every record's path
      and parent; it edits the links of the prims of the tree under `c` and
      of no other. */
  lemma ReplacedFacts(m: Arena, n: nat, c: Handle, name: string, mode: Mode)
    requires WF(m, n) && c in m
    ensures var r := Replaced(m, n, c, name, mode);
      WF(r, n) && forall k :: k in m ==> r[k].path == m[k].path && r[k].parent == m[k].parent
  {
    var found := Lookup(m, n, c, name);
    if mode == Create && found.Some? {
      ReplaceKeeps(m, n, c, "/" + name, found.value);
    }
  }

  lemma ReplacedProps(m: Arena, n: nat, c: Handle, name: string, k: Handle)
    requires WF(m, n) && c in m && Lookup(m, n, c, name).Some? && k in m
    ensures Replaced(m, n, c, name, Create)[k].props ==
      if k in Flat(m, n, c) then Apply(m[k].props, Unlink("/" + name)) else m[k].props
  {
    var f := Lookup(m, n, c, name).value;
    var path := "/" + name;
    BfsSubtree(m, n, c);
    var m0 := EditSeq(m, Bfs(m, n, [c]), Unlink(path));
    if k in Flat(m, n, c) {
      EditSeqOnce(m, Bfs(m, n, [c]), Unlink(path), k);
    }
    assert Detach(m0, f)[k].props == m0[k].props;
  }

  lemma PrepareIs(m: Arena, n: nat, c: Handle, name: string, mode: Mode, id: Uuid, found: Option<Handle>, m1: Arena)
    requires WF(m, n) && c in m && found == Lookup(m, n, c, name)
    requires m1 == Replaced(m, n, c, name, mode)
    ensures var t := Target(found, n, mode);
      var made := mode != Remove && t == Some(n);
      Prepare(m, n, c, name, mode, id) == (if made then AddCollection(m1, n, c, name, id) else m1, if made then n + 1 else n, t)
  {
  }

  /** The second half of a pass, on arenas: when there is a prim `t` to link,
      the affected prims are linked to (unlinked from, in REMOVE mode) its
      path, and `t` itself is linked under `/root` when asked. */
  function Links(m: Arena, affected: seq<Handle>, path: string, mode: Mode, move: bool,
                 toScene: bool, t: Option<Handle>): (r: Arena)
    ensures r.Keys == m.Keys
    ensures forall k :: k in m ==> r[k] == m[k].(props := r[k].props)
  {
    var m3 := if t.None? then m else EditSeq(m, affected, if mode == Remove then Unlink(path) else Link(path, move));
    if toScene && t.Some? then EditSeq(m3, [t.value], Link("/root", false)) else m3
  }

  /** One pass of the loop over collection names, on arenas: returns the new
      arena and the next free handle. */
  ghost function Step(m: Arena, n: nat, c: Handle, affected: seq<Handle>, name: string,
                      mode: Mode, move: bool, toScene: bool, id: Uuid): (Arena, nat)
    requires WF(m, n) && c in m
  {
    var p := Prepare(m, n, c, name, mode, id);
    (Links(p.0, affected, "/" + name, mode, move, toScene, p.2), p.1)
  }

  /** The CREATE replacement: `path` leaves every prim's links in the tree
      under `c`, and the old collection prim `x` leaves its parent's children. */
  method Replace(heap: ProxyHeap, c: Handle, path: string, x: Handle)
    requires heap.Valid() && c in heap.prims && x in heap.prims
    modifies heap
    ensures heap.Valid() && heap.next == old(heap.next)
    ensures heap.prims == Detach(EditSeq(old(heap.prims), Bfs(old(heap.prims), old(heap.next), [c]), Unlink(path)), x)
  {
    var all := BreadthFirst(heap, c);
    EditAll(heap, all, Unlink(path));
    ghost var m1 := heap.prims;
    var par := heap.prims[x].parent;
    if par.Some? {
      var p := par.value;
      heap.prims := heap.prims[p := heap.prims[p].(children := RemoveFirst(heap.prims[p].children, x))];
    }
    DetachWF(m1, heap.next, x);
  }

  /** `DatablockProxy(path='/' + name, fn_uuid=id)` with its two properties,
      appended to the root's children. */
  method MakeCollection(heap: ProxyHeap, c: Handle, name: string, id: Uuid) returns (h: Handle)
    requires heap.Valid() && c in heap.prims && id != ""
    modifies heap
    ensures heap.Valid() && h == old(heap.next) && heap.next == h + 1
    ensures heap.prims == AddCollection(old(heap.prims), old(heap.next), c, name, id)
  {
    AddCollectionWF(heap.prims, heap.next, c, name, id);
    h := heap.NewProxy("/" + name, id, CollectionProps(name), None, id);
    heap.prims := heap.prims[c := heap.prims[c].(children := heap.prims[c].children + [h])];
  }

  /** The first half of a pass: the lookup, the CREATE replacement and the
      creation of a missing collection prim. */
  method Locate(heap: ProxyHeap, c: Handle, name: string, mode: Mode, id: Uuid)
    returns (found: Option<Handle>, prim: Option<Handle>)
    requires heap.Valid() && c in heap.prims && id != ""
    modifies heap
    ensures heap.Valid() && c in heap.prims
    ensures found == Lookup(old(heap.prims), old(heap.next), c, name)
    ensures heap.prims == Prepare(old(heap.prims), old(heap.next), c, name, mode, id).0
    ensures heap.next == Prepare(old(heap.prims), old(heap.next), c, name, mode, id).1
    ensures prim == Prepare(old(heap.prims), old(heap.next), c, name, mode, id).2
  {
    ghost var m, n := heap.prims, heap.next;
    found := heap.ChildNamed(c, name);
    prim := found;
    if mode == Create && found.Some? {
      Replace(heap, c, "/" + name, found.value);
      prim := None;
    }
    ghost var m1 := heap.prims;
    assert prim == if mode == Create && found.Some? then None else found;
    if mode != Remove && prim.None? {
      var h := MakeCollection(heap, c, name, id);
      prim := Some(h);
    }
    PrepareIs(m, n, c, name, mode, id, found, m1);
  }

  /** The second half of a pass: the affected prims are linked to (or, in
      REMOVE mode, unlinked from) the collection, and the collection is
      linked under `/root`. */
  method LinkPhase(heap: ProxyHeap, affected: seq<Handle>, path: string, mode: Mode, move: bool,
                   toScene: bool, prim: Option<Handle>)
    requires heap.Valid()
    modifies heap
    ensures heap.Valid() && heap.next == old(heap.next) && heap.prims.Keys == old(heap.prims).Keys
    ensures heap.prims == Links(old(heap.prims), affected, path, mode, move, toScene, prim)
  {
    if prim.Some? {
      EditAll(heap, affected, if mode == Remove then Unlink(path) else Link(path, move));
    }
    if toScene && prim.Some? {
      EditAll(heap, [prim.value], Link("/root", false));
    }
  }

  /** One pass of the loop over collection names in
      `FN_set_collection.execute`: look the collection up, replace it in
      CREATE mode, make it when missing (ADD, CREATE), link or unlink the
      affected prims, and link the collection itself under `/root`. */
  method CollectionPass(heap: ProxyHeap, c: Handle, affected: seq<Handle>, name: string,
                        mode: Mode, move: bool, toScene: bool, id: Uuid)
    requires heap.Valid() && c in heap.prims && id != ""
    modifies heap
    ensures heap.Valid() && c in heap.prims
    ensures (heap.prims, heap.next) == Step(old(heap.prims), old(heap.next), c, affected, name, mode, move, toScene, id)
  {
    var found, prim := Locate(heap, c, name, mode, id);
    LinkPhase(heap, affected, "/" + name, mode, move, toScene, prim);
  }

  // ---------------------------------------------------------------------
  // What one pass does

  /** Editing prims that the edit leaves as they are changes nothing. */
  lemma {:induction false} EditSeqNoop(m: Arena, hs: seq<Handle>, e: Edit)
    requires forall k :: k in hs && k in m ==> Apply(m[k].props, e) == m[k].props
    ensures EditSeq(m, hs, e) == m
    decreases |hs|
  {
    if hs != [] {
      var init := hs[..|hs| - 1];
      assert forall k :: k in init ==> k in hs;
      EditSeqNoop(m, init, e);
      var k := hs[|hs| - 1];
      if k in m {
        assert m[k := m[k].(props := Apply(m[k].props, e))] == m;
      }
    }
  }

  /** Adding the collection prim keeps every earlier record's path and
      parent. */
  lemma AddCollectionKeeps(m: Arena, n: nat, c: Handle, name: string, id: Uuid)
    requires WF(m, n) && c in m && id != ""
    ensures var r := AddCollection(m, n, c, name, id);
      WF(r, n + 1) && n in r && r[n].path == "/" + name && r[n].parent == None
      && forall k :: k in m ==> r[k].path == m[k].path && r[k].parent == m[k].parent
  {
    AddCollectionWF(m, n, c, name, id);
  }

  /** The CREATE replacement keeps every record's path and parent. */
  lemma ReplaceKeeps(m: Arena, n: nat, c: Handle, path: string, x: Handle)
    requires WF(m, n) && c in m
    ensures var r := Detach(EditSeq(m, Bfs(m, n, [c]), Unlink(path)), x);
      WF(r, n) && r.Keys == m.Keys
      && forall k :: k in m ==> r[k].path == m[k].path && r[k].parent == m[k].parent
  {
    var m0 := EditSeq(m, Bfs(m, n, [c]), Unlink(path));
    EditSeqShape(m, n, Bfs(m, n, [c]), Unlink(path));
    DetachWF(m0, n, x);
    var r := Detach(m0, x);
    forall k | k in m ensures r[k].path == m[k].path && r[k].parent == m[k].parent {
      assert r[k].path == m0[k].path && r[k].parent == m0[k].parent;
    }
  }

  /** The first half of a pass keeps every record's path and keeps the arena
      well formed, and the prim it links is in the arena. */
  lemma PrepareFacts(m: Arena, n: nat, c: Handle, name: string, mode: Mode, id: Uuid)
    requires WF(m, n) && c in m && id != ""
    ensures var p := Prepare(m, n, c, name, mode, id);
      WF(p.0, p.1) && c in p.0 && m.Keys <= p.0.Keys && n <= p.1
      && (forall k :: k in m ==> p.0[k].path == m[k].path && p.0[k].parent == m[k].parent)
      && (p.2.Some? ==> p.2.value in p.0)
      && (mode != Remove ==> p.2.Some?)
  {
    var found := Lookup(m, n, c, name);
    var m1 := Replaced(m, n, c, name, mode);
    ReplacedFacts(m, n, c, name, mode);
    PrepareIs(m, n, c, name, mode, id, found, m1);
    if mode != Remove && Target(found, n, mode) == Some(n) {
      AddCollectionKeeps(m1, n, c, name, id);
    }
  }

  /** The second half of a pass in ADD and CREATE mode: each affected prim
      links the path; moving leaves it as the only link, unless the prim is
      the collection itself and is then linked under `/root`. */
  lemma LinksAffected(m: Arena, affected: seq<Handle>, path: string, move: bool, toScene: bool,
                      t: Handle, a: Handle)
    requires NoDup(affected) && a in affected && a in m
    ensures var r := Links(m, affected, path, Add, move, toScene, Some(t));
      VStr(path) in LinksOf(r[a].props)
      && (move && (!toScene || t != a) ==> LinksOf(r[a].props) == [VStr(path)])
  {
    var m3 := EditSeq(m, affected, Link(path, move));
    EditSeqOnce(m, affected, Link(path, move), a);
    LinkAdds(m[a].props, path, move);
    if toScene && t == a {
      EditSeqOnce(m3, [t], Link("/root", false), a);
      LinkAdds(m3[a].props, "/root", false);
    }
  }

  /** The second half of a pass in REMOVE mode, once the collection is
      found: each affected prim loses the first occurrence of the path. */
  lemma LinksRemoved(m: Arena, affected: seq<Handle>, path: string, toScene: bool, t: Handle, a: Handle)
    requires NoDup(affected) && a in affected && a in m && (!toScene || t != a)
    ensures LinksOf(Links(m, affected, path, Remove, false, toScene, Some(t))[a].props)
      == RemoveFirst(LinksOf(m[a].props), VStr(path))
  {
    EditSeqOnce(m, affected, Unlink(path), a);
    UnlinkRemoves(m[a].props, path);
  }

  /** A pass keeps the arena well formed, keeps every record's path and
      parent, and never gives back a handle. */
  lemma StepFacts(m: Arena, n: nat, c: Handle, affected: seq<Handle>, name: string,
                  mode: Mode, move: bool, toScene: bool, id: Uuid)
    requires WF(m, n) && c in m && id != ""
    ensures var s := Step(m, n, c, affected, name, mode, move, toScene, id);
      WF(s.0, s.1) && c in s.0 && m.Keys <= s.0.Keys && n <= s.1
      && forall k :: k in m ==> s.0[k].path == m[k].path && s.0[k].parent == m[k].parent
  {
    var p := Prepare(m, n, c, name, mode, id);
    PrepareFacts(m, n, c, name, mode, id);
    var path := "/" + name;
    var m3 := if p.2.None? then p.0 else EditSeq(p.0, affected, if mode == Remove then Unlink(path) else Link(path, move));
    EditSeqShape(p.0, p.1, affected, if mode == Remove then Unlink(path) else Link(path, move));
    if toScene && p.2.Some? {
      EditSeqShape(m3, p.1, [p.2.value], Link("/root", false));
    }
  }

  lemma StepWF(m: Arena, n: nat, c: Handle, affected: seq<Handle>, name: string,
               mode: Mode, move: bool, toScene: bool, id: Uuid)
    requires WF(m, n) && c in m && id != ""
    ensures WF(Step(m, n, c, affected, name, mode, move, toScene, id).0, Step(m, n, c, affected, name, mode, move, toScene, id).1)
    ensures c in Step(m, n, c, affected, name, mode, move, toScene, id).0
  {
    StepFacts(m, n, c, affected, name, mode, move, toScene, id);
  }

  /** In ADD and CREATE mode every affected prim ends up linked to the
      collection; with MOVE that link is its only one (the collection prim
      itself, when affected and linked to the scene, also gets `/root`). */
  lemma StepLinks(m: Arena, n: nat, c: Handle, affected: seq<Handle>, name: string,
                  mode: Mode, move: bool, toScene: bool, id: Uuid, a: Handle)
    requires WF(m, n) && c in m && id != "" && mode != Remove
    requires NoDup(affected) && a in affected && a in m
    ensures var r := Step(m, n, c, affected, name, mode, move, toScene, id).0;
      VStr("/" + name) in LinksOf(r[a].props)
      && (move && (!toScene || Prepare(m, n, c, name, mode, id).2 != Some(a)) ==> LinksOf(r[a].props) == [VStr("/" + name)])
  {
    var p := Prepare(m, n, c, name, mode, id);
    assert a in p.0 && p.2.Some? by {
      PrepareFacts(m, n, c, name, mode, id);
    }
    StepIsLinks(m, n, c, affected, name, mode, move, toScene, id);
    LinksAffected(p.0, affected, "/" + name, move, toScene, p.2.value, a);
  }

  /** Outside REMOVE mode a pass links as ADD does. */
  lemma StepIsLinks(m: Arena, n: nat, c: Handle, affected: seq<Handle>, name: string,
                    mode: Mode, move: bool, toScene: bool, id: Uuid)
    requires WF(m, n) && c in m && mode != Remove
    ensures var p := Prepare(m, n, c, name, mode, id);
      Step(m, n, c, affected, name, mode, move, toScene, id).0 == Links(p.0, affected, "/" + name, Add, move, toScene, p.2)
  {
    var p := Prepare(m, n, c, name, mode, id);
    LinksAsAdd(p.0, affected, "/" + name, mode, move, toScene, p.2);
  }

  lemma LinksAsAdd(m: Arena, affected: seq<Handle>, path: string, mode: Mode, move: bool, toScene: bool, t: Option<Handle>)
    requires mode != Remove
    ensures Links(m, affected, path, mode, move, toScene, t) == Links(m, affected, path, Add, move, toScene, t)
  {
    var e := if mode == Remove then Unlink(path) else Link(path, move);
    assert e == Link(path, move);
  }

  /** In REMOVE mode a missing collection makes the pass change nothing. */
  lemma StepRemoveMissing(m: Arena, n: nat, c: Handle, affected: seq<Handle>, name: string,
                          move: bool, toScene: bool, id: Uuid)
    requires WF(m, n) && c in m && Lookup(m, n, c, name).None?
    ensures Step(m, n, c, affected, name, Remove, move, toScene, id) == (m, n)
  {
  }

  /** In REMOVE mode, with the collection found, every affected prim loses
      one link to it and no prim is made. */
  lemma StepUnlinks(m: Arena, n: nat, c: Handle, affected: seq<Handle>, name: string,
                    move: bool, toScene: bool, id: Uuid, a: Handle)
    requires WF(m, n) && c in m && Lookup(m, n, c, name).Some?
    requires NoDup(affected) && a in affected && a in m && (!toScene || Lookup(m, n, c, name) != Some(a))
    ensures Step(m, n, c, affected, name, Remove, move, toScene, id).1 == n
    ensures LinksOf(Step(m, n, c, affected, name, Remove, move, toScene, id).0[a].props)
      == RemoveFirst(LinksOf(m[a].props), VStr("/" + name))
  {
    var f := Lookup(m, n, c, name).value;
    assert Prepare(m, n, c, name, Remove, id) == (m, n, Some(f));
    LinksRemoved(m, affected, "/" + name, toScene, f, a);
  }

  /** In CREATE mode, with the collection found, every prim of the tree that
      is not among the affected ones loses one link to it. */
  lemma StepCreateUnlinks(m: Arena, n: nat, c: Handle, affected: seq<Handle>, name: string,
                          move: bool, toScene: bool, id: Uuid, k: Handle)
    requires WF(m, n) && c in m && id != "" && Lookup(m, n, c, name).Some?
    requires k in Flat(m, n, c) && k !in affected
    ensures k in m && k in Step(m, n, c, affected, name, Create, move, toScene, id).0
    ensures LinksOf(Step(m, n, c, affected, name, Create, move, toScene, id).0[k].props)
      == RemoveFirst(LinksOf(m[k].props), VStr("/" + name))
  {
    var path := "/" + name;
    FlatFacts(m, n, c);
    ReplacedProps(m, n, c, name, k);
    UnlinkRemoves(m[k].props, path);
    var m1 := Replaced(m, n, c, name, Create);
    PrepareIs(m, n, c, name, Create, id, Lookup(m, n, c, name), m1);
    var m2 := AddCollection(m1, n, c, name, id);
    AddCollectionAt(m1, n, c, name, id);
    assert m2[k].props == m1[k].props;
    LinksAt(m2, affected, path, Create, move, toScene, Some(n), k);
  }

  /** In CREATE mode, with the collection found under the root, the pass
      takes it out of the root's children and appends the new one. */
  lemma StepReplaces(m: Arena, n: nat, c: Handle, affected: seq<Handle>, name: string,
                     move: bool, toScene: bool, id: Uuid)
    requires WF(m, n) && c in m && id != ""
    requires Lookup(m, n, c, name).Some? && m[Lookup(m, n, c, name).value].parent == Some(c)
    ensures var s := Step(m, n, c, affected, name, Create, move, toScene, id);
      s.1 == n + 1 && s.0[c].children == RemoveFirst(m[c].children, Lookup(m, n, c, name).value) + [n]
      && Lookup(m, n, c, name).value !in s.0[c].children
  {
    var f := Lookup(m, n, c, name).value;
    var path := "/" + name;
    var m0 := EditSeq(m, Bfs(m, n, [c]), Unlink(path));
    var m1 := Detach(m0, f);
    assert m1 == Replaced(m, n, c, name, Create);
    assert m1[c].children == RemoveFirst(m[c].children, f);
    PrepareIs(m, n, c, name, Create, id, Some(f), m1);
    AddCollectionAt(m1, n, c, name, id);
    ChildrenNoDup(m, n, c);
    RemoveFirstNoDup(m[c].children, f);
    RemoveFirstSub(m[c].children, f);
  }

  /** The collection prim `AddCollection` makes, and the only other record
      it touches. */
  lemma AddCollectionAt(m: Arena, n: nat, c: Handle, name: string, id: Uuid)
    requires c in m && n !in m
    ensures var r := AddCollection(m, n, c, name, id);
      r[n] == Prim("/" + name, id, CollectionProps(name), None, [])
      && r[c].children == m[c].children + [n]
      && forall k :: k in m && k != c ==> r[k] == m[k]
  {
  }

  /** A prim the second half of a pass does not name is left alone, but for
      the link under `/root` when it is the collection. */
  lemma LinksAt(m: Arena, affected: seq<Handle>, path: string, mode: Mode, move: bool, toScene: bool,
                t: Option<Handle>, k: Handle)
    requires k in m && k !in affected
    ensures Links(m, affected, path, mode, move, toScene, t)[k] ==
      if toScene && t == Some(k) then m[k].(props := Apply(m[k].props, Link("/root", false))) else m[k]
  {
    var m3 := if t.None? then m else EditSeq(m, affected, if mode == Remove then Unlink(path) else Link(path, move));
    assert m3[k] == m[k];
    if toScene && t == Some(k) {
      assert EditSeq(m3, [k], Link("/root", false)) == EditSeq(m3, [k][..0], Link("/root", false))[k := m3[k].(props := Apply(m3[k].props, Link("/root", false)))];
    }
  }

  /** When ADD finds no collection, and always in CREATE mode, the pass makes
      a collection prim at the next handle: path `'/' + name`, the given uuid,
      no parent, typed COLLECTION and named `name`, last among the root's
      children, and linked under `/root` when asked. */
  lemma StepMakes(m: Arena, n: nat, c: Handle, affected: seq<Handle>, name: string,
                  mode: Mode, move: bool, toScene: bool, id: Uuid)
    requires WF(m, n) && c in m && id != "" && forall a :: a in affected ==> a in m
    requires mode == Create || (mode == Add && Lookup(m, n, c, name).None?)
    ensures var s := Step(m, n, c, affected, name, mode, move, toScene, id);
      s.1 == n + 1 && Prepare(m, n, c, name, mode, id).2 == Some(n) && n in s.0
      && s.0[n].path == "/" + name && s.0[n].id == id && s.0[n].parent == None && s.0[n].children == []
      && Get(s.0[n].props, "datablock_type") == VStr("COLLECTION") && Get(s.0[n].props, "name") == VStr(name)
      && |s.0[c].children| > 0 && s.0[c].children[|s.0[c].children| - 1] == n
      && (toScene ==> VStr("/root") in LinksOf(s.0[n].props))
  {
    var found := Lookup(m, n, c, name);
    var path := "/" + name;
    var m1 := Replaced(m, n, c, name, mode);
    assert n !in m1;
    ReplacedFacts(m, n, c, name, mode);
    PrepareIs(m, n, c, name, mode, id, found, m1);
    var m2 := AddCollection(m1, n, c, name, id);
    AddCollectionAt(m1, n, c, name, id);
    assert Prepare(m, n, c, name, mode, id) == (m2, n + 1, Some(n));
    var r := Links(m2, affected, path, mode, move, toScene, Some(n));
    assert Step(m, n, c, affected, name, mode, move, toScene, id) == (r, n + 1);
    LinksAt(m2, affected, path, mode, move, toScene, Some(n), n);
    assert r[c].children == m2[c].children;
    var cp := CollectionProps(name);
    assert r[n].props == if toScene then Apply(cp, Link("/root", false)) else cp;
    MadeProps(name, toScene);
  }

  /** The properties of a made collection prim, linked under `/root` or not. */
  lemma MadeProps(name: string, toScene: bool)
    ensures var cp := CollectionProps(name);
      var p := if toScene then Apply(cp, Link("/root", false)) else cp;
      Get(p, "datablock_type") == VStr("COLLECTION") && Get(p, "name") == VStr(name)
      && (toScene ==> VStr("/root") in LinksOf(p))
  {
    var cp := CollectionProps(name);
    assert Get(cp, "datablock_type") == VStr("COLLECTION") && Get(cp, "name") == VStr(name);
    if toScene {
      LinkAdds(cp, "/root", false);
      ApplyKeepsTypeAndName(cp, Link("/root", false));
    }
  }

  /** Linking a path the list already holds, without moving, changes
      nothing. */
  lemma LinkHeld(props: Props, path: string)
    requires VStr(path) in LinksOf(props)
    ensures Apply(props, Link(path, false)) == props
  {
    var rels := RelsOf(props);
    assert rels[LinksKey := VList(LinksOf(props))] == rels;
    assert props[RelKey := VDict(rels)] == props;
  }

  /** The lookup reads nothing but the paths of the prims it looks at. */
  lemma NamedChildSamePaths(m1: Arena, m2: Arena, ks: seq<Handle>, name: string)
    requires forall i :: 0 <= i < |ks| ==> ks[i] in m1 && ks[i] in m2 && m1[ks[i]].path == m2[ks[i]].path
    ensures NamedChild(m1, ks, name) == NamedChild(m2, ks, name)
  {
    assert NamesOf(m1, ks) == NamesOf(m2, ks);
  }

  /** A prim named `name` appended after prims none of which is so named is
      the one the lookup finds. */
  lemma NamedChildAppend(m: Arena, ks: seq<Handle>, x: Handle, name: string)
    requires forall i :: 0 <= i < |ks| ==> ks[i] in m
    requires x in m && NamedChild(m, ks, name).None? && LastSegment(m[x].path) == name
    ensures NamedChild(m, ks + [x], name) == Some(x)
  {
    var names := NamesOf(m, ks);
    assert NamesOf(m, ks + [x]) == names + [name];
    assert name !in names;
    IndexOfLast(names, name);
  }

  lemma {:induction false} IndexOfLast(names: seq<string>, name: string)
    requires name !in names
    ensures IndexOf(names + [name], name) == Some(|names|)
    decreases |names|
  {
    if names == [] {
      assert ([] + [name])[0] == name;
    } else {
      assert (names + [name])[1..] == names[1..] + [name];
      IndexOfLast(names[1..], name);
    }
  }

  /** Linking to the scene leaves the collection prim linked under `/root`. */
  lemma StepScene(m: Arena, n: nat, c: Handle, affected: seq<Handle>, name: string,
                  mode: Mode, move: bool, toScene: bool, id: Uuid)
    requires WF(m, n) && c in m && id != "" && toScene
    requires Prepare(m, n, c, name, mode, id).2.Some?
    ensures var t := Prepare(m, n, c, name, mode, id).2.value;
      VStr("/root") in LinksOf(Step(m, n, c, affected, name, mode, move, toScene, id).0[t].props)
  {
    var p := Prepare(m, n, c, name, mode, id);
    PrepareFacts(m, n, c, name, mode, id);
    var t := p.2.value;
    var m3 := EditSeq(p.0, affected, if mode == Remove then Unlink("/" + name) else Link("/" + name, move));
    EditSeqOnce(m3, [t], Link("/root", false), t);
    LinkAdds(m3[t].props, "/root", false);
  }

  /** A name without `/` is the last component of `'/' + name`. */
  lemma LastSegmentOfName(name: string)
    requires '/' !in name
    ensures LastSegment("/" + name) == name
  {
    assert "/" + name == "" + "/" + name;
    LastSegmentAfter("", name);
  }

  /** After an ADD pass the lookup finds the prim the pass linked: the one it
      found, or the one it made, last among the root's children. */
  lemma StepFindsAgain(m: Arena, n: nat, c: Handle, affected: seq<Handle>, name: string,
                       move: bool, toScene: bool, id: Uuid)
    requires WF(m, n) && c in m && id != "" && '/' !in name
    ensures var s := Step(m, n, c, affected, name, Add, move, toScene, id);
      WF(s.0, s.1) && c in s.0 && Lookup(s.0, s.1, c, name) == Prepare(m, n, c, name, Add, id).2
  {
    var s := Step(m, n, c, affected, name, Add, move, toScene, id);
    PrepareFacts(m, n, c, name, Add, id);
    StepFacts(m, n, c, affected, name, Add, move, toScene, id);
    var ks := m[c].children;
    assert forall i :: 0 <= i < |ks| ==> ks[i] in m;
    NamedChildSamePaths(m, s.0, ks, name);
    match Lookup(m, n, c, name)
    case Some(f) => {
      PrepareIs(m, n, c, name, Add, id, Some(f), m);
      assert s.0[c].children == ks;
    }
    case None => {
      PrepareIs(m, n, c, name, Add, id, None, m);
      AddCollectionAt(m, n, c, name, id);
      assert s.0[c].children == ks + [n];
      LastSegmentOfName(name);
      NamedChildAppend(s.0, ks, n, name);
    }
  }

  /** Linking without moving changes nothing when every prim already
      holds the links it would get. */
  lemma LinksNoop(m: Arena, affected: seq<Handle>, path: string, toScene: bool, t: Handle)
    requires forall k :: k in affected && k in m ==> VStr(path) in LinksOf(m[k].props)
    requires toScene ==> t in m && VStr("/root") in LinksOf(m[t].props)
    ensures Links(m, affected, path, Add, false, toScene, Some(t)) == m
  {
    forall k | k in affected && k in m ensures Apply(m[k].props, Link(path, false)) == m[k].props {
      LinkHeld(m[k].props, path);
    }
    EditSeqNoop(m, affected, Link(path, false));
    if toScene {
      LinkHeld(m[t].props, "/root");
      EditSeqNoop(m, [t], Link("/root", false));
    }
  }

  /** ADD without MOVE is idempotent: a second pass for the same name finds
      the collection the first one found or made, and every link it would
      add is already there. A name with a `/` never matches the last
      component of its own path, so it is excluded. */
  lemma StepAddTwice(m: Arena, n: nat, c: Handle, affected: seq<Handle>, name: string,
                     toScene: bool, id: Uuid)
    requires WF(m, n) && c in m && id != "" && '/' !in name
    requires NoDup(affected) && forall a :: a in affected ==> a in m
    ensures var s := Step(m, n, c, affected, name, Add, false, toScene, id);
      WF(s.0, s.1) && c in s.0 && Step(s.0, s.1, c, affected, name, Add, false, toScene, id) == s
  {
    var s := Step(m, n, c, affected, name, Add, false, toScene, id);
    StepFacts(m, n, c, affected, name, Add, false, toScene, id);
    AddAgainLinks(m, n, c, affected, name, toScene, id);
    var t := Prepare(m, n, c, name, Add, id).2;
    assert Prepare(s.0, s.1, c, name, Add, id) == (s.0, s.1, t) by {
      PrepareFacts(m, n, c, name, Add, id);
      StepFindsAgain(m, n, c, affected, name, false, toScene, id);
      PrepareIs(s.0, s.1, c, name, Add, id, t, s.0);
    }
    StepFixed(s.0, s.1, c, affected, name, Add, false, toScene, id, t);
  }

  /** A pass whose first half changes nothing and whose links are all
      there changes nothing. */
  lemma StepFixed(m: Arena, n: nat, c: Handle, affected: seq<Handle>, name: string,
                  mode: Mode, move: bool, toScene: bool, id: Uuid, t: Option<Handle>)
    requires WF(m, n) && c in m
    requires Prepare(m, n, c, name, mode, id) == (m, n, t)
    requires Links(m, affected, "/" + name, mode, move, toScene, t) == m
    ensures Step(m, n, c, affected, name, mode, move, toScene, id) == (m, n)
  {
  }

  /** After an ADD pass without MOVE, the links a second pass would add are
      all there. */
  lemma AddAgainLinks(m: Arena, n: nat, c: Handle, affected: seq<Handle>, name: string,
                      toScene: bool, id: Uuid)
    requires WF(m, n) && c in m && id != "" && '/' !in name
    requires NoDup(affected) && forall a :: a in affected ==> a in m
    ensures Prepare(m, n, c, name, Add, id).2.Some?
    ensures var s := Step(m, n, c, affected, name, Add, false, toScene, id);
      Links(s.0, affected, "/" + name, Add, false, toScene, Prepare(m, n, c, name, Add, id).2) == s.0
  {
    var path := "/" + name;
    var s := Step(m, n, c, affected, name, Add, false, toScene, id);
    PrepareFacts(m, n, c, name, Add, id);
    var t := Prepare(m, n, c, name, Add, id).2.value;
    StepFacts(m, n, c, affected, name, Add, false, toScene, id);
    forall k | k in affected && k in s.0 ensures VStr(path) in LinksOf(s.0[k].props) {
      StepLinks(m, n, c, affected, name, Add, false, toScene, id, k);
    }
    if toScene {
      StepScene(m, n, c, affected, name, Add, false, toScene, id);
    }
    LinksNoop(s.0, affected, path, toScene, t);
  }

  // ---------------------------------------------------------------------
  // The node leaves its input alone

  /** The CREATE replacement touches only prims from `n0` on when the tree
      under `c` lies there. */
  lemma ReplacedFrame(m: Arena, n: nat, c: Handle, name: string, mode: Mode, n0: nat, k: Handle)
    requires WF(m, n) && c in m && n0 <= c && AboveClosed(m, n0) && k in m && k < n0
    ensures Replaced(m, n, c, name, mode)[k] == m[k]
  {
    var found := Lookup(m, n, c, name);
    if mode == Create && found.Some? {
      var f := found.value;
      var path := "/" + name;
      assert k !in Bfs(m, n, [c]) by {
        BfsSubtree(m, n, c);
        FlatBounds(m, n, c);
      }
      var m0 := EditSeq(m, Bfs(m, n, [c]), Unlink(path));
      assert m0[k] == m[k];
      assert c < f;
      assert m0[f].parent == m[f].parent;
    }
  }

  /** A pass touches no prim before `n0` when the tree under `c` and the
      affected prims lie from `n0` on. */
  lemma StepFrame(m: Arena, n: nat, c: Handle, affected: seq<Handle>, name: string,
                  mode: Mode, move: bool, toScene: bool, id: Uuid, n0: nat, k: Handle)
    requires WF(m, n) && c in m && id != "" && n0 <= c && AboveClosed(m, n0)
    requires forall a :: a in affected ==> n0 <= a
    requires k in m && k < n0
    ensures Step(m, n, c, affected, name, mode, move, toScene, id).0[k] == m[k]
  {
    var found := Lookup(m, n, c, name);
    var m1 := Replaced(m, n, c, name, mode);
    PrepareIs(m, n, c, name, mode, id, found, m1);
    PrepareFacts(m, n, c, name, mode, id);
    var p := Prepare(m, n, c, name, mode, id);
    if mode != Remove && p.2 == Some(n) {
      AddCollectionAt(m1, n, c, name, id);
    }
    assert p.2.Some? ==> n0 <= p.2.value;
    ReplacedFrame(m, n, c, name, mode, n0, k);
    assert p.0[k] == m[k];
    assert k !in affected;
    LinksAt(p.0, affected, "/" + name, mode, move, toScene, p.2, k);
  }

  /** The first half of a pass keeps every prim from `n0` on with a parent
      from `n0` on: it changes no parent, and a prim it makes has none. */
  lemma PrepareAbove(m: Arena, n: nat, c: Handle, name: string, mode: Mode, id: Uuid, n0: nat)
    requires WF(m, n) && c in m && AboveClosed(m, n0)
    ensures AboveClosed(Prepare(m, n, c, name, mode, id).0, n0)
  {
    var found := Lookup(m, n, c, name);
    var m1 := Replaced(m, n, c, name, mode);
    ReplacedFacts(m, n, c, name, mode);
    assert AboveClosed(m1, n0);
    PrepareIs(m, n, c, name, mode, id, found, m1);
    if mode != Remove && Target(found, n, mode) == Some(n) {
      AddCollectionAt(m1, n, c, name, id);
    }
  }

  /** A pass keeps every prim from `n0` on with a parent from `n0` on. */
  lemma StepAbove(m: Arena, n: nat, c: Handle, affected: seq<Handle>, name: string,
                  mode: Mode, move: bool, toScene: bool, id: Uuid, n0: nat)
    requires WF(m, n) && c in m && AboveClosed(m, n0)
    ensures AboveClosed(Step(m, n, c, affected, name, mode, move, toScene, id).0, n0)
  {
    PrepareAbove(m, n, c, name, mode, id, n0);
  }

  // ---------------------------------------------------------------------
  // FN_set_collection.execute

  /** `[p for p in hs if p.parent is not None]`. */
  function WithParent(m: Arena, hs: seq<Handle>): (r: seq<Handle>)
    ensures forall x :: x in r <==> x in hs && x in m && m[x].parent.Some?
    decreases |hs|
  {
    if hs == [] then []
    else (if hs[0] in m && m[hs[0]].parent.Some? then [hs[0]] else []) + WithParent(m, hs[1..])
  }

  lemma {:induction false} WithParentNoDup(m: Arena, hs: seq<Handle>)
    requires NoDup(hs)
    ensures NoDup(WithParent(m, hs))
    decreases |hs|
  {
    if hs != [] {
      TailNoDup(hs);
      WithParentNoDup(m, hs[1..]);
    }
  }

  /** The prims the node links: those the selection picks in the tree under
      `c`, but for the root. */
  ghost function Affected(m: Arena, n: nat, c: Handle, q: Query): seq<Handle>
    requires WF(m, n) && c in m
  {
    WithParent(m, Selection(m, n, c, q))
  }

  /** The affected prims are picked prims of the tree under `c` that have a
      parent, each listed once. */
  lemma AffectedFacts(m: Arena, n: nat, c: Handle, q: Query)
    requires WF(m, n) && c in m
    ensures NoDup(Affected(m, n, c, q))
    ensures forall x :: x in Affected(m, n, c, q) <==> PickedIn(m, n, c, q, x) && m[x].parent.Some?
    ensures forall x :: x in Affected(m, n, c, q) ==> x in m && c <= x
  {
    SelectionPicks(m, n, c, q);
    WithParentNoDup(m, Selection(m, n, c, q));
  }

  /** The loop over the collection names: one pass per name, in order.
      `ids(name)` is the uuid `get_persistent_uuid('coll_' + name)` gives. */
  ghost function Steps(m: Arena, n: nat, c: Handle, affected: seq<Handle>, names: seq<string>,
                       mode: Mode, move: bool, toScene: bool, ids: string -> Uuid): (Arena, nat)
    requires WF(m, n) && c in m && forall key :: ids(key) != ""
    decreases |names|
  {
    if names == [] then (m, n)
    else
      var id := ids(names[0]);
      var s := Step(m, n, c, affected, names[0], mode, move, toScene, id);
      StepWF(m, n, c, affected, names[0], mode, move, toScene, id);
      Steps(s.0, s.1, c, affected, names[1..], mode, move, toScene, ids)
  }

  /** A pass keeps every record of `m0` when `m0` lies before `n0`. */
  lemma StepUntouched(m: Arena, n: nat, c: Handle, affected: seq<Handle>, name: string,
                      mode: Mode, move: bool, toScene: bool, id: Uuid, n0: nat, m0: Arena)
    requires WF(m, n) && c in m && id != "" && n0 <= c && AboveClosed(m, n0)
    requires forall a :: a in affected ==> n0 <= a
    requires Untouched(m0, m) && forall k :: k in m0 ==> k < n0
    ensures Untouched(m0, Step(m, n, c, affected, name, mode, move, toScene, id).0)
  {
    StepFacts(m, n, c, affected, name, mode, move, toScene, id);
    forall k | k in m0 ensures k in Step(m, n, c, affected, name, mode, move, toScene, id).0
      && Step(m, n, c, affected, name, mode, move, toScene, id).0[k] == m0[k]
    {
      StepFrame(m, n, c, affected, name, mode, move, toScene, id, n0, k);
    }
  }

  /** The loop over the names: one `CollectionPass` per name, touching no
      prim before `n0`. */
  method CollectionLoop(heap: ProxyHeap, c: Handle, affected: seq<Handle>, names: seq<string>,
                        mode: Mode, move: bool, toScene: bool, ids: string -> Uuid, ghost m0: Arena, ghost n0: nat)
    requires heap.Valid() && c in heap.prims && n0 <= c && AboveClosed(heap.prims, n0)
    requires Untouched(m0, heap.prims) && forall k :: k in m0 ==> k < n0
    requires forall key :: ids(key) != ""
    requires forall a :: a in affected ==> n0 <= a
    modifies heap
    ensures heap.Valid() && c in heap.prims
    ensures (heap.prims, heap.next) == Steps(old(heap.prims), old(heap.next), c, affected, names, mode, move, toScene, ids)
    ensures Untouched(m0, heap.prims)
  {
    ghost var start, sn := heap.prims, heap.next;
    var i := 0;
    while i < |names|
      invariant 0 <= i <= |names| && heap.Valid() && c in heap.prims && AboveClosed(heap.prims, n0)
      invariant Steps(start, sn, c, affected, names, mode, move, toScene, ids)
        == Steps(heap.prims, heap.next, c, affected, names[i..], mode, move, toScene, ids)
      invariant Untouched(m0, heap.prims)
    {
      ghost var m, n := heap.prims, heap.next;
      var id := ids(names[i]);
      CollectionPass(heap, c, affected, names[i], mode, move, toScene, id);
      assert names[i..][0] == names[i] && names[i..][1..] == names[i + 1..];
      StepUntouched(m, n, c, affected, names[i], mode, move, toScene, id, n0, m0);
      StepAbove(m, n, c, affected, names[i], mode, move, toScene, id, n0);
      i := i + 1;
    }
  }

  /** `FN_set_collection.execute`. A missing scene or an empty names string
      returns the input as it is. Otherwise the scene is cloned, the prims
      to affect are resolved once (the default query picks everything), and
      one pass runs per parsed collection name. `ids(name)` stands for the
      node's `get_persistent_uuid('coll_' + name)`. The result is the clone after the passes; the
      ghost outputs are the arena right after cloning. */
  method SetCollection(heap: ProxyHeap, scene: Option<Handle>, query: Option<Query>, text: string,
                       mode: Mode, move: bool, toScene: bool, ids: string -> Uuid)
    returns (r: Option<Handle>, ghost cloned: Arena, ghost cn: nat)
    requires heap.Valid() && (scene.Some? ==> scene.value in heap.prims)
    requires forall key :: ids(key) != ""
    modifies heap
    ensures heap.Valid() && Untouched(old(heap.prims), heap.prims)
    ensures scene.None? || text == "" ==> r == scene && heap.prims == old(heap.prims)
    ensures scene.Some? && text != "" ==> (r.Some? && old(heap.next) <= r.value
      && WF(cloned, cn) && r.value in cloned && cloned[r.value].parent.None?
      && View(cloned, cn, r.value) == old(View(heap.prims, heap.next, scene.value))
      && (heap.prims, heap.next) == Steps(cloned, cn, r.value, Affected(cloned, cn, r.value, QueryOr(query)),
                                          ParseMultiTargetString(text), mode, move, toScene, ids))
  {
    cloned, cn := heap.prims, heap.next;
    if scene.None? || text == "" {
      return scene, cloned, cn;
    }
    ghost var m0, n0 := heap.prims, heap.next;
    var q := QueryOr(query);
    var c := heap.Clone(scene.value);
    cloned, cn := heap.prims, heap.next;
    var sel := ResolveSelection(heap, Some(c), Some(q));
    var affected := WithParent(heap.prims, sel);
    AffectedFacts(cloned, cn, c, q);
    var names := ParseMultiTargetString(text);
    assert forall k :: k in m0 ==> k < n0;
    assert Untouched(m0, cloned);
    CollectionLoop(heap, c, affected, names, mode, move, toScene, ids, m0, n0);
    r := Some(c);
  }

  // ---------------------------------------------------------------------
  // FN_parent_collection.execute

  predicate IsCollection(props: Props) {
    Get(props, "datablock_type") == VStr("COLLECTION")
  }

  /** The collection prim named `name` under the root, when the lookup finds
      a prim and it is typed COLLECTION. */
  function FoundCollection(m: Arena, n: nat, c: Handle, name: string): (r: Option<Handle>)
    requires WF(m, n) && c in m
    ensures r.Some? ==> (r.value in m[c].children && r.value in m && IsCollection(m[r.value].props)
      && LastSegment(m[r.value].path) == name)
  {
    match Lookup(m, n, c, name)
    case None => None
    case Some(h) => if IsCollection(m[h].props) then Some(h) else None
  }

  /** Two arenas that agree on everything the lookups read: the shape, the
      paths and the types. */
  ghost predicate SameLookup(m0: Arena, m: Arena) {
    SameShape(m0, m)
    && forall k :: k in m0 ==>
         m[k].path == m0[k].path && Get(m[k].props, "datablock_type") == Get(m0[k].props, "datablock_type")
  }

  lemma FoundSame(m0: Arena, m: Arena, n: nat, c: Handle, name: string)
    requires WF(m0, n) && c in m0 && SameLookup(m0, m)
    ensures WF(m, n) && FoundCollection(m, n, c, name) == FoundCollection(m0, n, c, name)
  {
    ShapeFlat(m0, m, n, c);
    var ks := m0[c].children;
    assert forall i :: 0 <= i < |ks| ==> ks[i] in m0;
    NamedChildSamePaths(m0, m, ks, name);
  }

  /** Moving the links of `ch` to `path` keeps what the lookups read. */
  lemma MoveKeepsLookup(m0: Arena, m: Arena, ch: Handle, path: string)
    requires SameLookup(m0, m) && ch in m
    ensures SameLookup(m0, SetProps(m, ch, Apply(m[ch].props, Link(path, true))))
  {
    ApplyKeepsTypeAndName(m[ch].props, Link(path, true));
  }

  /** The inner loop over the parent names for the child collection `ch`:
      each parent name that names a collection moves the child's links to
      that collection. Lookups read `m0`, edits go to `m`. */
  ghost function ParentInner(m0: Arena, n: nat, c: Handle, ch: Handle, parents: seq<string>, m: Arena): (r: Arena)
    requires WF(m0, n) && c in m0
    ensures r.Keys == m.Keys
    ensures forall k :: k in m ==> r[k] == m[k].(props := r[k].props)
    ensures forall k :: k in m && k != ch ==> r[k] == m[k]
    decreases |parents|
  {
    if parents == [] then m
    else
      var r := ParentInner(m0, n, c, ch, parents[..|parents| - 1], m);
      var p := parents[|parents| - 1];
      if FoundCollection(m0, n, c, p).Some? && ch in r then SetProps(r, ch, Apply(r[ch].props, Link("/" + p, true)))
      else r
  }

  /** The last of the parent names that names a collection. */
  ghost function LastParent(m0: Arena, n: nat, c: Handle, parents: seq<string>): (r: Option<string>)
    requires WF(m0, n) && c in m0
    ensures r.Some? ==> r.value in parents && FoundCollection(m0, n, c, r.value).Some?
    decreases |parents|
  {
    if parents == [] then None
    else if FoundCollection(m0, n, c, parents[|parents| - 1]).Some? then Some(parents[|parents| - 1])
    else LastParent(m0, n, c, parents[..|parents| - 1])
  }

  /** The child collection ends up with one link, to the last parent named
      that is a collection; with none, its links are as they were. */
  lemma {:induction false} ParentInnerLinks(m0: Arena, n: nat, c: Handle, ch: Handle, parents: seq<string>, m: Arena)
    requires WF(m0, n) && c in m0 && ch in m
    ensures var r := ParentInner(m0, n, c, ch, parents, m);
      match LastParent(m0, n, c, parents)
      case None => r[ch] == m[ch]
      case Some(p) => LinksOf(r[ch].props) == [VStr("/" + p)]
    decreases |parents|
  {
    if parents != [] {
      var init := parents[..|parents| - 1];
      var p := parents[|parents| - 1];
      ParentInnerLinks(m0, n, c, ch, init, m);
      if FoundCollection(m0, n, c, p).Some? {
        var r := ParentInner(m0, n, c, ch, init, m);
        LinkAdds(r[ch].props, "/" + p, true);
      }
    }
  }

  /** The outer loop over the child names: each one that names a collection
      runs the inner loop for it. */
  ghost function ParentOuter(m0: Arena, n: nat, c: Handle, children: seq<string>, parents: seq<string>, m: Arena): (r: Arena)
    requires WF(m0, n) && c in m0
    ensures r.Keys == m.Keys
    ensures forall k :: k in m ==> r[k] == m[k].(props := r[k].props)
    decreases |children|
  {
    if children == [] then m
    else
      var r := ParentOuter(m0, n, c, children[..|children| - 1], parents, m);
      match FoundCollection(m0, n, c, children[|children| - 1])
      case None => r
      case Some(ch) => ParentInner(m0, n, c, ch, parents, r)
  }

  /** A prim that no child name finds, or any prim when no parent
      collection is found, is left alone by the node. */
  lemma {:induction false} ParentOuterKeeps(m0: Arena, n: nat, c: Handle, children: seq<string>,
                                            parents: seq<string>, m: Arena, k: Handle)
    requires WF(m0, n) && c in m0 && k in m
    requires (forall x :: x in children ==> FoundCollection(m0, n, c, x) != Some(k)) || LastParent(m0, n, c, parents).None?
    ensures ParentOuter(m0, n, c, children, parents, m)[k] == m[k]
    decreases |children|
  {
    if children != [] {
      var init := children[..|children| - 1];
      var x := children[|children| - 1];
      assert forall y :: y in init ==> y in children;
      ParentOuterKeeps(m0, n, c, init, parents, m, k);
      var r := ParentOuter(m0, n, c, init, parents, m);
      if FoundCollection(m0, n, c, x) == Some(k) {
        ParentInnerLinks(m0, n, c, k, parents, r);
      }
    }
  }

  /** After the node, every collection a child name finds links to the last
      parent collection named, and to nothing else. */
  lemma {:induction false} ParentOuterLinks(m0: Arena, n: nat, c: Handle, children: seq<string>,
                                            parents: seq<string>, m: Arena, k: Handle)
    requires WF(m0, n) && c in m0 && k in m
    requires exists x :: x in children && FoundCollection(m0, n, c, x) == Some(k)
    requires LastParent(m0, n, c, parents).Some?
    ensures LinksOf(ParentOuter(m0, n, c, children, parents, m)[k].props)
      == [VStr("/" + LastParent(m0, n, c, parents).value)]
    decreases |children|, 1
  {
    var init := children[..|children| - 1];
    var x := children[|children| - 1];
    var r := ParentOuter(m0, n, c, init, parents, m);
    var out := ParentOuter(m0, n, c, children, parents, m);
    match FoundCollection(m0, n, c, x)
    case None =>
      assert out == r;
      OuterFromInit(m0, n, c, children, init, x, parents, m, k);
    case Some(ch) =>
      assert out == ParentInner(m0, n, c, ch, parents, r);
      if ch == k {
        ParentInnerLinks(m0, n, c, k, parents, r);
      } else {
        assert out[k] == r[k];
        OuterFromInit(m0, n, c, children, init, x, parents, m, k);
      }
  }

  /** When the last child name does not find `k`, an earlier one does. */
  lemma {:induction false} OuterFromInit(m0: Arena, n: nat, c: Handle, children: seq<string>, init: seq<string>,
                                         x: string, parents: seq<string>, m: Arena, k: Handle)
    requires WF(m0, n) && c in m0 && k in m && children == init + [x]
    requires exists y :: y in children && FoundCollection(m0, n, c, y) == Some(k)
    requires LastParent(m0, n, c, parents).Some? && FoundCollection(m0, n, c, x) != Some(k)
    ensures LinksOf(ParentOuter(m0, n, c, init, parents, m)[k].props)
      == [VStr("/" + LastParent(m0, n, c, parents).value)]
    decreases |children|, 0
  {
    var y :| y in children && FoundCollection(m0, n, c, y) == Some(k);
    assert y in init;
    ParentOuterLinks(m0, n, c, init, parents, m, k);
  }

  /** `find_child_by_path` followed by the `datablock_type` check. */
  method FindCollection(heap: ProxyHeap, c: Handle, name: string) returns (r: Option<Handle>)
    requires heap.Valid() && c in heap.prims
    ensures r == FoundCollection(heap.prims, heap.next, c, name)
  {
    r := heap.ChildNamed(c, name);
    if r.Some? && !IsCollection(heap.prims[r.value].props) {
      r := None;
    }
  }

  /** One more parent name is one more conditional move. */
  lemma ParentInnerStep(m0: Arena, n: nat, c: Handle, ch: Handle, parents: seq<string>, j: nat, m: Arena)
    requires WF(m0, n) && c in m0 && j < |parents|
    ensures var r := ParentInner(m0, n, c, ch, parents[..j], m);
      ParentInner(m0, n, c, ch, parents[..j + 1], m)
        == if FoundCollection(m0, n, c, parents[j]).Some? && ch in r
           then SetProps(r, ch, Apply(r[ch].props, Link("/" + parents[j], true))) else r
  {
    assert parents[..j + 1][..j] == parents[..j];
  }

  /** One more child name is one more inner loop when it finds a collection. */
  lemma ParentOuterStep(m0: Arena, n: nat, c: Handle, children: seq<string>, i: nat, parents: seq<string>, m: Arena)
    requires WF(m0, n) && c in m0 && i < |children|
    ensures var r := ParentOuter(m0, n, c, children[..i], parents, m);
      ParentOuter(m0, n, c, children[..i + 1], parents, m)
        == match FoundCollection(m0, n, c, children[i])
           case None => r
           case Some(ch) => ParentInner(m0, n, c, ch, parents, r)
  {
    assert children[..i + 1][..i] == children[..i];
  }

  /** `links.clear(); links.append(path)` on the prim `ch`. */
  method MoveLinks(heap: ProxyHeap, ch: Handle, path: string, ghost m0: Arena, ghost c: Handle)
    requires heap.Valid() && WF(m0, heap.next) && c in m0 && ch in heap.prims && SameLookup(m0, heap.prims)
    modifies heap
    ensures heap.Valid() && heap.next == old(heap.next) && SameLookup(m0, heap.prims)
    ensures heap.prims == SetProps(old(heap.prims), ch, Apply(old(heap.prims)[ch].props, Link(path, true)))
  {
    MoveKeepsLookup(m0, heap.prims, ch, path);
    heap.prims := SetProps(heap.prims, ch, Apply(heap.prims[ch].props, Link(path, true)));
    FoundSame(m0, heap.prims, heap.next, c, "");
  }

  /** The inner loop of the node for the child collection `ch`; the lookups
      read the arena `m0` they would read on the heap, as the edits change
      links only. */
  method MoveToParents(heap: ProxyHeap, c: Handle, ch: Handle, parents: seq<string>, ghost m0: Arena)
    requires heap.Valid() && WF(m0, heap.next) && c in m0 && ch in m0 && SameLookup(m0, heap.prims)
    modifies heap
    ensures heap.Valid() && heap.next == old(heap.next) && SameLookup(m0, heap.prims)
    ensures heap.prims == ParentInner(m0, heap.next, c, ch, parents, old(heap.prims))
  {
    ghost var start := heap.prims;
    var j := 0;
    while j < |parents|
      invariant 0 <= j <= |parents| && heap.Valid() && heap.next == old(heap.next)
      invariant SameLookup(m0, heap.prims)
      invariant heap.prims == ParentInner(m0, heap.next, c, ch, parents[..j], start)
    {
      var p := parents[j];
      FoundSame(m0, heap.prims, heap.next, c, p);
      var f := FindCollection(heap, c, p);
      ParentInnerStep(m0, heap.next, c, ch, parents, j, start);
      if f.Some? {
        MoveLinks(heap, ch, "/" + p, m0, c);
      }
      j := j + 1;
    }
    assert parents[..j] == parents;
  }

  /** `FN_parent_collection.execute`. A missing scene or an empty string of
      parent or child names returns the input as it is. Otherwise the scene
      is cloned and each child name that finds a collection under the root
      has its collection links set, for each parent name that finds a
      collection in turn, to that parent's path alone. The ghost outputs are
      the arena right after cloning. */
  method ParentCollection(heap: ProxyHeap, scene: Option<Handle>, parentsText: string, childrenText: string)
    returns (r: Option<Handle>, ghost cloned: Arena, ghost cn: nat)
    requires heap.Valid() && (scene.Some? ==> scene.value in heap.prims)
    modifies heap
    ensures heap.Valid() && Untouched(old(heap.prims), heap.prims)
    ensures scene.None? || parentsText == "" || childrenText == "" ==> r == scene && heap.prims == old(heap.prims)
    ensures scene.Some? && parentsText != "" && childrenText != "" ==> (r.Some? && old(heap.next) <= r.value
      && WF(cloned, cn) && r.value in cloned && cloned[r.value].parent.None? && heap.next == cn
      && View(cloned, cn, r.value) == old(View(heap.prims, heap.next, scene.value))
      && heap.prims == ParentOuter(cloned, cn, r.value, ParseMultiTargetString(childrenText),
                                   ParseMultiTargetString(parentsText), cloned))
  {
    cloned, cn := heap.prims, heap.next;
    if scene.None? || parentsText == "" || childrenText == "" {
      return scene, cloned, cn;
    }
    ghost var m0, n0 := heap.prims, heap.next;
    var c := heap.Clone(scene.value);
    cloned, cn := heap.prims, heap.next;
    var parents := ParseMultiTargetString(parentsText);
    var children := ParseMultiTargetString(childrenText);
    assert forall k :: k in m0 ==> k < n0;
    ParentLoop(heap, c, parents, children, m0, n0);
    r := Some(c);
  }

  /** The outer loop of `FN_parent_collection.execute` on the clone `c`. */
  method ParentLoop(heap: ProxyHeap, c: Handle, parents: seq<string>, children: seq<string>,
                    ghost m0: Arena, ghost n0: nat)
    requires heap.Valid() && c in heap.prims && n0 <= c
    requires Untouched(m0, heap.prims) && forall k :: k in m0 ==> k < n0
    modifies heap
    ensures heap.Valid() && heap.next == old(heap.next) && Untouched(m0, heap.prims)
    ensures heap.prims == ParentOuter(old(heap.prims), old(heap.next), c, children, parents, old(heap.prims))
  {
    ghost var start, n := heap.prims, heap.next;
    FlatFacts(start, n, c);
    var i := 0;
    while i < |children|
      invariant 0 <= i <= |children| && heap.Valid() && heap.next == n
      invariant SameLookup(start, heap.prims)
      invariant heap.prims == ParentOuter(start, n, c, children[..i], parents, start)
      invariant Untouched(m0, heap.prims)
    {
      ParentChild(heap, c, parents, children, i, start, n, m0, n0);
      i := i + 1;
    }
    assert children[..i] == children;
  }

  /** One pass of the outer loop: the `i`-th child name, looked up under
      the clone and, when found, moved under each parent name. */
  method ParentChild(heap: ProxyHeap, c: Handle, parents: seq<string>, children: seq<string>, i: nat,
                     ghost start: Arena, ghost n: nat, ghost m0: Arena, ghost n0: nat)
    requires WF(start, n) && c in start && n0 <= c && forall k :: k in m0 ==> k < n0
    requires i < |children| && heap.Valid() && heap.next == n && SameLookup(start, heap.prims)
    requires heap.prims == ParentOuter(start, n, c, children[..i], parents, start)
    requires Untouched(m0, heap.prims)
    modifies heap
    ensures heap.Valid() && heap.next == n && SameLookup(start, heap.prims)
    ensures heap.prims == ParentOuter(start, n, c, children[..i + 1], parents, start)
    ensures Untouched(m0, heap.prims)
  {
    FlatFacts(start, n, c);
    FoundSame(start, heap.prims, n, c, children[i]);
    var f := FindCollection(heap, c, children[i]);
    ParentOuterStep(start, n, c, children, i, parents, start);
    if f.Some? {
      var ch := f.value;
      assert c <= ch by {
        var j :| 0 <= j < |start[c].children| && start[c].children[j] == ch;
      }
      MoveToParents(heap, c, ch, parents, start);
    }
  }

  // ---------------------------------------------------------------------
  // The lookup as written

  /** The lookup both nodes write, `find_child_by_path('/' + name)` on the
      root. An absolute path is matched against the root's own path first,
      so it only finds something when `name` starts with the root's name. */
  function AsWrittenLookup(m: Arena, n: nat, c: Handle, name: string): (r: Option<Handle>)
    requires WF(m, n) && c in m
    ensures r.Some? ==> r.value in m
  {
    FindSpec(m, n, c, VStr("/" + name))
  }

  /** Under a root at `/root`, the lookup as written finds nothing for any
      name that does not start with `root`, whatever the root holds. */
  lemma AsWrittenMisses(m: Arena, n: nat, c: Handle, name: string)
    requires WF(m, n) && c in m && m[c].parent.None? && m[c].path == "/root"
    requires !StartsWith(name, "root")
    ensures AsWrittenLookup(m, n, c, name) == None
  {
    assert RootOf(m, n, c) == c;
    SlashPrefix(name, "root");
    assert "/root" == "/" + "root";
  }

  /** `FN_parent_collection.execute` as written, after the clone: the
      outer and inner loops of `ParentOuter` with both lookups made by
      `find_child_by_path('/' + name)`. */
  ghost function ParentOuterAsWritten(m0: Arena, n: nat, c: Handle, children: seq<string>, parents: seq<string>, m: Arena): Arena
    requires WF(m0, n) && c in m0
    decreases |children|
  {
    if children == [] then m
    else
      var r := ParentOuterAsWritten(m0, n, c, children[..|children| - 1], parents, m);
      match FoundAsWritten(m0, n, c, children[|children| - 1])
      case None => r
      case Some(ch) => ParentInnerAsWritten(m0, n, c, ch, parents, r)
  }

  ghost function ParentInnerAsWritten(m0: Arena, n: nat, c: Handle, ch: Handle, parents: seq<string>, m: Arena): Arena
    requires WF(m0, n) && c in m0
    decreases |parents|
  {
    if parents == [] then m
    else
      var r := ParentInnerAsWritten(m0, n, c, ch, parents[..|parents| - 1], m);
      var p := parents[|parents| - 1];
      if FoundAsWritten(m0, n, c, p).Some? && ch in r then SetProps(r, ch, Apply(r[ch].props, Link("/" + p, true)))
      else r
  }

  /** The lookup as written, kept when it finds a COLLECTION prim. */
  function FoundAsWritten(m: Arena, n: nat, c: Handle, name: string): Option<Handle>
    requires WF(m, n) && c in m
  {
    match AsWrittenLookup(m, n, c, name)
    case None => None
    case Some(h) => if IsCollection(m[h].props) then Some(h) else None
  }

  /** Under a root at `/root`, the parent node as written leaves the clone
      as it is when no child name starts with `root`. */
  lemma {:induction false} ParentAsWrittenIdle(m0: Arena, n: nat, c: Handle, children: seq<string>, parents: seq<string>, m: Arena)
    requires WF(m0, n) && c in m0 && m0[c].parent.None? && m0[c].path == "/root"
    requires forall x :: x in children ==> !StartsWith(x, "root")
    ensures ParentOuterAsWritten(m0, n, c, children, parents, m) == m
    decreases |children|
  {
    if children != [] {
      var init := children[..|children| - 1];
      assert forall x :: x in init ==> x in children;
      ParentAsWrittenIdle(m0, n, c, init, parents, m);
      AsWrittenMisses(m0, n, c, children[|children| - 1]);
    }
  }

  /** The passes of `FN_set_collection.execute` in REMOVE mode as written,
      after the clone: each name's path leaves the links of the affected
      prims, and the found prim joins the scene collection under
      `link_to_scene`, when `find_child_by_path('/' + name)` finds it. */
  ghost function RemoveStepsAsWritten(m: Arena, n: nat, c: Handle, affected: seq<Handle>, names: seq<string>,
                                      move: bool, toScene: bool): Arena
    requires WF(m, n) && c in m
    decreases |names|
  {
    if names == [] then m
    else
      var m1 := Links(m, affected, "/" + names[0], Remove, move, toScene, AsWrittenLookup(m, n, c, names[0]));
      ShapeFlat(m, m1, n, c);
      RemoveStepsAsWritten(m1, n, c, affected, names[1..], move, toScene)
  }

  /** Under a root at `/root`, REMOVE as written changes nothing when no
      name starts with `root`. */
  lemma {:induction false} RemoveAsWrittenIdle(m: Arena, n: nat, c: Handle, affected: seq<Handle>, names: seq<string>,
                                               move: bool, toScene: bool)
    requires WF(m, n) && c in m && m[c].parent.None? && m[c].path == "/root"
    requires forall x :: x in names ==> !StartsWith(x, "root")
    ensures RemoveStepsAsWritten(m, n, c, affected, names, move, toScene) == m
    decreases |names|
  {
    if names != [] {
      AsWrittenMisses(m, n, c, names[0]);
      assert forall x :: x in names[1..] ==> x in names;
      RemoveAsWrittenIdle(m, n, c, affected, names[1..], move, toScene);
    }
  }

  /** A leading slash on both sides does not change whether one string
      starts with the other. */
  lemma SlashPrefix(s: string, p: string)
    ensures StartsWith("/" + s, "/" + p) <==> StartsWith(s, p)
  {
    if |p| <= |s| {
      assert ("/" + s)[..|p| + 1] == "/" + s[..|p|];
      if ("/" + s)[..|p| + 1] == "/" + p {
        assert s[..|p|] == ("/" + s)[..|p| + 1][1..];
      }
    }
  }

  /** A scene root `/root` holding the collection `Coll`. */
  function SceneWithColl(): Arena {
    map[0 := Prim("/root", "scene", map[], None, [1]),
        1 := Prim("/Coll", "coll", CollectionProps("Coll"), Some(0), [])]
  }

  lemma SceneWithCollWF()
    ensures WF(SceneWithColl(), 2) && SceneWithColl()[0].children == [1]
  {
  }

  lemma SceneWithCollPaths()
    ensures 0 in SceneWithColl() && SceneWithColl()[0].parent.None? && SceneWithColl()[0].path == "/root"
    ensures 1 in SceneWithColl() && LastSegment(SceneWithColl()[1].path) == "Coll"
  {
    var m := SceneWithColl();
    assert m[1].path == "" + "/" + "Coll";
    LastSegmentAfter("", "Coll");
  }

  /** Under a prim with a single child, the name lookup finds that child by
      its name. */
  lemma LookupSingle(m: Arena, n: nat, c: Handle, x: Handle, name: string)
    requires WF(m, n) && c in m && m[c].children == [x] && x in m && LastSegment(m[x].path) == name
    ensures Lookup(m, n, c, name) == Some(x)
  {
    assert NamesOf(m, m[c].children) == [name];
  }

  /** On that scene the lookup as written misses `Coll`, so ADD mode makes a
      second collection prim. */
  lemma AsWrittenMissesColl()
    ensures WF(SceneWithColl(), 2)
    ensures AsWrittenLookup(SceneWithColl(), 2, 0, "Coll") == None
    ensures Target(AsWrittenLookup(SceneWithColl(), 2, 0, "Coll"), 2, Add) == Some(2)
  {
    var m := SceneWithColl();
    SceneWithCollWF();
    SceneWithCollPaths();
    assert !StartsWith("Coll", "root") by { assert "Coll"[0] != "root"[0]; }
    AsWrittenMisses(m, 2, 0, "Coll");
  }

  /** On the same scene the name lookup finds the existing `Coll`, which ADD
      mode then links. */
  lemma LookupFindsColl()
    ensures WF(SceneWithColl(), 2)
    ensures Lookup(SceneWithColl(), 2, 0, "Coll") == Some(1)
    ensures Target(Lookup(SceneWithColl(), 2, 0, "Coll"), 2, Add) == Some(1)
  {
    SceneWithCollWF();
    SceneWithCollPaths();
    LookupSingle(SceneWithColl(), 2, 0, 1, "Coll");
  }
}
