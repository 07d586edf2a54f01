/** The Parent node: the object prims directly under the root of one scene
    are copied, moved under a target prim of a copy of another scene, and
    attached there. Both inputs are handles of the shared proxy heap. */
module ParentNode {
  import opened Base
  import opened Strings
  import opened Globs
  import opened ProxyArena
  import opened ProxyTypes
  import opened TreeNodes

  predicate IsObject(props: Props) {
    Get(props, "datablock_type") == VStr("OBJECT")
  }

  // ---------------------------------------------------------------------
  // Choosing the target

  /** The position of the first prim of `hs` whose path the glob matches. */
  function FirstMatch(m: Arena, glob: string, hs: seq<Handle>): (r: Option<nat>)
    requires forall i :: 0 <= i < |hs| ==> hs[i] in m
    ensures r.Some? ==> r.value < |hs| && Match(glob, m[hs[r.value]].path)
    ensures r.Some? ==> forall j :: 0 <= j < r.value ==> !Match(glob, m[hs[j]].path)
    ensures r.None? ==> forall j :: 0 <= j < |hs| ==> !Match(glob, m[hs[j]].path)
    decreases |hs|
  {
    if hs == [] then None
    else if Match(glob, m[hs[0]].path) then Some(0)
    else match FirstMatch(m, glob, hs[1..])
      case None => None
      case Some(i) => Some(i + 1)
  }

  /** `next(p for p in ks if p is an OBJECT)`: the first object of `ks`. */
  function FirstObject(m: Arena, ks: seq<Handle>): (r: Option<Handle>)
    requires forall i :: 0 <= i < |ks| ==> ks[i] in m
    ensures r.Some? ==> exists i :: 0 <= i < |ks| && ks[i] == r.value && FirstObjectAt(m, ks, i)
    ensures r.None? ==> forall j :: 0 <= j < |ks| ==> !IsObject(m[ks[j]].props)
    decreases |ks|
  {
    if ks == [] then None
    else if IsObject(m[ks[0]].props) then Some(ks[0])
    else
      var r := FirstObject(m, ks[1..]);
      FirstObjectShift(m, ks, r);
      r
  }

  /** `ks[i]` is an object and no prim before it is. */
  predicate FirstObjectAt(m: Arena, ks: seq<Handle>, i: nat)
    requires forall i :: 0 <= i < |ks| ==> ks[i] in m
  {
    i < |ks| && IsObject(m[ks[i]].props) && forall j :: 0 <= j < i ==> !IsObject(m[ks[j]].props)
  }

  lemma FirstObjectShift(m: Arena, ks: seq<Handle>, r: Option<Handle>)
    requires forall i :: 0 <= i < |ks| ==> ks[i] in m
    requires ks != [] && !IsObject(m[ks[0]].props)
    requires r.Some? ==> exists i :: 0 <= i < |ks[1..]| && ks[1..][i] == r.value && FirstObjectAt(m, ks[1..], i)
    ensures r.Some? ==> exists i :: 0 <= i < |ks| && ks[i] == r.value && FirstObjectAt(m, ks, i)
  {
    if r.Some? {
      var i :| 0 <= i < |ks[1..]| && ks[1..][i] == r.value && FirstObjectAt(m, ks[1..], i);
      assert ks[i + 1] == r.value;
      assert FirstObjectAt(m, ks, i + 1);
    }
  }

  /** The prim the node attaches to in the tree under `c`. With a selection
      whose expression is not empty, it is what `find_child_by_path` returns
      for the path of the first prim, in pre-order, that the selection's
      glob matches (an empty path finds nothing); otherwise it is the first
      object directly under `c`. */
  function ParentTarget(m: Arena, n: nat, c: Handle, sel: Option<Query>): (r: Option<Handle>)
    requires WF(m, n) && c in m
    ensures r.Some? ==> r.value in m
  {
    if sel.Some? && sel.value.raw != "" then
      FlatBounds(m, n, c);
      var all := Flat(m, n, c);
      match FirstMatch(m, sel.value.glob, all)
      case None => None
      case Some(i) => if m[all[i]].path != "" then FindSpec(m, n, c, VStr(m[all[i]].path)) else None
    else FirstObject(m, m[c].children)
  }

  /** The glob loop of the node and the fallback to the first object. */
  method FindTarget(heap: ProxyHeap, c: Handle, sel: Option<Query>) returns (t: Option<Handle>)
    requires heap.Valid() && c in heap.prims
    ensures t == ParentTarget(heap.prims, heap.next, c, sel)
  {
    if sel.Some? && sel.value.raw != "" {
      var all := heap.GetFlatList(c);
      FlatBounds(heap.prims, heap.next, c);
      var found := FirstMatchLoop(heap.prims, sel.value.glob, all);
      if found.Some? && heap.prims[all[found.value]].path != "" {
        t := heap.FindChildByPath(c, VStr(heap.prims[all[found.value]].path));
      } else {
        t := None;
      }
    } else {
      t := FirstObject(heap.prims, heap.prims[c].children);
    }
  }

  /** `for prim in all_prims: if fnmatch(prim.path, glob): ...; break`. */
  method FirstMatchLoop(m: Arena, glob: string, hs: seq<Handle>) returns (r: Option<nat>)
    requires forall i :: 0 <= i < |hs| ==> hs[i] in m
    ensures r == FirstMatch(m, glob, hs)
  {
    var i := 0;
    while i < |hs|
      invariant 0 <= i <= |hs|
      invariant forall j :: 0 <= j < i ==> !Match(glob, m[hs[j]].path)
    {
      if Match(glob, m[hs[i]].path) {
        return Some(i);
      }
      i := i + 1;
    }
    return None;
  }

  /** The walk of `find_child_by_path` never leaves the prims from `top` on
      when it starts among them and they are closed under parents. */
  lemma {:induction false} WalkAbove(m: Arena, n: nat, cur: Handle, parts: seq<string>, top: nat)
    requires WF(m, n) && cur in m && AboveClosed(m, top) && top <= cur
    ensures Walk(m, n, cur, parts).Some? ==> top <= Walk(m, n, cur, parts).value
    decreases |parts|
  {
    if parts != [] && parts[0] != "" && parts[0] != ".." {
      match NamedChild(m, m[cur].children, parts[0])
      case None =>
      case Some(k) =>
        var j := IndexOf(NamesOf(m, m[cur].children), parts[0]).value;
        assert k == m[cur].children[j];
        WalkAbove(m, n, k, parts[1..], top);
    } else if parts != [] && parts[0] == ".." {
      if m[cur].parent.Some? {
        WalkAbove(m, n, m[cur].parent.value, parts[1..], top);
      }
    } else if parts != [] {
      WalkAbove(m, n, cur, parts[1..], top);
    }
  }

  /** The target lies in the copy when the copy is a fresh tree. */
  lemma TargetAbove(m: Arena, n: nat, c: Handle, sel: Option<Query>, top: nat)
    requires WF(m, n) && c in m && m[c].parent.None? && AboveClosed(m, top) && top <= c
    ensures ParentTarget(m, n, c, sel).Some? ==> top <= ParentTarget(m, n, c, sel).value
  {
    assert RootOf(m, n, c) == c;
    FlatBounds(m, n, c);
    if sel.Some? && sel.value.raw != "" {
      var all := Flat(m, n, c);
      match FirstMatch(m, sel.value.glob, all)
      case None =>
      case Some(i) =>
        var s := m[all[i]].path;
        if s != "" {
          if StartsWith(s, "/") {
            var rp := m[c].path;
            if StartsWith(s, rp) {
              var rest := LStripChar(s[|rp|..], '/');
              if rest != "" {
                WalkAbove(m, n, c, Split(rest, "/"), top);
              }
            }
          } else {
            WalkAbove(m, n, c, Split(s, "/"), top);
          }
        }
    } else {
      match FirstObject(m, m[c].children)
      case None =>
      case Some(k) =>
        var i :| 0 <= i < |m[c].children| && m[c].children[i] == k;
    }
  }

  /** A selection whose glob is `*` picks the root of the copy itself, when
      the root's path is absolute. */
  lemma StarPicksRoot(m: Arena, n: nat, c: Handle, raw: string)
    requires WF(m, n) && c in m && m[c].parent.None? && StartsWith(m[c].path, "/") && raw != ""
    ensures ParentTarget(m, n, c, Some(Query(raw, "*", []))) == Some(c)
  {
    var all := Flat(m, n, c);
    assert all[0] == c && FirstMatch(m, "*", all) == Some(0) by {
      FlatFacts(m, n, c);
      StarMatchesAll(m[c].path);
    }
    assert FindSpec(m, n, c, VStr(m[c].path)) == Some(c) by {
      assert RootOf(m, n, c) == c;
      FindRootPath(m, n, c, 0);
      assert m[c].path + seq(0, _ => '/') == m[c].path;
    }
  }

  // ---------------------------------------------------------------------
  // Attaching copies

  /** The object prims of `ks`, in order: the ones the node moves. */
  function ObjectKids(m: Arena, ks: seq<Handle>): (r: seq<Handle>)
    requires forall i :: 0 <= i < |ks| ==> ks[i] in m
    ensures forall x :: x in r <==> x in ks && IsObject(m[x].props)
    ensures forall i :: 0 <= i < |r| ==> r[i] in m
    ensures |r| <= |ks|
    decreases |ks|
  {
    if ks == [] then []
    else
      var init := ObjectKids(m, ks[..|ks| - 1]);
      var x := ks[|ks| - 1];
      assert forall y :: y in ks <==> y in ks[..|ks| - 1] || y == x;
      if IsObject(m[x].props) then init + [x] else init
  }

  lemma ObjectKidsSnoc(m: Arena, ks: seq<Handle>, i: nat)
    requires (forall i :: 0 <= i < |ks| ==> ks[i] in m) && i < |ks|
    ensures ObjectKids(m, ks[..i + 1]) == ObjectKids(m, ks[..i]) + if IsObject(m[ks[i]].props) then [ks[i]] else []
  {
    assert ks[..i + 1][..i] == ks[..i];
  }

  /** The state after the attaching loop, against the state `m1` before it:
      the target `t` has the fresh prims `kids` appended to its children,
      one per moved prim of `srcs` (read in `m0`), each parented to `t` and
      holding a copy of its source tree moved under the target's path;
      every other prim of `m1` is as it was. */
  ghost predicate Adopted(m1: Arena, n1: nat, m2: Arena, n2: nat, t: Handle, kids: seq<Handle>,
                          srcs: seq<Handle>, m0: Arena, n0: nat)
    requires WF(m2, n2) && WF(m0, n0) && t in m1
    requires forall i :: 0 <= i < |srcs| ==> srcs[i] in m0
  {
    |kids| == |srcs| && t in m2
    && m2[t] == m1[t].(children := m1[t].children + kids)
    && (forall k :: k in m1 && k != t ==> k in m2 && m2[k] == m1[k])
    && forall j :: 0 <= j < |kids| ==>
         kids[j] in m2 && n1 <= kids[j] && m2[kids[j]].parent == Some(t)
         && View(m2, n2, kids[j]) == RepathTree(View(m0, n0, srcs[j]), m1[t].path)
  }

  /** `child.clone()` followed by `repath(p)` on the copy: a fresh orphan
      tree holding the source's value moved under `p`; no existing prim
      changes. */
  method CopyMoved(heap: ProxyHeap, src: Handle, p: string) returns (cc: Handle)
    requires heap.Valid() && src in heap.prims
    modifies heap
    ensures heap.Valid() && heap.next >= old(heap.next) && old(heap.next) <= cc && cc in heap.prims
    ensures Grows(old(heap.prims), heap.prims, old(heap.next)) && Orphan(heap.prims, cc)
    ensures View(heap.prims, heap.next, cc) == RepathTree(old(View(heap.prims, heap.next, src)), p)
  {
    ghost var m0 := heap.prims;
    cc := heap.Clone(src);
    ghost var m1 := heap.prims;
    FlatBounds(m1, heap.next, cc);
    heap.Repath(cc, p);
    ghost var m2 := heap.prims;
    forall k, i | k in m2 && 0 <= i < |m2[k].children| ensures m2[k].children[i] != cc {
      assert m2[k].children == m1[k].children;
    }
  }

  /** One round of the loop: the moved copy, then `parent = target` and the
      append. Only the target and fresh prims change. */
  method AdoptOne(heap: ProxyHeap, t: Handle, src: Handle) returns (cc: Handle)
    requires heap.Valid() && t in heap.prims && src in heap.prims
    modifies heap
    ensures heap.Valid() && heap.next >= old(heap.next) && old(heap.next) <= cc
    ensures forall k :: k in heap.prims ==> k in old(heap.prims) || old(heap.next) <= k
    ensures forall k :: k in old(heap.prims) && k != t ==> k in heap.prims && heap.prims[k] == old(heap.prims)[k]
    ensures t in heap.prims && heap.prims[t] == old(heap.prims)[t].(children := old(heap.prims)[t].children + [cc])
    ensures cc in heap.prims && heap.prims[cc].parent == Some(t)
    ensures View(heap.prims, heap.next, cc) == RepathTree(old(View(heap.prims, heap.next, src)), old(heap.prims)[t].path)
  {
    cc := CopyMoved(heap, src, heap.prims[t].path);
    AttachFrame(heap.prims, heap.next, t, cc, cc);
    heap.prims := Attach(heap.prims, t, cc);
  }

  /** `for child in children_scene.children` with the object test. */
  method AdoptAll(heap: ProxyHeap, t: Handle, srcs: seq<Handle>, ghost m0: Arena, ghost n0: nat)
    returns (ghost kids: seq<Handle>)
    requires heap.Valid() && t in heap.prims && n0 <= t && WF(m0, n0)
    requires Untouched(m0, heap.prims) && forall i :: 0 <= i < |srcs| ==> srcs[i] in m0
    modifies heap
    ensures heap.Valid() && Untouched(m0, heap.prims)
    ensures Adopted(old(heap.prims), old(heap.next), heap.prims, heap.next, t, kids, ObjectKids(m0, srcs), m0, n0)
  {
    ghost var start, sn := heap.prims, heap.next;
    kids := [];
    var i := 0;
    while i < |srcs|
      invariant 0 <= i <= |srcs| && heap.Valid() && sn <= heap.next && Untouched(m0, heap.prims)
      invariant Adopted(start, sn, heap.prims, heap.next, t, kids, ObjectKids(m0, srcs[..i]), m0, n0)
    {
      kids := AdoptRound(heap, t, srcs, i, start, sn, kids, m0, n0);
      i := i + 1;
    }
    assert srcs[..i] == srcs;
  }

  /** The round of the loop for `srcs[i]`: an object is adopted, anything
      else is skipped. */
  method AdoptRound(heap: ProxyHeap, t: Handle, srcs: seq<Handle>, i: nat, ghost m1: Arena, ghost n1: nat,
                    ghost kids: seq<Handle>, ghost m0: Arena, ghost n0: nat)
    returns (ghost kids': seq<Handle>)
    requires heap.Valid() && WF(m0, n0) && t in m1 && n0 <= t && t < n1 && n1 <= heap.next
    requires Untouched(m0, heap.prims) && i < |srcs| && forall i :: 0 <= i < |srcs| ==> srcs[i] in m0
    requires Adopted(m1, n1, heap.prims, heap.next, t, kids, ObjectKids(m0, srcs[..i]), m0, n0)
    modifies heap
    ensures heap.Valid() && n1 <= heap.next && Untouched(m0, heap.prims)
    ensures Adopted(m1, n1, heap.prims, heap.next, t, kids', ObjectKids(m0, srcs[..i + 1]), m0, n0)
  {
    var src := srcs[i];
    ObjectKidsSnoc(m0, srcs, i);
    assert heap.prims[src] == m0[src];
    kids' := kids;
    if IsObject(heap.prims[src].props) {
      var cc := AdoptNext(heap, t, src, m1, n1, kids, ObjectKids(m0, srcs[..i]), m0, n0);
      kids' := kids + [cc];
    }
  }

  /** The round of the loop for an object `src`, against the state `m1`
      before the loop. */
  method AdoptNext(heap: ProxyHeap, t: Handle, src: Handle, ghost m1: Arena, ghost n1: nat,
                   ghost kids: seq<Handle>, ghost srcs: seq<Handle>, ghost m0: Arena, ghost n0: nat)
    returns (cc: Handle)
    requires heap.Valid() && WF(m0, n0) && t in m1 && n0 <= t && t < n1 && n1 <= heap.next
    requires Untouched(m0, heap.prims) && src in m0 && forall i :: 0 <= i < |srcs| ==> srcs[i] in m0
    requires Adopted(m1, n1, heap.prims, heap.next, t, kids, srcs, m0, n0)
    modifies heap
    ensures heap.Valid() && n1 <= heap.next && Untouched(m0, heap.prims)
    ensures Adopted(m1, n1, heap.prims, heap.next, t, kids + [cc], srcs + [src], m0, n0)
  {
    ghost var ma, na := heap.prims, heap.next;
    FlatBounds(m0, n0, src);
    SubtreeKept(m0, n0, ma, na, src);
    cc := AdoptOne(heap, t, src);
    AdoptedSnoc(m1, n1, ma, na, heap.prims, heap.next, t, kids, srcs, m0, n0, src, cc);
  }

  /** One more round extends the loop's result by one copy. */
  lemma AdoptedSnoc(m1: Arena, n1: nat, ma: Arena, na: nat, mb: Arena, nb: nat, t: Handle, kids: seq<Handle>,
                    srcs: seq<Handle>, m0: Arena, n0: nat, src: Handle, cc: Handle)
    requires WF(ma, na) && WF(mb, nb) && WF(m0, n0) && t in m1 && t < n1 && n1 <= na
    requires (forall i :: 0 <= i < |srcs| ==> srcs[i] in m0) && src in m0
    requires Adopted(m1, n1, ma, na, t, kids, srcs, m0, n0)
    requires forall k :: k in ma && k != t ==> k in mb && mb[k] == ma[k]
    requires t in mb && mb[t] == ma[t].(children := ma[t].children + [cc])
    requires cc in mb && na <= cc && mb[cc].parent == Some(t)
    requires View(mb, nb, cc) == RepathTree(View(m0, n0, src), m1[t].path)
    ensures Adopted(m1, n1, mb, nb, t, kids + [cc], srcs + [src], m0, n0)
  {
    KidsKept(m1, n1, ma, na, mb, nb, t, kids, srcs, m0, n0);
  }

  /** The earlier copies keep their values through one more round. */
  lemma KidsKept(m1: Arena, n1: nat, ma: Arena, na: nat, mb: Arena, nb: nat, t: Handle, kids: seq<Handle>,
                 srcs: seq<Handle>, m0: Arena, n0: nat)
    requires WF(ma, na) && WF(mb, nb) && WF(m0, n0) && t in m1 && t < n1 && n1 <= na
    requires forall i :: 0 <= i < |srcs| ==> srcs[i] in m0
    requires Adopted(m1, n1, ma, na, t, kids, srcs, m0, n0)
    requires forall k :: k in ma && k != t ==> k in mb && mb[k] == ma[k]
    ensures forall j :: 0 <= j < |kids| ==> kids[j] in mb && View(mb, nb, kids[j]) == View(ma, na, kids[j])
  {
    forall j | 0 <= j < |kids| ensures kids[j] in mb && View(mb, nb, kids[j]) == View(ma, na, kids[j]) {
      FlatBounds(ma, na, kids[j]);
      SubtreeKept(ma, na, mb, nb, kids[j]);
    }
  }

  /** Every moved copy lies under the target's path, keeps the name and
      ids of its source, and the target keeps its earlier children first. */
  lemma AdoptedFacts(m1: Arena, n1: nat, m2: Arena, n2: nat, t: Handle, kids: seq<Handle>,
                     srcs: seq<Handle>, m0: Arena, n0: nat, j: nat)
    requires WF(m2, n2) && WF(m0, n0) && t in m1
    requires forall i :: 0 <= i < |srcs| ==> srcs[i] in m0
    requires Adopted(m1, n1, m2, n2, t, kids, srcs, m0, n0) && j < |kids|
    ensures m2[t].children[..|m1[t].children|] == m1[t].children
    ensures AllUnder(View(m2, n2, kids[j]), m1[t].path + "/")
    ensures LastSegment(View(m2, n2, kids[j]).path) == LastSegment(m0[srcs[j]].path)
    ensures SameIds(View(m0, n0, srcs[j]), View(m2, n2, kids[j]))
  {
    var src := View(m0, n0, srcs[j]);
    RepathUnder(src, m1[t].path);
    RepathKeepsName(src, m1[t].path);
    RepathSameIds(src, m1[t].path);
  }

  // ---------------------------------------------------------------------
  // The node

  /** `scene and scene.children`: the input is there and has children. */
  predicate HasChildren(m: Arena, scene: Option<Handle>)
    requires scene.Some? ==> scene.value in m
  {
    scene.Some? && m[scene.value].children != []
  }

  /** `FN_parent.execute`. With no Parent scene, or one without children,
      the result is the Parent scene if there is one and else the Children
      scene; with no Children scene, or one without children, it is the
      Parent scene. Otherwise the Parent scene is cloned, the target is
      chosen in the clone, and with a target each object directly under the
      Children scene is copied, moved under the target's path and attached
      to the target. The ghost outputs are the target, the attached copies
      and the arena right after cloning. */
  method Parent(heap: ProxyHeap, parentScene: Option<Handle>, sel: Option<Query>, childScene: Option<Handle>)
    returns (r: Option<Handle>, ghost t: Option<Handle>, ghost kids: seq<Handle>, ghost cloned: Arena, ghost cn: nat)
    requires heap.Valid()
    requires parentScene.Some? ==> parentScene.value in heap.prims
    requires childScene.Some? ==> childScene.value in heap.prims
    modifies heap
    ensures heap.Valid() && Untouched(old(heap.prims), heap.prims)
    ensures !HasChildren(old(heap.prims), parentScene) ==>
      r == (if parentScene.Some? then parentScene else childScene) && heap.prims == old(heap.prims)
    ensures HasChildren(old(heap.prims), parentScene) && !HasChildren(old(heap.prims), childScene) ==>
      r == parentScene && heap.prims == old(heap.prims)
    ensures HasChildren(old(heap.prims), parentScene) && HasChildren(old(heap.prims), childScene) ==>
      r.Some? && old(heap.next) <= r.value && WF(cloned, cn) && r.value in cloned && cloned[r.value].parent.None?
    ensures HasChildren(old(heap.prims), parentScene) && HasChildren(old(heap.prims), childScene) ==>
      View(cloned, cn, r.value) == old(View(heap.prims, heap.next, parentScene.value))
      && t == ParentTarget(cloned, cn, r.value, sel) && (t.None? ==> heap.prims == cloned)
    ensures HasChildren(old(heap.prims), parentScene) && HasChildren(old(heap.prims), childScene) && t.Some? ==>
      t.value in cloned && WF(old(heap.prims), old(heap.next))
      && Adopted(cloned, cn, heap.prims, heap.next, t.value, kids,
                 ObjectKids(old(heap.prims), old(heap.prims)[childScene.value].children), old(heap.prims), old(heap.next))
  {
    cloned, cn, t, kids := heap.prims, heap.next, None, [];
    if !HasChildren(heap.prims, parentScene) {
      return if parentScene.Some? then parentScene else childScene, t, kids, cloned, cn;
    }
    if !HasChildren(heap.prims, childScene) {
      return parentScene, t, kids, cloned, cn;
    }
    ghost var m0, n0 := heap.prims, heap.next;
    var c := heap.Clone(parentScene.value);
    cloned, cn := heap.prims, heap.next;
    r := Some(c);
    var target := FindTarget(heap, c, sel);
    t := target;
    TargetAbove(cloned, cn, c, sel, n0);
    if target.None? {
      return;
    }
    var srcs := heap.prims[childScene.value].children;
    assert forall i :: 0 <= i < |srcs| ==> srcs[i] in m0;
    assert Untouched(m0, heap.prims) && forall k :: k in m0 ==> k < n0;
    kids := AdoptAll(heap, target.value, srcs, m0, n0);
  }
}
