/** The scene-composition nodes Merge, Prune and Set Property. Each one
    works on a fresh clone of its input tree, so every prim that existed
    before the node ran keeps its record. Scene inputs are handles of
    the shared proxy heap, or `None` when the socket carries nothing. */
module TreeNodes {
  import opened Base
  import opened Globs
  import opened ProxyArena
  import opened ProxyTypes
  import opened EngineUtils

  /** Every record that existed in `m0` is still there, unchanged. */
  ghost predicate Untouched(m0: Arena, m: Arena) {
    forall k :: k in m0 ==> k in m && m[k] == m0[k]
  }

  /** `FNSelectionQuery(raw_expression="*", path_glob="*", filters=[])`, the
      query a node uses when its Selection input is empty. */
  const Everything := Query("*", "*", [])

  function QueryOr(q: Option<Query>): Query {
    if q.Some? then q.value else Everything
  }

  /** Whether `resolve_selection` keeps a prim with this path and these
      properties: its path matches the glob and it passes every filter. */
  predicate Picked(q: Query, path: string, props: Props) {
    Match(q.glob, path) && KeepsAll(props, q.filters)
  }

  /** A prim of the subtree under `root` that the query picks. */
  ghost predicate PickedIn(m: Arena, n: nat, root: Handle, q: Query, x: Handle)
    requires WF(m, n) && root in m
  {
    x in Flat(m, n, root) && x in m && Picked(q, m[x].path, m[x].props)
  }

  /** The default query keeps every prim. */
  lemma EverythingPicks(path: string, props: Props)
    ensures Picked(Everything, path, props)
  {
    StarMatchesAll(path);
  }

  /** A selection is the prims of the subtree under `root` that the query
      picks, each once. */
  lemma SelectionPicks(m: Arena, n: nat, root: Handle, q: Query)
    requires WF(m, n) && root in m
    ensures NoDup(Selection(m, n, root, q))
    ensures forall x :: x in Selection(m, n, root, q) <==> PickedIn(m, n, root, q, x)
    ensures forall x :: x in Flat(m, n, root) ==> x in m && root <= x
  {
    ResolveSelectionExact(m, n, root, q);
    FlatBounds(m, n, root);
  }

  // ---------------------------------------------------------------------
  // Merge

  /** `FN_merge.execute`. With neither input there is no result; with one
      input the result is a clone of it; with both, a clone of the base with
      the override merged into it. The result is a fresh tree root and no
      existing prim changes. */
  method MergeNode(heap: ProxyHeap, base: Option<Handle>, over: Option<Handle>) returns (r: Option<Handle>)
    requires heap.Valid()
    requires base.Some? ==> base.value in heap.prims
    requires over.Some? ==> over.value in heap.prims
    modifies heap
    ensures heap.Valid() && Untouched(old(heap.prims), heap.prims)
    ensures r.None? <==> base.None? && over.None?
    ensures r.None? ==> heap.prims == old(heap.prims)
    ensures r.Some? ==> r.value in heap.prims && old(heap.next) <= r.value && heap.prims[r.value].parent.None?
    ensures base.None? && over.Some? ==>
      View(heap.prims, heap.next, r.value) == old(View(heap.prims, heap.next, over.value))
    ensures base.Some? && over.None? ==>
      View(heap.prims, heap.next, r.value) == old(View(heap.prims, heap.next, base.value))
    ensures base.Some? && over.Some? ==>
      heap.prims[r.value].path == old(heap.prims[base.value].path)
      && heap.prims[r.value].id == old(heap.prims[base.value].id)
    ensures base.Some? && over.Some? && NoUpBelow(old(View(heap.prims, heap.next, over.value))) ==>
      View(heap.prims, heap.next, r.value) ==
        MergeTree(old(View(heap.prims, heap.next, base.value)), old(View(heap.prims, heap.next, over.value)))
  {
    if base.None? && over.None? {
      return None;
    }
    if base.None? {
      var c := heap.Clone(over.value);
      return Some(c);
    }
    if over.None? {
      var c := heap.Clone(base.value);
      return Some(c);
    }
    ghost var m0, n0 := heap.prims, heap.next;
    var c := heap.Clone(base.value);
    ghost var m1, n1 := heap.prims, heap.next;
    FlatBounds(m0, n0, over.value);
    SubtreeKept(m0, n0, m1, n1, over.value);
    FlatBounds(m1, n1, over.value);
    assert MergeApart(m1, n1, c, c, over.value);
    heap.Merge(c, c, over.value);
    r := Some(c);
  }

  // ---------------------------------------------------------------------
  // Prune

  /** `list.remove(x)`: the list without the first occurrence of `x`; a
      list without `x` is left as it is (the node catches the ValueError). */
  function RemoveFirst<T(==)>(s: seq<T>, x: T): (r: seq<T>)
    ensures x !in s ==> r == s
  {
    if s == [] then []
    else if s[0] == x then s[1..] else [s[0]] + RemoveFirst(s[1..], x)
  }

  /** `list.remove(x)` takes out exactly one `x` when there is one. */
  lemma {:induction false} RemoveFirstCounts<T>(s: seq<T>, x: T)
    requires x in s
    ensures |RemoveFirst(s, x)| == |s| - 1 && multiset(RemoveFirst(s, x)) == multiset(s) - multiset{x}
  {
    assert s == [s[0]] + s[1..];
    if s[0] != x {
      RemoveFirstCounts(s[1..], x);
    }
  }

  /** The handles of `ks` that are not in `xs`, in order. */
  function Drop(ks: seq<Handle>, xs: seq<Handle>): (r: seq<Handle>)
    ensures forall k :: k in r <==> k in ks && k !in xs
  {
    if ks == [] then [] else (if ks[0] in xs then [] else [ks[0]]) + Drop(ks[1..], xs)
  }

  /** The arena with every prim of `xs` taken out of every children list. */
  function Cut(m: Arena, xs: seq<Handle>): (r: Arena)
    ensures r.Keys == m.Keys
  {
    map k | k in m :: m[k].(children := Drop(m[k].children, xs))
  }

  lemma {:induction false} DropNone(ks: seq<Handle>, xs: seq<Handle>)
    requires forall k :: k in ks ==> k !in xs
    ensures Drop(ks, xs) == ks
  {
    if ks != [] {
      DropNone(ks[1..], xs);
      assert ks == [ks[0]] + ks[1..];
    }
  }

  lemma {:induction false} DropNoDup(ks: seq<Handle>, xs: seq<Handle>)
    requires NoDup(ks)
    ensures NoDup(Drop(ks, xs))
  {
    if ks != [] {
      TailNoDup(ks);
      DropNoDup(ks[1..], xs);
      var rest := Drop(ks[1..], xs);
      var d := (if ks[0] in xs then [] else [ks[0]]) + rest;
      forall i, j | 0 <= i < j < |d| ensures d[i] != d[j] {
        if ks[0] !in xs && i == 0 {
          assert d[j] == rest[j - 1];
        } else if ks[0] !in xs {
          assert d[i] == rest[i - 1] && d[j] == rest[j - 1];
        }
      }
    }
  }

  /** Dropping one more handle leaves a list without it unchanged. */
  lemma {:induction false} DropSnocAbsent(ks: seq<Handle>, xs: seq<Handle>, x: Handle)
    requires x !in ks
    ensures Drop(ks, xs + [x]) == Drop(ks, xs)
  {
    if ks != [] {
      DropSnocAbsent(ks[1..], xs, x);
    }
  }

  /** Dropping one more handle from a list holding it once takes out that
      one entry, as `list.remove` does. */
  lemma {:induction false} DropSnocOnce(ks: seq<Handle>, xs: seq<Handle>, x: Handle)
    requires x !in xs && NoDup(ks)
    ensures Drop(ks, xs + [x]) == RemoveFirst(Drop(ks, xs), x)
  {
    if ks != [] {
      var a, rest := ks[0], ks[1..];
      TailNoDup(ks);
      var d := Drop(rest, xs);
      if a == x {
        DropSnocAbsent(rest, xs, x);
        assert a in xs + [x];
        assert Drop(ks, xs + [x]) == Drop(rest, xs + [x]);
        assert Drop(ks, xs) == [x] + d;
        assert ([x] + d)[0] == x && ([x] + d)[1..] == d;
      } else if a in xs {
        DropSnocOnce(rest, xs, x);
        assert a in xs + [x];
        assert Drop(ks, xs + [x]) == Drop(rest, xs + [x]);
        assert Drop(ks, xs) == d;
      } else {
        DropSnocOnce(rest, xs, x);
        assert a !in xs + [x];
        assert Drop(ks, xs + [x]) == [a] + Drop(rest, xs + [x]);
        assert Drop(ks, xs) == [a] + d;
        assert ([a] + d)[0] == a && ([a] + d)[1..] == d;
      }
    }
  }

  /** A children list of a well-formed arena repeats no handle. */
  lemma ChildrenNoDup(m: Arena, n: nat, h: Handle)
    requires WF(m, n) && h in m
    ensures NoDup(m[h].children)
  {
  }

  /** A cut children list holds only entries of the old list. */
  lemma CutChild(m: Arena, xs: seq<Handle>, h: Handle, i: int)
    requires h in m && 0 <= i < |Cut(m, xs)[h].children|
    ensures Cut(m, xs)[h].children[i] in m[h].children
    ensures Cut(m, xs)[h].parent == m[h].parent && Cut(m, xs)[h].id == m[h].id
  {
    assert Cut(m, xs)[h].children[i] in Cut(m, xs)[h].children;
  }

  /** Cutting keeps every handle in at most one slot. */
  lemma CutSlots(m: Arena, n: nat, xs: seq<Handle>)
    requires WF(m, n)
    ensures SlotsUnique(Cut(m, xs))
  {
    var r := Cut(m, xs);
    forall h1, i, h2, j | h1 in r && h2 in r && 0 <= i < |r[h1].children| && 0 <= j < |r[h2].children|
      && r[h1].children[i] == r[h2].children[j]
      ensures h1 == h2 && i == j
    {
      var v := r[h1].children[i];
      CutChild(m, xs, h1, i);
      CutChild(m, xs, h2, j);
      var i1 :| 0 <= i1 < |m[h1].children| && m[h1].children[i1] == v;
      var j1 :| 0 <= j1 < |m[h2].children| && m[h2].children[j1] == v;
      assert h1 == h2;
      ChildrenNoDup(m, n, h1);
      DropNoDup(m[h1].children, xs);
    }
  }

  /** Removing prims from children lists keeps the arena well formed. */
  lemma CutWF(m: Arena, n: nat, xs: seq<Handle>)
    requires WF(m, n)
    ensures WF(Cut(m, xs), n)
  {
    var r := Cut(m, xs);
    forall h, i | h in r && 0 <= i < |r[h].children|
      ensures r[h].children[i] in r && h < r[h].children[i]
    {
      CutChild(m, xs, h, i);
    }
    forall h | h in r ensures h < n && r[h].id != "" && (r[h].parent.Some? ==> r[h].parent.value in r && r[h].parent.value < h) {
      assert r[h].parent == m[h].parent && r[h].id == m[h].id;
    }
    CutSlots(m, n, xs);
  }

  /** Below a linked root, every prim has its parent, and sits in that
      parent's children list. */
  lemma {:induction false} LinkedBelow(m: Arena, n: nat, c: Handle, y: Handle)
    requires WF(m, n) && c in m && Linked(m, n, c) && y in Flat(m, n, c)
    ensures y in m && Linked(m, n, y)
    decreases n - c
  {
    FlatBounds(m, n, c);
    if y != c {
      var ks := m[c].children;
      FlatSeqMem(m, n, c, ks, y);
      var j :| 0 <= j < |ks| && y in Flat(m, n, ks[j]);
      LinkedBelow(m, n, ks[j], y);
    }
  }

  lemma LinkedParent(m: Arena, n: nat, c: Handle, x: Handle)
    requires WF(m, n) && c in m && Linked(m, n, c) && x in Flat(m, n, c) && x != c
    ensures x in m && m[x].parent.Some? && m[x].parent.value in m && x in m[m[x].parent.value].children
    ensures forall k :: k in m && x in m[k].children ==> k == m[x].parent.value
  {
    FlatFacts(m, n, c);
    var y, i :| y in Flat(m, n, c) && 0 <= i < |m[y].children| && m[y].children[i] == x;
    LinkedBelow(m, n, c, y);
    forall k | k in m && x in m[k].children ensures k == y {
      var j :| 0 <= j < |m[k].children| && m[k].children[j] == x;
    }
  }

  lemma CutNothing(m: Arena)
    ensures Cut(m, []) == m
  {
    forall k | k in m ensures Drop(m[k].children, []) == m[k].children {
      DropNone(m[k].children, []);
    }
  }

  /** One iteration of the prune loop on the cut arena: taking `x` out of its
      parent's children list is cutting one more prim, and no other list
      changes. The root, which has no parent, is in no children list. */
  lemma CutStep(m: Arena, n: nat, c: Handle, xs: seq<Handle>, x: Handle)
    requires WF(m, n) && c in m && Linked(m, n, c) && Orphan(m, c) && m[c].parent.None?
    requires x in Flat(m, n, c) && x !in xs
    ensures x in m && (m[x].parent.Some? ==> m[x].parent.value in m)
    ensures forall k :: k in m && (m[x].parent.None? || k != m[x].parent.value) ==>
      Drop(m[k].children, xs + [x]) == Drop(m[k].children, xs)
    ensures m[x].parent.Some? ==>
      var p := m[x].parent.value;
      Drop(m[p].children, xs + [x]) == RemoveFirst(Drop(m[p].children, xs), x)
  {
    FlatBounds(m, n, c);
    if x == c {
      forall k | k in m ensures Drop(m[k].children, xs + [x]) == Drop(m[k].children, xs) {
        DropSnocAbsent(m[k].children, xs, x);
      }
    } else {
      LinkedParent(m, n, c, x);
      var p := m[x].parent.value;
      forall k | k in m && k != p ensures Drop(m[k].children, xs + [x]) == Drop(m[k].children, xs) {
        DropSnocAbsent(m[k].children, xs, x);
      }
      ChildrenNoDup(m, n, p);
      DropSnocOnce(m[p].children, xs, x);
    }
  }

  /** One record of a cut arena. */
  lemma CutAt(m: Arena, xs: seq<Handle>, k: Handle)
    requires k in m
    ensures k in Cut(m, xs) && Cut(m, xs)[k] == m[k].(children := Drop(m[k].children, xs))
  {
  }

  /** Cutting one more prim, from the children lists it changes. */
  lemma CutSnoc(m: Arena, xs: seq<Handle>, x: Handle, par: Option<Handle>)
    requires par.Some? ==> par.value in m
    requires forall k :: k in m && (par.None? || k != par.value) ==>
      Drop(m[k].children, xs + [x]) == Drop(m[k].children, xs)
    requires par.Some? ==> Drop(m[par.value].children, xs + [x]) == RemoveFirst(Drop(m[par.value].children, xs), x)
    ensures par.None? ==> Cut(m, xs + [x]) == Cut(m, xs)
    ensures par.Some? ==>
      var p, cur := par.value, Cut(m, xs);
      Cut(m, xs + [x]) == cur[p := cur[p].(children := RemoveFirst(cur[p].children, x))]
  {
    var cur, nxt := Cut(m, xs), Cut(m, xs + [x]);
    var upd := if par.Some? then
        var p := par.value;
        cur[p := cur[p].(children := RemoveFirst(cur[p].children, x))]
      else cur;
    forall k | k in m ensures k in upd && nxt[k] == upd[k] {
      CutAt(m, xs + [x], k);
      CutAt(m, xs, k);
    }
    assert nxt.Keys == upd.Keys;
    assert nxt == upd;
  }

  /** The same step on whole arenas. */
  lemma CutAdvance(m: Arena, n: nat, c: Handle, xs: seq<Handle>, x: Handle)
    requires WF(m, n) && c in m && Linked(m, n, c) && Orphan(m, c) && m[c].parent.None?
    requires x in Flat(m, n, c) && x !in xs
    ensures x in m && (m[x].parent.Some? ==> m[x].parent.value in m)
    ensures m[x].parent.None? ==> Cut(m, xs + [x]) == Cut(m, xs)
    ensures m[x].parent.Some? ==>
      var p, cur := m[x].parent.value, Cut(m, xs);
      Cut(m, xs + [x]) == cur[p := cur[p].(children := RemoveFirst(cur[p].children, x))]
  {
    CutStep(m, n, c, xs, x);
    CutSnoc(m, xs, x, m[x].parent);
  }

  /** The prune on values: every child the query picks is dropped together
      with its subtree, at every level; the root always stays. */
  ghost function PruneTree(t: Tree, q: Query): Tree
    decreases TreeSize(t), 0
  {
    t.(children := PruneKids(t.children, q))
  }

  ghost function PruneKids(ts: seq<Tree>, q: Query): seq<Tree>
    decreases TreesSize(ts), 1
  {
    if ts == [] then []
    else
      assert TreesSize(ts) == TreeSize(ts[0]) + TreesSize(ts[1..]);
      (if Picked(q, ts[0].path, ts[0].props) then [] else [PruneTree(ts[0], q)]) + PruneKids(ts[1..], q)
  }

  /** The views of the prims `ks`, in order. */
  ghost function Views(m: Arena, n: nat, ks: seq<Handle>): (r: seq<Tree>)
    requires WF(m, n) && forall k :: k in ks ==> k in m
    ensures |r| == |ks| && forall i :: 0 <= i < |ks| ==> r[i] == View(m, n, ks[i])
  {
    if ks == [] then [] else [View(m, n, ks[0])] + Views(m, n, ks[1..])
  }

  /** A prim's view holds the views of its children list. */
  lemma ViewChildren(m: Arena, n: nat, h: Handle)
    requires WF(m, n) && h in m
    ensures View(m, n, h).children == Views(m, n, m[h].children)
  {
  }

  /** The children views after the cut: each child the query picks is
      gone, each other child is replaced by its pruned view. Stated for any
      arena `cut` in which the kept children have their pruned views. */
  lemma {:induction false} PruneKidsView(m: Arena, cut: Arena, n: nat, xs: seq<Handle>, q: Query, ks: seq<Handle>)
    requires WF(m, n) && WF(cut, n)
    requires forall k :: k in ks ==> k in m && k in cut && (k in xs <==> Picked(q, m[k].path, m[k].props))
    requires forall k :: k in ks ==> View(cut, n, k) == PruneTree(View(m, n, k), q)
    ensures Views(cut, n, Drop(ks, xs)) == PruneKids(Views(m, n, ks), q)
  {
    if ks != [] {
      var k, rest := ks[0], ks[1..];
      assert k in ks && forall k' :: k' in rest ==> k' in ks;
      PruneKidsView(m, cut, n, xs, q, rest);
      var v, vs := View(m, n, k), Views(m, n, ks);
      assert vs == [v] + Views(m, n, rest);
      assert vs[0] == v && vs[1..] == Views(m, n, rest);
      var tail := PruneKids(Views(m, n, rest), q);
      assert Views(cut, n, Drop(rest, xs)) == tail;
      if k in xs {
        assert Picked(q, v.path, v.props);
        assert PruneKids(vs, q) == tail;
        assert Drop(ks, xs) == Drop(rest, xs);
      } else {
        assert !Picked(q, v.path, v.props);
        assert PruneKids(vs, q) == [PruneTree(v, q)] + tail;
        assert Drop(ks, xs) == [k] + Drop(rest, xs);
        assert Views(cut, n, [k] + Drop(rest, xs)) == [View(cut, n, k)] + Views(cut, n, Drop(rest, xs));
      }
    }
  }

  /** After cutting exactly the picked prims of the subtree under `c`, the
      subtree of each of its prims is the prune of its old value. */
  lemma {:induction false} PruneView(m: Arena, n: nat, c: Handle, xs: seq<Handle>, q: Query, h: Handle)
    requires WF(m, n) && c in m && h in Flat(m, n, c)
    requires forall x :: x in xs <==> PickedIn(m, n, c, q, x)
    ensures WF(Cut(m, xs), n) && h in Cut(m, xs)
    ensures View(Cut(m, xs), n, h) == PruneTree(View(m, n, h), q)
    decreases n - h
  {
    CutWF(m, n, xs);
    FlatFacts(m, n, c);
    var ks := m[h].children;
    forall k | k in ks
      ensures k in m && k in Cut(m, xs) && (k in xs <==> Picked(q, m[k].path, m[k].props))
      ensures View(Cut(m, xs), n, k) == PruneTree(View(m, n, k), q)
    {
      var i :| 0 <= i < |ks| && ks[i] == k;
      PruneView(m, n, c, xs, q, k);
      assert k in xs <==> PickedIn(m, n, c, q, k);
    }
    PruneKidsView(m, Cut(m, xs), n, xs, q, ks);
    ViewChildren(m, n, h);
    ViewChildren(Cut(m, xs), n, h);
  }

  /** One turn of the removal loop, stated on the arena the loop holds:
      the prim's parent is still recorded, and updating that parent's
      children list yields the arena cut by one more prim of `sel`. */
  lemma CutLoopStep(m: Arena, n: nat, c: Handle, sel: seq<Handle>, i: nat)
    requires WF(m, n) && c in m && Linked(m, n, c) && Orphan(m, c) && m[c].parent.None?
    requires NoDup(sel) && (forall x :: x in sel ==> x in Flat(m, n, c)) && i < |sel|
    ensures var cur, x := Cut(m, sel[..i]), sel[i];
      x in cur && (cur[x].parent.Some? ==> cur[x].parent.value in cur)
      && (cur[x].parent.None? ==> Cut(m, sel[..i + 1]) == cur)
      && (cur[x].parent.Some? ==>
            var p := cur[x].parent.value;
            Cut(m, sel[..i + 1]) == cur[p := cur[p].(children := RemoveFirst(cur[p].children, x))])
  {
    var x, xs := sel[i], sel[..i];
    assert x !in xs by {
      forall j | 0 <= j < i ensures sel[j] != x { }
    }
    assert sel[..i + 1] == xs + [x];
    assert x in sel;
    CutAdvance(m, n, c, xs, x);
    assert Cut(m, xs)[x].parent == m[x].parent;
  }

  /** The removal loop: each prim of `sel` that has a parent is taken out of
      that parent's children list. */
  method CutAll(heap: ProxyHeap, ghost c: Handle, sel: seq<Handle>)
    requires WF(heap.prims, heap.next) && c in heap.prims && Linked(heap.prims, heap.next, c)
    requires Orphan(heap.prims, c) && heap.prims[c].parent.None?
    requires NoDup(sel) && forall x :: x in sel ==> x in Flat(heap.prims, heap.next, c)
    modifies heap
    ensures heap.next == old(heap.next)
    ensures heap.prims == Cut(old(heap.prims), sel)
  {
    ghost var mid, n := heap.prims, heap.next;
    CutNothing(mid);
    assert sel[..0] == [];
    var i := 0;
    while i < |sel|
      invariant 0 <= i <= |sel| && heap.next == n
      invariant heap.prims == Cut(mid, sel[..i])
    {
      var x := sel[i];
      CutLoopStep(mid, n, c, sel, i);
      var par := heap.prims[x].parent;
      if par.Some? {
        var p := par.value;
        heap.prims := heap.prims[p := heap.prims[p].(children := RemoveFirst(heap.prims[p].children, x))];
      }
      i := i + 1;
    }
    assert sel[..i] == sel;
  }

  /** `FN_prune.execute`. A missing scene comes back as it is. Otherwise the
      scene is cloned, the selection (everything when none is given) is
      resolved on the clone, and each selected prim with a parent is taken
      out of its parent's children. The result is the prune of the input's
      value, and no existing prim changes. */
  method Prune(heap: ProxyHeap, scene: Option<Handle>, query: Option<Query>) returns (r: Option<Handle>)
    requires heap.Valid() && (scene.Some? ==> scene.value in heap.prims)
    modifies heap
    ensures heap.Valid() && Untouched(old(heap.prims), heap.prims)
    ensures scene.None? ==> r.None? && heap.prims == old(heap.prims)
    ensures scene.Some? ==> (r.Some? && r.value in heap.prims && old(heap.next) <= r.value
      && heap.prims[r.value].parent.None?
      && View(heap.prims, heap.next, r.value) == PruneTree(old(View(heap.prims, heap.next, scene.value)), QueryOr(query)))
  {
    if scene.None? {
      return scene;
    }
    var q := QueryOr(query);
    ghost var m0, n0 := heap.prims, heap.next;
    var c := heap.Clone(scene.value);
    ghost var mid, n := heap.prims, heap.next;
    var sel := ResolveSelection(heap, Some(c), Some(q));
    SelectionPicks(mid, n, c, q);
    FlatFacts(mid, n, c);
    CutAll(heap, c, sel);
    PruneView(mid, n, c, sel, q, c);
    forall k | k in m0 ensures Drop(mid[k].children, sel) == mid[k].children {
      DropNone(mid[k].children, sel);
    }
    r := Some(c);
  }

  /** Nothing a query picks is left below the root of a pruned tree. */
  ghost predicate NonePicked(t: Tree, q: Query)
    decreases t
  {
    forall i :: 0 <= i < |t.children| ==>
      !Picked(q, t.children[i].path, t.children[i].props) && NonePicked(t.children[i], q)
  }

  lemma {:induction false} PruneKidsMembers(ts: seq<Tree>, q: Query)
    ensures forall u :: u in PruneKids(ts, q) ==>
      exists t :: t in ts && !Picked(q, t.path, t.props) && u == PruneTree(t, q)
    ensures |PruneKids(ts, q)| <= |ts|
    decreases TreesSize(ts)
  {
    if ts != [] {
      assert TreesSize(ts) == TreeSize(ts[0]) + TreesSize(ts[1..]);
      PruneKidsMembers(ts[1..], q);
      forall u | u in PruneKids(ts, q)
        ensures exists t :: t in ts && !Picked(q, t.path, t.props) && u == PruneTree(t, q)
      {
        if u !in PruneKids(ts[1..], q) {
          assert ts[0] in ts;
        } else {
          var t :| t in ts[1..] && !Picked(q, t.path, t.props) && u == PruneTree(t, q);
          assert t in ts;
        }
      }
    }
  }

  /** Every prim the query picks below the root is gone from a pruned tree. */
  lemma {:induction false} PruneRemovesPicked(t: Tree, q: Query)
    ensures NonePicked(PruneTree(t, q), q)
    decreases TreeSize(t)
  {
    var r := PruneTree(t, q);
    PruneKidsMembers(t.children, q);
    forall i | 0 <= i < |r.children|
      ensures !Picked(q, r.children[i].path, r.children[i].props) && NonePicked(r.children[i], q)
    {
      var u := r.children[i];
      assert u in PruneKids(t.children, q);
      var s :| s in t.children && !Picked(q, s.path, s.props) && u == PruneTree(s, q);
      TreeInKids(s, t.children);
      PruneRemovesPicked(s, q);
    }
  }

  lemma {:induction false} TreeInKids(s: Tree, ts: seq<Tree>)
    requires s in ts
    ensures TreeSize(s) <= TreesSize(ts)
  {
    if ts[0] != s {
      TreeInKids(s, ts[1..]);
    }
  }

  /** A tree in which the query picks nothing below the root is its own
      prune: pruning twice is pruning once. */
  lemma {:induction false} PruneNothing(t: Tree, q: Query)
    requires NonePicked(t, q)
    ensures PruneTree(t, q) == t
    decreases TreeSize(t), 0
  {
    PruneKidsNothing(t.children, q);
  }

  lemma {:induction false} PruneKidsNothing(ts: seq<Tree>, q: Query)
    requires forall i :: 0 <= i < |ts| ==> !Picked(q, ts[i].path, ts[i].props) && NonePicked(ts[i], q)
    ensures PruneKids(ts, q) == ts
    decreases TreesSize(ts), 1
  {
    if ts != [] {
      assert TreesSize(ts) == TreeSize(ts[0]) + TreesSize(ts[1..]);
      PruneNothing(ts[0], q);
      PruneKidsNothing(ts[1..], q);
      assert ts == [ts[0]] + ts[1..];
    }
  }

  lemma PruneIdempotent(t: Tree, q: Query)
    ensures PruneTree(PruneTree(t, q), q) == PruneTree(t, q)
  {
    PruneRemovesPicked(t, q);
    PruneNothing(PruneTree(t, q), q);
  }

  /** With no selection every prim below the root is removed. */
  lemma {:induction false} PruneEverything(t: Tree)
    ensures PruneTree(t, Everything) == t.(children := [])
  {
    PruneKidsEverything(t.children);
  }

  lemma {:induction false} PruneKidsEverything(ts: seq<Tree>)
    ensures PruneKids(ts, Everything) == []
    decreases |ts|
  {
    if ts != [] {
      EverythingPicks(ts[0].path, ts[0].props);
      PruneKidsEverything(ts[1..]);
    }
  }

  // ---------------------------------------------------------------------
  // Set Property

  /** Setting `props[name] = v` on every prim the query picks, on values. */
  ghost function SetTree(t: Tree, q: Query, name: string, v: Value): Tree
    decreases t
  {
    Tree(t.path, t.id, if Picked(q, t.path, t.props) then t.props[name := v] else t.props,
         seq(|t.children|, i requires 0 <= i < |t.children| => SetTree(t.children[i], q, name, v)))
  }

  /** The arena after the assignment loop has visited the prims of `xs`. */
  function Stamped(m: Arena, xs: seq<Handle>, name: string, v: Value): (r: Arena)
    ensures r.Keys == m.Keys
  {
    map k | k in m :: if k in xs then m[k].(props := m[k].props[name := v]) else m[k]
  }

  /** One iteration of the assignment loop stamps one more prim. */
  lemma StampAdvance(m: Arena, xs: seq<Handle>, x: Handle, name: string, v: Value)
    requires x in m && x !in xs
    ensures var cur := Stamped(m, xs, name, v);
      Stamped(m, xs + [x], name, v) == cur[x := cur[x].(props := cur[x].props[name := v])]
  {
    var cur, nxt := Stamped(m, xs, name, v), Stamped(m, xs + [x], name, v);
    var upd := cur[x := cur[x].(props := cur[x].props[name := v])];
    forall k | k in m ensures nxt[k] == upd[k] {
      if k == x {
        assert k in xs + [x];
      } else {
        assert k in xs + [x] <==> k in xs;
      }
    }
    assert nxt.Keys == upd.Keys;
  }

  lemma {:induction false} StampView(m: Arena, n: nat, c: Handle, xs: seq<Handle>, q: Query,
                                     name: string, v: Value, h: Handle)
    requires WF(m, n) && c in m && h in m && h in Flat(m, n, c)
    requires forall x :: x in xs <==> PickedIn(m, n, c, q, x)
    ensures WF(Stamped(m, xs, name, v), n)
    ensures View(Stamped(m, xs, name, v), n, h) == SetTree(View(m, n, h), q, name, v)
    decreases n - h
  {
    var s := Stamped(m, xs, name, v);
    FlatFacts(m, n, c);
    assert SameShape(m, s);
    ShapeFlat(m, s, n, h);
    var ks := m[h].children;
    forall i | 0 <= i < |ks| ensures View(s, n, ks[i]) == SetTree(View(m, n, ks[i]), q, name, v) {
      StampView(m, n, c, xs, q, name, v, ks[i]);
    }
  }

  /** What `eval(value_string)` gives: the parsed value, or the string
      itself when the parser raises. */
  function Evaluated(text: Value, parsed: Option<Value>): Value {
    if parsed.Some? then parsed.value else text
  }

  /** The assignment loop: every prim of `sel` gets `props[name] = v`. */
  method StampAll(heap: ProxyHeap, sel: seq<Handle>, name: string, v: Value)
    requires NoDup(sel) && forall x :: x in sel ==> x in heap.prims
    modifies heap
    ensures heap.next == old(heap.next)
    ensures heap.prims == Stamped(old(heap.prims), sel, name, v)
  {
    ghost var mid := heap.prims;
    var i := 0;
    while i < |sel|
      invariant 0 <= i <= |sel| && heap.next == old(heap.next)
      invariant heap.prims == Stamped(mid, sel[..i], name, v)
    {
      var x := sel[i];
      assert sel[..i + 1] == sel[..i] + [x];
      assert x !in sel[..i] by {
        forall j | 0 <= j < i ensures sel[j] != x { }
      }
      StampAdvance(mid, sel[..i], x, name, v);
      heap.prims := heap.prims[x := heap.prims[x].(props := heap.prims[x].props[name := v])];
      i := i + 1;
    }
    assert sel[..i] == sel;
  }

  /** `FN_set_property.execute`. A missing scene or an empty property name
      returns the input as it is. Otherwise the scene is cloned and every
      prim the selection picks (everything when none is given, the root
      included) gets the property. `parsed` is what `eval` made of the value
      string, `None` when it raised. */
  method SetProperty(heap: ProxyHeap, scene: Option<Handle>, query: Option<Query>, name: string,
                     text: Value, parsed: Option<Value>) returns (r: Option<Handle>)
    requires heap.Valid() && (scene.Some? ==> scene.value in heap.prims)
    modifies heap
    ensures heap.Valid() && Untouched(old(heap.prims), heap.prims)
    ensures scene.None? || name == "" ==> r == scene && heap.prims == old(heap.prims)
    ensures scene.Some? && name != "" ==> (r.Some? && r.value in heap.prims && old(heap.next) <= r.value
      && heap.prims[r.value].parent.None?
      && View(heap.prims, heap.next, r.value) ==
         SetTree(old(View(heap.prims, heap.next, scene.value)), QueryOr(query), name, Evaluated(text, parsed)))
  {
    if scene.None? || name == "" {
      return scene;
    }
    var q := QueryOr(query);
    ghost var m0, n0 := heap.prims, heap.next;
    var c := heap.Clone(scene.value);
    ghost var mid, n := heap.prims, heap.next;
    var sel := ResolveSelection(heap, Some(c), Some(q));
    SelectionPicks(mid, n, c, q);
    var v := Evaluated(text, parsed);
    StampAll(heap, sel, name, v);
    FlatFacts(mid, n, c);
    StampView(mid, n, c, sel, q, name, v, c);
    forall k | k in m0 ensures k !in sel {
      assert k < n0;
    }
    r := Some(c);
  }

  /** Every prim of the tree holds `name` with the value `v`. */
  ghost predicate AllHave(t: Tree, name: string, v: Value)
    decreases t
  {
    name in t.props && t.props[name] == v
    && forall i :: 0 <= i < |t.children| ==> AllHave(t.children[i], name, v)
  }

  /** With no selection every prim gets the property, the root included. */
  lemma {:induction false} SetEverything(t: Tree, name: string, v: Value)
    ensures AllHave(SetTree(t, Everything, name, v), name, v)
    decreases t
  {
    EverythingPicks(t.path, t.props);
    forall i | 0 <= i < |t.children| ensures AllHave(SetTree(t.children[i], Everything, name, v), name, v) {
      SetEverything(t.children[i], name, v);
    }
  }

  /** Setting a property other than `datablock_type` twice is setting it
      once: the filters look at no other property, so the second pass picks
      the same prims. */
  lemma {:induction false} SetTwice(t: Tree, q: Query, name: string, v: Value)
    requires name != "datablock_type"
    ensures SetTree(SetTree(t, q, name, v), q, name, v) == SetTree(t, q, name, v)
    decreases t
  {
    var s := SetTree(t, q, name, v);
    assert KeepsAll(s.props, q.filters) == KeepsAll(t.props, q.filters) by {
      assert Get(s.props, "datablock_type") == Get(t.props, "datablock_type");
    }
    forall i | 0 <= i < |t.children|
      ensures SetTree(s.children[i], q, name, v) == SetTree(t.children[i], q, name, v)
    {
      SetTwice(t.children[i], q, name, v);
    }
  }
}
