/** The engine's helpers: selection of prims by query, the comma-separated
    name lists, JSON-safe conversion of property values, and the dotted
    attribute writer. */
module EngineUtils {
  import opened Base
  import opened Strings
  import opened Globs
  import opened ProxyArena
  import opened ProxyTypes
  import opened HostStore

  // ---------------------------------------------------------------------
  // Breadth-first listing of a subtree

  predicate InArena(m: Arena, q: seq<Handle>) {
    forall i :: 0 <= i < |q| ==> q[i] in m
  }

  /** The pre-order listings of the subtrees under `q`, one after the other. */
  function Flats(m: Arena, n: nat, q: seq<Handle>): seq<Handle>
    requires WF(m, n) && InArena(m, q)
  {
    if q == [] then [] else Flat(m, n, q[0]) + Flats(m, n, q[1..])
  }

  lemma {:induction false} FlatsAppend(m: Arena, n: nat, a: seq<Handle>, b: seq<Handle>)
    requires WF(m, n) && InArena(m, a) && InArena(m, b)
    ensures InArena(m, a + b)
    ensures Flats(m, n, a + b) == Flats(m, n, a) + Flats(m, n, b)
    decreases |a|
  {
    if a == [] {
      assert a + b == b;
    } else {
      assert (a + b)[1..] == a[1..] + b;
      FlatsAppend(m, n, a[1..], b);
    }
  }

  lemma {:induction false} FlatsKids(m: Arena, n: nat, p: Handle, ks: seq<Handle>)
    requires WF(m, n) && p < n
    requires forall i :: 0 <= i < |ks| ==> ks[i] in m && p < ks[i]
    ensures InArena(m, ks) && Flats(m, n, ks) == FlatSeq(m, n, p, ks)
    decreases |ks|
  {
    if ks != [] {
      FlatsKids(m, n, p, ks[1..]);
    }
  }

  /** The order in which the queue loop of `resolve_selection` (and
      `get_all_prims` of the set-collection node) visits prims: take the
      head of the queue, then queue its children. */
  function Bfs(m: Arena, n: nat, q: seq<Handle>): seq<Handle>
    requires WF(m, n) && InArena(m, q)
    decreases |Flats(m, n, q)|
  {
    if q == [] then []
    else
      var kids := m[q[0]].children;
      FlatsKids(m, n, q[0], kids);
      FlatsAppend(m, n, q[1..], kids);
      [q[0]] + Bfs(m, n, q[1..] + kids)
  }

  /** Breadth-first and pre-order listings hold the same prims, each as often. */
  lemma {:induction false} BfsPermutes(m: Arena, n: nat, q: seq<Handle>)
    requires WF(m, n) && InArena(m, q)
    ensures multiset(Bfs(m, n, q)) == multiset(Flats(m, n, q))
    decreases |Flats(m, n, q)|
  {
    if q != [] {
      var kids := m[q[0]].children;
      FlatsKids(m, n, q[0], kids);
      FlatsAppend(m, n, q[1..], kids);
      BfsPermutes(m, n, q[1..] + kids);
      var fr, fk := Flats(m, n, q[1..]), FlatSeq(m, n, q[0], kids);
      assert Flats(m, n, q) == ([q[0]] + fk) + fr;
      MsetRegroup(q[0], fr, fk, Bfs(m, n, q[1..] + kids));
    }
  }

  lemma MsetRegroup<T>(x: T, fr: seq<T>, fk: seq<T>, b: seq<T>)
    requires multiset(b) == multiset(fr + fk)
    ensures multiset([x] + b) == multiset(([x] + fk) + fr)
  {
  }

  lemma {:induction false} NoDupCount<T>(s: seq<T>, x: T)
    requires NoDup(s)
    ensures multiset(s)[x] <= 1
    decreases |s|
  {
    if s != [] {
      assert s == [s[0]] + s[1..];
      assert NoDup(s[1..]) by {
        forall i, j | 0 <= i < j < |s[1..]| ensures s[1..][i] != s[1..][j] {
          assert s[1..][i] == s[i + 1] && s[1..][j] == s[j + 1];
        }
      }
      NoDupCount(s[1..], x);
      if x == s[0] {
        assert x !in s[1..] by {
          forall j | 0 <= j < |s[1..]| ensures s[1..][j] != x {
            assert s[1..][j] == s[j + 1];
          }
        }
      }
    }
  }

  lemma DupCount<T>(s: seq<T>, i: nat, j: nat)
    requires i < j < |s| && s[i] == s[j]
    ensures multiset(s)[s[i]] >= 2
  {
    assert s == s[..i] + [s[i]] + s[i + 1..j] + [s[j]] + s[j + 1..];
  }

  /** A permutation of a list without repetitions has none either. */
  lemma PermNoDup<T>(a: seq<T>, b: seq<T>)
    requires multiset(a) == multiset(b) && NoDup(b)
    ensures NoDup(a)
  {
    forall i, j | 0 <= i < j < |a| ensures a[i] != a[j] {
      if a[i] == a[j] {
        DupCount(a, i, j);
        NoDupCount(b, a[i]);
      }
    }
  }

  /** The breadth-first listing from `h` visits every prim of the subtree
      under `h` exactly once, and nothing else. */
  lemma BfsSubtree(m: Arena, n: nat, h: Handle)
    requires WF(m, n) && h in m
    ensures NoDup(Bfs(m, n, [h]))
    ensures forall k :: k in Bfs(m, n, [h]) <==> k in Flat(m, n, h)
    ensures |Bfs(m, n, [h])| == |Flat(m, n, h)|
    ensures InArena(m, Bfs(m, n, [h]))
  {
    FlatBounds(m, n, h);
    BfsPermutes(m, n, [h]);
    assert Flats(m, n, [h]) == Flat(m, n, h);
    FlatNoDup(m, n, h);
    PermNoDup(Bfs(m, n, [h]), Flat(m, n, h));
    forall k ensures k in Bfs(m, n, [h]) <==> k in Flat(m, n, h) {
      assert k in Bfs(m, n, [h]) <==> k in multiset(Bfs(m, n, [h]));
    }
    assert |multiset(Bfs(m, n, [h]))| == |multiset(Flat(m, n, h))|;
  }

  /** The queue loop: `nodes_to_visit.pop(0)`, append it, queue its children. */
  method BreadthFirst(heap: ProxyHeap, root: Handle) returns (r: seq<Handle>)
    requires heap.Valid() && root in heap.prims
    ensures r == Bfs(heap.prims, heap.next, [root])
  {
    var m, n := heap.prims, heap.next;
    var queue := [root];
    r := [];
    while queue != []
      invariant InArena(m, queue)
      invariant r + Bfs(m, n, queue) == Bfs(m, n, [root])
      decreases |Flats(m, n, queue)|
    {
      var node := queue[0];
      var kids := m[node].children;
      BfsStep(m, n, queue);
      r := r + [node];
      queue := queue[1..] + kids;
    }
  }

  /** One turn of the queue loop: the head is listed, and the rest of the
      queue with the head's children is what remains to list. */
  lemma BfsStep(m: Arena, n: nat, queue: seq<Handle>)
    requires WF(m, n) && InArena(m, queue) && queue != []
    ensures InArena(m, queue[1..] + m[queue[0]].children)
    ensures Bfs(m, n, queue) == [queue[0]] + Bfs(m, n, queue[1..] + m[queue[0]].children)
    ensures |Flats(m, n, queue[1..] + m[queue[0]].children)| < |Flats(m, n, queue)|
  {
    var kids := m[queue[0]].children;
    FlatsKids(m, n, queue[0], kids);
    FlatsAppend(m, n, queue[1..], kids);
  }

  // ---------------------------------------------------------------------
  // resolve_selection

  /** A prim passes a filter unless the filter has key `'type'`; such a
      filter asks for the operator `'eq'` and the prim's `datablock_type` as
      value. Filters with another key, or none, never exclude anything. */
  predicate KeepsOne(props: Props, f: Filter) {
    f.PropertyFilter? && f.key == "type" ==> f.op == "eq" && Get(props, "datablock_type") == VStr(f.value)
  }

  predicate KeepsAll(props: Props, filters: seq<Filter>) {
    forall i :: 0 <= i < |filters| ==> KeepsOne(props, filters[i])
  }

  /** The prims whose path matches `glob`, in the order given. */
  function GlobFilter(m: Arena, glob: string, hs: seq<Handle>): (r: seq<Handle>)
    requires InArena(m, hs)
    ensures InArena(m, r)
  {
    if hs == [] then []
    else (if Match(glob, m[hs[0]].path) then [hs[0]] else []) + GlobFilter(m, glob, hs[1..])
  }

  /** The prims that pass every filter, in the order given. */
  function FilterKeep(m: Arena, filters: seq<Filter>, hs: seq<Handle>): (r: seq<Handle>)
    requires InArena(m, hs)
  {
    if hs == [] then []
    else (if KeepsAll(m[hs[0]].props, filters) then [hs[0]] else []) + FilterKeep(m, filters, hs[1..])
  }

  /** What `resolve_selection(root, query)` returns: the breadth-first listing
      filtered by the glob, then by the filters when there are any. */
  function Selection(m: Arena, n: nat, root: Handle, q: Query): seq<Handle>
    requires WF(m, n) && root in m
  {
    BfsSubtree(m, n, root);
    var matched := GlobFilter(m, q.glob, Bfs(m, n, [root]));
    if q.filters == [] then matched else FilterKeep(m, q.filters, matched)
  }

  /** The inner loop over the filters of one prim, with its early exit. */
  method PassesFilters(props: Props, filters: seq<Filter>) returns (keep: bool)
    ensures keep <==> KeepsAll(props, filters)
  {
    keep := true;
    var j := 0;
    while j < |filters|
      invariant 0 <= j <= |filters|
      invariant forall k :: 0 <= k < j ==> KeepsOne(props, filters[k])
    {
      var f := filters[j];
      if f.PropertyFilter? && f.key == "type" {
        if !(f.op == "eq" && Get(props, "datablock_type") == VStr(f.value)) {
          keep := false;
          return;
        }
      }
      j := j + 1;
    }
  }

  /** `resolve_selection(root, query)` on the prims of `heap`. */
  method ResolveSelection(heap: ProxyHeap, root: Option<Handle>, query: Option<Query>) returns (r: seq<Handle>)
    requires heap.Valid() && (root.Some? ==> root.value in heap.prims)
    ensures root.None? || query.None? ==> r == []
    ensures root.Some? && query.Some? ==> r == Selection(heap.prims, heap.next, root.value, query.value)
  {
    if root.None? || query.None? {
      return [];
    }
    var m := heap.prims;
    var q := query.value;
    var all := BreadthFirst(heap, root.value);
    BfsSubtree(m, heap.next, root.value);
    var matched := GlobPass(m, q.glob, all);
    if q.filters == [] {
      return matched;
    }
    r := FilterPass(m, q.filters, matched);
  }

  /** The prims whose path matches the glob, in traversal order. */
  method GlobPass(m: Arena, glob: string, all: seq<Handle>) returns (matched: seq<Handle>)
    requires InArena(m, all)
    ensures matched == GlobFilter(m, glob, all)
  {
    matched := [];
    var i := 0;
    while i < |all|
      invariant 0 <= i <= |all|
      invariant matched == GlobFilter(m, glob, all[..i])
    {
      GlobFilterSnoc(m, glob, all[..i], all[i]);
      assert all[..i + 1] == all[..i] + [all[i]];
      if Match(glob, m[all[i]].path) {
        matched := matched + [all[i]];
      }
      i := i + 1;
    }
    assert all[..i] == all;
  }

  /** The matched prims that pass every property filter, in order. */
  method FilterPass(m: Arena, filters: seq<Filter>, matched: seq<Handle>) returns (r: seq<Handle>)
    requires InArena(m, matched)
    ensures r == FilterKeep(m, filters, matched)
  {
    r := [];
    var i := 0;
    while i < |matched|
      invariant 0 <= i <= |matched|
      invariant r == FilterKeep(m, filters, matched[..i])
    {
      var keep := PassesFilters(m[matched[i]].props, filters);
      FilterKeepSnoc(m, filters, matched[..i], matched[i]);
      assert matched[..i + 1] == matched[..i] + [matched[i]];
      if keep {
        r := r + [matched[i]];
      }
      i := i + 1;
    }
    assert matched[..i] == matched;
  }

  lemma {:induction false} GlobFilterSnoc(m: Arena, glob: string, hs: seq<Handle>, h: Handle)
    requires InArena(m, hs) && h in m
    ensures InArena(m, hs + [h])
    ensures GlobFilter(m, glob, hs + [h]) == GlobFilter(m, glob, hs) + (if Match(glob, m[h].path) then [h] else [])
    decreases |hs|
  {
    if hs == [] {
      assert [h][1..] == [];
    } else {
      assert (hs + [h])[1..] == hs[1..] + [h];
      GlobFilterSnoc(m, glob, hs[1..], h);
    }
  }

  lemma {:induction false} FilterKeepSnoc(m: Arena, filters: seq<Filter>, hs: seq<Handle>, h: Handle)
    requires InArena(m, hs) && h in m
    ensures InArena(m, hs + [h])
    ensures FilterKeep(m, filters, hs + [h]) == FilterKeep(m, filters, hs) + (if KeepsAll(m[h].props, filters) then [h] else [])
    decreases |hs|
  {
    if hs == [] {
      assert [h][1..] == [];
    } else {
      assert (hs + [h])[1..] == hs[1..] + [h];
      FilterKeepSnoc(m, filters, hs[1..], h);
    }
  }

  lemma {:induction false} TailNoDup<T>(s: seq<T>)
    requires s != [] && NoDup(s)
    ensures NoDup(s[1..]) && s[0] !in s[1..]
  {
    forall i, j | 0 <= i < j < |s[1..]| ensures s[1..][i] != s[1..][j] {
      assert s[1..][i] == s[i + 1] && s[1..][j] == s[j + 1];
    }
    forall j | 0 <= j < |s[1..]| ensures s[1..][j] != s[0] {
      assert s[1..][j] == s[j + 1];
    }
  }

  /** The glob filter keeps exactly the matching prims, and repeats none. */
  lemma {:induction false} GlobFilterMem(m: Arena, glob: string, hs: seq<Handle>)
    requires InArena(m, hs)
    ensures forall x :: x in GlobFilter(m, glob, hs) <==> x in hs && Match(glob, m[x].path)
    ensures NoDup(hs) ==> NoDup(GlobFilter(m, glob, hs))
    decreases |hs|
  {
    if hs != [] {
      GlobFilterMem(m, glob, hs[1..]);
      assert hs == [hs[0]] + hs[1..];
      if NoDup(hs) {
        TailNoDup(hs);
      }
    }
  }

  /** The filter pass keeps exactly the prims that pass every filter, and
      repeats none. */
  lemma {:induction false} FilterKeepMem(m: Arena, filters: seq<Filter>, hs: seq<Handle>)
    requires InArena(m, hs)
    ensures forall x :: x in FilterKeep(m, filters, hs) <==> x in hs && KeepsAll(m[x].props, filters)
    ensures NoDup(hs) ==> NoDup(FilterKeep(m, filters, hs))
    decreases |hs|
  {
    if hs != [] {
      FilterKeepMem(m, filters, hs[1..]);
      assert hs == [hs[0]] + hs[1..];
      if NoDup(hs) {
        TailNoDup(hs);
      }
    }
  }

  /** What `resolve_selection` returns: no prim twice, and exactly the prims
      of the subtree whose path matches the glob and that pass the filters. */
  lemma ResolveSelectionExact(m: Arena, n: nat, root: Handle, q: Query)
    requires WF(m, n) && root in m
    ensures forall x :: x in Flat(m, n, root) ==> x in m
    ensures NoDup(Selection(m, n, root, q))
    ensures forall x :: x in Selection(m, n, root, q) <==>
      x in Flat(m, n, root) && Match(q.glob, m[x].path) && KeepsAll(m[x].props, q.filters)
  {
    BfsSubtree(m, n, root);
    FlatBounds(m, n, root);
    var all := Bfs(m, n, [root]);
    GlobFilterMem(m, q.glob, all);
    var matched := GlobFilter(m, q.glob, all);
    FilterKeepMem(m, q.filters, matched);
  }

  /** `a` is `b` with some elements left out, order kept. */
  predicate IsSubsequence<T(==)>(a: seq<T>, b: seq<T>)
    decreases |b|
  {
    if a == [] then true
    else if b == [] then false
    else (a[0] == b[0] && IsSubsequence(a[1..], b[1..])) || IsSubsequence(a, b[1..])
  }

  lemma {:induction false} GlobKeepInOrder(m: Arena, glob: string, filters: seq<Filter>, hs: seq<Handle>)
    requires InArena(m, hs)
    ensures IsSubsequence(GlobFilter(m, glob, hs), hs)
    ensures IsSubsequence(FilterKeep(m, filters, GlobFilter(m, glob, hs)), hs)
    decreases |hs|
  {
    if hs != [] {
      GlobKeepInOrder(m, glob, filters, hs[1..]);
      var g := GlobFilter(m, glob, hs[1..]);
      if Match(glob, m[hs[0]].path) {
        var a := [hs[0]] + g;
        assert GlobFilter(m, glob, hs) == a;
        assert a[1..] == g;
        if KeepsAll(m[hs[0]].props, filters) {
          assert FilterKeep(m, filters, a) == [hs[0]] + FilterKeep(m, filters, g);
          assert ([hs[0]] + FilterKeep(m, filters, g))[1..] == FilterKeep(m, filters, g);
        } else {
          assert FilterKeep(m, filters, a) == FilterKeep(m, filters, g);
        }
      } else {
        assert GlobFilter(m, glob, hs) == g;
      }
    }
  }

  /** The result lists prims in breadth-first order: it is the breadth-first
      listing with some prims left out. */
  lemma SelectionInOrder(m: Arena, n: nat, root: Handle, q: Query)
    requires WF(m, n) && root in m
    ensures IsSubsequence(Selection(m, n, root, q), Bfs(m, n, [root]))
  {
    BfsSubtree(m, n, root);
    GlobKeepInOrder(m, q.glob, q.filters, Bfs(m, n, [root]));
  }

  /** A `'type'` filter whose operator is not the literal `'eq'` removes
      every prim. */
  lemma {:induction false} TypeFilterNeedsEq(m: Arena, filters: seq<Filter>, hs: seq<Handle>, i: nat)
    requires InArena(m, hs) && i < |filters|
    requires filters[i].PropertyFilter? && filters[i].key == "type" && filters[i].op != "eq"
    ensures FilterKeep(m, filters, hs) == []
    decreases |hs|
  {
    if hs != [] {
      assert !KeepsOne(m[hs[0]].props, filters[i]);
      TypeFilterNeedsEq(m, filters, hs[1..], i);
    }
  }

  // ---------------------------------------------------------------------
  // parse_multi_target_string

  /** A name as the parser returns it: non-empty, no comma, no whitespace at
      either end. */
  predicate CleanName(s: string) {
    s != "" && ',' !in s && !IsSpace(s[0]) && !IsSpace(s[|s| - 1])
  }

  function CleanPieces(parts: seq<string>): (r: seq<string>)
    requires forall i :: 0 <= i < |parts| ==> ',' !in parts[i]
    ensures forall i :: 0 <= i < |r| ==> CleanName(r[i])
    ensures |r| <= |parts|
  {
    if parts == [] then []
    else
      var s := Strip(parts[0]);
      StripTrims(parts[0]);
      StripInside(parts[0], ',');
      (if s != "" then [s] else []) + CleanPieces(parts[1..])
  }

  /** `parse_multi_target_string(s)`: the comma-separated pieces, stripped,
      empty ones dropped. */
  function ParseMultiTargetString(s: string): (r: seq<string>)
    ensures s == "" ==> r == []
    ensures forall i :: 0 <= i < |r| ==> CleanName(r[i])
  {
    if s == "" then []
    else
      SplitPiecesFree(s, ',');
      CleanPieces(Split(s, ","))
  }

  lemma {:induction false} CleanPiecesKeeps(parts: seq<string>)
    requires forall i :: 0 <= i < |parts| ==> CleanName(parts[i]) && ',' !in parts[i]
    ensures CleanPieces(parts) == parts
    decreases |parts|
  {
    if parts != [] {
      StripNoop(parts[0]);
      CleanPiecesKeeps(parts[1..]);
    }
  }

  /** Writing clean names joined by commas and parsing the string gives the
      names back. */
  lemma ParseJoin(names: seq<string>)
    requires forall i :: 0 <= i < |names| ==> CleanName(names[i])
    ensures ParseMultiTargetString(Join(names, ",")) == names
  {
    if names != [] {
      assert Join(names, ",") != "" by { JoinNonEmpty(names); }
      SplitJoin(names, ',');
      CleanPiecesKeeps(names);
    }
  }

  lemma {:induction false} JoinNonEmpty(names: seq<string>)
    requires names != [] && names[0] != ""
    ensures Join(names, ",") != ""
  {
    if |names| > 1 {
      assert Join(names, ",")[0] == names[0][0];
    }
  }

  // ---------------------------------------------------------------------
  // to_json_safe / from_json_safe

  /** The values `to_json_safe` returns unchanged: numbers, strings, booleans,
      None, and lists of those. */
  predicate JsonPlain(v: Value) {
    match v
    case VNone => true
    case VBool(_) => true
    case VInt(_) => true
    case VReal(_) => true
    case VStr(_) => true
    case VList(items) => forall i :: 0 <= i < |items| ==> JsonPlain(items[i])
    case _ => false
  }

  /** The pointer record a datablock becomes: `UUID_POINTER` with its
      `_fn_uuid` when it has a truthy one, `NAME_POINTER` with its name
      otherwise. */
  function Pointer(d: Datablock): Value {
    if d.fnUuid.Some? && d.fnUuid.value != "" then
      VDict(map["_type" := VStr("UUID_POINTER"), "value" := VStr(d.fnUuid.value)])
    else
      VDict(map["_type" := VStr("NAME_POINTER"), "value" := VStr(d.name)])
  }

  /** `to_json_safe(v)`; `None` when the conversion raises, which happens
      when it reads the uuid of a removed datablock. */
  function ToJsonSafe(w: World, v: Value): (r: Option<Value>)
    decreases v, 1
  {
    match v
    case VNone => Some(v)
    case VBool(_) => Some(v)
    case VInt(_) => Some(v)
    case VReal(_) => Some(v)
    case VStr(_) => Some(v)
    case VRef(x) =>
      if x !in w.dbs then Some(VNone)
      else if !w.dbs[x].alive then None
      else Some(Pointer(w.dbs[x]))
    case VList(items) =>
      (match ToJsonList(w, v, items)
       case None => None
       case Some(xs) => Some(VList(xs)))
    case _ => Some(VNone)
  }

  function ToJsonList(w: World, ghost parent: Value, items: seq<Value>): (r: Option<seq<Value>>)
    requires forall i :: 0 <= i < |items| ==> items[i] < parent
    ensures r.Some? ==> |r.value| == |items|
    decreases parent, 0, |items|
  {
    if items == [] then Some([])
    else
      match ToJsonSafe(w, items[0])
      case None => None
      case Some(x) =>
        match ToJsonList(w, parent, items[1..])
        case None => None
        case Some(xs) => Some([x] + xs)
  }

  /** JSON-shaped values come out of `to_json_safe` unchanged. */
  lemma {:induction false} ToJsonPlain(w: World, v: Value)
    requires JsonPlain(v)
    ensures ToJsonSafe(w, v) == Some(v)
    decreases v, 1
  {
    if v.VList? {
      ToJsonListPlain(w, v, v.items);
    }
  }

  lemma {:induction false} ToJsonListPlain(w: World, parent: Value, items: seq<Value>)
    requires forall i :: 0 <= i < |items| ==> items[i] < parent && JsonPlain(items[i])
    ensures ToJsonList(w, parent, items) == Some(items)
    decreases parent, 0, |items|
  {
    if items != [] {
      ToJsonPlain(w, items[0]);
      ToJsonListPlain(w, parent, items[1..]);
      assert items == [items[0]] + items[1..];
    }
  }

  /** `find_datablock_by_uuid(u)` once the cache is populated; `None` when the
      lookup raises, which an unhashable key (a list or dict) makes it do. */
  function FindInCache(cache: map<Uuid, DbRef>, u: Value): Option<Value> {
    if !Truthy(u) then Some(VNone)
    else if u.VList? || u.VDict? then None
    else if u.VStr? && u.s in cache then Some(VRef(cache[u.s]))
    else Some(VNone)
  }

  /** `from_json_safe(v)` against the populated uuid cache; `None` when it
      raises: a `UUID_POINTER` record without a `'value'` key, or with an
      unhashable one. */
  function FromJsonSafe(cache: map<Uuid, DbRef>, v: Value): Option<Value> {
    if v.VDict? && Get(v.d, "_type") == VStr("UUID_POINTER") then
      if "value" !in v.d then None else FindInCache(cache, v.d["value"])
    else Some(v)
  }

  /** Capturing a value with `to_json_safe` and restoring it with
      `from_json_safe` gives it back: JSON-shaped values unchanged, and a
      tagged, live datablock through the cache entry of its uuid. */
  lemma JsonRoundTrip(w: World, cache: map<Uuid, DbRef>, v: Value)
    requires JsonPlain(v) || (v.VRef? && v.ref in w.dbs && w.dbs[v.ref].alive
      && w.dbs[v.ref].fnUuid.Some? && w.dbs[v.ref].fnUuid.value != ""
      && w.dbs[v.ref].fnUuid.value in cache && cache[w.dbs[v.ref].fnUuid.value] == v.ref)
    ensures ToJsonSafe(w, v).Some? && FromJsonSafe(cache, ToJsonSafe(w, v).value) == Some(v)
  {
    if JsonPlain(v) {
      ToJsonPlain(w, v);
    }
  }

  /** An untagged datablock is captured by name, and restoring that record
      gives the record back rather than the datablock. */
  lemma NamePointerNotRestored(w: World, cache: map<Uuid, DbRef>, x: DbRef)
    requires x in w.dbs && w.dbs[x].alive && (w.dbs[x].fnUuid.None? || w.dbs[x].fnUuid.value == "")
    ensures FromJsonSafe(cache, ToJsonSafe(w, VRef(x)).value) == Some(Pointer(w.dbs[x]))
    ensures FromJsonSafe(cache, ToJsonSafe(w, VRef(x)).value) != Some(VRef(x))
  {
  }

  // ---------------------------------------------------------------------
  // set_nested_property

  /** `getattr` repeated along `parts`, from `cur`. */
  function AttrWalk(w: World, cur: Value, parts: seq<string>): Got
    decreases |parts|
  {
    if parts == [] then Got(cur)
    else match GetAttr(w, cur, parts[0])
      case Got(v) => AttrWalk(w, v, parts[1..])
      case NoAttr => NoAttr
      case Dead => Dead
  }

  /** The three ways `set_nested_property` ends: it returns True, it returns
      False (AttributeError, TypeError or ValueError), or the ReferenceError
      of a removed datablock escapes it. */
  datatype Outcome = Wrote | Failed | Raised

  /** The write `set_nested_property(base, path, x)` performs: walk to the
      struct owning the last dotted segment, then set that attribute. */
  function NestedWrite(w: World, base: Value, path: string, x: Value): Set {
    var parts := Split(path, ".");
    match AttrWalk(w, base, parts[..|parts| - 1])
    case Got(owner) => SetAttr(w, owner, parts[|parts| - 1], x)
    case NoAttr => Refused
    case Dead => Gone
  }

  /** A nested write that succeeds leaves the attribute reading back the
      value, on the owner the walk reaches, and keeps every datablock's
      record; it raises exactly when the walk or the final read meets a
      removed datablock. */
  lemma NestedWriteFacts(w: World, base: Value, path: string, x: Value)
    ensures var parts := Split(path, ".");
      var owner := AttrWalk(w, base, parts[..|parts| - 1]);
      var r := NestedWrite(w, base, path, x);
      (r.Written? ==> owner.Got? && GetAttr(r.w, owner.v, parts[|parts| - 1]) == Got(x) && r.w.dbs.Keys == w.dbs.Keys && SameRecords(w, r.w))
      && (r.Gone? <==> owner.Dead? || (owner.Got? && GetAttr(w, owner.v, parts[|parts| - 1]).Dead?))
      && (r.Written? <==> owner.Got? && SetAttr(w, owner.v, parts[|parts| - 1], x).Written?)
  {
  }

  lemma AttrWalkStep(w: World, cur: Value, parts: seq<string>, i: nat, k: nat)
    requires i < k <= |parts|
    ensures AttrWalk(w, cur, parts[i..k]) ==
      match GetAttr(w, cur, parts[i])
      case Got(v) => AttrWalk(w, v, parts[i + 1..k])
      case NoAttr => NoAttr
      case Dead => Dead
  {
    assert parts[i..k][0] == parts[i] && parts[i..k][1..] == parts[i + 1..k];
  }

  /** The write by the outcome of the walk to the owner. */
  lemma NestedWriteBy(w: World, base: Value, path: string, x: Value, parts: seq<string>)
    requires parts == Split(path, ".")
    ensures var owner := AttrWalk(w, base, parts[..|parts| - 1]);
      (owner.Dead? ==> NestedWrite(w, base, path, x) == Gone)
      && (owner.NoAttr? ==> NestedWrite(w, base, path, x) == Refused)
      && (owner.Got? ==> NestedWrite(w, base, path, x) == SetAttr(w, owner.v, parts[|parts| - 1], x))
  {
  }

  /** `set_nested_property(base, path, x)` on the host store. */
  method SetNestedProperty(s: Store, base: Value, path: string, x: Value) returns (r: Outcome)
    requires s.Valid()
    modifies s
    ensures s.Valid() && s.next == old(s.next) && s.order == old(s.order)
    ensures var res := NestedWrite(old(s.w), base, path, x);
      (r == Wrote <==> res.Written?) && (r == Raised <==> res.Gone?)
      && s.w == (if res.Written? then res.w else old(s.w))
  {
    var w := s.w;
    var parts := Split(path, ".");
    var k := |parts| - 1;
    NestedWriteBy(w, base, path, x, parts);
    var owner := WalkAttrs(w, base, parts[..k]);
    if owner.Dead? {
      return Raised;
    }
    if owner.NoAttr? {
      return Failed;
    }
    var res := s.Assign(owner.v, parts[k], x);
    match res
    case Written(_) =>
      r := Wrote;
    case Refused =>
      r := Failed;
    case Gone =>
      r := Raised;
  }

  /** The `getattr` loop of `set_nested_property` over the leading
      segments. */
  method WalkAttrs(w: World, base: Value, parts: seq<string>) returns (g: Got)
    ensures g == AttrWalk(w, base, parts)
  {
    var cur := base;
    var i := 0;
    assert parts[0..|parts|] == parts;
    while i < |parts|
      invariant 0 <= i <= |parts|
      invariant AttrWalk(w, base, parts) == AttrWalk(w, cur, parts[i..|parts|])
    {
      AttrWalkStep(w, cur, parts, i, |parts|);
      var step := GetAttr(w, cur, parts[i]);
      if !step.Got? {
        return step;
      }
      cur := step.v;
      i := i + 1;
    }
    assert parts[i..|parts|] == [];
    return Got(cur);
  }
}
