/** `plan_execution`: Kahn's topological sort of the prims of a tree, where a
    prim depends on its parent and on every prim its relationships name. */
module Planner {
  import opened Base
  import opened DepGraph
  import opened ProxyArena
  import opened ProxyTypes

  function Done(order: seq<string>): set<string> {
    set y | y in order
  }

  /** The queue's first contents: the nodes of in-degree zero, in node order
      (the order of the in-degree dictionary). */
  function ZeroSeeds(nodes: seq<string>, inDeg: map<string, int>): seq<string>
    requires forall x :: x in nodes ==> x in inDeg
  {
    if nodes == [] then []
    else (if inDeg[nodes[0]] == 0 then [nodes[0]] else []) + ZeroSeeds(nodes[1..], inDeg)
  }

  lemma {:induction false} ZeroSeedsFacts(nodes: seq<string>, inDeg: map<string, int>)
    requires forall x :: x in nodes ==> x in inDeg
    requires NoDup(nodes)
    ensures NoDup(ZeroSeeds(nodes, inDeg))
    ensures forall x :: x in ZeroSeeds(nodes, inDeg) <==> x in nodes && inDeg[x] == 0
  {
    if nodes != [] {
      ZeroSeedsFacts(nodes[1..], inDeg);
      assert nodes == [nodes[0]] + nodes[1..];
      var rest := ZeroSeeds(nodes[1..], inDeg);
      assert nodes[0] !in nodes[1..];
      var s := (if inDeg[nodes[0]] == 0 then [nodes[0]] else []) + rest;
      forall i, j | 0 <= i < j < |s| ensures s[i] != s[j] {
        if inDeg[nodes[0]] == 0 && i == 0 {
          assert s[j] == rest[j - 1] && s[j] in rest;
        }
      }
    }
  }

  /** The state of the sort between two iterations of the outer loop. */
  ghost predicate KahnInv(nodes: seq<string>, edges: seq<Edge>, inDeg: map<string, int>,
                          queue: seq<string>, order: seq<string>)
  {
    NoDup(nodes) && (forall e :: e in edges ==> e.0 in nodes && e.1 in nodes)
    && (forall x :: x in nodes ==> x in inDeg && inDeg[x] == CountOut(Preds(edges, x), Done(order)))
    && NoDup(order + queue) && (forall x :: x in order + queue ==> x in nodes)
    && (forall x :: x in nodes && x !in order ==> (x in queue <==> inDeg[x] == 0))
    && (forall i, x :: 0 <= i < |order| && x in Preds(edges, order[i]) ==> x in order[..i])
  }

  /** The state while the dependents of `u`, the prim just taken from the
      queue, are visited: `j` of them so far. */
  ghost predicate VisitInv(nodes: seq<string>, edges: seq<Edge>, inDeg: map<string, int>,
                           queue: seq<string>, order: seq<string>, u: string, j: nat)
  {
    NoDup(nodes) && (forall e :: e in edges ==> e.0 in nodes && e.1 in nodes)
    && u in order && j <= |Succs(edges, u)|
    && (forall x :: x in nodes ==>
          (x in inDeg && inDeg[x] == CountOut(Preds(edges, x), Done(order)) + Count(Succs(edges, u)[j..], x)))
    && NoDup(order + queue) && (forall x :: x in order + queue ==> x in nodes)
    && (forall x :: x in nodes && x !in order ==> (x in queue <==> inDeg[x] == 0))
    && (forall i, x :: 0 <= i < |order| && x in Preds(edges, order[i]) ==> x in order[..i])
    && (forall x :: x in order ==> Count(Succs(edges, u), x) == 0)
  }

  /** The sort's loops: pop the front of the queue into the plan, then lower
      the in-degree of each of its dependents, queueing those that reach
      zero. The plan lists every node, each once, exactly when the graph has
      no cycle; every node comes after all its prerequisites; and the plan
      starts with the nodes that had no prerequisite, in node order. */
  method SortPlan(nodes: seq<string>, ghost edges: seq<Edge>, adj: map<string, seq<string>>,
                  inDeg0: map<string, int>) returns (order: seq<string>)
    requires NoDup(nodes) && forall e :: e in edges ==> e.0 in nodes && e.1 in nodes
    requires forall x :: x in nodes ==> x in adj && adj[x] == Succs(edges, x)
    requires forall x :: x in nodes ==> x in inDeg0 && inDeg0[x] == |Preds(edges, x)|
    ensures NoDup(order) && forall x :: x in order ==> x in nodes
    ensures forall i, x :: 0 <= i < |order| && x in Preds(edges, order[i]) ==> x in order[..i]
    ensures |ZeroSeeds(nodes, inDeg0)| <= |order| && order[..|ZeroSeeds(nodes, inDeg0)|] == ZeroSeeds(nodes, inDeg0)
    ensures Acyclic(nodes, edges) <==> |order| == |nodes|
    ensures |order| <= |nodes|
  {
    var inDeg := inDeg0;
    var queue := ZeroSeeds(nodes, inDeg0);
    ghost var seeds := queue;
    order := [];
    KahnStart(nodes, edges, inDeg0);
    while queue != []
      invariant KahnInv(nodes, edges, inDeg, queue, order)
      invariant Prefix(seeds, order + queue)
      decreases |nodes| - |order|
    {
      ghost var order0, queue0 := order, queue;
      var u := queue[0];
      queue := queue[1..];
      order := order + [u];
      KahnTake(nodes, edges, inDeg, queue0, order0);
      inDeg, queue := LowerDependents(nodes, edges, adj, u, inDeg, queue, order, seeds);
    }
    assert order + queue == order;
    KahnEnd(nodes, edges, inDeg, order);
    SubBound(order, nodes);
  }

  /** The inner loop of the sort for the node `u` just planned: each of
      its dependents loses one prerequisite and joins the queue when none
      is left. */
  method LowerDependents(nodes: seq<string>, ghost edges: seq<Edge>, adj: map<string, seq<string>>, u: string,
                         inDeg0: map<string, int>, queue0: seq<string>, order: seq<string>, ghost seeds: seq<string>)
    returns (inDeg: map<string, int>, queue: seq<string>)
    requires u in adj && adj[u] == Succs(edges, u)
    requires VisitInv(nodes, edges, inDeg0, queue0, order, u, 0) && Prefix(seeds, order + queue0)
    ensures KahnInv(nodes, edges, inDeg, queue, order) && Prefix(seeds, order + queue)
    ensures |order| <= |nodes|
  {
    inDeg, queue := inDeg0, queue0;
    var succ := adj[u];
    var j := 0;
    while j < |succ|
      invariant succ == Succs(edges, u) && j <= |succ|
      invariant VisitInv(nodes, edges, inDeg, queue, order, u, j)
      invariant Prefix(seeds, order + queue)
    {
      inDeg, queue := LowerOne(nodes, edges, succ[j], u, j, inDeg, queue, order, seeds);
      j := j + 1;
    }
    VisitEnd(nodes, edges, inDeg, queue, order, u, j);
  }

  /** One dependent `w` of `u`: its count drops by one, and it joins the
      queue when it reaches zero. */
  method LowerOne(nodes: seq<string>, ghost edges: seq<Edge>, w: string, ghost u: string, ghost j: nat,
                  inDeg0: map<string, int>, queue0: seq<string>, ghost order: seq<string>, ghost seeds: seq<string>)
    returns (inDeg: map<string, int>, queue: seq<string>)
    requires VisitInv(nodes, edges, inDeg0, queue0, order, u, j) && Prefix(seeds, order + queue0)
    requires j < |Succs(edges, u)| && w == Succs(edges, u)[j]
    ensures VisitInv(nodes, edges, inDeg, queue, order, u, j + 1) && Prefix(seeds, order + queue)
  {
    VisitStep(nodes, edges, inDeg0, queue0, order, u, j);
    inDeg, queue := inDeg0[w := inDeg0[w] - 1], queue0;
    if inDeg[w] == 0 {
      queue := queue + [w];
      PrefixSnoc(seeds, order + queue0, w);
    }
    VisitNext(nodes, edges, inDeg0, inDeg, queue0, queue, order, u, j, w);
  }

  /** `p` is a prefix of `s`. */
  ghost predicate Prefix<T>(p: seq<T>, s: seq<T>) {
    |p| <= |s| && s[..|p|] == p
  }

  lemma PrefixSnoc<T>(p: seq<T>, s: seq<T>, w: T)
    requires Prefix(p, s)
    ensures Prefix(p, s + [w])
  {
    assert (s + [w])[..|p|] == s[..|p|];
  }

  /** Every dependent of `u` visited: the counts are exact again, and the
      plan, duplicate-free inside the nodes, is no longer than they are. */
  lemma VisitEnd(nodes: seq<string>, edges: seq<Edge>, inDeg: map<string, int>,
                 queue: seq<string>, order: seq<string>, u: string, j: nat)
    requires VisitInv(nodes, edges, inDeg, queue, order, u, j) && j == |Succs(edges, u)|
    ensures KahnInv(nodes, edges, inDeg, queue, order)
    ensures |order| <= |nodes|
  {
    assert Succs(edges, u)[j..] == [];
    NoDupPrefix(order, queue);
    SubBound(order, nodes);
  }

  /** A duplicate-free list drawn from another is no longer than it. */
  lemma SubBound(order: seq<string>, nodes: seq<string>)
    requires NoDup(order) && forall x :: x in order ==> x in nodes
    ensures |order| <= |nodes|
  {
    NoDupCard(order);
    SetCard(nodes);
    SubsetCard(Done(order), set x | x in nodes);
  }

  lemma NoDupPrefix<T>(a: seq<T>, b: seq<T>)
    requires NoDup(a + b)
    ensures NoDup(a)
  {
    forall i, j | 0 <= i < j < |a| ensures a[i] != a[j] {
      assert (a + b)[i] == a[i] && (a + b)[j] == a[j];
    }
  }

  lemma {:induction false} CountOutNone<T>(s: seq<T>)
    ensures CountOut(s, {}) == |s|
  {
    if s != [] {
      CountOutNone(s[1..]);
    }
  }

  lemma KahnStart(nodes: seq<string>, edges: seq<Edge>, inDeg0: map<string, int>)
    requires NoDup(nodes) && forall e :: e in edges ==> e.0 in nodes && e.1 in nodes
    requires forall x :: x in nodes ==> x in inDeg0 && inDeg0[x] == |Preds(edges, x)|
    ensures KahnInv(nodes, edges, inDeg0, ZeroSeeds(nodes, inDeg0), [])
  {
    ZeroSeedsFacts(nodes, inDeg0);
    assert Done([]) == {};
    forall x | x in nodes ensures inDeg0[x] == CountOut(Preds(edges, x), Done([])) {
      CountOutNone(Preds(edges, x));
    }
    assert [] + ZeroSeeds(nodes, inDeg0) == ZeroSeeds(nodes, inDeg0);
  }

  /** Taking `u`, the front of the queue, into the plan: its prerequisites
      are all planned, and its dependents' counts still owe its edges. */
  lemma KahnTake(nodes: seq<string>, edges: seq<Edge>, inDeg: map<string, int>,
                 queue: seq<string>, order: seq<string>)
    requires KahnInv(nodes, edges, inDeg, queue, order) && queue != []
    ensures VisitInv(nodes, edges, inDeg, queue[1..], order + [queue[0]], queue[0], 0)
    ensures (order + [queue[0]]) + queue[1..] == order + queue
  {
    var u, rest := queue[0], queue[1..];
    assert queue == [u] + rest;
    var order2 := order + [u];
    assert order + ([u] + rest) == order2 + rest;
    var full := order + ([u] + rest);
    assert full[|order|] == u;
    forall k | 0 <= k < |order| ensures order[k] != u {
      assert full[k] == order[k];
    }
    assert Done(order2) == Done(order) + {u};
    assert Succs(edges, u)[0..] == Succs(edges, u);
    CountOutWitness(Preds(edges, u), Done(order));
    forall x | x in nodes
      ensures inDeg[x] == CountOut(Preds(edges, x), Done(order2)) + Count(Succs(edges, u), x)
    {
      CountOutAdd(Preds(edges, x), Done(order), u);
      SuccsPredsCount(edges, u, x);
    }
    forall i, x | 0 <= i < |order2| && x in Preds(edges, order2[i]) ensures x in order2[..i] {
      if i < |order| {
        assert order2[i] == order[i] && order2[..i] == order[..i];
      } else {
        assert x in Done(order);
        assert order2[..i] == order;
      }
    }
    forall x | x in order2 ensures Count(Succs(edges, u), x) == 0 {
      TakeNoBackEdge(nodes, edges, order, u, x);
    }
  }

  /** No planned prim, `u` included, depends on the prim `u` just planned. */
  lemma TakeNoBackEdge(nodes: seq<string>, edges: seq<Edge>, order: seq<string>, u: string, x: string)
    requires u !in order && x in order + [u]
    requires forall y :: y in Preds(edges, u) ==> y in order
    requires forall i, y :: 0 <= i < |order| && y in Preds(edges, order[i]) ==> y in order[..i]
    ensures Count(Succs(edges, u), x) == 0
  {
    SuccsPredsCount(edges, u, x);
    CountPositive(Preds(edges, x), u);
    if x != u {
      var i :| 0 <= i < |order| && order[i] == x;
      assert u !in order[..i];
    }
  }

  /** The dependent visited next is unplanned and still owes this edge. */
  lemma VisitStep(nodes: seq<string>, edges: seq<Edge>, inDeg: map<string, int>,
                  queue: seq<string>, order: seq<string>, u: string, j: nat)
    requires VisitInv(nodes, edges, inDeg, queue, order, u, j) && j < |Succs(edges, u)|
    ensures Succs(edges, u)[j] in nodes && Succs(edges, u)[j] !in order
    ensures Succs(edges, u)[j] in inDeg && inDeg[Succs(edges, u)[j]] >= 1
    ensures Succs(edges, u)[j] !in queue
  {
    var s := Succs(edges, u);
    var w := s[j];
    SuccsMember(edges, u, w);
    CountPositive(s, w);
    CountPrefix(s, j, w);
  }

  /** Lowering the count of the `j`-th dependent, queueing it at zero. */
  lemma VisitNext(nodes: seq<string>, edges: seq<Edge>, pre: map<string, int>, post: map<string, int>,
                  q0: seq<string>, queue: seq<string>, order: seq<string>, u: string, j: nat, w: string)
    requires VisitInv(nodes, edges, pre, q0, order, u, j) && j < |Succs(edges, u)| && w == Succs(edges, u)[j]
    requires w in pre && post == pre[w := pre[w] - 1]
    requires queue == if post[w] == 0 then q0 + [w] else q0
    ensures VisitInv(nodes, edges, post, queue, order, u, j + 1)
  {
    VisitStep(nodes, edges, pre, q0, order, u, j);
    VisitCounts(nodes, edges, pre, post, order, u, j, w);
    VisitQueue(nodes, pre, post, q0, queue, order, w);
  }

  lemma VisitQueue(nodes: seq<string>, pre: map<string, int>, post: map<string, int>,
                   q0: seq<string>, queue: seq<string>, order: seq<string>, w: string)
    requires NoDup(order + q0) && forall x :: x in order + q0 ==> x in nodes
    requires forall x :: x in nodes ==> x in pre
    requires forall x :: x in nodes && x !in order ==> (x in q0 <==> pre[x] == 0)
    requires w in nodes && w !in order && w !in q0
    requires post == pre[w := pre[w] - 1]
    requires queue == if post[w] == 0 then q0 + [w] else q0
    ensures NoDup(order + queue) && forall x :: x in order + queue ==> x in nodes
    ensures forall x :: x in nodes && x !in order ==> (x in queue <==> post[x] == 0)
  {
    if post[w] == 0 {
      assert order + queue == (order + q0) + [w];
      NoDupSnoc(order + q0, w);
    }
    forall x | x in nodes && x !in order ensures x in queue <==> post[x] == 0 {
      if x != w {
        assert post[x] == pre[x];
      }
    }
  }

  lemma VisitCounts(nodes: seq<string>, edges: seq<Edge>, pre: map<string, int>, post: map<string, int>,
                    order: seq<string>, u: string, j: nat, w: string)
    requires j < |Succs(edges, u)| && w == Succs(edges, u)[j]
    requires w in pre && post == pre[w := pre[w] - 1]
    requires forall x :: x in nodes ==>
      (x in pre && pre[x] == CountOut(Preds(edges, x), Done(order)) + Count(Succs(edges, u)[j..], x))
    ensures forall x :: x in nodes ==>
      (x in post && post[x] == CountOut(Preds(edges, x), Done(order)) + Count(Succs(edges, u)[j + 1..], x))
  {
    forall x | x in nodes
      ensures x in post && post[x] == CountOut(Preds(edges, x), Done(order)) + Count(Succs(edges, u)[j + 1..], x)
    {
      CountPrefix(Succs(edges, u), j, x);
    }
  }

  /** When the queue runs dry, a ranking puts every node in the plan. */
  lemma {:induction false} DoneByRank(nodes: seq<string>, edges: seq<Edge>, inDeg: map<string, int>,
                                      order: seq<string>, rank: map<string, nat>, x: string)
    requires KahnInv(nodes, edges, inDeg, [], order) && RankOk(nodes, edges, rank) && x in nodes
    ensures x in order
    decreases rank[x]
  {
    forall y | y in Preds(edges, x) ensures y in Done(order) {
      PredsMember(edges, x, y);
      DoneByRank(nodes, edges, inDeg, order, rank, y);
    }
    CountOutWitness(Preds(edges, x), Done(order));
  }

  /** A plan that lists every node ranks them by position. */
  lemma PositionRank(nodes: seq<string>, edges: seq<Edge>, order: seq<string>)
    requires NoDup(order) && forall x :: x in nodes ==> x in order
    requires forall i, x :: 0 <= i < |order| && x in Preds(edges, order[i]) ==> x in order[..i]
    requires forall e :: e in edges ==> e.0 in nodes && e.1 in nodes
    ensures Acyclic(nodes, edges)
  {
    var rank := map x | x in Done(order) :: IndexIn(order, x);
    forall e | e in edges ensures e.0 in rank && e.1 in rank && rank[e.0] < rank[e.1] {
      var i := IndexIn(order, e.1);
      PredsMember(edges, e.1, e.0);
      var k :| 0 <= k < i && order[k] == e.0;
      NoDupIndex(order, k);
    }
    assert RankOk(nodes, edges, rank);
  }

  lemma KahnEnd(nodes: seq<string>, edges: seq<Edge>, inDeg: map<string, int>, order: seq<string>)
    requires KahnInv(nodes, edges, inDeg, [], order)
    ensures Acyclic(nodes, edges) <==> |order| == |nodes|
  {
    assert order + [] == order;
    NoDupCard(order);
    NoDupCard(nodes);
    SubsetCard(Done(order), set x | x in nodes);
    if Acyclic(nodes, edges) {
      var rank :| RankOk(nodes, edges, rank);
      forall x | x in nodes ensures x in order {
        DoneByRank(nodes, edges, inDeg, order, rank, x);
      }
      assert Done(order) == set x | x in nodes;
    }
    if |order| == |nodes| {
      assert Done(order) == set x | x in nodes;
      forall x | x in nodes ensures x in order {
        assert x in set y | y in nodes;
        assert x in Done(order);
      }
      PositionRank(nodes, edges, order);
    }
  }

  // ---------------------------------------------------------------------
  // `plan_execution`: building the graph from the prims of a tree

  /** The key under which a prim lists the prims it refers to. */
  const RelKey := "_fn_relationships"

  function PathsOf(m: Arena, hs: seq<Handle>): (r: seq<string>)
    requires forall h :: h in hs ==> h in m
    ensures |r| == |hs| && forall i :: 0 <= i < |hs| ==> r[i] == m[hs[i]].path
  {
    seq(|hs|, i requires 0 <= i < |hs| => m[hs[i]].path)
  }

  function PathSet(m: Arena, hs: seq<Handle>): set<string>
    requires forall h :: h in hs ==> h in m
  {
    set h | h in hs :: m[h].path
  }

  /** The key order of a dictionary filled from `s` in order: every entry
      once, at its first occurrence. */
  function Dedup(s: seq<string>): seq<string> {
    if s == [] then []
    else
      var d := Dedup(s[..|s| - 1]);
      if s[|s| - 1] in d then d else d + [s[|s| - 1]]
  }

  /** The dictionary order holds each path once, and loses an entry exactly
      when some path occurs twice. */
  lemma {:induction false} DedupFacts(s: seq<string>)
    ensures NoDup(Dedup(s)) && forall x :: x in Dedup(s) <==> x in s
    ensures |Dedup(s)| <= |s| && (|Dedup(s)| == |s| <==> NoDup(s))
  {
    if s != [] {
      var t, x := s[..|s| - 1], s[|s| - 1];
      assert s == t + [x];
      DedupFacts(t);
      if x in t {
        var i :| 0 <= i < |t| && t[i] == x;
        assert s[i] == s[|s| - 1];
      } else {
        NoDupSnoc(Dedup(t), x);
        if NoDup(t) {
          NoDupSnoc(t, x);
        }
        if NoDup(s) {
          NoDupPrefix(t, [x]);
        }
      }
    }
  }

  /** `{p.path: p for p in all_proxies}`: each path maps to the last prim of
      the list with that path. */
  function ProxyMap(m: Arena, hs: seq<Handle>): (pm: map<string, Handle>)
    requires forall h :: h in hs ==> h in m
    ensures forall x :: x in pm <==> x in PathSet(m, hs)
    ensures forall x :: x in pm ==> pm[x] in hs && m[pm[x]].path == x
    ensures forall i :: 0 <= i < |hs| ==>
      pm[m[hs[i]].path] == hs[i] || exists j :: i < j < |hs| && m[hs[j]].path == m[hs[i]].path
  {
    if hs == [] then map[]
    else
      var t, h := hs[..|hs| - 1], hs[|hs| - 1];
      assert hs == t + [h];
      var pm := ProxyMap(m, t)[m[h].path := h];
      assert forall i :: 0 <= i < |t| ==> hs[i] == t[i];
      pm
  }

  /** Python cannot look these values up in a dictionary (`x in adj`): lists,
      dictionaries and selection queries, a dataclass with `__hash__` unset. */
  predicate Unhashable(v: Value) {
    v.VList? || v.VDict? || v.VQuery?
  }

  /** The relationships entry stops the graph building: it has no `.items()`,
      or one of its targets cannot be looked up. */
  ghost predicate RelsBad(props: Props) {
    RelKey in props
    && (!props[RelKey].VDict?
        || exists k, t :: k in props[RelKey].d && t in AsList(props[RelKey].d[k]) && Unhashable(t))
  }

  /** Some relationship of the prim names the path `a`, alone or in a list. */
  ghost predicate RelTarget(props: Props, a: string) {
    RelKey in props && props[RelKey].VDict?
    && exists k :: k in props[RelKey].d && VStr(a) in AsList(props[RelKey].d[k])
  }

  /** The prim's parent has a path that no prim of the tree has (`adj[...]`
      raises `KeyError`). */
  ghost predicate ParentBad(m: Arena, n: nat, keys: set<string>, h: Handle)
    requires WF(m, n) && h in m
  {
    m[h].parent.Some? && m[m[h].parent.value].path !in keys
  }

  /** Prim `h` depends on path `a`: `a` is its parent's path, or one of its
      relationships names `a` and some prim of the tree has that path. */
  ghost predicate DependsOn(m: Arena, n: nat, keys: set<string>, h: Handle, a: string)
    requires WF(m, n) && h in m
  {
    (m[h].parent.Some? && m[m[h].parent.value].path == a) || (RelTarget(m[h].props, a) && a in keys)
  }

  /** An edge `(a, b)` contributed by one of the first `k` prims of `flat`. */
  ghost predicate IsEdgeBelow(m: Arena, n: nat, flat: seq<Handle>, k: nat, a: string, b: string)
    requires WF(m, n) && (forall h :: h in flat ==> h in m) && k <= |flat|
  {
    exists i :: 0 <= i < k && m[flat[i]].path == b && DependsOn(m, n, PathSet(m, flat), flat[i], a)
  }

  ghost predicate CrashesBelow(m: Arena, n: nat, flat: seq<Handle>, k: nat)
    requires WF(m, n) && (forall h :: h in flat ==> h in m) && k <= |flat|
  {
    exists i :: 0 <= i < k && (ParentBad(m, n, PathSet(m, flat), flat[i]) || RelsBad(m[flat[i]].props))
  }

  /** The graph under construction: `adj` and `in_degree` hold one entry per
      node and count the edges so far. */
  ghost predicate GraphInv(nodes: seq<string>, edges: seq<Edge>, adj: map<string, seq<string>>,
                           inDeg: map<string, int>)
  {
    NoDup(nodes) && (forall e :: e in edges ==> e.0 in nodes && e.1 in nodes)
    && adj.Keys == Done(nodes) && inDeg.Keys == Done(nodes)
    && forall x :: x in nodes ==> adj[x] == Succs(edges, x) && inDeg[x] == |Preds(edges, x)|
  }

  lemma AddEdge(nodes: seq<string>, edges: seq<Edge>, adj: map<string, seq<string>>,
                inDeg: map<string, int>, a: string, b: string)
    requires GraphInv(nodes, edges, adj, inDeg) && a in nodes && b in nodes
    ensures GraphInv(nodes, edges + [(a, b)], adj[a := adj[a] + [b]], inDeg[b := inDeg[b] + 1])
  {
    forall x | x in nodes
      ensures adj[a := adj[a] + [b]][x] == Succs(edges + [(a, b)], x)
      ensures inDeg[b := inDeg[b] + 1][x] == |Preds(edges + [(a, b)], x)|
    {
      SuccsPredsSnoc(edges, (a, b), x);
    }
  }

  /** One pass of the graph-building loop: the edge from the prim's parent,
      then one edge from every relationship target that is a known path.
      It fails exactly where Python raises; otherwise the new edges are those
      of the prim's dependencies. */
  method AddDeps(m: Arena, ghost n: nat, h: Handle, ghost nodes: seq<string>,
                 adj0: map<string, seq<string>>, inDeg0: map<string, int>, ghost edges0: seq<Edge>)
    returns (ok: bool, adj: map<string, seq<string>>, inDeg: map<string, int>, ghost edges: seq<Edge>)
    requires WF(m, n) && h in m && m[h].path in nodes
    requires GraphInv(nodes, edges0, adj0, inDeg0)
    ensures ok <==> !ParentBad(m, n, Done(nodes), h) && !RelsBad(m[h].props)
    ensures ok ==> GraphInv(nodes, edges, adj, inDeg)
    ensures ok ==> forall a, b :: (a, b) in edges <==>
      (a, b) in edges0 || (b == m[h].path && DependsOn(m, n, Done(nodes), h, a))
  {
    adj, inDeg, edges := adj0, inDeg0, edges0;
    var me := m[h].path;
    if m[h].parent.Some? {
      var pp := m[m[h].parent.value].path;
      if pp !in adj {
        return false, adj, inDeg, edges;
      }
      AddEdge(nodes, edges, adj, inDeg, pp, me);
      adj, inDeg, edges := adj[pp := adj[pp] + [me]], inDeg[me := inDeg[me] + 1], edges + [(pp, me)];
    }
    ghost var edges1 := edges;
    assert forall a, b :: (a, b) in edges1 <==>
      (a, b) in edges0 || (b == me && m[h].parent.Some? && m[m[h].parent.value].path == a);
    if RelKey in m[h].props {
      var rels := m[h].props[RelKey];
      if !rels.VDict? {
        return false, adj, inDeg, edges;
      }
      ok, adj, inDeg, edges := AddRelations(nodes, me, rels.d, adj, inDeg, edges);
      return;
    }
    ok := true;
  }

  /** The loop over the relationships of one prim: an edge from every
      known path each of them names, unless some target is unhashable. */
  method AddRelations(ghost nodes: seq<string>, me: string, d: map<string, Value>,
                      adj0: map<string, seq<string>>, inDeg0: map<string, int>, ghost edges0: seq<Edge>)
    returns (ok: bool, adj: map<string, seq<string>>, inDeg: map<string, int>, ghost edges: seq<Edge>)
    requires GraphInv(nodes, edges0, adj0, inDeg0) && me in nodes
    ensures ok <==> forall k, t :: k in d && t in AsList(d[k]) ==> !Unhashable(t)
    ensures ok ==> GraphInv(nodes, edges, adj, inDeg)
    ensures ok ==> forall a, b :: (a, b) in edges <==>
      (a, b) in edges0 || (b == me && a in Done(nodes) && exists k :: k in d && VStr(a) in AsList(d[k]))
  {
    adj, inDeg, edges := adj0, inDeg0, edges0;
    var rem := d.Keys;
    while rem != {}
      invariant rem <= d.Keys
      invariant GraphInv(nodes, edges, adj, inDeg)
      invariant forall k, t :: k in d && k !in rem && t in AsList(d[k]) ==> !Unhashable(t)
      invariant forall a, b :: (a, b) in edges <==> ((a, b) in edges0
        || (b == me && a in Done(nodes) && exists k :: k in d && k !in rem && VStr(a) in AsList(d[k])))
      decreases rem
    {
      var k :| k in rem;
      ok, adj, inDeg, edges := AddTargets(nodes, me, AsList(d[k]), adj, inDeg, edges);
      if !ok {
        return;
      }
      rem := rem - {k};
    }
    ok := true;
  }

  /** The edges after the first `j` target paths of the prim `me`: those
      before the loop, and one from every known path among them. */
  ghost predicate EdgesUpTo(nodes: seq<string>, edges0: seq<Edge>, edges: seq<Edge>,
                            me: string, targets: seq<Value>, j: nat)
    requires j <= |targets|
  {
    forall a, b :: (a, b) in edges <==>
      (a, b) in edges0 || (b == me && a in Done(nodes) && VStr(a) in targets[..j])
  }

  /** The state of the target loop after `j` paths: a graph for the edges
      so far, which are those of the first `j` paths, all of them hashable. */
  ghost predicate TargetsInv(nodes: seq<string>, edges0: seq<Edge>, edges: seq<Edge>,
                             adj: map<string, seq<string>>, inDeg: map<string, int>,
                             me: string, targets: seq<Value>, j: nat)
    requires j <= |targets|
  {
    GraphInv(nodes, edges, adj, inDeg) && EdgesUpTo(nodes, edges0, edges, me, targets, j)
    && forall i :: 0 <= i < j ==> !Unhashable(targets[i])
  }

  /** The inner loop over one relationship's target paths. */
  method AddTargets(ghost nodes: seq<string>, me: string, targets: seq<Value>,
                    adj0: map<string, seq<string>>, inDeg0: map<string, int>, ghost edges0: seq<Edge>)
    returns (ok: bool, adj: map<string, seq<string>>, inDeg: map<string, int>, ghost edges: seq<Edge>)
    requires GraphInv(nodes, edges0, adj0, inDeg0) && me in nodes
    ensures ok <==> forall t :: t in targets ==> !Unhashable(t)
    ensures ok ==> GraphInv(nodes, edges, adj, inDeg)
    ensures ok ==> forall a, b :: (a, b) in edges <==>
      (a, b) in edges0 || (b == me && a in Done(nodes) && VStr(a) in targets)
  {
    adj, inDeg, edges := adj0, inDeg0, edges0;
    assert targets[..0] == [];
    var j := 0;
    while j < |targets|
      invariant j <= |targets|
      invariant TargetsInv(nodes, edges0, edges, adj, inDeg, me, targets, j)
    {
      var t := targets[j];
      if Unhashable(t) {
        assert t in targets;
        return false, adj, inDeg, edges;
      }
      TargetTurn(nodes, edges0, edges, adj, inDeg, me, targets, j);
      if t.VStr? && t.s in adj {
        adj, inDeg, edges := adj[t.s := adj[t.s] + [me]], inDeg[me := inDeg[me] + 1], edges + [(t.s, me)];
      }
      j := j + 1;
    }
    assert targets[..j] == targets;
    ok := true;
  }

  /** One turn of the target loop keeps the graph and the edge set right. */
  lemma TargetTurn(nodes: seq<string>, edges0: seq<Edge>, edges: seq<Edge>,
                   adj: map<string, seq<string>>, inDeg: map<string, int>,
                   me: string, targets: seq<Value>, j: nat)
    requires j < |targets| && me in nodes
    requires TargetsInv(nodes, edges0, edges, adj, inDeg, me, targets, j) && !Unhashable(targets[j])
    ensures var t := targets[j];
      if t.VStr? && t.s in adj then
        TargetsInv(nodes, edges0, edges + [(t.s, me)], adj[t.s := adj[t.s] + [me]], inDeg[me := inDeg[me] + 1], me, targets, j + 1)
      else TargetsInv(nodes, edges0, edges, adj, inDeg, me, targets, j + 1)
  {
    var t := targets[j];
    assert targets[..j + 1] == targets[..j] + [t];
    if t.VStr? && t.s in adj {
      assert t.s in Done(nodes);
      AddEdge(nodes, edges, adj, inDeg, t.s, me);
    }
  }

  /** Steps 1 and 2 of `plan_execution`: a dictionary entry per path, then the
      dependencies of every prim in list order. It fails exactly when some
      prim makes Python raise; otherwise the edges are those of the prims'
      dependencies. */
  method BuildGraph(m: Arena, ghost n: nat, flat: seq<Handle>, ghost nodes: seq<string>)
    returns (ok: bool, adj: map<string, seq<string>>, inDeg: map<string, int>, ghost edges: seq<Edge>)
    requires WF(m, n) && forall h :: h in flat ==> h in m
    requires NoDup(nodes) && Done(nodes) == PathSet(m, flat)
    ensures ok <==> !CrashesBelow(m, n, flat, |flat|)
    ensures ok ==> GraphInv(nodes, edges, adj, inDeg)
    ensures ok ==> forall a, b :: (a, b) in edges <==> IsEdgeBelow(m, n, flat, |flat|, a, b)
  {
    var keys := PathSet(m, flat);
    adj := map x | x in keys :: [];
    inDeg := map x | x in keys :: 0;
    edges := [];
    GraphStart(nodes, keys, adj, inDeg);
    var i := 0;
    while i < |flat|
      invariant i <= |flat|
      invariant GraphInv(nodes, edges, adj, inDeg)
      invariant !CrashesBelow(m, n, flat, i)
      invariant forall a, b :: (a, b) in edges <==> IsEdgeBelow(m, n, flat, i, a, b)
    {
      ok, adj, inDeg, edges := AddPrim(m, n, flat, i, nodes, adj, inDeg, edges);
      if !ok {
        CrashesMono(m, n, flat, i + 1);
        return;
      }
      i := i + 1;
    }
    ok := true;
  }

  /** No edges yet: every path has no successor and no predecessor. */
  lemma GraphStart(nodes: seq<string>, keys: set<string>, adj: map<string, seq<string>>, inDeg: map<string, int>)
    requires NoDup(nodes) && Done(nodes) == keys
    requires adj == (map x | x in keys :: []) && inDeg == (map x | x in keys :: 0)
    ensures GraphInv(nodes, [], adj, inDeg)
  {
    forall x | x in nodes
      ensures adj[x] == Succs([], x) && inDeg[x] == |Preds([], x)|
    {
      assert x in keys;
    }
  }

  /** One prim of step 2: its dependencies join the graph, or it raises. */
  method AddPrim(m: Arena, ghost n: nat, flat: seq<Handle>, i: nat, ghost nodes: seq<string>,
                 adj0: map<string, seq<string>>, inDeg0: map<string, int>, ghost edges0: seq<Edge>)
    returns (ok: bool, adj: map<string, seq<string>>, inDeg: map<string, int>, ghost edges: seq<Edge>)
    requires WF(m, n) && (forall h :: h in flat ==> h in m) && i < |flat|
    requires NoDup(nodes) && Done(nodes) == PathSet(m, flat)
    requires GraphInv(nodes, edges0, adj0, inDeg0) && !CrashesBelow(m, n, flat, i)
    requires forall a, b :: (a, b) in edges0 <==> IsEdgeBelow(m, n, flat, i, a, b)
    ensures ok <==> !CrashesBelow(m, n, flat, i + 1)
    ensures ok ==> GraphInv(nodes, edges, adj, inDeg)
    ensures ok ==> forall a, b :: (a, b) in edges <==> IsEdgeBelow(m, n, flat, i + 1, a, b)
  {
    assert m[flat[i]].path in PathSet(m, flat);
    ok, adj, inDeg, edges := AddDeps(m, n, flat[i], nodes, adj0, inDeg0, edges0);
    if ok {
      EdgeBelowStep(m, n, flat, i, edges0, edges);
    }
  }

  lemma CrashesMono(m: Arena, n: nat, flat: seq<Handle>, i: nat)
    requires WF(m, n) && (forall h :: h in flat ==> h in m) && i <= |flat|
    requires CrashesBelow(m, n, flat, i)
    ensures CrashesBelow(m, n, flat, |flat|)
  {
  }

  lemma EdgeBelowStep(m: Arena, n: nat, flat: seq<Handle>, i: nat, before: seq<Edge>, edges: seq<Edge>)
    requires WF(m, n) && (forall h :: h in flat ==> h in m) && i < |flat|
    requires forall a, b :: (a, b) in before <==> IsEdgeBelow(m, n, flat, i, a, b)
    requires forall a, b :: (a, b) in edges <==>
      (a, b) in before || (b == m[flat[i]].path && DependsOn(m, n, PathSet(m, flat), flat[i], a))
    ensures forall a, b :: (a, b) in edges <==> IsEdgeBelow(m, n, flat, i + 1, a, b)
  {
  }

  /** Some ranking of the paths makes every dependency climb. */
  ghost predicate PlanRank(m: Arena, n: nat, flat: seq<Handle>, rank: map<string, nat>)
    requires WF(m, n) && forall h :: h in flat ==> h in m
  {
    (forall x :: x in PathSet(m, flat) ==> x in rank)
    && forall a, b :: IsEdgeBelow(m, n, flat, |flat|, a, b) ==> a in rank && b in rank && rank[a] < rank[b]
  }

  /** The dependencies among the prims of the tree have no cycle. */
  ghost predicate PlanAcyclic(m: Arena, n: nat, flat: seq<Handle>)
    requires WF(m, n) && forall h :: h in flat ==> h in m
  {
    exists rank :: PlanRank(m, n, flat, rank)
  }

  /** An execution plan for the prims `flat`: each of them once, and each
      after some prim at every path it depends on. */
  ghost predicate IsPlan(m: Arena, n: nat, flat: seq<Handle>, plan: seq<Handle>)
    requires WF(m, n) && forall h :: h in flat ==> h in m
  {
    |plan| == |flat| && NoDup(plan) && (forall h :: h in plan <==> h in flat)
    && forall i, a :: 0 <= i < |plan| && DependsOn(m, n, PathSet(m, flat), plan[i], a) ==>
         a in PathsOf(m, plan[..i])
  }

  /** What `plan_execution` returns for the tree listed by `flat`: `None`
      when it raises, the empty plan on a cycle or a repeated path, and a
      plan otherwise. */
  ghost predicate PlanOutcome(m: Arena, n: nat, flat: seq<Handle>, r: Option<seq<Handle>>)
    requires WF(m, n)
  {
    (forall h :: h in flat ==> h in m)
    && (r.None? <==> CrashesBelow(m, n, flat, |flat|))
    && (r.Some? ==> (r.value == [] <==> !(NoDup(PathsOf(m, flat)) && PlanAcyclic(m, n, flat))))
    && (r.Some? && r.value != [] ==> IsPlan(m, n, flat, r.value))
  }

  /** `plan_execution(root_proxy)`. A missing root plans nothing; otherwise
      the tree's prims are sorted so that every prim follows its parent and
      the targets of its relationships. A raised exception is `None`. */
  method PlanExecution(heap: ProxyHeap, root: Option<Handle>) returns (r: Option<seq<Handle>>)
    requires heap.Valid() && (root.Some? ==> root.value in heap.prims)
    ensures root.None? ==> r == Some([])
    ensures root.Some? ==> PlanOutcome(heap.prims, heap.next, Flat(heap.prims, heap.next, root.value), r)
  {
    if root.None? {
      return Some([]);
    }
    var flat := heap.GetFlatList(root.value);
    FlatFacts(heap.prims, heap.next, root.value);
    r := PlanFlat(heap.prims, heap.next, flat);
  }

  /** The body of `plan_execution` once the tree is listed. */
  method PlanFlat(m: Arena, ghost n: nat, flat: seq<Handle>) returns (r: Option<seq<Handle>>)
    requires WF(m, n) && (forall h :: h in flat ==> h in m) && |flat| > 0
    ensures PlanOutcome(m, n, flat, r)
  {
    var pmap := ProxyMap(m, flat);
    var nodes := Dedup(PathsOf(m, flat));
    DedupFacts(PathsOf(m, flat));
    NodeKeys(m, flat, nodes);
    var ok, adj, inDeg;
    ghost var edges;
    ok, adj, inDeg, edges := BuildGraph(m, n, flat, nodes);
    if !ok {
      return None;
    }
    var order := SortPlan(nodes, edges, adj, inDeg);
    if |order| == |flat| {
      r := Some(seq(|order|, i requires 0 <= i < |order| => pmap[order[i]]));
    } else {
      r := Some([]);
    }
    SortedOutcome(m, n, flat, nodes, edges, order, pmap, r);
  }

  lemma NodeKeys(m: Arena, flat: seq<Handle>, nodes: seq<string>)
    requires forall h :: h in flat ==> h in m
    requires forall x :: x in nodes <==> x in PathsOf(m, flat)
    ensures Done(nodes) == PathSet(m, flat)
  {
    forall x | x in PathSet(m, flat) ensures x in nodes {
      var h :| h in flat && m[h].path == x;
      var k :| 0 <= k < |flat| && flat[k] == h;
      assert PathsOf(m, flat)[k] == x;
    }
  }

  /** Step 3's length check turns the sorted paths into the outcome. */
  lemma SortedOutcome(m: Arena, n: nat, flat: seq<Handle>, nodes: seq<string>, edges: seq<Edge>,
                      order: seq<string>, pmap: map<string, Handle>, r: Option<seq<Handle>>)
    requires WF(m, n) && (forall h :: h in flat ==> h in m) && |flat| > 0
    requires NoDup(nodes) && Done(nodes) == PathSet(m, flat)
    requires |nodes| <= |flat| && (|nodes| == |flat| <==> NoDup(PathsOf(m, flat)))
    requires !CrashesBelow(m, n, flat, |flat|)
    requires forall a, b :: (a, b) in edges <==> IsEdgeBelow(m, n, flat, |flat|, a, b)
    requires forall x :: x in pmap <==> x in PathSet(m, flat)
    requires forall x :: x in pmap ==> pmap[x] in flat && m[pmap[x]].path == x
    requires NoDup(order) && (forall x :: x in order ==> x in nodes) && |order| <= |nodes|
    requires forall i, x :: 0 <= i < |order| && x in Preds(edges, order[i]) ==> x in order[..i]
    requires Acyclic(nodes, edges) <==> |order| == |nodes|
    requires r == if |order| == |flat| then Some(seq(|order|, i requires 0 <= i < |order| => pmap[order[i]]))
                  else Some([])
    ensures PlanOutcome(m, n, flat, r)
  {
    AcyclicSame(m, n, flat, nodes, edges);
    if |order| == |flat| {
      PlanSound(m, n, flat, nodes, edges, order, pmap, r.value);
    }
  }

  lemma AcyclicSame(m: Arena, n: nat, flat: seq<Handle>, nodes: seq<string>, edges: seq<Edge>)
    requires WF(m, n) && forall h :: h in flat ==> h in m
    requires Done(nodes) == PathSet(m, flat)
    requires forall a, b :: (a, b) in edges <==> IsEdgeBelow(m, n, flat, |flat|, a, b)
    ensures Acyclic(nodes, edges) <==> PlanAcyclic(m, n, flat)
  {
    if Acyclic(nodes, edges) {
      var rank :| RankOk(nodes, edges, rank);
      forall x | x in PathSet(m, flat) ensures x in rank {
        assert x in Done(nodes);
      }
      assert PlanRank(m, n, flat, rank);
    }
    if PlanAcyclic(m, n, flat) {
      var rank :| PlanRank(m, n, flat, rank);
      forall x | x in nodes ensures x in rank {
        assert x in Done(nodes);
      }
      forall e | e in edges ensures e.0 in rank && e.1 in rank && rank[e.0] < rank[e.1] {
        assert (e.0, e.1) == e;
      }
      assert RankOk(nodes, edges, rank);
    }
  }

  /** With every path distinct and every node sorted, mapping the sorted
      paths back to their prims gives a plan. */
  lemma PlanSound(m: Arena, n: nat, flat: seq<Handle>, nodes: seq<string>, edges: seq<Edge>,
                  order: seq<string>, pmap: map<string, Handle>, plan: seq<Handle>)
    requires WF(m, n) && forall h :: h in flat ==> h in m
    requires NoDup(nodes) && Done(nodes) == PathSet(m, flat) && |nodes| == |flat|
    requires NoDup(PathsOf(m, flat))
    requires forall a, b :: (a, b) in edges <==> IsEdgeBelow(m, n, flat, |flat|, a, b)
    requires forall x :: x in pmap <==> x in PathSet(m, flat)
    requires forall x :: x in pmap ==> pmap[x] in flat && m[pmap[x]].path == x
    requires NoDup(order) && (forall x :: x in order ==> x in nodes) && |order| == |flat|
    requires forall i, x :: 0 <= i < |order| && x in Preds(edges, order[i]) ==> x in order[..i]
    requires |plan| == |order| && forall i :: 0 <= i < |order| ==> order[i] in pmap && plan[i] == pmap[order[i]]
    ensures IsPlan(m, n, flat, plan)
  {
    NoDupCard(order);
    NoDupCard(nodes);
    SubsetCard(Done(order), Done(nodes));
    forall i | 0 <= i < |plan| ensures m[plan[i]].path == order[i] && plan[i] in flat {
    }
    forall i, j | 0 <= i < j < |plan| ensures plan[i] != plan[j] {
    }
    forall h | h in flat ensures h in plan {
      PlanCovers(m, n, flat, nodes, order, plan, h);
    }
    forall i, a | 0 <= i < |plan| && DependsOn(m, n, PathSet(m, flat), plan[i], a)
      ensures a in PathsOf(m, plan[..i])
    {
      PlanDepAt(m, n, flat, edges, order, plan, i, a);
    }
  }

  /** Every prim of the tree is in the plan: its path was sorted, and the
      prim the sorted path maps back to has that path, hence is it. */
  lemma PlanCovers(m: Arena, n: nat, flat: seq<Handle>, nodes: seq<string>, order: seq<string>,
                   plan: seq<Handle>, h: Handle)
    requires WF(m, n) && forall h :: h in flat ==> h in m
    requires Done(nodes) == PathSet(m, flat) && NoDup(PathsOf(m, flat))
    requires Done(order) == Done(nodes)
    requires |plan| == |order| && forall i :: 0 <= i < |plan| ==> plan[i] in flat && m[plan[i]].path == order[i]
    requires h in flat
    ensures h in plan
  {
    var k :| 0 <= k < |flat| && flat[k] == h;
    assert m[h].path in Done(order);
    var i :| 0 <= i < |order| && order[i] == m[h].path;
    var k2 :| 0 <= k2 < |flat| && flat[k2] == plan[i];
    assert PathsOf(m, flat)[k] == PathsOf(m, flat)[k2];
  }

  /** A dependency of the `i`-th planned prim is the path of an earlier
      one: it is a predecessor of its path in the edge list, and the
      sorted order puts every predecessor first. */
  lemma PlanDepAt(m: Arena, n: nat, flat: seq<Handle>, edges: seq<Edge>, order: seq<string>,
                  plan: seq<Handle>, i: nat, a: string)
    requires WF(m, n) && forall h :: h in flat ==> h in m
    requires forall a, b :: (a, b) in edges <==> IsEdgeBelow(m, n, flat, |flat|, a, b)
    requires |plan| == |order| && forall i :: 0 <= i < |plan| ==> plan[i] in flat && m[plan[i]].path == order[i]
    requires forall i, x :: 0 <= i < |order| && x in Preds(edges, order[i]) ==> x in order[..i]
    requires i < |plan| && DependsOn(m, n, PathSet(m, flat), plan[i], a)
    ensures a in PathsOf(m, plan[..i])
  {
    var k :| 0 <= k < |flat| && flat[k] == plan[i];
    assert IsEdgeBelow(m, n, flat, |flat|, a, order[i]);
    PredsMember(edges, order[i], a);
    var j :| 0 <= j < i && order[j] == a;
    assert PathsOf(m, plan[..i])[j] == m[plan[j]].path;
  }
}
