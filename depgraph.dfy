/** The dependency graph the planner sorts: nodes are prim paths, and an
    edge `(u, v)` says that `v` depends on `u` (`adj[u]` holds `v`). The graph
    is kept as the list of its edges in the order they were added, so one
    pair may occur several times. */
module DepGraph {
  import opened Base

  type Edge = (string, string)

  /** `adj[u]`: the dependents of `u`, one entry per edge, in order. */
  function Succs(edges: seq<Edge>, u: string): seq<string>
  {
    if edges == [] then []
    else (if edges[0].0 == u then [edges[0].1] else []) + Succs(edges[1..], u)
  }

  /** The prerequisites of `v`, one entry per edge, in order. */
  function Preds(edges: seq<Edge>, v: string): seq<string>
  {
    if edges == [] then []
    else (if edges[0].1 == v then [edges[0].0] else []) + Preds(edges[1..], v)
  }

  function Count<T(==)>(s: seq<T>, x: T): nat {
    if s == [] then 0 else (if s[0] == x then 1 else 0) + Count(s[1..], x)
  }

  /** How many entries of `s` lie outside `done`. */
  function CountOut<T(==)>(s: seq<T>, done: set<T>): nat {
    if s == [] then 0 else (if s[0] in done then 0 else 1) + CountOut(s[1..], done)
  }

  lemma {:induction false} PredsMember(edges: seq<Edge>, v: string, x: string)
    ensures x in Preds(edges, v) <==> (x, v) in edges
  {
    if edges != [] {
      PredsMember(edges[1..], v, x);
      assert edges == [edges[0]] + edges[1..];
    }
  }

  lemma {:induction false} SuccsMember(edges: seq<Edge>, u: string, x: string)
    ensures x in Succs(edges, u) <==> (u, x) in edges
  {
    if edges != [] {
      SuccsMember(edges[1..], u, x);
      assert edges == [edges[0]] + edges[1..];
    }
  }

  /** The edges from `u` to `v` counted from either end. */
  lemma {:induction false} SuccsPredsCount(edges: seq<Edge>, u: string, v: string)
    ensures Count(Succs(edges, u), v) == Count(Preds(edges, v), u)
  {
    if edges != [] {
      SuccsPredsCount(edges[1..], u, v);
      CountAppend([] + (if edges[0].0 == u then [edges[0].1] else []), Succs(edges[1..], u), v);
      CountAppend([] + (if edges[0].1 == v then [edges[0].0] else []), Preds(edges[1..], v), u);
    }
  }

  /** Adding an edge extends the lists of its two ends and no other. */
  lemma {:induction false} SuccsPredsSnoc(edges: seq<Edge>, e: Edge, x: string)
    ensures Succs(edges + [e], x) == Succs(edges, x) + (if e.0 == x then [e.1] else [])
    ensures Preds(edges + [e], x) == Preds(edges, x) + (if e.1 == x then [e.0] else [])
  {
    if edges == [] {
      assert edges + [e] == [e];
    } else {
      assert (edges + [e])[1..] == edges[1..] + [e];
      SuccsPredsSnoc(edges[1..], e, x);
    }
  }

  lemma {:induction false} CountAppend<T>(a: seq<T>, b: seq<T>, x: T)
    ensures Count(a + b, x) == Count(a, x) + Count(b, x)
  {
    if a != [] {
      CountAppend(a[1..], b, x);
      assert (a + b)[1..] == a[1..] + b;
    } else {
      assert a + b == b;
    }
  }

  lemma {:induction false} CountPositive<T>(s: seq<T>, x: T)
    ensures Count(s, x) > 0 <==> x in s
  {
    if s != [] {
      CountPositive(s[1..], x);
      assert s == [s[0]] + s[1..];
    }
  }

  /** Marking one more prim done removes its entries from the count. */
  lemma {:induction false} CountOutAdd<T>(s: seq<T>, done: set<T>, u: T)
    requires u !in done
    ensures CountOut(s, done) == CountOut(s, done + {u}) + Count(s, u)
  {
    if s != [] {
      CountOutAdd(s[1..], done, u);
    }
  }

  /** A positive count outside `done` names an entry outside `done`. */
  lemma {:induction false} CountOutWitness<T>(s: seq<T>, done: set<T>)
    ensures CountOut(s, done) == 0 <==> forall x :: x in s ==> x in done
  {
    if s != [] {
      CountOutWitness(s[1..], done);
      assert s == [s[0]] + s[1..];
    }
  }

  lemma {:induction false} CountPrefix<T>(s: seq<T>, j: nat, x: T)
    requires j < |s|
    ensures Count(s[j..], x) == (if s[j] == x then 1 else 0) + Count(s[j + 1..], x)
  {
    assert s[j..][1..] == s[j + 1..];
  }

  /** A ranking of the nodes along which every edge climbs. */
  ghost predicate RankOk(nodes: seq<string>, edges: seq<Edge>, rank: map<string, nat>) {
    (forall x :: x in nodes ==> x in rank)
    && forall e :: e in edges ==> e.0 in rank && e.1 in rank && rank[e.0] < rank[e.1]
  }

  /** The graph has no cycle: some ranking makes every edge climb. */
  ghost predicate Acyclic(nodes: seq<string>, edges: seq<Edge>) {
    exists rank :: RankOk(nodes, edges, rank)
  }

  lemma NoDupSnoc<T>(s: seq<T>, w: T)
    requires NoDup(s) && w !in s
    ensures NoDup(s + [w])
  {
    var t := s + [w];
    forall a, b | 0 <= a < b < |t| ensures t[a] != t[b] {
      assert t[a] == s[a];
      if b < |s| {
        assert t[b] == s[b];
      }
    }
  }

  /** Among the nodes outside `done`, one of least rank. */
  lemma {:induction false} MinOutside(nodes: seq<string>, rank: map<string, nat>, done: set<string>, w: string)
    requires forall x :: x in nodes ==> x in rank
    requires w in nodes && w !in done
    ensures exists v :: v in nodes && v !in done && forall y :: y in nodes && y !in done ==> rank[v] <= rank[y]
    decreases rank[w]
  {
    if exists y :: y in nodes && y !in done && rank[y] < rank[w] {
      var y :| y in nodes && y !in done && rank[y] < rank[w];
      MinOutside(nodes, rank, done, y);
    } else {
      assert forall y :: y in nodes && y !in done ==> rank[w] <= rank[y];
    }
  }

  function IndexIn(s: seq<string>, x: string): (r: nat)
    requires x in s
    ensures r < |s| && s[r] == x && x !in s[..r]
  {
    if s[0] == x then 0 else
      assert x in s[1..] by { assert s == [s[0]] + s[1..]; }
      var k := IndexIn(s[1..], x);
      assert s[..k + 1] == [s[0]] + s[1..][..k];
      k + 1
  }

  lemma NoDupIndex(s: seq<string>, i: nat)
    requires NoDup(s) && i < |s|
    ensures IndexIn(s, s[i]) == i
  {
  }

  lemma {:induction false} SubsetCard<T>(a: set<T>, b: set<T>)
    requires a <= b
    ensures |a| <= |b|
    ensures |a| == |b| ==> a == b
    decreases a
  {
    if a != {} {
      var x :| x in a;
      SubsetCard(a - {x}, b - {x});
    } else if |b| == 0 {
      assert b == {};
    }
  }

  lemma {:induction false} NoDupCard<T>(s: seq<T>)
    requires NoDup(s)
    ensures |set x | x in s| == |s|
  {
    if s != [] {
      NoDupCard(s[1..]);
      assert (set x | x in s) == {s[0]} + (set x | x in s[1..]);
      assert s[0] !in s[1..];
    }
  }

  lemma {:induction false} SetCard<T>(s: seq<T>)
    ensures |set x | x in s| <= |s|
  {
    if s != [] {
      SetCard(s[1..]);
      assert (set x | x in s) == {s[0]} + (set x | x in s[1..]);
    }
  }
}
