/** Pull evaluation as the older datablock engine (`reconciler.py`) runs it.
    Unlike the proxy engine, a linked input receives the upstream node's
    whole result, an unlinked input without a default is left out of the
    keyword arguments, and only nodes that define `execute` are cached. The
    cache is a Python dict: `order` lists its keys in insertion order. */
module ReconcilerEval {
  import opened Base
  import opened HostStore
  import opened NodeEval

  // ---------------------------------------------------------------------
  // Evaluation

  /** What `_evaluate_node` gives for node `i`, computed afresh: None when
      an exception escapes. */
  function REval(g: seq<Node>, rank: seq<nat>, exec: (Node, Props) -> Option<Value>, tree: Value, i: nat): Option<Value>
    requires Ranked(g, rank) && i < |g|
    decreases rank[i], 1, 0
  {
    match RKwargs(g, rank, exec, tree, i, |g[i].inputs|)
    case None => None
    case Some(kw) => if g[i].executes then exec(g[i], kw) else Some(VDict(map[]))
  }

  /** The keyword arguments from the first `k` inputs: `tree`, then a
      linked input's upstream result, an unlinked input's default, and
      nothing for an unlinked input without one. */
  function RKwargs(g: seq<Node>, rank: seq<nat>, exec: (Node, Props) -> Option<Value>, tree: Value, i: nat, k: nat): Option<Props>
    requires Ranked(g, rank) && i < |g| && k <= |g[i].inputs|
    decreases rank[i], 0, k
  {
    if k == 0 then Some(map["tree" := tree])
    else match RKwargs(g, rank, exec, tree, i, k - 1)
      case None => None
      case Some(kw) =>
        var inp := g[i].inputs[k - 1];
        if inp.links != [] then
          match REval(g, rank, exec, tree, inp.links[0].fromNode)
          case None => None
          case Some(up) => Some(kw[inp.ident := up])
        else if inp.default.Some? then Some(kw[inp.ident := inp.default.value])
        else Some(kw)
  }

  /** Every cache entry belongs to a node that defines `execute` and, with
      unique ids, holds that node's fresh evaluation. */
  ghost predicate Sound(g: seq<Node>, rank: seq<nat>, exec: (Node, Props) -> Option<Value>, tree: Value, cache: map<string, Value>)
    requires Ranked(g, rank)
  {
    forall key :: key in cache ==>
      exists j :: 0 <= j < |g| && g[j].id == key && g[j].executes
        && (DistinctIds(g) ==> REval(g, rank, exec, tree, j) == Some(cache[key]))
  }

  /** `order` lists the cache's keys once each. */
  ghost predicate Listed(cache: map<string, Value>, order: seq<string>) {
    (forall key :: key in order <==> key in cache) && NoDup(order)
  }

  /** With unique ids, only a node that defines `execute` is ever cached. */
  lemma CachedExecutes(g: seq<Node>, rank: seq<nat>, exec: (Node, Props) -> Option<Value>, tree: Value, cache: map<string, Value>, i: nat)
    requires Ranked(g, rank) && i < |g| && DistinctIds(g) && Sound(g, rank, exec, tree, cache) && g[i].id in cache
    ensures g[i].executes && REval(g, rank, exec, tree, i) == Some(cache[g[i].id])
  {
    var j :| 0 <= j < |g| && g[j].id == g[i].id && g[j].executes
      && (DistinctIds(g) ==> REval(g, rank, exec, tree, j) == Some(cache[g[i].id]));
  }

  /** The ids of the nodes defining `execute` that evaluating node `i`
      reaches: itself, and through every linked input the node upstream. */
  ghost function UpIds(g: seq<Node>, rank: seq<nat>, i: nat): set<string>
    requires Ranked(g, rank) && i < |g|
    decreases rank[i], 1
  {
    (if g[i].executes then {g[i].id} else {}) + UpIdsK(g, rank, i, |g[i].inputs|)
  }

  /** The same, through node `i`'s first `k` inputs only. */
  ghost function UpIdsK(g: seq<Node>, rank: seq<nat>, i: nat, k: nat): set<string>
    requires Ranked(g, rank) && i < |g| && k <= |g[i].inputs|
    decreases rank[i], 0, k
  {
    if k == 0 then {}
    else
      var up := if g[i].inputs[k - 1].links != [] then UpIds(g, rank, g[i].inputs[k - 1].links[0].fromNode) else {};
      UpIdsK(g, rank, i, k - 1) + up
  }

  lemma {:induction false} UpIdsKGrows(g: seq<Node>, rank: seq<nat>, i: nat, k: nat, n: nat)
    requires Ranked(g, rank) && i < |g| && k <= n <= |g[i].inputs|
    ensures UpIdsK(g, rank, i, k) <= UpIdsK(g, rank, i, n)
    decreases n - k
  {
    if k < n {
      UpIdsKGrows(g, rank, i, k + 1, n);
    }
  }

  /** A node is cached only after everything it reaches: with unique ids,
      a cached node's upstream ids are cached too. */
  ghost predicate Closed(g: seq<Node>, rank: seq<nat>, cache: map<string, Value>)
    requires Ranked(g, rank)
  {
    forall j :: 0 <= j < |g| && g[j].id in cache ==> UpIds(g, rank, j) <= cache.Keys
  }

  /** Caching node `i` once everything it reaches is cached keeps the
      cache closed. */
  lemma ClosedAdd(g: seq<Node>, rank: seq<nat>, cache: map<string, Value>, i: nat, v: Value)
    requires Ranked(g, rank) && i < |g| && DistinctIds(g) && Closed(g, rank, cache)
    requires UpIds(g, rank, i) <= cache.Keys + {g[i].id}
    ensures Closed(g, rank, cache[g[i].id := v])
  {
    var c := cache[g[i].id := v];
    forall j | 0 <= j < |g| && g[j].id in c
      ensures UpIds(g, rank, j) <= c.Keys
    {
      if g[j].id == g[i].id {
        assert j == i;
      } else {
        assert g[j].id in cache;
      }
    }
  }

  /** Evaluating node `i` took the closed cache `c0` to the closed cache
      `c`, adding only ids the node reaches, and all of them when it
      succeeded. */
  ghost predicate Covers(g: seq<Node>, rank: seq<nat>, i: nat, c0: map<string, Value>, c: map<string, Value>, ok: bool)
    requires Ranked(g, rank) && i < |g|
  {
    Closed(g, rank, c) && c.Keys <= c0.Keys + UpIds(g, rank, i) && (ok ==> UpIds(g, rank, i) <= c.Keys)
  }

  /** A cache hit on a closed cache covers the node. */
  lemma CoversHit(g: seq<Node>, rank: seq<nat>, i: nat, c: map<string, Value>)
    requires Ranked(g, rank) && i < |g| && Closed(g, rank, c) && g[i].id in c
    ensures Covers(g, rank, i, c, c, true)
  {
  }

  /** Returning without caching node `i`: it succeeded only if it has no
      `execute`, so what its inputs reached is all it reaches. */
  lemma CoversInputs(g: seq<Node>, rank: seq<nat>, i: nat, c0: map<string, Value>, c: map<string, Value>, kwok: bool, ok: bool)
    requires Ranked(g, rank) && i < |g| && Closed(g, rank, c)
    requires c.Keys <= c0.Keys + UpIdsK(g, rank, i, |g[i].inputs|)
    requires kwok ==> UpIdsK(g, rank, i, |g[i].inputs|) <= c.Keys
    requires ok ==> kwok && !g[i].executes
    ensures Covers(g, rank, i, c0, c, ok)
  {
  }

  /** Caching node `i` after its inputs reached everything upstream. */
  lemma CoversAdd(g: seq<Node>, rank: seq<nat>, i: nat, c0: map<string, Value>, c: map<string, Value>, v: Value)
    requires Ranked(g, rank) && i < |g| && DistinctIds(g) && Closed(g, rank, c)
    requires c.Keys <= c0.Keys + UpIdsK(g, rank, i, |g[i].inputs|)
    requires UpIdsK(g, rank, i, |g[i].inputs|) <= c.Keys && g[i].executes
    ensures Covers(g, rank, i, c0, c[g[i].id := v], true)
  {
    ClosedAdd(g, rank, c, i, v);
  }

  /** `_evaluate_node(tree, node, cache)`: the cached result when the id is
      cached; otherwise the inputs in order, then `execute`, whose result
      is cached; a node without `execute` gives `{}` and is not cached. */
  method EvaluateNode(g: seq<Node>, ghost rank: seq<nat>, exec: (Node, Props) -> Option<Value>, tree: Value, i: nat,
                      cache: map<string, Value>, order: seq<string>, ghost runs: seq<string>)
    returns (r: Option<Value>, cache2: map<string, Value>, order2: seq<string>, ghost runs2: seq<string>)
    requires Ranked(g, rank) && i < |g|
    requires Sound(g, rank, exec, tree, cache) && Listed(cache, order) && RunsOk(g, cache, runs)
    requires DistinctIds(g) ==> Closed(g, rank, cache)
    decreases rank[i], 2
    ensures DistinctIds(g) ==> r == REval(g, rank, exec, tree, i)
    ensures Sound(g, rank, exec, tree, cache2) && Listed(cache2, order2) && RunsOk(g, cache2, runs2)
    ensures Grew(g, rank, cache, cache2, rank[i]) && order <= order2 && runs <= runs2
    ensures DistinctIds(g) ==> Covers(g, rank, i, cache, cache2, r.Some?)
    ensures r.Some? && g[i].executes ==> g[i].id in cache2 && cache2[g[i].id] == r.value
    ensures g[i].id in cache ==> r == Some(cache[g[i].id]) && cache2 == cache && order2 == order && runs2 == runs
  {
    if g[i].id in cache {
      if DistinctIds(g) {
        CoversHit(g, rank, i, cache);
      }
      return Some(cache[g[i].id]), cache, order, runs;
    }
    var kwo;
    kwo, cache2, order2, runs2 := EvaluateInputs(g, rank, exec, tree, i, cache, order, runs);
    GrewWiden(g, rank, cache, cache2, rank[i] as int - 1, rank[i]);
    if kwo.None? || !g[i].executes {
      if DistinctIds(g) {
        CoversInputs(g, rank, i, cache, cache2, kwo.Some?, kwo.Some?);
      }
      return if kwo.None? then None else Some(VDict(map[])), cache2, order2, runs2;
    }
    if DistinctIds(g) {
      StillFresh(g, rank, cache, cache2, i);
    }
    r := exec(g[i], kwo.value);
    if r.None? {
      if DistinctIds(g) {
        CoversInputs(g, rank, i, cache, cache2, true, false);
      }
      return;
    }
    ghost var c1 := cache2;
    Record(g, rank, exec, tree, cache2, order2, runs2, i, r.value);
    if DistinctIds(g) {
      CoversAdd(g, rank, i, cache, cache2, r.value);
    }
    if g[i].id !in cache2 {
      order2 := order2 + [g[i].id];
    }
    cache2 := cache2[g[i].id := r.value];
    runs2 := runs2 + [g[i].id];
    GrewAdd(g, rank, cache, c1, i, r.value);
  }

  /** Recording the result of a node that ran keeps the cache sound, its key
      list exact and, with unique ids, the run log free of repeats. */
  lemma Record(g: seq<Node>, rank: seq<nat>, exec: (Node, Props) -> Option<Value>, tree: Value,
               cache: map<string, Value>, order: seq<string>, runs: seq<string>, i: nat, v: Value)
    requires Ranked(g, rank) && i < |g| && g[i].executes
    requires Sound(g, rank, exec, tree, cache) && Listed(cache, order) && RunsOk(g, cache, runs)
    requires DistinctIds(g) ==> g[i].id !in cache && REval(g, rank, exec, tree, i) == Some(v)
    ensures var c := cache[g[i].id := v];
      Sound(g, rank, exec, tree, c)
      && Listed(c, if g[i].id in cache then order else order + [g[i].id])
      && RunsOk(g, c, runs + [g[i].id])
  {
    var c := cache[g[i].id := v];
    forall key | key in c
      ensures exists j :: (0 <= j < |g| && g[j].id == key && g[j].executes
        && (DistinctIds(g) ==> REval(g, rank, exec, tree, j) == Some(c[key])))
    {
      if key == g[i].id {
        assert g[i].id == key && g[i].executes && (DistinctIds(g) ==> REval(g, rank, exec, tree, i) == Some(c[key]));
      } else {
        assert key in cache;
      }
    }
    if g[i].id !in cache {
      assert forall a :: 0 <= a < |order| ==> (order + [g[i].id])[a] == order[a];
    }
    if DistinctIds(g) {
      assert g[i].id !in runs;
      assert forall a :: 0 <= a < |runs| ==> (runs + [g[i].id])[a] == runs[a];
    }
  }

  /** The argument loop of `_evaluate_node`. */
  method EvaluateInputs(g: seq<Node>, ghost rank: seq<nat>, exec: (Node, Props) -> Option<Value>, tree: Value, i: nat,
                        cache: map<string, Value>, order: seq<string>, ghost runs: seq<string>)
    returns (kwo: Option<Props>, cache2: map<string, Value>, order2: seq<string>, ghost runs2: seq<string>)
    requires Ranked(g, rank) && i < |g|
    requires Sound(g, rank, exec, tree, cache) && Listed(cache, order) && RunsOk(g, cache, runs)
    requires DistinctIds(g) ==> Closed(g, rank, cache)
    decreases rank[i], 1
    ensures DistinctIds(g) ==> kwo == RKwargs(g, rank, exec, tree, i, |g[i].inputs|)
    ensures Sound(g, rank, exec, tree, cache2) && Listed(cache2, order2) && RunsOk(g, cache2, runs2)
    ensures Grew(g, rank, cache, cache2, rank[i] as int - 1) && order <= order2 && runs <= runs2
    ensures DistinctIds(g) ==>
      Closed(g, rank, cache2) && cache2.Keys <= cache.Keys + UpIdsK(g, rank, i, |g[i].inputs|)
      && (kwo.Some? ==> UpIdsK(g, rank, i, |g[i].inputs|) <= cache2.Keys)
  {
    var kw: Props := map["tree" := tree];
    cache2, order2, runs2 := cache, order, runs;
    var k := 0;
    while k < |g[i].inputs|
      invariant 0 <= k <= |g[i].inputs|
      invariant Sound(g, rank, exec, tree, cache2) && Listed(cache2, order2) && RunsOk(g, cache2, runs2)
      invariant Grew(g, rank, cache, cache2, rank[i] as int - 1) && order <= order2 && runs <= runs2
      invariant DistinctIds(g) ==> RKwargs(g, rank, exec, tree, i, k) == Some(kw) && Reached(g, rank, i, k, cache, cache2)
    {
      var next;
      next, cache2, order2, runs2 := EvaluateInput(g, rank, exec, tree, i, k, cache, kw, cache2, order2, runs2);
      if next.None? {
        if DistinctIds(g) {
          RKwargsNone(g, rank, exec, tree, i, k + 1);
          UpIdsKGrows(g, rank, i, k + 1, |g[i].inputs|);
        }
        return None, cache2, order2, runs2;
      }
      kw := next.value;
      k := k + 1;
    }
    kwo := Some(kw);
  }

  /** One pass of the argument loop: the `k`-th input's upstream result,
      its default, or nothing, added to the arguments `kw`. */
  method EvaluateInput(g: seq<Node>, ghost rank: seq<nat>, exec: (Node, Props) -> Option<Value>, tree: Value, i: nat, k: nat,
                       ghost c0: map<string, Value>, kw: Props,
                       cache: map<string, Value>, order: seq<string>, ghost runs: seq<string>)
    returns (next: Option<Props>, cache2: map<string, Value>, order2: seq<string>, ghost runs2: seq<string>)
    requires Ranked(g, rank) && i < |g| && k < |g[i].inputs|
    requires Sound(g, rank, exec, tree, cache) && Listed(cache, order) && RunsOk(g, cache, runs)
    requires Grew(g, rank, c0, cache, rank[i] as int - 1)
    requires DistinctIds(g) ==> RKwargs(g, rank, exec, tree, i, k) == Some(kw) && Reached(g, rank, i, k, c0, cache)
    decreases rank[i], 0
    ensures Sound(g, rank, exec, tree, cache2) && Listed(cache2, order2) && RunsOk(g, cache2, runs2)
    ensures Grew(g, rank, c0, cache2, rank[i] as int - 1) && order <= order2 && runs <= runs2
    ensures DistinctIds(g) ==>
      next == RKwargs(g, rank, exec, tree, i, k + 1)
      && Closed(g, rank, cache2) && cache2.Keys <= c0.Keys + UpIdsK(g, rank, i, k + 1)
      && (next.Some? ==> Reached(g, rank, i, k + 1, c0, cache2))
  {
    var inp := g[i].inputs[k];
    cache2, order2, runs2 := cache, order, runs;
    if inp.links != [] {
      var up;
      up, cache2, order2, runs2 := EvaluateNode(g, rank, exec, tree, inp.links[0].fromNode, cache, order, runs);
      GrewTrans(g, rank, c0, cache, cache2, rank[i] as int - 1);
      if DistinctIds(g) {
        ReachedStep(g, rank, i, k, c0, cache, cache2, up.Some?);
      }
      if up.None? {
        return None, cache2, order2, runs2;
      }
      if DistinctIds(g) {
        RKwargsStep(g, rank, exec, tree, i, k, kw, up);
      }
      next := Some(kw[inp.ident := up.value]);
    } else {
      if DistinctIds(g) {
        RKwargsStep(g, rank, exec, tree, i, k, kw, inp.default);
        ReachedSkip(g, rank, i, k, c0, cache);
      }
      next := Some(if inp.default.Some? then kw[inp.ident := inp.default.value] else kw);
    }
  }

  /** After the first `k` inputs, the cache is closed, holds everything
      they reach, and nothing else new. */
  ghost predicate Reached(g: seq<Node>, rank: seq<nat>, i: nat, k: nat, c0: map<string, Value>, c: map<string, Value>)
    requires Ranked(g, rank) && i < |g| && k <= |g[i].inputs|
  {
    Closed(g, rank, c) && c.Keys <= c0.Keys + UpIdsK(g, rank, i, k) && UpIdsK(g, rank, i, k) <= c.Keys
  }

  /** A linked input's upstream evaluation extends what the cache reaches
      by what that node reaches, when it succeeds. */
  lemma ReachedStep(g: seq<Node>, rank: seq<nat>, i: nat, k: nat, c0: map<string, Value>,
                    c1: map<string, Value>, c2: map<string, Value>, ok: bool)
    requires Ranked(g, rank) && i < |g| && k < |g[i].inputs| && g[i].inputs[k].links != []
    requires Reached(g, rank, i, k, c0, c1) && c1.Keys <= c2.Keys
    requires Covers(g, rank, g[i].inputs[k].links[0].fromNode, c1, c2, ok)
    ensures Closed(g, rank, c2) && c2.Keys <= c0.Keys + UpIdsK(g, rank, i, k + 1)
    ensures ok ==> Reached(g, rank, i, k + 1, c0, c2)
  {
  }

  /** An unlinked input reaches nothing. */
  lemma ReachedSkip(g: seq<Node>, rank: seq<nat>, i: nat, k: nat, c0: map<string, Value>, c: map<string, Value>)
    requires Ranked(g, rank) && i < |g| && k < |g[i].inputs| && g[i].inputs[k].links == []
    requires Reached(g, rank, i, k, c0, c)
    ensures Reached(g, rank, i, k + 1, c0, c)
  {
  }

  /** One more input: the upstream result or the default, or nothing. */
  lemma RKwargsStep(g: seq<Node>, rank: seq<nat>, exec: (Node, Props) -> Option<Value>, tree: Value, i: nat, k: nat, kw: Props, v: Option<Value>)
    requires Ranked(g, rank) && i < |g| && k < |g[i].inputs| && RKwargs(g, rank, exec, tree, i, k) == Some(kw)
    requires g[i].inputs[k].links != [] ==> v.Some? && REval(g, rank, exec, tree, g[i].inputs[k].links[0].fromNode) == v
    requires g[i].inputs[k].links == [] ==> v == g[i].inputs[k].default
    ensures RKwargs(g, rank, exec, tree, i, k + 1) == Some(if v.Some? then kw[g[i].inputs[k].ident := v.value] else kw)
  {
  }

  lemma {:induction false} RKwargsNone(g: seq<Node>, rank: seq<nat>, exec: (Node, Props) -> Option<Value>, tree: Value, i: nat, k: nat)
    requires Ranked(g, rank) && i < |g| && k <= |g[i].inputs| && RKwargs(g, rank, exec, tree, i, k).None?
    ensures RKwargs(g, rank, exec, tree, i, |g[i].inputs|).None?
    decreases |g[i].inputs| - k
  {
    if k < |g[i].inputs| {
      RKwargsNone(g, rank, exec, tree, i, k + 1);
    }
  }

  // ---------------------------------------------------------------------
  // `_get_evaluated_inputs`

  /** The evaluated inputs of node `i`'s first `k` sockets: as the keyword
      arguments, but with no `tree` and None for an unlinked socket
      without a default. */
  function Inputs(g: seq<Node>, rank: seq<nat>, exec: (Node, Props) -> Option<Value>, tree: Value, i: nat, k: nat): Option<Props>
    requires Ranked(g, rank) && i < |g| && k <= |g[i].inputs|
    decreases k
  {
    if k == 0 then Some(map[])
    else match Inputs(g, rank, exec, tree, i, k - 1)
      case None => None
      case Some(m) =>
        var inp := g[i].inputs[k - 1];
        if inp.links != [] then
          match REval(g, rank, exec, tree, inp.links[0].fromNode)
          case None => None
          case Some(up) => Some(m[inp.ident := up])
        else Some(m[inp.ident := if inp.default.Some? then inp.default.value else VNone])
  }

  /** The identifiers of a node's input sockets are unique and none is
      `tree`. */
  predicate PlainSockets(n: Node) {
    (forall a, b :: 0 <= a < b < |n.inputs| ==> n.inputs[a].ident != n.inputs[b].ident)
    && forall a :: 0 <= a < |n.inputs| ==> n.inputs[a].ident != "tree"
  }

  /** The identifiers of node `n`'s first `k` input sockets. */
  function Idents(n: Node, k: nat): set<string>
    requires k <= |n.inputs|
  {
    if k == 0 then {} else Idents(n, k - 1) + {n.inputs[k - 1].ident}
  }

  /** The identifiers among the first `k` sockets that are unlinked and
      have no default. */
  function Omitted(n: Node, k: nat): (r: set<string>)
    requires k <= |n.inputs|
    ensures r <= Idents(n, k)
  {
    if k == 0 then {}
    else if n.inputs[k - 1].links == [] && n.inputs[k - 1].default.None? then Omitted(n, k - 1) + {n.inputs[k - 1].ident}
    else Omitted(n, k - 1)
  }

  lemma {:induction false} NotYet(n: Node, k: nat, a: nat)
    requires PlainSockets(n) && k <= a < |n.inputs|
    ensures n.inputs[a].ident !in Idents(n, k)
  {
    if k > 0 {
      NotYet(n, k - 1, a);
    }
  }

  /** The evaluated inputs and the keyword arguments raise together; when
      they do not, the arguments are `tree` plus the inputs less the
      sockets that are unlinked and have no default, and those hold None
      among the inputs. */
  lemma {:induction false} InputsMatchKwargs(g: seq<Node>, rank: seq<nat>, exec: (Node, Props) -> Option<Value>, tree: Value, i: nat, k: nat)
    requires Ranked(g, rank) && i < |g| && k <= |g[i].inputs| && PlainSockets(g[i])
    ensures Inputs(g, rank, exec, tree, i, k).None? <==> RKwargs(g, rank, exec, tree, i, k).None?
    ensures Inputs(g, rank, exec, tree, i, k).Some? ==>
      var m := Inputs(g, rank, exec, tree, i, k).value;
      m.Keys == Idents(g[i], k)
      && RKwargs(g, rank, exec, tree, i, k) == Some(map["tree" := tree] + (m - Omitted(g[i], k)))
      && (forall x :: x in Omitted(g[i], k) ==> m[x] == VNone)
    decreases k
  {
    if k > 0 {
      InputsMatchKwargs(g, rank, exec, tree, i, k - 1);
      InputsMatchStep(g, rank, exec, tree, i, k);
    } else {
      assert map["tree" := tree] + (map[] - {}) == map["tree" := tree];
    }
  }

  /** The gathered inputs and the keyword arguments agree on the first `k`
      sockets. */
  ghost predicate InputsMatch(g: seq<Node>, rank: seq<nat>, exec: (Node, Props) -> Option<Value>, tree: Value, i: nat, k: nat)
    requires Ranked(g, rank) && i < |g| && k <= |g[i].inputs|
  {
    (Inputs(g, rank, exec, tree, i, k).None? <==> RKwargs(g, rank, exec, tree, i, k).None?)
    && (Inputs(g, rank, exec, tree, i, k).Some? ==>
      var m := Inputs(g, rank, exec, tree, i, k).value;
      m.Keys == Idents(g[i], k)
      && RKwargs(g, rank, exec, tree, i, k) == Some(map["tree" := tree] + (m - Omitted(g[i], k)))
      && (forall x :: x in Omitted(g[i], k) ==> m[x] == VNone))
  }

  /** One more socket keeps the two in agreement. */
  lemma InputsMatchStep(g: seq<Node>, rank: seq<nat>, exec: (Node, Props) -> Option<Value>, tree: Value, i: nat, k: nat)
    requires Ranked(g, rank) && i < |g| && 0 < k <= |g[i].inputs| && PlainSockets(g[i])
    requires InputsMatch(g, rank, exec, tree, i, k - 1)
    ensures InputsMatch(g, rank, exec, tree, i, k)
  {
    var n := g[i];
    var inp := n.inputs[k - 1];
    if Inputs(g, rank, exec, tree, i, k - 1).Some? {
      var m := Inputs(g, rank, exec, tree, i, k - 1).value;
      var kw := map["tree" := tree] + (m - Omitted(n, k - 1));
      assert RKwargs(g, rank, exec, tree, i, k - 1) == Some(kw);
      assert inp.ident !in m && inp.ident !in Omitted(n, k - 1) && inp.ident != "tree" by {
        NotYet(n, k - 1, k - 1);
        assert m.Keys == Idents(n, k - 1);
      }
      var omit := inp.links == [] && inp.default.None?;
      var up := if inp.links != [] then REval(g, rank, exec, tree, inp.links[0].fromNode)
                else Some(if inp.default.Some? then inp.default.value else VNone);
      assert Inputs(g, rank, exec, tree, i, k) == if up.None? then None else Some(m[inp.ident := up.value]);
      assert RKwargs(g, rank, exec, tree, i, k)
        == if up.None? then None else if omit then Some(kw) else Some(kw[inp.ident := up.value]);
      assert Omitted(n, k) == if omit then Omitted(n, k - 1) + {inp.ident} else Omitted(n, k - 1);
      if up.Some? {
        KwargsAlgebra(tree, m, Omitted(n, k - 1), inp.ident, up.value, omit);
      }
    }
  }

  /** Adding the socket `id` with value `v` to the inputs adds it to the
      keyword arguments, unless it is omitted. */
  lemma KwargsAlgebra(t: Value, m: Props, om: set<string>, id: string, v: Value, omit: bool)
    requires id != "tree" && id !in om && id !in m
    ensures omit ==> map["tree" := t] + (m[id := v] - (om + {id})) == map["tree" := t] + (m - om)
    ensures !omit ==> map["tree" := t] + (m[id := v] - om) == (map["tree" := t] + (m - om))[id := v]
  {
  }

  /** `_get_evaluated_inputs(tree, node, cache)`. */
  method GetEvaluatedInputs(g: seq<Node>, ghost rank: seq<nat>, exec: (Node, Props) -> Option<Value>, tree: Value, i: nat,
                            cache: map<string, Value>, order: seq<string>, ghost runs: seq<string>)
    returns (r: Option<Props>, cache2: map<string, Value>, order2: seq<string>, ghost runs2: seq<string>)
    requires Ranked(g, rank) && i < |g|
    requires Sound(g, rank, exec, tree, cache) && Listed(cache, order) && RunsOk(g, cache, runs)
    requires DistinctIds(g) ==> Closed(g, rank, cache)
    ensures DistinctIds(g) ==> r == Inputs(g, rank, exec, tree, i, |g[i].inputs|)
    ensures Sound(g, rank, exec, tree, cache2) && Listed(cache2, order2) && RunsOk(g, cache2, runs2)
  {
    var m: Props := map[];
    cache2, order2, runs2 := cache, order, runs;
    var k := 0;
    while k < |g[i].inputs|
      invariant 0 <= k <= |g[i].inputs|
      invariant Sound(g, rank, exec, tree, cache2) && Listed(cache2, order2) && RunsOk(g, cache2, runs2)
      invariant DistinctIds(g) ==> Closed(g, rank, cache2)
      invariant DistinctIds(g) ==> Inputs(g, rank, exec, tree, i, k) == Some(m)
    {
      var v;
      v, cache2, order2, runs2 := InputValue(g, rank, exec, tree, i, k, cache2, order2, runs2);
      if v.None? {
        if DistinctIds(g) {
          InputsNone(g, rank, exec, tree, i, k + 1);
        }
        return None, cache2, order2, runs2;
      }
      if DistinctIds(g) {
        InputsStep(g, rank, exec, tree, i, k, m, v.value);
      }
      m := m[g[i].inputs[k].ident := v.value];
      k := k + 1;
    }
    r := Some(m);
  }

  /** One socket of `_get_evaluated_inputs`: the upstream result when it is
      linked, else its default or None. */
  method InputValue(g: seq<Node>, ghost rank: seq<nat>, exec: (Node, Props) -> Option<Value>, tree: Value, i: nat, k: nat,
                    cache: map<string, Value>, order: seq<string>, ghost runs: seq<string>)
    returns (v: Option<Value>, cache2: map<string, Value>, order2: seq<string>, ghost runs2: seq<string>)
    requires Ranked(g, rank) && i < |g| && k < |g[i].inputs|
    requires Sound(g, rank, exec, tree, cache) && Listed(cache, order) && RunsOk(g, cache, runs)
    requires DistinctIds(g) ==> Closed(g, rank, cache)
    ensures DistinctIds(g) && g[i].inputs[k].links != [] ==> v == REval(g, rank, exec, tree, g[i].inputs[k].links[0].fromNode)
    ensures g[i].inputs[k].links == [] ==> v == Some(if g[i].inputs[k].default.Some? then g[i].inputs[k].default.value else VNone)
    ensures Sound(g, rank, exec, tree, cache2) && Listed(cache2, order2) && RunsOk(g, cache2, runs2)
    ensures DistinctIds(g) ==> Closed(g, rank, cache2)
  {
    var inp := g[i].inputs[k];
    if inp.links != [] {
      v, cache2, order2, runs2 := EvaluateNode(g, rank, exec, tree, inp.links[0].fromNode, cache, order, runs);
    } else {
      v, cache2, order2, runs2 := Some(if inp.default.Some? then inp.default.value else VNone), cache, order, runs;
    }
  }

  lemma InputsStep(g: seq<Node>, rank: seq<nat>, exec: (Node, Props) -> Option<Value>, tree: Value, i: nat, k: nat, m: Props, v: Value)
    requires Ranked(g, rank) && i < |g| && k < |g[i].inputs| && Inputs(g, rank, exec, tree, i, k) == Some(m)
    requires g[i].inputs[k].links != [] ==> REval(g, rank, exec, tree, g[i].inputs[k].links[0].fromNode) == Some(v)
    requires g[i].inputs[k].links == [] ==> v == if g[i].inputs[k].default.Some? then g[i].inputs[k].default.value else VNone
    ensures Inputs(g, rank, exec, tree, i, k + 1) == Some(m[g[i].inputs[k].ident := v])
  {
  }

  lemma {:induction false} InputsNone(g: seq<Node>, rank: seq<nat>, exec: (Node, Props) -> Option<Value>, tree: Value, i: nat, k: nat)
    requires Ranked(g, rank) && i < |g| && k <= |g[i].inputs| && Inputs(g, rank, exec, tree, i, k).None?
    ensures Inputs(g, rank, exec, tree, i, |g[i].inputs|).None?
    decreases |g[i].inputs| - k
  {
    if k < |g[i].inputs| {
      InputsNone(g, rank, exec, tree, i, k + 1);
    }
  }

  // ---------------------------------------------------------------------
  // `evaluate_node_for_output`

  /** The datablocks in one evaluated input: the value itself when it is a
      datablock, its items that are when it is a list. */
  ghost function DbsOf(w: World, v: Value): set<DbRef> {
    set x | x in w.dbs && (v == VRef(x) || (v.VList? && VRef(x) in v.items))
  }

  /** The datablocks among the evaluated inputs named in `keys`. */
  ghost function Gathered(w: World, inputs: Props, keys: set<string>): set<DbRef> {
    set key, x | key in keys && key in inputs && x in DbsOf(w, inputs[key]) :: x
  }

  /** The datablocks `evaluate_node_for_output` reports. */
  ghost function OutputDatablocks(w: World, inputs: Props): set<DbRef> {
    Gathered(w, inputs, inputs.Keys)
  }

  lemma GatheredStep(w: World, inputs: Props, keys: set<string>, key: string)
    requires key in inputs
    ensures Gathered(w, inputs, keys + {key}) == Gathered(w, inputs, keys) + DbsOf(w, inputs[key])
  {
    forall x | x in Gathered(w, inputs, keys + {key})
      ensures x in Gathered(w, inputs, keys) + DbsOf(w, inputs[key])
    {
      var k :| k in keys + {key} && k in inputs && x in DbsOf(w, inputs[k]);
      if k != key {
        assert x in Gathered(w, inputs, keys);
      }
    }
  }

  /** The collection loop: the ID values of each input, directly or inside
      a list. */
  method CollectDatablocks(w: World, inputs: Props) returns (r: set<DbRef>)
    ensures r == OutputDatablocks(w, inputs)
  {
    r := {};
    var todo := inputs.Keys;
    ghost var done: set<string> := {};
    while todo != {}
      invariant todo + done == inputs.Keys && todo !! done
      invariant r == Gathered(w, inputs, done)
      decreases todo
    {
      var key :| key in todo;
      var v := inputs[key];
      var found: set<DbRef> := {};
      if v.VList? {
        var j := 0;
        while j < |v.items|
          invariant 0 <= j <= |v.items|
          invariant found == set x | x in w.dbs && VRef(x) in v.items[..j]
        {
          if v.items[j].VRef? && v.items[j].ref in w.dbs {
            found := found + {v.items[j].ref};
          }
          assert v.items[..j + 1] == v.items[..j] + [v.items[j]];
          j := j + 1;
        }
        assert v.items[..j] == v.items;
      } else if v.VRef? && v.ref in w.dbs {
        found := {v.ref};
      }
      assert found == DbsOf(w, v);
      GatheredStep(w, inputs, done, key);
      r := r + found;
      todo := todo - {key};
      done := done + {key};
    }
  }

  /** What `evaluate_node_for_output` returns. */
  datatype ForOutput = ForOutput(inputs: Props, datablocks: set<DbRef>)

  /** `evaluate_node_for_output(tree, node)`: the node's evaluated inputs,
      with a fresh cache, and the datablocks among them. */
  method EvaluateNodeForOutput(g: seq<Node>, ghost rank: seq<nat>, exec: (Node, Props) -> Option<Value>, tree: Value,
                               w: World, i: nat)
    returns (r: Option<ForOutput>)
    requires Ranked(g, rank) && i < |g|
    ensures DistinctIds(g) ==> (r.None? <==> Inputs(g, rank, exec, tree, i, |g[i].inputs|).None?)
    ensures DistinctIds(g) && r.Some? ==>
      r.value.inputs == Inputs(g, rank, exec, tree, i, |g[i].inputs|).value
      && r.value.datablocks == OutputDatablocks(w, r.value.inputs)
  {
    var inputs, _, _, _ := GetEvaluatedInputs(g, rank, exec, tree, i, map[], [], []);
    if inputs.None? {
      return None;
    }
    var dbs := CollectDatablocks(w, inputs.value);
    r := Some(ForOutput(inputs.value, dbs));
  }

  // ---------------------------------------------------------------------
  // `final_state`

  const FnUuidProperty: string := "_fn_uuid"

  /** How the collector treats one value: reading it raises, it carries no
      uuid, or it carries the uuid `key`. */
  datatype Probe = Raises | Plain | Found(key: Value)

  /** A value Python can use as a dict key. */
  predicate Hashable(v: Value) {
    !v.VList? && !v.VDict?
  }

  /** `hasattr(v, 'get') and v.get('_fn_uuid')`, then `v['_fn_uuid']` as a
      key. Datablocks and dicts have `get`; a removed datablock raises
      ReferenceError; an unhashable uuid value raises TypeError. */
  function ProbeOf(w: World, v: Value): (r: Probe)
    ensures r.Found? ==> Truthy(r.key) && Hashable(r.key)
    ensures r.Found? ==> v.VRef? || v.VDict?
  {
    match v
    case VRef(x) =>
      if x !in w.dbs then Plain
      else if !w.dbs[x].alive then Raises
      else if w.dbs[x].fnUuid.Some? && w.dbs[x].fnUuid.value != "" then Found(VStr(w.dbs[x].fnUuid.value))
      else Plain
    case VDict(d) =>
      if FnUuidProperty in d && Truthy(d[FnUuidProperty]) then
        (if Hashable(d[FnUuidProperty]) then Found(d[FnUuidProperty]) else Raises)
      else Plain
    case _ => Plain
  }

  /** The list-item loop. */
  function FsItems(w: World, fs: map<Value, Value>, items: seq<Value>): Option<map<Value, Value>>
    decreases |items|
  {
    if items == [] then Some(fs)
    else match FsItems(w, fs, items[..|items| - 1])
      case None => None
      case Some(f) =>
        var it := items[|items| - 1];
        match ProbeOf(w, it)
        case Raises => None
        case Found(k) => Some(f[k := it])
        case Plain => Some(f)
  }

  /** One socket's result: recorded when it carries a uuid, else its items
      when it is a list. */
  function FsValue(w: World, fs: map<Value, Value>, v: Value): Option<map<Value, Value>> {
    match ProbeOf(w, v)
    case Raises => None
    case Found(k) => Some(fs[k := v])
    case Plain => if v.VList? then FsItems(w, fs, v.items) else Some(fs)
  }

  /** The socket loop over a result dict, in key order `ks`. */
  function FsSockets(w: World, fs: map<Value, Value>, d: Props, ks: seq<string>): Option<map<Value, Value>>
    decreases |ks|
  {
    if ks == [] then Some(fs)
    else match FsSockets(w, fs, d, ks[..|ks| - 1])
      case None => None
      case Some(f) => if ks[|ks| - 1] in d then FsValue(w, f, d[ks[|ks| - 1]]) else Some(f)
  }

  /** The node loop over the cache, in insertion order. */
  function FsNodes(w: World, fs: map<Value, Value>, cache: map<string, Value>, order: seq<string>,
                   keysOf: Props -> seq<string>): Option<map<Value, Value>>
    decreases |order|
  {
    if order == [] then Some(fs)
    else match FsNodes(w, fs, cache, order[..|order| - 1], keysOf)
      case None => None
      case Some(f) =>
        var n := order[|order| - 1];
        if n in cache && cache[n].VDict? then FsSockets(w, f, cache[n].d, keysOf(cache[n].d)) else Some(f)
  }

  /** Every entry is a value carrying its own key. */
  ghost predicate Keyed(w: World, fs: map<Value, Value>) {
    forall k :: k in fs ==> ProbeOf(w, fs[k]) == Found(k)
  }

  /** `v` carries `k`, directly or as a list item. */
  ghost predicate FoundIn(w: World, v: Value, k: Value) {
    ProbeOf(w, v) == Found(k)
    || (ProbeOf(w, v) == Plain && v.VList? && exists j :: 0 <= j < |v.items| && ProbeOf(w, v.items[j]) == Found(k))
  }

  /** Reading `v` raises, directly or at a list item. */
  ghost predicate RaisesIn(w: World, v: Value) {
    ProbeOf(w, v) == Raises
    || (ProbeOf(w, v) == Plain && v.VList? && exists j :: 0 <= j < |v.items| && ProbeOf(w, v.items[j]) == Raises)
  }

  lemma {:induction false} FsItemsFacts(w: World, fs: map<Value, Value>, items: seq<Value>)
    ensures FsItems(w, fs, items).None? <==> exists j :: 0 <= j < |items| && ProbeOf(w, items[j]) == Raises
    ensures FsItems(w, fs, items).Some? ==>
      var r := FsItems(w, fs, items).value;
      (forall k :: k in r <==> k in fs || exists j :: 0 <= j < |items| && ProbeOf(w, items[j]) == Found(k))
      && (Keyed(w, fs) ==> Keyed(w, r))
    decreases |items|
  {
    if items != [] {
      var pre := items[..|items| - 1];
      FsItemsFacts(w, fs, pre);
      assert forall j :: 0 <= j < |pre| ==> pre[j] == items[j];
      assert forall k :: (exists j :: 0 <= j < |items| && ProbeOf(w, items[j]) == Found(k)) <==>
        (exists j :: 0 <= j < |pre| && ProbeOf(w, pre[j]) == Found(k)) || ProbeOf(w, items[|items| - 1]) == Found(k);
      assert (exists j :: 0 <= j < |items| && ProbeOf(w, items[j]) == Raises) <==>
        (exists j :: 0 <= j < |pre| && ProbeOf(w, pre[j]) == Raises) || ProbeOf(w, items[|items| - 1]) == Raises;
    }
  }

  lemma FsValueFacts(w: World, fs: map<Value, Value>, v: Value)
    ensures FsValue(w, fs, v).None? <==> RaisesIn(w, v)
    ensures FsValue(w, fs, v).Some? ==>
      var r := FsValue(w, fs, v).value;
      (forall k :: k in r <==> k in fs || FoundIn(w, v, k)) && (Keyed(w, fs) ==> Keyed(w, r))
  {
    if ProbeOf(w, v) == Plain && v.VList? {
      FsItemsFacts(w, fs, v.items);
    }
  }

  /** The uuids socket `s` of a result dict contributes. */
  ghost predicate SocketGives(w: World, d: Props, s: string, k: Value) {
    s in d && FoundIn(w, d[s], k)
  }

  lemma {:induction false} FsSocketsFacts(w: World, fs: map<Value, Value>, d: Props, ks: seq<string>)
    ensures FsSockets(w, fs, d, ks).None? <==> exists j :: 0 <= j < |ks| && ks[j] in d && RaisesIn(w, d[ks[j]])
    ensures FsSockets(w, fs, d, ks).Some? ==>
      var r := FsSockets(w, fs, d, ks).value;
      (forall k :: k in r <==> k in fs || exists j :: 0 <= j < |ks| && SocketGives(w, d, ks[j], k))
      && (Keyed(w, fs) ==> Keyed(w, r))
    decreases |ks|
  {
    if ks != [] {
      var pre := ks[..|ks| - 1];
      var s := ks[|ks| - 1];
      FsSocketsFacts(w, fs, d, pre);
      assert forall j :: 0 <= j < |pre| ==> pre[j] == ks[j];
      assert forall k :: (exists j :: 0 <= j < |ks| && SocketGives(w, d, ks[j], k)) <==>
        (exists j :: 0 <= j < |pre| && SocketGives(w, d, pre[j], k)) || SocketGives(w, d, s, k);
      assert (exists j :: 0 <= j < |ks| && ks[j] in d && RaisesIn(w, d[ks[j]])) <==>
        (exists j :: 0 <= j < |pre| && pre[j] in d && RaisesIn(w, d[pre[j]])) || (s in d && RaisesIn(w, d[s]));
      match FsSockets(w, fs, d, pre)
      case None =>
      case Some(f) =>
        if s in d {
          FsValueFacts(w, f, d[s]);
        }
    }
  }

  /** The uuids the cached result of node `n` contributes. */
  ghost predicate NodeGives(w: World, cache: map<string, Value>, keysOf: Props -> seq<string>, n: string, k: Value) {
    n in cache && cache[n].VDict?
    && exists j :: 0 <= j < |keysOf(cache[n].d)| && SocketGives(w, cache[n].d, keysOf(cache[n].d)[j], k)
  }

  ghost predicate NodeRaises(w: World, cache: map<string, Value>, keysOf: Props -> seq<string>, n: string) {
    n in cache && cache[n].VDict?
    && exists j :: 0 <= j < |keysOf(cache[n].d)| && keysOf(cache[n].d)[j] in cache[n].d
         && RaisesIn(w, cache[n].d[keysOf(cache[n].d)[j]])
  }

  lemma {:induction false} FsNodesFacts(w: World, fs: map<Value, Value>, cache: map<string, Value>, order: seq<string>,
                                        keysOf: Props -> seq<string>)
    ensures FsNodes(w, fs, cache, order, keysOf).None? <==> exists j :: 0 <= j < |order| && NodeRaises(w, cache, keysOf, order[j])
    ensures FsNodes(w, fs, cache, order, keysOf).Some? ==>
      var r := FsNodes(w, fs, cache, order, keysOf).value;
      (forall k :: k in r <==> k in fs || exists j :: 0 <= j < |order| && NodeGives(w, cache, keysOf, order[j], k))
      && (Keyed(w, fs) ==> Keyed(w, r))
    decreases |order|
  {
    if order != [] {
      var pre := order[..|order| - 1];
      var n := order[|order| - 1];
      FsNodesFacts(w, fs, cache, pre, keysOf);
      assert forall j :: 0 <= j < |pre| ==> pre[j] == order[j];
      assert forall k :: (exists j :: 0 <= j < |order| && NodeGives(w, cache, keysOf, order[j], k)) <==>
        (exists j :: 0 <= j < |pre| && NodeGives(w, cache, keysOf, pre[j], k)) || NodeGives(w, cache, keysOf, n, k);
      assert (exists j :: 0 <= j < |order| && NodeRaises(w, cache, keysOf, order[j])) <==>
        (exists j :: 0 <= j < |pre| && NodeRaises(w, cache, keysOf, pre[j])) || NodeRaises(w, cache, keysOf, n);
      match FsNodes(w, fs, cache, pre, keysOf)
      case None =>
      case Some(f) =>
        if n in cache && cache[n].VDict? {
          FsSocketsFacts(w, f, cache[n].d, keysOf(cache[n].d));
        }
    }
  }

  /** `final_state` holds exactly the uuids that some cached result carries
      at one of its sockets, directly or in a list, each mapped to a value
      carrying it; it raises exactly when reading one of those values
      raises. */
  lemma FinalStateKeys(w: World, cache: map<string, Value>, order: seq<string>, keysOf: Props -> seq<string>)
    ensures FsNodes(w, map[], cache, order, keysOf).None? <==> exists j :: 0 <= j < |order| && NodeRaises(w, cache, keysOf, order[j])
    ensures FsNodes(w, map[], cache, order, keysOf).Some? ==>
      var r := FsNodes(w, map[], cache, order, keysOf).value;
      (forall k :: k in r <==> exists j :: 0 <= j < |order| && NodeGives(w, cache, keysOf, order[j], k))
      && Keyed(w, r)
  {
    FsNodesFacts(w, map[], cache, order, keysOf);
  }

  lemma {:induction false} FsItemsStopped(w: World, fs: map<Value, Value>, items: seq<Value>, j: nat)
    requires j <= |items| && FsItems(w, fs, items[..j]).None?
    ensures FsItems(w, fs, items).None?
    decreases |items| - j
  {
    if j < |items| {
      assert items[..j + 1][..j] == items[..j];
      FsItemsStopped(w, fs, items, j + 1);
    } else {
      assert items[..j] == items;
    }
  }

  lemma {:induction false} FsSocketsStopped(w: World, fs: map<Value, Value>, d: Props, ks: seq<string>, j: nat)
    requires j <= |ks| && FsSockets(w, fs, d, ks[..j]).None?
    ensures FsSockets(w, fs, d, ks).None?
    decreases |ks| - j
  {
    if j < |ks| {
      assert ks[..j + 1][..j] == ks[..j];
      FsSocketsStopped(w, fs, d, ks, j + 1);
    } else {
      assert ks[..j] == ks;
    }
  }

  lemma {:induction false} FsNodesStopped(w: World, fs: map<Value, Value>, cache: map<string, Value>, order: seq<string>,
                                          keysOf: Props -> seq<string>, j: nat)
    requires j <= |order| && FsNodes(w, fs, cache, order[..j], keysOf).None?
    ensures FsNodes(w, fs, cache, order, keysOf).None?
    decreases |order| - j
  {
    if j < |order| {
      assert order[..j + 1][..j] == order[..j];
      FsNodesStopped(w, fs, cache, order, keysOf, j + 1);
    } else {
      assert order[..j] == order;
    }
  }

  /** The innermost loop, over a list result. */
  method CollectItems(w: World, fs: map<Value, Value>, items: seq<Value>) returns (r: Option<map<Value, Value>>)
    ensures r == FsItems(w, fs, items)
  {
    var f := fs;
    var j := 0;
    while j < |items|
      invariant 0 <= j <= |items|
      invariant FsItems(w, fs, items[..j]) == Some(f)
    {
      assert items[..j + 1][..j] == items[..j];
      var it := items[j];
      match ProbeOf(w, it) {
        case Raises =>
          FsItemsStopped(w, fs, items, j + 1);
          return None;
        case Found(k) =>
          f := f[k := it];
        case Plain =>
      }
      j := j + 1;
    }
    assert items[..j] == items;
    r := Some(f);
  }

  /** The socket loop over one result dict. */
  method CollectSockets(w: World, fs: map<Value, Value>, d: Props, ks: seq<string>) returns (r: Option<map<Value, Value>>)
    ensures r == FsSockets(w, fs, d, ks)
  {
    var f := fs;
    var j := 0;
    while j < |ks|
      invariant 0 <= j <= |ks|
      invariant FsSockets(w, fs, d, ks[..j]) == Some(f)
    {
      assert ks[..j + 1][..j] == ks[..j];
      if ks[j] in d {
        var v := d[ks[j]];
        var next: Option<map<Value, Value>>;
        match ProbeOf(w, v) {
          case Raises =>
            next := None;
          case Found(k) =>
            next := Some(f[k := v]);
          case Plain =>
            if v.VList? {
              next := CollectItems(w, f, v.items);
            } else {
              next := Some(f);
            }
        }
        if next.None? {
          FsSocketsStopped(w, fs, d, ks, j + 1);
          return None;
        }
        f := next.value;
      }
      j := j + 1;
    }
    assert ks[..j] == ks;
    r := Some(f);
  }

  /** The loop of `_evaluate_node_tree` that builds `final_state`. */
  method CollectFinalState(w: World, cache: map<string, Value>, order: seq<string>, keysOf: Props -> seq<string>)
    returns (r: Option<map<Value, Value>>)
    ensures r == FsNodes(w, map[], cache, order, keysOf)
  {
    var f: map<Value, Value> := map[];
    var j := 0;
    while j < |order|
      invariant 0 <= j <= |order|
      invariant FsNodes(w, map[], cache, order[..j], keysOf) == Some(f)
    {
      assert order[..j + 1][..j] == order[..j];
      var n := order[j];
      if n in cache && cache[n].VDict? {
        var next := CollectSockets(w, f, cache[n].d, keysOf(cache[n].d));
        if next.None? {
          FsNodesStopped(w, map[], cache, order, keysOf, j + 1);
          return None;
        }
        f := next.value;
      }
      j := j + 1;
    }
    assert order[..j] == order;
    r := Some(f);
  }

  /** `v.get(key)`: a dict gives its entry or None, a live datablock its
      custom property or None, a nested struct None; a removed datablock
      raises ReferenceError and any other value AttributeError (None). */
  function GetOf(w: World, v: Value, key: string): (r: Option<Value>)
    ensures v.VDict? ==> r == Some(Get(v.d, key))
  {
    match v
    case VDict(d) => Some(Get(d, key))
    case VRef(x) => if x in w.dbs && w.dbs[x].alive then Some(Get(w.dbs[x].idprops, key)) else None
    case VOpaque(_) => Some(VNone)
    case _ => None
  }

  /** What `_evaluate_node_tree` returns: `final_state` and the active
      socket's output. */
  datatype TreeResult = TreeResult(required: map<Value, Value>, output: Value)

  /** `_evaluate_node_tree(tree, active_socket)`: the pull from the active
      socket's node with a fresh cache, the collection of `final_state`
      over the cache, and the active socket's entry of its node's cached
      result (`{}` when the node is not cached). `cache` and `order` are
      the cache the pull leaves: with unique ids, the nodes defining
      `execute` that the active node reaches, all of them when the pull
      succeeded. */
  method EvaluateNodeTree(g: seq<Node>, ghost rank: seq<nat>, exec: (Node, Props) -> Option<Value>, tree: Value,
                          w: World, active: Socket, keysOf: Props -> seq<string>)
    returns (r: Option<TreeResult>, ghost cache: map<string, Value>, ghost order: seq<string>)
    requires Ranked(g, rank) && active.node < |g|
    ensures Sound(g, rank, exec, tree, cache) && Listed(cache, order)
    ensures DistinctIds(g) ==> cache.Keys <= UpIds(g, rank, active.node)
    ensures DistinctIds(g) && r.Some? ==> cache.Keys == UpIds(g, rank, active.node)
    ensures DistinctIds(g) && REval(g, rank, exec, tree, active.node).None? ==> r.None?
    ensures r.Some? ==> FsNodes(w, map[], cache, order, keysOf) == Some(r.value.required)
    ensures r.Some? && DistinctIds(g) ==>
      var src := if g[active.node].executes then REval(g, rank, exec, tree, active.node).value else VDict(map[]);
      REval(g, rank, exec, tree, active.node).Some? && GetOf(w, src, active.ident) == Some(r.value.output)
  {
    var res, c, o, _ := EvaluateNode(g, rank, exec, tree, active.node, map[], [], []);
    cache, order := c, o;
    if res.None? {
      return None, cache, order;
    }
    var fs := CollectFinalState(w, c, o, keysOf);
    if fs.None? {
      return None, cache, order;
    }
    var id := g[active.node].id;
    var src := if id in c then c[id] else VDict(map[]);
    if DistinctIds(g) && !g[active.node].executes && id in c {
      CachedExecutes(g, rank, exec, tree, c, active.node);
    }
    var out := GetOf(w, src, active.ident);
    if out.None? {
      return None, cache, order;
    }
    r := Some(TreeResult(fs.value, out.value));
  }
}
