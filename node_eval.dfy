/** Pull evaluation of a node graph, as `_evaluate_node` and
    `_evaluate_active_branch` of the proxy engine run it: each node's inputs
    are evaluated upstream first, its `execute` is called with the resulting
    keyword arguments, and a session cache keyed by `fn_node_id` makes every
    node run at most once per evaluation. */
module NodeEval {
  import opened Base

  /** The first link of an input socket: the index of the upstream node in
      the tree's node list and the identifier of its output socket. */
  datatype Link = Link(fromNode: nat, fromSocket: string)

  /** An input socket. It is linked when `links` is not empty; `default` is
      `default_value`, `None` when the socket has no such attribute. */
  datatype Input = Input(ident: string, links: seq<Link>, default: Option<Value>)

  datatype Output = Output(ident: string, finalActive: bool)

  /** A node of the tree: `fn_node_id`, its sockets, and whether it defines
      `execute`. */
  datatype Node = Node(id: string, inputs: seq<Input>, outputs: seq<Output>, executes: bool)

  /** Every followed link points at a node ranked below its consumer: the
      graph is acyclic, as the host's node editor keeps it. */
  ghost predicate Ranked(g: seq<Node>, rank: seq<nat>) {
    |rank| == |g|
    && forall i, k :: 0 <= i < |g| && 0 <= k < |g[i].inputs| && g[i].inputs[k].links != [] ==>
         g[i].inputs[k].links[0].fromNode < |g| && rank[g[i].inputs[k].links[0].fromNode] < rank[i]
  }

  /** Node ids are unique, as `fn_node_id` values are meant to be. */
  ghost predicate DistinctIds(g: seq<Node>) {
    forall i, j :: 0 <= i < |g| && 0 <= j < |g| && g[i].id == g[j].id ==> i == j
  }

  /** `results.get(key)`: a dictionary gives the value or None; any other
      result has no `get`, and the call raises (None). */
  function GetResult(v: Value, key: string): (r: Option<Value>)
    ensures r.Some? <==> v.VDict?
    ensures v.VDict? && key in v.d ==> r == Some(v.d[key])
    ensures v.VDict? && key !in v.d ==> r == Some(VNone)
  {
    if v.VDict? then Some(Get(v.d, key)) else None
  }

  /** What a node's evaluation gives, computed afresh with no cache: None
      when an exception escapes. `exec(node, kwargs)` is the node's
      `execute`; a node without one gives `{}`. */
  function Eval(g: seq<Node>, rank: seq<nat>, exec: (Node, Props) -> Option<Value>, tree: Value, i: nat): Option<Value>
    requires Ranked(g, rank) && i < |g|
    decreases rank[i], 1, 0
  {
    match Kwargs(g, rank, exec, tree, i, |g[i].inputs|)
    case None => None
    case Some(kw) => if g[i].executes then exec(g[i], kw) else Some(VDict(map[]))
  }

  /** The keyword arguments built from the first `k` inputs, in socket
      order: `tree`, then for a linked input the upstream result at the
      link's socket, for an unlinked one its default or None. */
  function Kwargs(g: seq<Node>, rank: seq<nat>, exec: (Node, Props) -> Option<Value>, tree: Value, i: nat, k: nat): Option<Props>
    requires Ranked(g, rank) && i < |g| && k <= |g[i].inputs|
    decreases rank[i], 0, k
  {
    if k == 0 then Some(map["tree" := tree])
    else match Kwargs(g, rank, exec, tree, i, k - 1)
      case None => None
      case Some(kw) =>
        var inp := g[i].inputs[k - 1];
        if inp.links != [] then
          match Eval(g, rank, exec, tree, inp.links[0].fromNode)
          case None => None
          case Some(up) =>
            match GetResult(up, inp.links[0].fromSocket)
            case None => None
            case Some(v) => Some(kw[inp.ident := v])
        else Some(kw[inp.ident := if inp.default.Some? then inp.default.value else VNone])
  }

  /** Every cache entry belongs to a node of the graph and, with unique ids,
      holds that node's fresh evaluation. */
  ghost predicate CacheOk(g: seq<Node>, rank: seq<nat>, exec: (Node, Props) -> Option<Value>, tree: Value, cache: map<string, Value>)
    requires Ranked(g, rank)
  {
    forall key :: key in cache ==>
      exists j :: 0 <= j < |g| && g[j].id == key && (DistinctIds(g) ==> Eval(g, rank, exec, tree, j) == Some(cache[key]))
  }

  /** `runs` lists the nodes whose `execute` has been called; each is
      cached, and with unique ids none ran twice. */
  ghost predicate RunsOk(g: seq<Node>, cache: map<string, Value>, runs: seq<string>) {
    (forall x :: x in runs ==> x in cache) && (DistinctIds(g) ==> NoDup(runs))
  }

  /** The cache keeps every entry it had, and its new keys belong to nodes
      ranked at most `top`. */
  ghost predicate Grew(g: seq<Node>, rank: seq<nat>, c0: map<string, Value>, c1: map<string, Value>, top: int)
    requires |rank| == |g|
  {
    (forall key :: key in c0 ==> key in c1 && c1[key] == c0[key])
    && forall key :: key in c1 && key !in c0 ==> exists j :: 0 <= j < |g| && g[j].id == key && rank[j] <= top
  }

  lemma GrewTrans(g: seq<Node>, rank: seq<nat>, c0: map<string, Value>, c1: map<string, Value>, c2: map<string, Value>, top: int)
    requires |rank| == |g| && Grew(g, rank, c0, c1, top) && Grew(g, rank, c1, c2, top)
    ensures Grew(g, rank, c0, c2, top)
  {
  }

  /** `_evaluate_node(tree, node, session_cache)`: the cached result when
      the node's id is cached; otherwise the inputs are evaluated in order,
      the node runs once, and its result is cached. `runs` records the
      nodes whose `execute` ran. */
  method EvaluateNode(g: seq<Node>, ghost rank: seq<nat>, exec: (Node, Props) -> Option<Value>, tree: Value, i: nat,
                      cache: map<string, Value>, ghost runs: seq<string>)
    returns (r: Option<Value>, cache2: map<string, Value>, ghost runs2: seq<string>)
    requires Ranked(g, rank) && i < |g|
    requires CacheOk(g, rank, exec, tree, cache) && RunsOk(g, cache, runs)
    decreases rank[i], 1
    ensures DistinctIds(g) ==> r == Eval(g, rank, exec, tree, i)
    ensures r.Some? ==> g[i].id in cache2 && cache2[g[i].id] == r.value
    ensures CacheOk(g, rank, exec, tree, cache2) && RunsOk(g, cache2, runs2) && Grew(g, rank, cache, cache2, rank[i])
    ensures g[i].id in cache ==> r == Some(cache[g[i].id]) && cache2 == cache && runs2 == runs
    ensures runs <= runs2
  {
    if g[i].id in cache {
      return Some(cache[g[i].id]), cache, runs;
    }
    var kwo;
    kwo, cache2, runs2 := EvaluateInputs(g, rank, exec, tree, i, cache, runs);
    if kwo.None? {
      GrewWiden(g, rank, cache, cache2, rank[i] as int - 1, rank[i]);
      return None, cache2, runs2;
    }
    var kw := kwo.value;
    GrewWiden(g, rank, cache, cache2, rank[i] as int - 1, rank[i]);
    if DistinctIds(g) {
      StillFresh(g, rank, cache, cache2, i);
    }
    r := if g[i].executes then exec(g[i], kw) else Some(VDict(map[]));
    assert DistinctIds(g) ==> r == Eval(g, rank, exec, tree, i);
    if r.None? {
      return;
    }
    ghost var c1 := cache2;
    CacheAdd(g, rank, exec, tree, cache2, runs2, i, r.value);
    cache2 := cache2[g[i].id := r.value];
    if g[i].executes {
      runs2 := runs2 + [g[i].id];
    }
    GrewAdd(g, rank, cache, c1, i, r.value);
  }

  /** The argument loop of `_evaluate_node`: the inputs in socket order,
      each linked one evaluated upstream through the shared cache. */
  method EvaluateInputs(g: seq<Node>, ghost rank: seq<nat>, exec: (Node, Props) -> Option<Value>, tree: Value, i: nat,
                        cache: map<string, Value>, ghost runs: seq<string>)
    returns (kwo: Option<Props>, cache2: map<string, Value>, ghost runs2: seq<string>)
    requires Ranked(g, rank) && i < |g|
    requires CacheOk(g, rank, exec, tree, cache) && RunsOk(g, cache, runs)
    decreases rank[i], 0
    ensures DistinctIds(g) ==> kwo == Kwargs(g, rank, exec, tree, i, |g[i].inputs|)
    ensures CacheOk(g, rank, exec, tree, cache2) && RunsOk(g, cache2, runs2)
    ensures Grew(g, rank, cache, cache2, rank[i] as int - 1) && runs <= runs2
  {
    var kw: Props := map["tree" := tree];
    cache2, runs2 := cache, runs;
    var k := 0;
    while k < |g[i].inputs|
      invariant 0 <= k <= |g[i].inputs|
      invariant CacheOk(g, rank, exec, tree, cache2) && RunsOk(g, cache2, runs2)
      invariant Grew(g, rank, cache, cache2, rank[i] as int - 1) && runs <= runs2
      invariant DistinctIds(g) ==> Kwargs(g, rank, exec, tree, i, k) == Some(kw)
    {
      var inp := g[i].inputs[k];
      var v: Value;
      if inp.links != [] {
        var up;
        ghost var c1 := cache2;
        up, cache2, runs2 := EvaluateNode(g, rank, exec, tree, inp.links[0].fromNode, cache2, runs2);
        GrewTrans(g, rank, cache, c1, cache2, rank[i] as int - 1);
        if up.None? || !up.value.VDict? {
          if DistinctIds(g) {
            KwargsNone(g, rank, exec, tree, i, k + 1);
          }
          return None, cache2, runs2;
        }
        v := Get(up.value.d, inp.links[0].fromSocket);
      } else if inp.default.Some? {
        v := inp.default.value;
      } else {
        v := VNone;
      }
      if DistinctIds(g) {
        KwargsStep(g, rank, exec, tree, i, k, kw, v);
      }
      kw := kw[inp.ident := v];
      k := k + 1;
    }
    kwo := Some(kw);
  }

  /** Once an input raises, no later prefix of the arguments is built. */
  lemma {:induction false} KwargsNone(g: seq<Node>, rank: seq<nat>, exec: (Node, Props) -> Option<Value>, tree: Value, i: nat, k: nat)
    requires Ranked(g, rank) && i < |g| && k <= |g[i].inputs| && Kwargs(g, rank, exec, tree, i, k).None?
    ensures Kwargs(g, rank, exec, tree, i, |g[i].inputs|).None?
    decreases |g[i].inputs| - k
  {
    if k < |g[i].inputs| {
      KwargsNone(g, rank, exec, tree, i, k + 1);
    }
  }

  /** With unique ids, what the inputs' evaluation cached belongs to nodes
      ranked below `i`, so `i`'s own id is still uncached. */
  lemma StillFresh(g: seq<Node>, rank: seq<nat>, c0: map<string, Value>, c1: map<string, Value>, i: nat)
    requires |rank| == |g| && i < |g| && DistinctIds(g) && g[i].id !in c0 && Grew(g, rank, c0, c1, rank[i] as int - 1)
    ensures g[i].id !in c1
  {
    forall key | key in c1 && key !in c0
      ensures key != g[i].id
    {
      var j :| 0 <= j < |g| && g[j].id == key && rank[j] <= rank[i] as int - 1;
      assert j != i;
    }
  }

  lemma GrewWiden(g: seq<Node>, rank: seq<nat>, c0: map<string, Value>, c1: map<string, Value>, a: int, b: int)
    requires |rank| == |g| && a <= b && Grew(g, rank, c0, c1, a)
    ensures Grew(g, rank, c0, c1, b)
  {
  }

  lemma GrewAdd(g: seq<Node>, rank: seq<nat>, c0: map<string, Value>, c1: map<string, Value>, i: nat, v: Value)
    requires |rank| == |g| && i < |g| && g[i].id !in c0 && Grew(g, rank, c0, c1, rank[i])
    ensures Grew(g, rank, c0, c1[g[i].id := v], rank[i])
  {
  }

  /** Adding a node's fresh result to the cache keeps it sound; the node's
      id was not cached, so recording its run keeps runs distinct. */
  lemma CacheAdd(g: seq<Node>, rank: seq<nat>, exec: (Node, Props) -> Option<Value>, tree: Value,
                 cache: map<string, Value>, runs: seq<string>, i: nat, v: Value)
    requires Ranked(g, rank) && i < |g| && CacheOk(g, rank, exec, tree, cache) && RunsOk(g, cache, runs)
    requires DistinctIds(g) ==> g[i].id !in cache && Eval(g, rank, exec, tree, i) == Some(v)
    ensures CacheOk(g, rank, exec, tree, cache[g[i].id := v])
    ensures RunsOk(g, cache[g[i].id := v], runs) && RunsOk(g, cache[g[i].id := v], runs + [g[i].id])
  {
    var c := cache[g[i].id := v];
    forall key | key in c
      ensures exists j :: 0 <= j < |g| && g[j].id == key && (DistinctIds(g) ==> Eval(g, rank, exec, tree, j) == Some(c[key]))
    {
      if key == g[i].id {
        assert g[i].id == key && (DistinctIds(g) ==> Eval(g, rank, exec, tree, i) == Some(c[key]));
      } else {
        assert key in cache;
      }
    }
    if DistinctIds(g) {
      assert g[i].id !in runs;
      assert forall a :: 0 <= a < |runs| ==> (runs + [g[i].id])[a] == runs[a];
    }
  }

  /** One more input: its value is the upstream result at the link's socket,
      or the default. */
  lemma KwargsStep(g: seq<Node>, rank: seq<nat>, exec: (Node, Props) -> Option<Value>, tree: Value, i: nat, k: nat, kw: Props, v: Value)
    requires Ranked(g, rank) && i < |g| && k < |g[i].inputs| && Kwargs(g, rank, exec, tree, i, k) == Some(kw)
    requires g[i].inputs[k].links != [] ==>
      var l := g[i].inputs[k].links[0];
      Eval(g, rank, exec, tree, l.fromNode).Some? && Eval(g, rank, exec, tree, l.fromNode).value.VDict?
      && v == Get(Eval(g, rank, exec, tree, l.fromNode).value.d, l.fromSocket)
    requires g[i].inputs[k].links == [] ==>
      v == if g[i].inputs[k].default.Some? then g[i].inputs[k].default.value else VNone
    ensures Kwargs(g, rank, exec, tree, i, k + 1) == Some(kw[g[i].inputs[k].ident := v])
  {
  }

  /** The output socket flagged `is_final_active`: the node index and socket
      identifier. */
  datatype Socket = Socket(node: nat, ident: string)

  /** The first flagged output of node `i` or a later one, nodes in tree
      order and outputs in socket order. */
  function FirstActive(g: seq<Node>, i: nat): (r: Option<Socket>)
    requires i <= |g|
    ensures r.Some? ==> i <= r.value.node < |g| && Output(r.value.ident, true) in g[r.value.node].outputs
    ensures r.Some? ==> forall j, o :: i <= j < r.value.node && o in g[j].outputs ==> !o.finalActive
    ensures r.None? ==> forall j, o :: i <= j < |g| && o in g[j].outputs ==> !o.finalActive
    decreases |g| - i
  {
    if i == |g| then None
    else match FirstFlagged(g[i].outputs, 0)
      case Some(k) => Some(Socket(i, g[i].outputs[k].ident))
      case None => FirstActive(g, i + 1)
  }

  /** The index of the first flagged output at or after `k`. */
  function FirstFlagged(os: seq<Output>, k: nat): (r: Option<nat>)
    requires k <= |os|
    ensures r.Some? ==> k <= r.value < |os| && os[r.value].finalActive
    ensures r.Some? ==> forall j :: k <= j < r.value ==> !os[j].finalActive
    ensures r.None? ==> forall j :: k <= j < |os| ==> !os[j].finalActive
    decreases |os| - k
  {
    if k == |os| then None
    else if os[k].finalActive then Some(k)
    else FirstFlagged(os, k + 1)
  }

  /** How `_evaluate_active_branch` ends: an exception escaped, there is no
      root (no flagged socket, or a value that is not a proxy), or the root
      proxy. */
  datatype Branch = BranchRaised | NoRoot | Root(h: Handle)

  function ActiveRoot(g: seq<Node>, rank: seq<nat>, exec: (Node, Props) -> Option<Value>, tree: Value): (r: Branch)
    requires Ranked(g, rank)
    ensures r.Root? ==> exists s :: FirstActive(g, 0) == Some(s)
    ensures FirstActive(g, 0).None? ==> r == NoRoot
  {
    match FirstActive(g, 0)
    case None => NoRoot
    case Some(s) =>
      RootAt(Eval(g, rank, exec, tree, s.node), s.ident)
  }

  /** `results.get(identifier)` on the flagged node's results, kept only
      when it is a proxy. */
  function RootAt(res: Option<Value>, ident: string): (r: Branch)
    ensures r == BranchRaised <==> res.None? || !res.value.VDict?
    ensures r.Root? <==> res.Some? && res.value.VDict? && ident in res.value.d && res.value.d[ident].VProxy?
    ensures r.Root? ==> res.value.d[ident] == VProxy(r.h)
  {
    if res.None? then BranchRaised
    else match GetResult(res.value, ident)
      case None => BranchRaised
      case Some(v) => if v.VProxy? then Root(v.h) else NoRoot
  }

  /** `_evaluate_active_branch(tree)`: evaluates the node of the flagged
      socket with a fresh session cache and returns the proxy at that
      socket. */
  method EvaluateActiveBranch(g: seq<Node>, ghost rank: seq<nat>, exec: (Node, Props) -> Option<Value>, tree: Value)
    returns (r: Branch)
    requires Ranked(g, rank)
    ensures DistinctIds(g) ==> r == ActiveRoot(g, rank, exec, tree)
    ensures FirstActive(g, 0).None? ==> r == NoRoot
  {
    var s := FirstActive(g, 0);
    if s.None? {
      return NoRoot;
    }
    var res, _, _ := EvaluateNode(g, rank, exec, tree, s.value.node, map[], []);
    r := RootAt(res, s.value.ident);
  }

  /** With unique ids, a cached entry is what evaluating its node afresh
      gives, so a cache hit changes no result. */
  lemma MemoHit(g: seq<Node>, rank: seq<nat>, exec: (Node, Props) -> Option<Value>, tree: Value, i: nat, cache: map<string, Value>)
    requires Ranked(g, rank) && i < |g| && DistinctIds(g) && CacheOk(g, rank, exec, tree, cache) && g[i].id in cache
    ensures Eval(g, rank, exec, tree, i) == Some(cache[g[i].id])
  {
    var j :| 0 <= j < |g| && g[j].id == g[i].id && Eval(g, rank, exec, tree, j) == Some(cache[g[i].id]);
  }
}
