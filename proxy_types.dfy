/** DatablockProxy: the scene-graph prim that flows between nodes. Every prim
    object lives in one `ProxyHeap`. A prim method that updates fields in
    place is a heap method that updates that prim's record. */
module ProxyTypes {
  import opened Base
  import opened Strings
  import opened ProxyArena

  class ProxyHeap {
    var prims: Arena
    var next: nat

    ghost predicate Valid()
      reads this
    {
      WF(prims, next)
    }

    constructor ()
      ensures Valid() && prims == map[] && next == 0
    {
      prims := map[];
      next := 0;
    }

    /** `DatablockProxy(path, fn_uuid, properties, parent)`. The id is
        `fn_uuid` when it is truthy, else `freshId` (the value `uuid.uuid4()`
        would give). A given parent gets the new prim appended to its children. */
    method NewProxy(path: string, fnUuid: Uuid, props: Props, parent: Option<Handle>, freshId: Uuid)
      returns (h: Handle)
      requires Valid() && freshId != ""
      requires parent.Some? ==> parent.value in prims
      modifies this
      ensures Valid() && h == old(next) && next == h + 1
      ensures prims == AllocAt(old(prims), h, Prim(path, if fnUuid != "" then fnUuid else freshId, props, parent, []))
      ensures Orphan(prims, h) <==> parent.None?
    {
      var id := if fnUuid != "" then fnUuid else freshId;
      var rec := Prim(path, id, props, parent, []);
      AllocWF(prims, next, rec);
      h := next;
      prims := AllocAt(prims, next, rec);
      next := next + 1;
      if parent.Some? {
        assert prims[parent.value].children[|prims[parent.value].children| - 1] == h;
      } else {
        forall k, i | k in prims && 0 <= i < |prims[k].children| ensures prims[k].children[i] != h {
          if k != h { assert prims[k].children[i] == old(prims)[k].children[i]; }
        }
      }
    }

    /** `get_flat_list()`: the prims of the subtree in pre-order, `h` first. */
    method GetFlatList(h: Handle) returns (r: seq<Handle>)
      requires Valid() && h in prims
      ensures r == Flat(prims, next, h)
      decreases next - h
    {
      r := [h];
      var ks := prims[h].children;
      var i := 0;
      while i < |ks|
        invariant 0 <= i <= |ks|
        invariant r == [h] + FlatSeq(prims, next, h, ks[..i])
      {
        var sub := GetFlatList(ks[i]);
        FlatSeqSnoc(prims, next, h, ks[..i], ks[i]);
        assert ks[..i + 1] == ks[..i] + [ks[i]];
        r := r + sub;
        i := i + 1;
      }
      assert ks[..i] == ks;
    }

    /** `clone()`: a fresh copy of the subtree under `h` with the same paths,
        ids and properties and the same shape. The copy's root has no parent,
        every copied child points to its copied parent, and no record that
        existed before changes. */
    method Clone(h: Handle) returns (c: Handle)
      requires Valid() && h in prims
      modifies this
      ensures Valid() && c == old(next) && c in prims && next >= old(next)
      ensures Grows(old(prims), prims, old(next)) && AboveClosed(prims, old(next))
      ensures View(prims, next, c) == old(View(prims, next, h))
      ensures prims[c].parent == None && Linked(prims, next, c) && Orphan(prims, c)
      decreases View(prims, next, h), 1
    {
      var p := prims[h];
      ghost var m0, n0 := prims, next;
      c := NewProxy(p.path, p.id, p.props, None, p.id);
      var i := 0;
      CloneStart(m0, n0, h, prims, next, c);
      while i < |p.children|
        invariant 0 <= i <= |p.children| && Valid() && next >= n0
        invariant CloneInv(m0, n0, h, prims, next, c, i)
      {
        CloneChild(m0, n0, h, c, p.children[i], i);
        i := i + 1;
      }
      CloneDone(m0, n0, h, prims, next, c);
    }

    /** The body of the loop of `Clone`: a copy of the `i`-th child `ch` of
        the original is appended under the copy `c`. */
    method CloneChild(ghost m0: Arena, ghost n0: nat, ghost h: Handle, c: Handle, ch: Handle, ghost i: nat)
      requires Valid() && CloneInv(m0, n0, h, prims, next, c, i)
      requires i < |m0[h].children| && ch == m0[h].children[i]
      modifies this
      ensures Valid() && next >= old(next) && CloneInv(m0, n0, h, prims, next, c, i + 1)
      decreases View(m0, n0, h), 0
    {
      ghost var m1, n1 := prims, next;
      CloneChildKept(m0, n0, h, prims, next, c, i);
      var cc := Clone(ch);
      CloneStep(m0, n0, h, m1, n1, prims, next, c, cc, i);
      AttachWF(prims, next, c, cc);
      prims := Attach(prims, c, cc);
    }

    /** The first child of `p` whose last path component is `name`: the
        inner loop of `find_child_by_path`. */
    method ChildNamed(p: Handle, name: string) returns (r: Option<Handle>)
      requires Valid() && p in prims
      ensures r == NamedChild(prims, prims[p].children, name)
    {
      var ks := prims[p].children;
      var i := 0;
      while i < |ks|
        invariant 0 <= i <= |ks|
        invariant NamedChild(prims, ks, name) == NamedChild(prims, ks[i..], name)
      {
        NamedChildStep(prims, ks[i..], name);
        if LastSegment(prims[ks[i]].path) == name {
          return Some(ks[i]);
        }
        assert ks[i..][1..] == ks[i + 1..];
        i := i + 1;
      }
      return None;
    }

    /** `find_child_by_path(search_path)` on the prim `h`. */
    method FindChildByPath(h: Handle, v: Value) returns (r: Option<Handle>)
      requires Valid() && h in prims
      ensures r == FindSpec(prims, next, h, v)
      decreases if v.VStr? && StartsWith(v.s, "/") then 1 else 0
    {
      if !v.VStr? {
        return None;
      }
      var s := v.s;
      if |s| > 0 && s[0] == '/' {
        var root := h;
        while prims[root].parent.Some?
          invariant root in prims && RootOf(prims, next, root) == RootOf(prims, next, h)
          decreases root
        {
          root := prims[root].parent.value;
        }
        var rp := prims[root].path;
        if !(|rp| <= |s| && s[..|rp|] == rp) {
          return None;
        }
        var rest := LStripChar(s[|rp|..], '/');
        if rest == "" {
          return Some(root);
        }
        r := FindChildByPath(root, VStr(rest));
        return;
      }
      r := WalkPath(h, Split(s, "/"));
    }

    /** The component walk of `find_child_by_path`: `''` stays, `'..'` goes
        to the parent, any other name to the first child of that name. */
    method WalkPath(h: Handle, parts: seq<string>) returns (r: Option<Handle>)
      requires Valid() && h in prims
      ensures r == Walk(prims, next, h, parts)
    {
      var cur := h;
      var i := 0;
      while i < |parts|
        invariant 0 <= i <= |parts| && cur in prims
        invariant Walk(prims, next, cur, parts[i..]) == Walk(prims, next, h, parts)
      {
        var part := parts[i];
        if part == ".." {
          if prims[cur].parent.None? {
            return None;
          }
          cur := prims[cur].parent.value;
        } else if part != "" {
          var found := ChildNamed(cur, part);
          if found.None? {
            return None;
          }
          cur := found.value;
        }
        i := i + 1;
      }
      return Some(cur);
    }

    /** `merge(other_root)` on the prim `s`, with `o` the other root. The
        merge writes only into the tree being merged into: its prims from
        `top` on, with no prim from `top` on parented before `top`, while the
        other tree lies wholly before `top` (the merge node merges into a
        fresh clone). */
    method Merge(ghost top: Handle, s: Handle, o: Handle)
      requires Valid() && MergeApart(prims, next, top, s, o)
      modifies this
      ensures Valid() && MergedInto(old(prims), old(next), prims, next, top, s, o)
      decreases View(prims, next, o), 2
    {
      ghost var m0, n0 := prims, next;
      ghost var plain := NoUpBelow(View(m0, n0, o));
      var ocs := prims[o].children;
      var i := 0;
      MergeInvStart(m0, n0, top, s, o, plain);
      while i < |ocs|
        invariant 0 <= i <= |ocs| && ocs == m0[o].children
        invariant Valid() && MergeInv(m0, n0, top, s, o, plain, prims, next, i)
      {
        MergeChild(m0, n0, top, s, o, plain, ocs[i], i);
        i := i + 1;
      }
      MergeInvDone(m0, n0, top, s, o, plain, prims, next);
    }

    /** The body of the loop of `Merge`: the `i`-th child `oc` of the other
        root joins the tree of `s`, overlaying a same-named prim or appended
        as a clone. */
    method MergeChild(ghost m0: Arena, ghost n0: nat, ghost top: Handle, s: Handle, ghost o: Handle,
                      ghost plain: bool, oc: Handle, ghost i: nat)
      requires Valid() && MergeInv(m0, n0, top, s, o, plain, prims, next, i)
      requires i < |m0[o].children| && oc == m0[o].children[i]
      modifies this
      ensures Valid() && MergeInv(m0, n0, top, s, o, plain, prims, next, i + 1)
      decreases View(m0, n0, o), 1
    {
      ghost var p0, np0 := prims, next;
      MergeInvChild(m0, n0, top, s, o, plain, p0, np0, i);
      var name := LastSegment(prims[oc].path);
      var eq := FindChildByPath(s, VStr(name));
      FindSegment(prims, next, s, name);
      assert eq == SegmentTarget(prims, s, name);
      if eq.Some? {
        MergeFound(m0, n0, top, s, o, plain, oc, i, eq.value);
      } else {
        MergeNew(m0, n0, top, s, o, plain, oc, i);
      }
    }

    /** The case of `MergeChild` where no prim is named like `oc`: a clone
        of the tree of `oc` is appended under `s`. */
    method MergeNew(ghost m0: Arena, ghost n0: nat, ghost top: Handle, s: Handle, ghost o: Handle,
                    ghost plain: bool, oc: Handle, ghost i: nat)
      requires Valid() && MergeInv(m0, n0, top, s, o, plain, prims, next, i)
      requires i < |m0[o].children| && oc == m0[o].children[i]
      requires oc in prims && View(prims, next, oc) == View(m0, n0, o).children[i]
      requires SegmentTarget(prims, s, LastSegment(prims[oc].path)) == None
      modifies this
      ensures Valid() && MergeInv(m0, n0, top, s, o, plain, prims, next, i + 1)
    {
      ghost var p0, np0 := prims, next;
      var nb := Clone(oc);
      ghost var p1, np1 := prims, next;
      prims := Attach(prims, s, nb);
      MergeNewStep(m0, n0, p0, np0, p1, np1, top, s, nb, o, i, plain);
    }

    /** The found case of `MergeChild`: the prim `t` named like `oc` takes
        over the properties of `oc`, and the tree of `oc` merges into it. */
    method MergeFound(ghost m0: Arena, ghost n0: nat, ghost top: Handle, ghost s: Handle, ghost o: Handle,
                      ghost plain: bool, oc: Handle, ghost i: nat, t: Handle)
      requires Valid() && MergeInv(m0, n0, top, s, o, plain, prims, next, i)
      requires i < |m0[o].children| && oc == m0[o].children[i]
      requires oc in prims && View(prims, next, oc) == View(m0, n0, o).children[i]
      requires forall k :: k in Flat(prims, next, oc) ==> k < top
      requires SegmentTarget(prims, s, LastSegment(prims[oc].path)) == Some(t)
      modifies this
      ensures Valid() && MergeInv(m0, n0, top, s, o, plain, prims, next, i + 1)
      decreases View(m0, n0, o), 0
    {
      ghost var p0, np0 := prims, next;
      SegmentTargetAbove(prims, next, s, LastSegment(prims[oc].path), top);
      prims := SetProps(prims, t, prims[t].props + prims[oc].props);
      MergePropsStep(m0, n0, p0, np0, top, s, t, oc, prims);
      ghost var p1 := prims;
      Merge(top, t, oc);
      MergeFoundStep(m0, n0, p0, np0, p1, prims, next, top, s, t, o, i, plain);
    }

    /** `repath(new_parent_path)` on the prim `h`: the subtree moves under
        `p`, keeping every name, and relationship targets into the old path
        of each prim follow it. Nothing but paths and properties inside the
        subtree changes. */
    method Repath(h: Handle, p: string)
      requires Valid() && h in prims
      modifies this
      ensures Valid() && next == old(next) && Repathed(old(prims), next, h, p, prims)
      decreases next - h, 2
    {
      ghost var m0 := prims;
      var oldPath := prims[h].path;
      var np := p + "/" + LastSegment(oldPath);
      prims := prims[h := prims[h].(path := np)];
      RepathInvStart(m0, next, h, np, prims);
      RepathKids(m0, h, np);
      ghost var m2 := prims;
      prims := SetProps(prims, h, RewriteRels(prims[h].props, oldPath, np));
      RepathDone(m0, next, h, p, np, m2, prims);
    }

    /** The loop of `Repath` over the children of `h`, each moved under the
        new path `np` of `h`. */
    method RepathKids(ghost m0: Arena, h: Handle, np: string)
      requires Valid() && RepathInv(m0, next, h, np, prims, 0)
      modifies this
      ensures Valid() && next == old(next) && RepathInv(m0, next, h, np, prims, |m0[h].children|)
      decreases next - h, 1
    {
      var ks := prims[h].children;
      var i := 0;
      while i < |ks|
        invariant 0 <= i <= |ks| && ks == m0[h].children && Valid() && next == old(next)
        invariant RepathInv(m0, next, h, np, prims, i)
      {
        RepathChild(m0, h, np, ks[i], i);
        i := i + 1;
      }
    }

    /** The body of the loop of `Repath`: the `i`-th child `c` of `h` moves
        under the new path `np` of `h`. */
    method RepathChild(ghost m0: Arena, ghost h: Handle, np: string, c: Handle, ghost i: nat)
      requires Valid() && RepathInv(m0, next, h, np, prims, i)
      requires i < |m0[h].children| && c == m0[h].children[i]
      modifies this
      ensures Valid() && next == old(next) && RepathInv(m0, next, h, np, prims, i + 1)
      decreases next - h, 0
    {
      ghost var m1 := prims;
      RepathInvChild(m0, next, h, np, m1, i);
      ShapeKept(m0, m1, next, c);
      Repath(c, np);
      RepathStep(m0, next, h, np, m1, prims, i);
    }
  }

  // ---------------------------------------------------------------------
  // Path lookup

  /** The prim reached by following parent links from `h` until a prim has
      none (`while root.parent: root = root.parent`). */
  function RootOf(m: Arena, n: nat, h: Handle): (r: Handle)
    requires WF(m, n) && h in m
    ensures r in m && m[r].parent == None && r <= h
    decreases h
  {
    match m[h].parent
    case None => h
    case Some(p) => RootOf(m, n, p)
  }

  /** The names of the prims `ks`: the last component of each path. */
  function NamesOf(m: Arena, ks: seq<Handle>): seq<string>
    requires forall i :: 0 <= i < |ks| ==> ks[i] in m
  {
    seq(|ks|, i requires 0 <= i < |ks| => LastSegment(m[ks[i]].path))
  }

  /** The position of the first occurrence of `name` in `names`. */
  function IndexOf(names: seq<string>, name: string): (r: Option<nat>)
    ensures r.Some? ==> r.value < |names| && names[r.value] == name
    ensures r.Some? ==> forall j :: 0 <= j < r.value ==> names[j] != name
    ensures r.None? <==> name !in names
  {
    if names == [] then None
    else if names[0] == name then Some(0)
    else match IndexOf(names[1..], name)
      case None => None
      case Some(k) => Some(k + 1)
  }

  /** The first of the prims `ks` named `name`. */
  function NamedChild(m: Arena, ks: seq<Handle>, name: string): Option<Handle>
    requires forall i :: 0 <= i < |ks| ==> ks[i] in m
  {
    match IndexOf(NamesOf(m, ks), name)
    case None => None
    case Some(i) => Some(ks[i])
  }

  /** `NamedChild` looks at the prims one at a time, in order. */
  lemma NamedChildStep(m: Arena, ks: seq<Handle>, name: string)
    requires forall i :: 0 <= i < |ks| ==> ks[i] in m
    requires ks != []
    ensures NamedChild(m, ks, name) ==
      if LastSegment(m[ks[0]].path) == name then Some(ks[0]) else NamedChild(m, ks[1..], name)
  {
    assert NamesOf(m, ks) == [LastSegment(m[ks[0]].path)] + NamesOf(m, ks[1..]);
  }

  /** The relative walk of `find_child_by_path` from `cur` over the path
      components `parts`. */
  function Walk(m: Arena, n: nat, cur: Handle, parts: seq<string>): (r: Option<Handle>)
    requires WF(m, n) && cur in m
    ensures r.Some? ==> r.value in m
    decreases |parts|
  {
    if parts == [] then Some(cur)
    else if parts[0] == "" then Walk(m, n, cur, parts[1..])
    else if parts[0] == ".." then
      match m[cur].parent
      case None => None
      case Some(p) => Walk(m, n, p, parts[1..])
    else
      match NamedChild(m, m[cur].children, parts[0])
      case None => None
      case Some(c) => Walk(m, n, c, parts[1..])
  }

  /** What `find_child_by_path(v)` returns on the prim `h`. */
  function FindSpec(m: Arena, n: nat, h: Handle, v: Value): (r: Option<Handle>)
    requires WF(m, n) && h in m
    ensures r.Some? ==> r.value in m
  {
    if !v.VStr? then None
    else if StartsWith(v.s, "/") then
      var root := RootOf(m, n, h);
      var rp := m[root].path;
      if !StartsWith(v.s, rp) then None
      else
        var rest := LStripChar(v.s[|rp|..], '/');
        if rest == "" then Some(root) else Walk(m, n, root, Split(rest, "/"))
    else Walk(m, n, h, Split(v.s, "/"))
  }

  /** A one-component name resolves against `h` alone: `''` is `h` itself,
      `'..'` its parent, anything else the first child of that name. */
  lemma FindSegment(m: Arena, n: nat, h: Handle, name: string)
    requires WF(m, n) && h in m && '/' !in name
    ensures FindSpec(m, n, h, VStr(name)) ==
      if name == "" then Some(h)
      else if name == ".." then m[h].parent
      else NamedChild(m, m[h].children, name)
  {
    SplitAbsent(name, '/');
    if name != "" {
      assert name[0] in name && name[..1][0] == name[0];
    }
    if name == "" {
      assert Walk(m, n, h, [name][1..]) == Some(h);
    } else if name == ".." {
      match m[h].parent
      case None =>
      case Some(p) => assert Walk(m, n, p, [name][1..]) == Some(p);
    } else if name != "" {
      match NamedChild(m, m[h].children, name)
      case None =>
      case Some(c) => assert Walk(m, n, c, [name][1..]) == Some(c);
    }
  }

  /** An absolute path that is the root's path, with or without trailing
      slashes, finds the root of the tree `h` belongs to. */
  lemma FindRootPath(m: Arena, n: nat, h: Handle, k: nat)
    requires WF(m, n) && h in m
    requires StartsWith(m[RootOf(m, n, h)].path, "/")
    ensures FindSpec(m, n, h, VStr(m[RootOf(m, n, h)].path + seq(k, _ => '/'))) == Some(RootOf(m, n, h))
  {
    var rp := m[RootOf(m, n, h)].path;
    var s := rp + seq(k, _ => '/');
    assert s[..|rp|] == rp && s[..1] == rp[..1];
    assert s[|rp|..] == seq(k, _ => '/');
  }

  /** An absolute path is matched against the root's path as a string prefix,
      not component by component: with root `'/root'`, `'/rootx'` looks for a
      child named `'x'` under the root. */
  lemma FindPrefixNotComponent(m: Arena, n: nat, h: Handle, seg: string)
    requires WF(m, n) && h in m
    requires StartsWith(m[RootOf(m, n, h)].path, "/")
    requires seg != "" && seg != ".." && '/' !in seg
    ensures FindSpec(m, n, h, VStr(m[RootOf(m, n, h)].path + seg)) ==
      NamedChild(m, m[RootOf(m, n, h)].children, seg)
  {
    var root := RootOf(m, n, h);
    var rp := m[root].path;
    var s := rp + seg;
    assert StartsWith(s, rp) by { assert s[..|rp|] == rp; }
    assert StartsWith(s, "/") by { assert s[..1] == rp[..1]; }
    assert s[|rp|..] == seg;
    assert seg[0] != '/' by { assert seg[0] in seg; }
    assert LStripChar(seg, '/') == seg;
    SplitAbsent(seg, '/');
    assert FindSpec(m, n, h, VStr(s)) == Walk(m, n, root, [seg]);
    match NamedChild(m, m[root].children, seg)
    case None =>
    case Some(c) => assert Walk(m, n, c, [seg][1..]) == Some(c);
  }

  /** `'/' + root path + '/' + rel` looks `rel` up from the root, whichever
      prim of the tree the search starts at. */
  lemma FindAbsolute(m: Arena, n: nat, h: Handle, rel: string)
    requires WF(m, n) && h in m
    requires StartsWith(m[RootOf(m, n, h)].path, "/")
    requires rel != "" && rel[0] != '/'
    ensures FindSpec(m, n, h, VStr(m[RootOf(m, n, h)].path + "/" + rel)) ==
      FindSpec(m, n, RootOf(m, n, h), VStr(rel))
  {
    var root := RootOf(m, n, h);
    var rp := m[root].path;
    var s := rp + "/" + rel;
    assert StartsWith(s, rp) by { assert s[..|rp|] == rp; }
    assert StartsWith(s, "/") by { assert s[..1] == rp[..1]; }
    assert s[|rp|..] == "/" + rel;
    StripOneSlash(rel);
    assert FindSpec(m, n, h, VStr(s)) == Walk(m, n, root, Split(rel, "/"));
    assert !StartsWith(rel, "/") by { assert rel[..1] != "/"; }
  }

  lemma StripOneSlash(rel: string)
    requires rel != "" && rel[0] != '/'
    ensures LStripChar("/" + rel, '/') == rel
  {
    assert ("/" + rel)[1..] == rel;
  }

  /** What `clone` has built after copying the first `i` children of `h`: the
      copy `c` of `h` with `i` children, each a linked copy of the matching
      original child, and the arena grown without touching old records. */
  ghost predicate CloneInv(m0: Arena, n0: nat, h: Handle, m: Arena, n: nat, c: Handle, i: nat)
  {
    WF(m0, n0) && h in m0 && WF(m, n) && c in m && n0 == c < n && Grows(m0, m, n0)
    && AboveClosed(m, n0)
    && i <= |m0[h].children|
    && m[c] == Prim(m0[h].path, m0[h].id, m0[h].props, None, m[c].children)
    && |m[c].children| == i
    && (forall j :: 0 <= j < i ==> View(m, n, m[c].children[j]) == View(m0, n0, m0[h].children[j]))
    && Linked(m, n, c) && Orphan(m, c)
  }

  lemma CloneStart(m0: Arena, n0: nat, h: Handle, m: Arena, n: nat, c: Handle)
    requires WF(m0, n0) && h in m0 && WF(m, n) && c == n0 && n == n0 + 1
    requires m == AllocAt(m0, c, Prim(m0[h].path, m0[h].id, m0[h].props, None, []))
    ensures CloneInv(m0, n0, h, m, n, c, 0)
  {
    assert View(m, n, c).children == [];
  }

  lemma CloneDone(m0: Arena, n0: nat, h: Handle, m: Arena, n: nat, c: Handle)
    requires h in m0 && CloneInv(m0, n0, h, m, n, c, |m0[h].children|)
    ensures c == n0 && c in m && n0 <= n && Grows(m0, m, n0) && AboveClosed(m, n0)
    ensures View(m, n, c) == View(m0, n0, h)
    ensures m[c].parent == None && Linked(m, n, c) && Orphan(m, c)
  {
    assert View(m, n, c).children == View(m0, n0, h).children;
  }

  /** The child still to be copied is intact in the grown arena. */
  lemma CloneChildKept(m0: Arena, n0: nat, h: Handle, m: Arena, n: nat, c: Handle, i: nat)
    requires CloneInv(m0, n0, h, m, n, c, i) && i < |m0[h].children|
    ensures m0[h].children[i] in m
    ensures View(m, n, m0[h].children[i]) == View(m0, n0, h).children[i]
  {
    var ch := m0[h].children[i];
    FlatBounds(m0, n0, ch);
    SubtreeKept(m0, n0, m, n, ch);
  }

  /** One iteration of the copying loop keeps `CloneInv`. */
  lemma CloneStep(m0: Arena, n0: nat, h: Handle, m1: Arena, n1: nat, m2: Arena, n2: nat,
                  c: Handle, cc: Handle, i: nat)
    requires CloneInv(m0, n0, h, m1, n1, c, i) && i < |m0[h].children|
    requires WF(m2, n2) && n2 >= n1 && Grows(m1, m2, n1) && cc in m2 && n1 <= cc
    requires View(m2, n2, cc) == View(m1, n1, m0[h].children[i])
    requires m2[cc].parent == None && Linked(m2, n2, cc) && Orphan(m2, cc) && AboveClosed(m2, n1)
    ensures c in m2 && c < cc
    ensures CloneInv(m0, n0, h, Attach(m2, c, cc), n2, c, i + 1)
  {
    var m3 := Attach(m2, c, cc);
    CloneStepKids(m0, n0, h, m1, n1, m2, n2, c, cc, i);
    OrphanAfterAttach(m2, c, cc);
    GrowsAttach(m0, n0, m1, m2, n1, c, cc);
    AboveAfterAttach(m1, n1, m2, n0, c, cc);
  }

  lemma GrowsAttach(m0: Arena, n0: nat, m1: Arena, m2: Arena, n1: nat, c: Handle, cc: Handle)
    requires forall k :: k in m0 ==> k < n0
    requires Grows(m0, m1, n0) && Grows(m1, m2, n1) && n0 <= n1 && n0 <= c && n0 <= cc && c in m2 && cc in m2
    ensures Grows(m0, Attach(m2, c, cc), n0)
  {
  }

  /** The copied children after one more iteration: the earlier copies keep
      their values and links, and the new copy matches the next original. */
  lemma CloneStepKids(m0: Arena, n0: nat, h: Handle, m1: Arena, n1: nat, m2: Arena, n2: nat,
                      c: Handle, cc: Handle, i: nat)
    requires CloneInv(m0, n0, h, m1, n1, c, i) && i < |m0[h].children|
    requires WF(m2, n2) && n2 >= n1 && Grows(m1, m2, n1) && cc in m2 && n1 <= cc
    requires View(m2, n2, cc) == View(m1, n1, m0[h].children[i])
    requires m2[cc].parent == None && Linked(m2, n2, cc) && Orphan(m2, cc)
    ensures c in m2 && c < cc && WF(Attach(m2, c, cc), n2)
    ensures Attach(m2, c, cc)[c].children == m1[c].children + [cc]
    ensures forall j :: 0 <= j < i + 1 ==>
      View(Attach(m2, c, cc), n2, Attach(m2, c, cc)[c].children[j]) == View(m0, n0, m0[h].children[j])
    ensures Linked(Attach(m2, c, cc), n2, c)
  {
    var m3 := Attach(m2, c, cc);
    AttachWF(m2, n2, c, cc);
    assert m3[c].children == m1[c].children + [cc];
    var ch := m0[h].children[i];
    FlatBounds(m0, n0, ch);
    SubtreeKept(m0, n0, m1, n1, ch);
    AttachFrame(m2, n2, c, cc, cc);
    forall j | 0 <= j < i + 1
      ensures View(m3, n2, m3[c].children[j]) == View(m0, n0, m0[h].children[j])
      ensures m3[m3[c].children[j]].parent == Some(c) && Linked(m3, n2, m3[c].children[j])
    {
      if j < i {
        var cj := m1[c].children[j];
        KeptThenAttached(m1, n1, m2, n2, c, cc, cj);
      }
    }
  }

  /** A subtree of `m1` that `m2` keeps, and that holds neither `p` nor `c`,
      keeps its listing, value and links when `c` is attached under `p`. */
  lemma KeptThenAttached(m1: Arena, n1: nat, m2: Arena, n2: nat, p: Handle, c: Handle, x: Handle)
    requires WF(m1, n1) && WF(m2, n2) && n2 >= n1 && Grows(m1, m2, n1)
    requires p in m2 && c in m2 && p < c && Orphan(m2, c) && n1 <= c
    requires x in m1 && p < x
    ensures x in m2 && WF(Attach(m2, p, c), n2)
    ensures Flat(Attach(m2, p, c), n2, x) == Flat(m1, n1, x)
    ensures View(Attach(m2, p, c), n2, x) == View(m1, n1, x)
    ensures Linked(Attach(m2, p, c), n2, x) == Linked(m1, n1, x)
    ensures Attach(m2, p, c)[x].parent == m1[x].parent
  {
    FlatBounds(m1, n1, x);
    assert forall k :: k in Flat(m1, n1, x) ==> k in m1 && k in m2 && m2[k] == m1[k];
    SubtreeKept(m1, n1, m2, n2, x);
    assert c !in Flat(m2, n2, x);
    AttachFrame(m2, n2, p, c, x);
  }

  /** Allocating past `n1` and attaching under a prim from `n0` on keeps every
      prim from `n0` on parented at or after `n0`. */
  lemma AboveAfterAttach(m1: Arena, n1: nat, m2: Arena, n0: nat, c: Handle, cc: Handle)
    requires AboveClosed(m1, n0) && Grows(m1, m2, n1) && AboveClosed(m2, n1) && n0 <= n1
    requires c in m2 && cc in m2 && n0 <= c
    ensures AboveClosed(Attach(m2, c, cc), n0)
  {
    forall k | k in m2 && n0 <= k && m2[k].parent.Some? ensures n0 <= m2[k].parent.value {
      if k in m1 { assert m2[k] == m1[k]; }
    }
  }

  lemma OrphanAfterAttach(m: Arena, p: Handle, c: Handle)
    requires p in m && c in m && p != c && Orphan(m, p)
    ensures Orphan(Attach(m, p, c), p)
  {
    var m3 := Attach(m, p, c);
    forall k, j | k in m3 && 0 <= j < |m3[k].children| ensures m3[k].children[j] != p {
      if k != p { assert m3[k].children[j] == m[k].children[j]; }
    }
  }

  // ---------------------------------------------------------------------
  // Merge

  /** No prim below the root of `t` is named `'..'`. */
  ghost predicate NoUpBelow(t: Tree)
    decreases t
  {
    forall i :: 0 <= i < |t.children| ==> LastSegment(t.children[i].path) != ".." && NoUpBelow(t.children[i])
  }

  lemma NoUpChild(t: Tree, i: nat)
    requires NoUpBelow(t) && i < |t.children|
    ensures NoUpBelow(t.children[i]) && LastSegment(t.children[i].path) != ".."
  {
  }

  function TreeNames(ts: seq<Tree>): seq<string> {
    seq(|ts|, i requires 0 <= i < |ts| => LastSegment(ts[i].path))
  }

  /** The merge of `o` into `t` on values. Only the children of `o` are looked
      at, one after the other: a child whose name is `''` is merged into `t`
      itself; a child named like a child of `t` (the first such, children
      added by earlier steps included) has its properties laid over that
      child's and is merged into it; any other child is appended as is. */
  ghost function MergeTree(t: Tree, o: Tree): Tree
    requires NoUpBelow(o)
    decreases o, 1
  {
    MergeFrom(t, o, 0)
  }

  /** The merge of the children of `o` from the `i`-th on into `t`. */
  ghost function MergeFrom(t: Tree, o: Tree, i: nat): Tree
    requires NoUpBelow(o) && i <= |o.children|
    decreases o, 0, |o.children| - i
  {
    if i == |o.children| then t else MergeFrom(MergeOne(t, o.children[i]), o, i + 1)
  }

  /** One step of the merge: the child `oc` of the other tree into `t`. */
  ghost function MergeOne(t: Tree, oc: Tree): Tree
    requires NoUpBelow(oc) && LastSegment(oc.path) != ".."
    decreases oc, 2
  {
    var name := LastSegment(oc.path);
    if name == "" then MergeTree(t.(props := t.props + oc.props), oc)
    else match IndexOf(TreeNames(t.children), name)
      case None => t.(children := t.children + [oc])
      case Some(j) => t.(children := t.children[j := MergeTree(t.children[j].(props := t.children[j].props + oc.props), oc)])
  }

  /** What a merge keeps of the tree merged into: the root's path and id, and
      every existing child in its place with its path and id. Children are
      only ever added. */
  ghost predicate KeepsPlaces(t: Tree, r: Tree) {
    r.path == t.path && r.id == t.id && |t.children| <= |r.children|
    && forall j :: 0 <= j < |t.children| ==>
      r.children[j].path == t.children[j].path && r.children[j].id == t.children[j].id
  }

  lemma {:induction false} MergeTreeKeeps(t: Tree, o: Tree)
    requires NoUpBelow(o)
    ensures KeepsPlaces(t, MergeTree(t, o))
    decreases o, 1
  {
    MergeFromKeeps(t, o, 0);
  }

  lemma {:induction false} MergeFromKeeps(t: Tree, o: Tree, i: nat)
    requires NoUpBelow(o) && i <= |o.children|
    ensures KeepsPlaces(t, MergeFrom(t, o, i))
    decreases o, 0, |o.children| - i
  {
    if i < |o.children| {
      MergeOneKeeps(t, o.children[i]);
      MergeFromKeeps(MergeOne(t, o.children[i]), o, i + 1);
    }
  }

  lemma {:induction false} MergeOneKeeps(t: Tree, oc: Tree)
    requires NoUpBelow(oc) && LastSegment(oc.path) != ".."
    ensures KeepsPlaces(t, MergeOne(t, oc))
    decreases oc, 2
  {
    var name := LastSegment(oc.path);
    if name == "" {
      MergeTreeKeeps(t.(props := t.props + oc.props), oc);
    } else {
      match IndexOf(TreeNames(t.children), name)
      case None =>
      case Some(j) =>
        MergeTreeKeeps(t.children[j].(props := t.children[j].props + oc.props), oc);
    }
  }

  /** When no child of the other tree is named `''`, the root's own
      properties come through the merge unchanged: the other root's
      properties are never looked at. */
  lemma {:induction false} MergeFromRootProps(t: Tree, o: Tree, i: nat)
    requires NoUpBelow(o) && i <= |o.children|
    requires forall j :: 0 <= j < |o.children| ==> LastSegment(o.children[j].path) != ""
    ensures MergeFrom(t, o, i).props == t.props
    decreases |o.children| - i
  {
    if i < |o.children| {
      MergeFromRootProps(MergeOne(t, o.children[i]), o, i + 1);
    }
  }

  /** Only the children of the other root matter to a merge. */
  lemma {:induction false} MergeOnlyChildren(t: Tree, o1: Tree, o2: Tree, i: nat)
    requires NoUpBelow(o1) && o2.children == o1.children && i <= |o1.children|
    ensures NoUpBelow(o2) && MergeFrom(t, o1, i) == MergeFrom(t, o2, i)
    decreases |o1.children| - i
  {
    if i < |o1.children| {
      MergeOnlyChildren(MergeOne(t, o1.children[i]), o1, o2, i + 1);
    }
  }

  /** A merged child takes the other child's properties over its own: every
      key of the other child wins, every other key stays. */
  lemma MergeOverrideWins(t: Tree, oc: Tree, j: nat)
    requires NoUpBelow(oc) && LastSegment(oc.path) != ".." && LastSegment(oc.path) != ""
    requires IndexOf(TreeNames(t.children), LastSegment(oc.path)) == Some(j)
    requires forall i :: 0 <= i < |oc.children| ==> LastSegment(oc.children[i].path) != ""
    ensures MergeOne(t, oc).children[j].props == t.children[j].props + oc.props
    ensures forall k :: k in oc.props ==> MergeOne(t, oc).children[j].props[k] == oc.props[k]
  {
    MergeFromRootProps(t.children[j].(props := t.children[j].props + oc.props), oc, 0);
  }

  /** One merge step leaves a child named like the other child. */
  lemma MergeOneHasName(t: Tree, oc: Tree)
    requires NoUpBelow(oc) && LastSegment(oc.path) != ".." && LastSegment(oc.path) != ""
    ensures LastSegment(oc.path) in TreeNames(MergeOne(t, oc).children)
  {
    var name := LastSegment(oc.path);
    var r := MergeOne(t, oc);
    match IndexOf(TreeNames(t.children), name)
    case None =>
      assert TreeNames(r.children)[|t.children|] == name;
    case Some(j) =>
      MergeTreeKeeps(t.children[j].(props := t.children[j].props + oc.props), oc);
      assert TreeNames(r.children)[j] == name;
  }

  /** Names present stay present through the rest of a merge. */
  lemma NamesKept(t: Tree, r: Tree, name: string)
    requires KeepsPlaces(t, r) && name in TreeNames(t.children)
    ensures name in TreeNames(r.children)
  {
    var j :| 0 <= j < |TreeNames(t.children)| && TreeNames(t.children)[j] == name;
    assert TreeNames(r.children)[j] == name;
  }

  /** After a merge, every named child of the other root has a counterpart of
      the same name among the children of the result. */
  lemma {:induction false} MergeFromCovers(t: Tree, o: Tree, i: nat)
    requires NoUpBelow(o) && i <= |o.children|
    ensures forall j :: i <= j < |o.children| && LastSegment(o.children[j].path) != "" ==>
      LastSegment(o.children[j].path) in TreeNames(MergeFrom(t, o, i).children)
    decreases |o.children| - i
  {
    if i < |o.children| {
      var oc := o.children[i];
      var t1 := MergeOne(t, oc);
      MergeFromCovers(t1, o, i + 1);
      if LastSegment(oc.path) != "" {
        MergeOneHasName(t, oc);
        MergeFromKeeps(t1, o, i + 1);
        NamesKept(t1, MergeFrom(t1, o, i + 1), LastSegment(oc.path));
      }
    }
  }

  /** The setting `Merge` works in: the prims written lie from `top` on, none
      of them is parented before `top`, and the other tree lies before `top`. */
  ghost predicate MergeApart(m: Arena, n: nat, top: Handle, s: Handle, o: Handle) {
    WF(m, n) && s in m && o in m && top <= s && AboveClosed(m, top)
    && forall k :: k in Flat(m, n, o) ==> k < top
  }

  /** The loop invariant of `Merge` after `i` children of `o`: the arena has
      only been extended, nothing before `top` has changed, and, when no name
      below `o` is `'..'`, nothing outside the subtree of `s` has changed and
      merging the remaining children into the value of `s` gives the merge of
      the whole. */
  ghost predicate MergeInv(m0: Arena, n0: nat, top: Handle, s: Handle, o: Handle, plain: bool,
                           m: Arena, n: nat, i: nat)
  {
    WF(m0, n0) && o in m0 && s in m0 && i <= |m0[o].children| && WF(m, n) && n0 <= n && s in m && top <= s
    && Extends(m0, n0, m) && AboveClosed(m, top)
    && (forall k :: k in m0 && k < top ==> m[k] == m0[k])
    && (forall k :: k in Flat(m0, n0, o) ==> k < top)
    && plain == NoUpBelow(View(m0, n0, o))
    && (plain ==> forall k :: k in m0 && k !in Flat(m0, n0, s) ==> m[k] == m0[k])
    && (plain ==> MergeFrom(View(m, n, s), View(m0, n0, o), i) == MergeTree(View(m0, n0, s), View(m0, n0, o)))
  }

  lemma MergeInvStart(m0: Arena, n0: nat, top: Handle, s: Handle, o: Handle, plain: bool)
    requires MergeApart(m0, n0, top, s, o) && plain == NoUpBelow(View(m0, n0, o))
    ensures MergeInv(m0, n0, top, s, o, plain, m0, n0, 0)
  {
    GrowsExtends(m0, m0, n0);
  }

  /** The child the next iteration merges is intact, before `top`. */
  lemma MergeInvChild(m0: Arena, n0: nat, top: Handle, s: Handle, o: Handle, plain: bool,
                      m: Arena, n: nat, i: nat)
    requires MergeInv(m0, n0, top, s, o, plain, m, n, i) && i < |m0[o].children|
    ensures m0[o].children[i] in m && m[m0[o].children[i]] == m0[m0[o].children[i]]
    ensures View(m, n, m0[o].children[i]) == View(m0, n0, o).children[i]
    ensures forall k :: k in Flat(m, n, m0[o].children[i]) ==> k < top
  {
    MergeChildKept(m0, n0, m, n, top, o, i);
  }

  /** After the last child, the invariant gives `Merge` its postcondition. */
  lemma MergeInvDone(m0: Arena, n0: nat, top: Handle, s: Handle, o: Handle, plain: bool, m: Arena, n: nat)
    requires o in m0 && MergeInv(m0, n0, top, s, o, plain, m, n, |m0[o].children|)
    ensures MergedInto(m0, n0, m, n, top, s, o)
  {
  }

  /** What merging the tree of `o` into that of `s` promises of the arena
      `m` it leaves behind: the first arena only grows, nothing before `top`
      changes, and, when no name below `o` is `'..'`, nothing outside the
      subtree of `s` changes and the value of `s` is `MergeTree` of the two
      values. */
  ghost predicate MergedInto(m0: Arena, n0: nat, m: Arena, n: nat, top: Handle, s: Handle, o: Handle) {
    WF(m0, n0) && s in m0 && o in m0
    && WF(m, n) && n0 <= n && Extends(m0, n0, m) && AboveClosed(m, top)
    && (forall k :: k in m0 && k < top ==> k in m && m[k] == m0[k])
    && (NoUpBelow(View(m0, n0, o)) ==>
      (forall k :: k in m0 && k !in Flat(m0, n0, s) ==> k in m && m[k] == m0[k])
      && View(m, n, s) == MergeTree(View(m0, n0, s), View(m0, n0, o)))
  }

  /** The names of the values of the children are the names of the children. */
  lemma ViewNames(m: Arena, n: nat, s: Handle)
    requires WF(m, n) && s in m
    ensures TreeNames(View(m, n, s).children) == NamesOf(m, m[s].children)
  {
  }

  /** The `i`-th child of the other root is intact before `top`. */
  lemma MergeChildKept(m0: Arena, n0: nat, p0: Arena, np0: nat, top: Handle, o: Handle, i: nat)
    requires WF(m0, n0) && WF(p0, np0) && o in m0 && i < |m0[o].children|
    requires forall k :: k in Flat(m0, n0, o) ==> k < top
    requires forall k :: k in m0 && k < top ==> k in p0 && p0[k] == m0[k]
    ensures m0[o].children[i] in p0 && p0[m0[o].children[i]] == m0[m0[o].children[i]]
    ensures View(p0, np0, m0[o].children[i]) == View(m0, n0, o).children[i]
    ensures Flat(p0, np0, m0[o].children[i]) == Flat(m0, n0, m0[o].children[i])
    ensures forall k :: k in Flat(p0, np0, m0[o].children[i]) ==> k < top
  {
    var oc := m0[o].children[i];
    FlatBounds(m0, n0, o);
    ChildListingInside(m0, n0, o, i);
    FlatBounds(m0, n0, oc);
    SubtreeKept(m0, n0, p0, np0, oc);
  }

  /** What the lookup of a one-component name returns, as `FindSegment` states it. */
  function SegmentTarget(m: Arena, s: Handle, name: string): Option<Handle>
    requires s in m && forall i :: 0 <= i < |m[s].children| ==> m[s].children[i] in m
  {
    if name == "" then Some(s)
    else if name == ".." then m[s].parent
    else NamedChild(m, m[s].children, name)
  }

  /** The prim a one-component name finds lies no earlier than `top` when `s`
      does not. */
  lemma SegmentTargetAbove(m: Arena, n: nat, s: Handle, name: string, top: nat)
    requires WF(m, n) && s in m && AboveClosed(m, top) && top <= s
    requires SegmentTarget(m, s, name).Some?
    ensures SegmentTarget(m, s, name).value in m && top <= SegmentTarget(m, s, name).value
  {
    if name != "" && name != ".." {
      var j := IndexOf(NamesOf(m, m[s].children), name).value;
      assert SegmentTarget(m, s, name).value == m[s].children[j];
    }
  }

  /** After the properties of the prim found for `oc` are overlaid, the
      recursive merge into it may start. */
  lemma MergePropsStep(m0: Arena, n0: nat, p0: Arena, np0: nat, top: Handle, s: Handle, t: Handle,
                       oc: Handle, p1: Arena)
    requires WF(p0, np0) && Extends(m0, n0, p0) && AboveClosed(p0, top) && s in p0 && top <= s
    requires oc in p0 && forall k :: k in Flat(p0, np0, oc) ==> k < top
    requires SegmentTarget(p0, s, LastSegment(p0[oc].path)) == Some(t)
    requires p1 == SetProps(p0, t, p0[t].props + p0[oc].props)
    ensures t in p0 && top <= t && WF(p1, np0) && Extends(m0, n0, p1)
    ensures forall k :: k in p0 && k < top ==> p1[k] == p0[k]
    ensures MergeApart(p1, np0, top, t, oc)
    ensures View(p1, np0, oc) == View(p0, np0, oc) && Flat(p1, np0, oc) == Flat(p0, np0, oc)
  {
    SegmentTargetAbove(p0, np0, s, LastSegment(p0[oc].path), top);
    SetPropsExtends(m0, n0, p0, np0, t, p0[t].props + p0[oc].props);
    FlatBounds(p0, np0, oc);
    SubtreeKept(p0, np0, p1, np0, oc);
  }

  /** One step of `Merge` that found a prim for `oc`, when no name below the
      other root is `'..'`: the value of `s` becomes `MergeOne` of its value,
      and no prim of the first arena outside the subtree of `s` changes. */
  lemma MergeFoundPlain(m0: Arena, n0: nat, p0: Arena, np0: nat, p1: Arena, p2: Arena, np2: nat,
                        s: Handle, t: Handle, oc: Handle)
    requires WF(m0, n0) && WF(p0, np0) && WF(p1, np0) && WF(p2, np2) && n0 <= np0
    requires s in m0 && s in p0 && oc in p0 && t in p0 && Extends(m0, n0, p0)
    requires NoUpBelow(View(p0, np0, oc)) && LastSegment(View(p0, np0, oc).path) != ".."
    requires SegmentTarget(p0, s, LastSegment(p0[oc].path)) == Some(t)
    requires p1 == SetProps(p0, t, p0[t].props + p0[oc].props)
    requires View(p1, np0, oc) == View(p0, np0, oc)
    requires t in p2 && s in p2 && forall k :: k in p1 && k !in Flat(p1, np0, t) ==> k in p2 && p2[k] == p1[k]
    requires View(p2, np2, t) == MergeTree(View(p1, np0, t), View(p1, np0, oc))
    ensures View(p2, np2, s) == MergeOne(View(p0, np0, s), View(p0, np0, oc))
    ensures forall k :: k in m0 && k !in Flat(m0, n0, s) && k in p0 && p0[k] == m0[k] ==> k in p2 && p2[k] == m0[k]
  {
    var name := LastSegment(p0[oc].path);
    if name == "" {
      MergeSelfView(p0, np0, p1, p2, np2, s, oc);
    } else {
      var j := IndexOf(NamesOf(p0, p0[s].children), name).value;
      assert t == p0[s].children[j];
      MergeChildView(p0, np0, p1, p2, np2, s, j, oc);
    }
    MergeFoundFrame(m0, n0, p0, np0, p1, p2, s, t);
  }

  /** The frame of one found step: prims of the first arena outside the
      subtree of `s` are untouched. */
  lemma MergeFoundFrame(m0: Arena, n0: nat, p0: Arena, np0: nat, p1: Arena, p2: Arena, s: Handle, t: Handle)
    requires WF(m0, n0) && WF(p0, np0) && n0 <= np0 && s in m0 && s in p0 && t in p0 && Extends(m0, n0, p0)
    requires t == s || t in p0[s].children
    requires exists props :: p1 == SetProps(p0, t, props)
    requires WF(p1, np0) && forall k :: k in p1 && k !in Flat(p1, np0, t) ==> k in p2 && p2[k] == p1[k]
    ensures forall k :: k in m0 && k !in Flat(m0, n0, s) && k in p0 && p0[k] == m0[k] ==> k in p2 && p2[k] == m0[k]
  {
    var props :| p1 == SetProps(p0, t, props);
    SetPropsView(p0, np0, t, props);
    FlatGrowth(m0, n0, p0, np0, s);
    if t != s {
      var j :| 0 <= j < |p0[s].children| && p0[s].children[j] == t;
      ChildListingInside(p0, np0, s, j);
    }
    forall k | k in m0 && k !in Flat(m0, n0, s) && k in p0 && p0[k] == m0[k] ensures k in p2 && p2[k] == m0[k] {
      assert k < n0;
      assert k !in Flat(p0, np0, s);
      assert k !in Flat(p0, np0, t);
    }
  }

  /** A child of the other tree named `''` is merged into `s` itself. */
  lemma MergeSelfView(p0: Arena, np0: nat, p1: Arena, p2: Arena, np2: nat, s: Handle, oc: Handle)
    requires WF(p0, np0) && WF(p2, np2) && s in p0 && oc in p0 && s in p2
    requires NoUpBelow(View(p0, np0, oc)) && LastSegment(View(p0, np0, oc).path) == ""
    requires p1 == SetProps(p0, s, p0[s].props + p0[oc].props)
    requires View(p1, np0, oc) == View(p0, np0, oc)
    requires View(p2, np2, s) == MergeTree(View(p1, np0, s), View(p1, np0, oc))
    ensures View(p2, np2, s) == MergeOne(View(p0, np0, s), View(p0, np0, oc))
  {
    SetPropsView(p0, np0, s, p0[s].props + p0[oc].props);
  }

  /** A child of the other tree named like the `j`-th child of `s` is merged
      into that child, with its properties laid over the child's. */
  lemma MergeChildView(p0: Arena, np0: nat, p1: Arena, p2: Arena, np2: nat, s: Handle, j: nat, oc: Handle)
    requires WF(p0, np0) && WF(p1, np0) && WF(p2, np2) && s in p0 && oc in p0 && j < |p0[s].children|
    requires NoUpBelow(View(p0, np0, oc))
    requires LastSegment(View(p0, np0, oc).path) != "" && LastSegment(View(p0, np0, oc).path) != ".."
    requires IndexOf(NamesOf(p0, p0[s].children), LastSegment(p0[oc].path)) == Some(j)
    requires p1 == SetProps(p0, p0[s].children[j], p0[p0[s].children[j]].props + p0[oc].props)
    requires View(p1, np0, oc) == View(p0, np0, oc)
    requires p0[s].children[j] in p2 && s in p2
    requires forall k :: k in p1 && k !in Flat(p1, np0, p0[s].children[j]) ==> k in p2 && p2[k] == p1[k]
    requires View(p2, np2, p0[s].children[j]) == MergeTree(View(p1, np0, p0[s].children[j]), View(p1, np0, oc))
    ensures View(p2, np2, s) == MergeOne(View(p0, np0, s), View(p0, np0, oc))
  {
    var t := p0[s].children[j];
    var vs, ocv := View(p0, np0, s), View(p0, np0, oc);
    SetPropsView(p0, np0, t, p0[t].props + p0[oc].props);
    ViewNames(p0, np0, s);
    assert IndexOf(TreeNames(vs.children), LastSegment(ocv.path)) == Some(j);
    ReplaceChildView(p0, np0, p1, np0, s, j);
    ReplaceChildView(p1, np0, p2, np2, s, j);
    assert vs.children[j] == View(p0, np0, t);
  }

  /** One step of `Merge` that found a prim for `oc` keeps the loop invariant. */
  lemma MergeFoundStep(m0: Arena, n0: nat, p0: Arena, np0: nat, p1: Arena, p2: Arena, np2: nat,
                       top: Handle, s: Handle, t: Handle, o: Handle, i: nat, plain: bool)
    requires MergeInv(m0, n0, top, s, o, plain, p0, np0, i) && i < |m0[o].children|
    requires WF(p1, np0) && t in p0 && Extends(m0, n0, p1)
    requires m0[o].children[i] in p0 && View(p0, np0, m0[o].children[i]) == View(m0, n0, o).children[i]
    requires SegmentTarget(p0, s, LastSegment(p0[m0[o].children[i]].path)) == Some(t)
    requires p1 == SetProps(p0, t, p0[t].props + p0[m0[o].children[i]].props)
    requires forall k :: k in p0 && k < top ==> p1[k] == p0[k]
    requires View(p1, np0, m0[o].children[i]) == View(p0, np0, m0[o].children[i])
    requires MergedInto(p1, np0, p2, np2, top, t, m0[o].children[i])
    ensures MergeInv(m0, n0, top, s, o, plain, p2, np2, i + 1)
  {
    ExtendsTrans(m0, n0, p1, np0, p2);
    var oc := m0[o].children[i];
    if plain {
      NoUpChild(View(m0, n0, o), i);
      MergeFoundPlain(m0, n0, p0, np0, p1, p2, np2, s, t, oc);
    }
    MergeInvNext(m0, n0, top, s, o, plain, p0, np0, i, p2, np2);
  }

  /** The loop invariant of `Merge` after one more child, from the facts
      that step establishes about the new arena. */
  lemma MergeInvNext(m0: Arena, n0: nat, top: Handle, s: Handle, o: Handle, plain: bool,
                     p0: Arena, np0: nat, i: nat, p2: Arena, np2: nat)
    requires MergeInv(m0, n0, top, s, o, plain, p0, np0, i) && i < |m0[o].children|
    requires WF(p2, np2) && np0 <= np2 && Extends(m0, n0, p2) && AboveClosed(p2, top)
    requires forall k :: k in p0 && k < top ==> k in p2 && p2[k] == p0[k]
    requires plain ==> forall k :: k in m0 && k !in Flat(m0, n0, s) && k in p0 && p0[k] == m0[k] ==> k in p2 && p2[k] == m0[k]
    requires plain ==> View(p2, np2, s) == MergeOne(View(p0, np0, s), View(m0, n0, o).children[i])
    ensures MergeInv(m0, n0, top, s, o, plain, p2, np2, i + 1)
  {
  }

  /** One step of `Merge` that appended a clone `nb` of `oc` under `s` keeps
      the loop invariant. */
  lemma MergeNewStep(m0: Arena, n0: nat, p0: Arena, np0: nat, p1: Arena, np1: nat,
                     top: Handle, s: Handle, nb: Handle, o: Handle, i: nat, plain: bool)
    requires MergeInv(m0, n0, top, s, o, plain, p0, np0, i) && i < |m0[o].children|
    requires WF(p1, np1) && np0 <= np1
    requires m0[o].children[i] in p0 && View(p0, np0, m0[o].children[i]) == View(m0, n0, o).children[i]
    requires SegmentTarget(p0, s, LastSegment(p0[m0[o].children[i]].path)) == None
    requires Grows(p0, p1, np0) && AboveClosed(p1, np0) && nb == np0 && nb in p1
    requires View(p1, np1, nb) == View(p0, np0, m0[o].children[i])
    requires p1[nb].parent == None && Orphan(p1, nb)
    ensures s in p1 && WF(Attach(p1, s, nb), np1)
    ensures MergeInv(m0, n0, top, s, o, plain, Attach(p1, s, nb), np1, i + 1)
  {
    GrowsExtends(p0, p1, np0);
    ExtendsTrans(m0, n0, p0, np0, p1);
    AttachExtends(m0, n0, p1, np1, s, nb);
    AboveAfterAttach(p0, np0, p1, top, s, nb);
    MergeNewFrame(p0, np0, p1, s, nb);
    assert Flat(m0, n0, s)[0] == s;
    if plain {
      NoUpChild(View(m0, n0, o), i);
      MergeNewView(p0, np0, p1, np1, s, nb, m0[o].children[i]);
    }
    MergeInvNext(m0, n0, top, s, o, plain, p0, np0, i, Attach(p1, s, nb), np1);
  }

  /** Appending a fresh clone under `s` touches `s` alone among older prims. */
  lemma MergeNewFrame(p0: Arena, np0: nat, p1: Arena, s: Handle, nb: Handle)
    requires WF(p0, np0) && Grows(p0, p1, np0) && s in p0 && nb in p1 && np0 <= nb
    ensures forall k :: k in p0 && k != s ==> k in Attach(p1, s, nb) && Attach(p1, s, nb)[k] == p0[k]
  {
  }

  /** A child of the other tree that names no child of `s` is appended to
      the children of `s` as a copy. */
  lemma MergeNewView(p0: Arena, np0: nat, p1: Arena, np1: nat, s: Handle, nb: Handle, oc: Handle)
    requires WF(p0, np0) && WF(p1, np1) && s in p0 && oc in p0
    requires Grows(p0, p1, np0) && nb in p1 && np0 <= nb && Orphan(p1, nb)
    requires View(p1, np1, nb) == View(p0, np0, oc)
    requires NoUpBelow(View(p0, np0, oc)) && LastSegment(View(p0, np0, oc).path) != ".."
    requires SegmentTarget(p0, s, LastSegment(p0[oc].path)) == None
    ensures s in p1 && WF(Attach(p1, s, nb), np1)
    ensures View(Attach(p1, s, nb), np1, s) == MergeOne(View(p0, np0, s), View(p0, np0, oc))
  {
    FlatBounds(p0, np0, s);
    SubtreeKept(p0, np0, p1, np1, s);
    AttachView(p1, np1, s, nb);
    ViewNames(p0, np0, s);
  }

  // ---------------------------------------------------------------------
  // Repath

  /** A relationship target after its prim moved from `from` to `to`: a path
      that starts with `from` has that prefix replaced (the first occurrence of
      `from` in it is the prefix itself); any other value is kept. */
  function RetargetPath(v: Value, from: string, to: string): Value {
    if v.VStr? && StartsWith(v.s, from) then VStr(ReplacePrefix(v.s, from, to)) else v
  }

  /** One entry of `_fn_relationships`: a single path or a list of paths. */
  function RetargetRel(v: Value, from: string, to: string): Value {
    match v
    case VStr(_) => RetargetPath(v, from, to)
    case VList(items) => VList(seq(|items|, i requires 0 <= i < |items| => RetargetPath(items[i], from, to)))
    case _ => v
  }

  /** The properties of a moved prim: every entry of its `_fn_relationships`
      dictionary retargeted, every other property kept. */
  function RewriteRels(props: Props, from: string, to: string): (r: Props)
    ensures r.Keys == props.Keys
    ensures forall k :: k in props && k != "_fn_relationships" ==> r[k] == props[k]
  {
    if "_fn_relationships" in props && props["_fn_relationships"].VDict? then
      var d := props["_fn_relationships"].d;
      props["_fn_relationships" := VDict(map k | k in d :: RetargetRel(d[k], from, to))]
    else props
  }

  /** `repath` on values: the prim takes the path `p + '/' + name`, its
      children move under that new path, and its relationship targets into
      its old path follow it. */
  function RepathTree(t: Tree, p: string): Tree
    decreases t
  {
    var np := p + "/" + LastSegment(t.path);
    Tree(np, t.id, RewriteRels(t.props, t.path, np),
         seq(|t.children|, i requires 0 <= i < |t.children| => RepathTree(t.children[i], np)))
  }

  ghost predicate RepathInv(m0: Arena, n: nat, h: Handle, np: string, m: Arena, i: nat) {
    WF(m0, n) && h in m0 && i <= |m0[h].children| && WF(m, n) && SameShape(m0, m)
    && m[h] == m0[h].(path := np)
    && (forall k :: k in m0 && k !in Flat(m0, n, h) ==> k in m && m[k] == m0[k])
    && (forall k :: k in FlatSeq(m0, n, h, m0[h].children[i..]) ==> k in m0 && k in m && m[k] == m0[k])
    && (forall j :: 0 <= j < i ==> View(m, n, m0[h].children[j]) == RepathTree(View(m0, n, m0[h].children[j]), np))
  }

  /** The prims below the children of `h` from the `i`-th on: the listing of
      the `i`-th child, then those after it, with no prim in both. */
  lemma PendingSplit(m: Arena, n: nat, h: Handle, i: nat)
    requires WF(m, n) && h in m && i < |m[h].children|
    ensures FlatSeq(m, n, h, m[h].children[i..]) == Flat(m, n, m[h].children[i]) + FlatSeq(m, n, h, m[h].children[i + 1..])
    ensures forall k :: k in FlatSeq(m, n, h, m[h].children[i + 1..]) ==> k !in Flat(m, n, m[h].children[i])
  {
    var ks := m[h].children;
    assert ks[i..][0] == ks[i] && ks[i..][1..] == ks[i + 1..];
    FlatSeqNoDup(m, n, h, i);
    var a, b := Flat(m, n, ks[i]), FlatSeq(m, n, h, ks[i + 1..]);
    forall x, y | 0 <= x < |a| && 0 <= y < |b| ensures a[x] != b[y] {
      assert (a + b)[x] == a[x] && (a + b)[|a| + y] == b[y];
    }
  }

  lemma RepathInvStart(m0: Arena, n: nat, h: Handle, np: string, m: Arena)
    requires WF(m0, n) && h in m0 && m == m0[h := m0[h].(path := np)]
    ensures RepathInv(m0, n, h, np, m, 0)
  {
    ShapeFlat(m0, m, n, h);
    FlatBounds(m0, n, h);
    FlatNoDup(m0, n, h);
    var ks := m0[h].children;
    assert ks[0..] == ks;
    var fl, rest := Flat(m0, n, h), FlatSeq(m0, n, h, ks);
    forall y | 0 <= y < |rest| ensures rest[y] in m0 && rest[y] != h {
      assert fl[y + 1] == rest[y] && fl[0] == h;
    }
  }

  /** The child the next iteration moves is intact and after `h`. */
  lemma RepathInvChild(m0: Arena, n: nat, h: Handle, np: string, m: Arena, i: nat)
    requires RepathInv(m0, n, h, np, m, i) && i < |m0[h].children|
    ensures m0[h].children[i] in m && h < m0[h].children[i]
    ensures WF(m0, n) && WF(m, n) && SameShape(m0, m)
    ensures forall k :: k in Flat(m0, n, m0[h].children[i]) ==> k in m0 && k in m && m[k] == m0[k]
  {
    PendingSplit(m0, n, h, i);
  }

  /** A subtree whose records are all kept, in an arena of the same shape,
      keeps its listing and its value. */
  lemma ShapeKept(m0: Arena, m: Arena, n: nat, c: Handle)
    requires WF(m0, n) && WF(m, n) && SameShape(m0, m) && c in m0
    requires forall k :: k in Flat(m0, n, c) ==> k in m0 && k in m && m[k] == m0[k]
    ensures c in m && Flat(m, n, c) == Flat(m0, n, c) && View(m, n, c) == View(m0, n, c)
  {
    ShapeFlat(m0, m, n, c);
    SubtreeKept(m0, n, m, n, c);
  }

  /** One iteration of the loop over the children keeps `RepathInv`. */
  lemma RepathStep(m0: Arena, n: nat, h: Handle, np: string, m1: Arena, m2: Arena, i: nat)
    requires RepathInv(m0, n, h, np, m1, i) && i < |m0[h].children| && m0[h].children[i] in m1
    requires Repathed(m1, n, m0[h].children[i], np, m2)
    ensures RepathInv(m0, n, h, np, m2, i + 1)
  {
    var c := m0[h].children[i];
    RepathInvChild(m0, n, h, np, m1, i);
    ShapeKept(m0, m1, n, c);
    RepathStepFrame(m0, m1, m2, n, h, i);
    RepathStepKids(m0, m1, m2, n, h, i);
    RepathStepViews(m0, m1, m2, n, h, np, i);
  }

  lemma RepathStepViews(m0: Arena, m1: Arena, m2: Arena, n: nat, h: Handle, np: string, i: nat)
    requires WF(m0, n) && WF(m1, n) && WF(m2, n) && h in m0 && i < |m0[h].children|
    requires forall j :: 0 <= j <= i ==> m0[h].children[j] in m1 && m0[h].children[j] in m2
    requires forall j :: 0 <= j < i ==> View(m1, n, m0[h].children[j]) == RepathTree(View(m0, n, m0[h].children[j]), np)
    requires forall j :: 0 <= j < i ==> View(m2, n, m0[h].children[j]) == View(m1, n, m0[h].children[j])
    requires View(m2, n, m0[h].children[i]) == RepathTree(View(m1, n, m0[h].children[i]), np)
    requires View(m1, n, m0[h].children[i]) == View(m0, n, m0[h].children[i])
    ensures forall j :: 0 <= j < i + 1 ==> View(m2, n, m0[h].children[j]) == RepathTree(View(m0, n, m0[h].children[j]), np)
  {
  }

  /** What the move of the `i`-th child leaves untouched. */
  lemma RepathStepFrame(m0: Arena, m1: Arena, m2: Arena, n: nat, h: Handle, i: nat)
    requires WF(m0, n) && h in m0 && i < |m0[h].children| && SameShape(m0, m1) && SameShape(m1, m2)
    requires forall k :: k in m0 && k !in Flat(m0, n, h) ==> k in m1 && m1[k] == m0[k]
    requires forall k :: k in FlatSeq(m0, n, h, m0[h].children[i..]) ==> k in m0 && k in m1 && m1[k] == m0[k]
    requires m0[h].children[i] in m1 && WF(m1, n)
    requires Flat(m1, n, m0[h].children[i]) == Flat(m0, n, m0[h].children[i])
    requires forall k :: k in m1 && k !in Flat(m1, n, m0[h].children[i]) ==> k in m2 && m2[k] == m1[k]
    ensures SameShape(m0, m2) && m2[h] == m1[h]
    ensures forall k :: k in m0 && k !in Flat(m0, n, h) ==> k in m2 && m2[k] == m0[k]
    ensures forall k :: k in FlatSeq(m0, n, h, m0[h].children[i + 1..]) ==> k in m0 && k in m2 && m2[k] == m0[k]
  {
    FlatBounds(m0, n, m0[h].children[i]);
    ChildListingInside(m0, n, h, i);
    PendingSplit(m0, n, h, i);
  }

  /** The children moved before the `i`-th keep their values when it moves. */
  lemma RepathStepKids(m0: Arena, m1: Arena, m2: Arena, n: nat, h: Handle, i: nat)
    requires WF(m0, n) && WF(m1, n) && WF(m2, n) && SameShape(m0, m1) && SameShape(m1, m2)
    requires h in m0 && i < |m0[h].children| && m0[h].children[i] in m1
    requires Flat(m1, n, m0[h].children[i]) == Flat(m0, n, m0[h].children[i])
    requires forall k :: k in m1 && k !in Flat(m1, n, m0[h].children[i]) ==> k in m2 && m2[k] == m1[k]
    ensures forall j :: 0 <= j < i ==> View(m2, n, m0[h].children[j]) == View(m1, n, m0[h].children[j])
  {
    var ks := m0[h].children;
    forall j | 0 <= j < i ensures View(m2, n, ks[j]) == View(m1, n, ks[j]) {
      ShapeFlat(m0, m1, n, ks[j]);
      forall k | k in Flat(m1, n, ks[j]) ensures k in m1 && k in m2 && m2[k] == m1[k] {
        SiblingsDisjoint(m0, n, h, i, j, k);
        FlatBounds(m0, n, ks[j]);
      }
      SubtreeKept(m1, n, m2, n, ks[j]);
    }
  }

  /** After the last child, rewriting the relationships of `h` completes the move. */
  /** What moving the subtree of `h` under `p` promises of the arena `m` it
      leaves behind: the same shape, nothing outside the subtree changed, and
      the subtree's value is `RepathTree` of its old value. */
  ghost predicate Repathed(m0: Arena, n: nat, h: Handle, p: string, m: Arena) {
    WF(m0, n) && h in m0 && WF(m, n) && SameShape(m0, m)
    && (forall k :: k in m0 && k !in Flat(m0, n, h) ==> k in m && m[k] == m0[k])
    && View(m, n, h) == RepathTree(View(m0, n, h), p)
  }

  lemma RepathDone(m0: Arena, n: nat, h: Handle, p: string, np: string, m: Arena, m3: Arena)
    requires WF(m0, n) && h in m0 && np == p + "/" + LastSegment(m0[h].path)
    requires RepathInv(m0, n, h, np, m, |m0[h].children|)
    requires h in m && m3 == SetProps(m, h, RewriteRels(m[h].props, m0[h].path, np))
    ensures Repathed(m0, n, h, p, m3)
  {
    var props := RewriteRels(m[h].props, m0[h].path, np);
    SetPropsView(m, n, h, props);
    RepathRootView(m0, n, h, p, np, m, props);
    assert h in Flat(m0, n, h);
  }

  /** The value of `h` once its children are moved and its own path and
      properties rewritten. */
  lemma RepathRootView(m0: Arena, n: nat, h: Handle, p: string, np: string, m: Arena, props: Props)
    requires WF(m0, n) && h in m0 && WF(m, n) && h in m && np == p + "/" + LastSegment(m0[h].path)
    requires m[h] == m0[h].(path := np)
    requires forall j :: 0 <= j < |m0[h].children| ==>
      View(m, n, m0[h].children[j]) == RepathTree(View(m0, n, m0[h].children[j]), np)
    requires props == RewriteRels(m0[h].props, m0[h].path, np)
    ensures View(m, n, h).(props := props) == RepathTree(View(m0, n, h), p)
  {
    var ks := m0[h].children;
    var v, v0 := View(m, n, h), View(m0, n, h);
    var r := RepathTree(v0, p);
    assert |v.children| == |r.children|;
    forall j | 0 <= j < |ks| ensures v.children[j] == r.children[j] {
      assert v0.children[j] == View(m0, n, ks[j]);
    }
  }

  /** A moved prim keeps its name, so lookups by name below its new parent
      still find it. */
  lemma RepathKeepsName(t: Tree, p: string)
    ensures LastSegment(RepathTree(t, p).path) == LastSegment(t.path)
  {
    LastSegmentAfter(p, LastSegment(t.path));
  }

  /** Every path in a tree, its root's included. */
  ghost predicate AllUnder(t: Tree, prefix: string)
    decreases t
  {
    StartsWith(t.path, prefix) && forall i :: 0 <= i < |t.children| ==> AllUnder(t.children[i], prefix)
  }

  /** After `repath(p)` every prim of the subtree lies under `p + '/'`. */
  lemma {:induction false} RepathUnder(t: Tree, p: string)
    ensures AllUnder(RepathTree(t, p), p + "/")
    decreases t
  {
    var r := RepathTree(t, p);
    var np := r.path;
    assert StartsWith(np, p + "/") by { assert np[..|p + "/"|] == p + "/"; }
    forall i | 0 <= i < |t.children| ensures AllUnder(r.children[i], p + "/") {
      RepathUnder(t.children[i], np);
      UnderTrans(r.children[i], np + "/", p + "/");
    }
  }

  lemma {:induction false} UnderTrans(t: Tree, a: string, b: string)
    requires AllUnder(t, a) && StartsWith(a, b)
    ensures AllUnder(t, b)
    decreases t
  {
    assert t.path[..|b|] == a[..|b|];
    forall i | 0 <= i < |t.children| ensures AllUnder(t.children[i], b) {
      UnderTrans(t.children[i], a, b);
    }
  }

  /** `repath` keeps the shape of the subtree and every prim's id. */
  ghost predicate SameIds(t: Tree, u: Tree)
    decreases t
  {
    t.id == u.id && |t.children| == |u.children|
    && forall i :: 0 <= i < |t.children| ==> SameIds(t.children[i], u.children[i])
  }

  lemma {:induction false} RepathSameIds(t: Tree, p: string)
    ensures SameIds(t, RepathTree(t, p))
    decreases t
  {
    var r := RepathTree(t, p);
    forall i | 0 <= i < |t.children| ensures SameIds(t.children[i], r.children[i]) {
      RepathSameIds(t.children[i], r.path);
    }
  }

  /** A target into the old path that is moved and moved back is restored. */
  lemma RetargetBack(v: Value, from: string, to: string)
    requires v.VStr? && StartsWith(v.s, from)
    ensures RetargetPath(RetargetPath(v, from, to), to, from) == v
  {
    assert v.s == from + v.s[|from|..];
  }
}
