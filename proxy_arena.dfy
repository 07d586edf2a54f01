/** The object graph of DatablockProxy prims, seen as an arena: every prim
    object is a record under a handle. Parent and child links are handles.
    A child is always allocated after its parent, so its handle is larger.
    Because of that, every walk down the tree terminates, and so does every
    walk up the parent links. */
module ProxyArena {
  import opened Base
  import opened Strings

  /** The fields of one DatablockProxy object. */
  datatype Prim = Prim(path: string, id: Uuid, props: Props, parent: Option<Handle>, children: seq<Handle>)

  type Arena = map<Handle, Prim>

  /** Well-formed arena: handles below `n`, ids non-empty, children allocated
      after their parent, parents before their child, and every child slot in
      the whole arena holds a different prim (the prims form a forest). */
  ghost predicate WF(m: Arena, n: nat) {
    (forall h :: h in m ==> h < n && m[h].id != "")
    && (forall h, i :: h in m && 0 <= i < |m[h].children| ==> m[h].children[i] in m && h < m[h].children[i])
    && (forall h :: h in m && m[h].parent.Some? ==> m[h].parent.value in m && m[h].parent.value < h)
    && SlotsUnique(m)
  }

  ghost predicate SlotsUnique(m: Arena) {
    forall h1, i, h2, j ::
      (h1 in m && h2 in m && 0 <= i < |m[h1].children| && 0 <= j < |m[h2].children|
       && m[h1].children[i] == m[h2].children[j]) ==> h1 == h2 && i == j
  }

  /** No prim lists `h` among its children. */
  ghost predicate Orphan(m: Arena, h: Handle) {
    forall k, i :: k in m && 0 <= i < |m[k].children| ==> m[k].children[i] != h
  }

  /** `get_flat_list`: the pre-order listing of the subtree under `h`. */
  function Flat(m: Arena, n: nat, h: Handle): seq<Handle>
    requires WF(m, n) && h in m
    decreases n - h, 1
  {
    [h] + FlatSeq(m, n, h, m[h].children)
  }

  function FlatSeq(m: Arena, n: nat, p: Handle, ks: seq<Handle>): seq<Handle>
    requires WF(m, n) && p < n
    requires forall i :: 0 <= i < |ks| ==> ks[i] in m && p < ks[i]
    decreases n - p, 0, |ks|
  {
    if ks == [] then [] else Flat(m, n, ks[0]) + FlatSeq(m, n, p, ks[1..])
  }

  /** The value a prim's subtree denotes, parent links left aside. */
  datatype Tree = Tree(path: string, id: Uuid, props: Props, children: seq<Tree>)

  ghost function View(m: Arena, n: nat, h: Handle): Tree
    requires WF(m, n) && h in m
    decreases n - h
  {
    var kids := m[h].children;
    Tree(m[h].path, m[h].id, m[h].props, seq(|kids|, i requires 0 <= i < |kids| => View(m, n, kids[i])))
  }

  /** Every child in the subtree under `h` points back to its parent. */
  ghost predicate Linked(m: Arena, n: nat, h: Handle)
    requires WF(m, n) && h in m
    decreases n - h
  {
    forall i :: 0 <= i < |m[h].children| ==>
      m[m[h].children[i]].parent == Some(h) && Linked(m, n, m[h].children[i])
  }

  function TreeSize(t: Tree): nat {
    1 + TreesSize(t.children)
  }

  function TreesSize(ts: seq<Tree>): nat {
    if ts == [] then 0 else TreeSize(ts[0]) + TreesSize(ts[1..])
  }

  // ---------------------------------------------------------------------
  // Facts about the pre-order listing

  lemma {:induction false} FlatSeqMem(m: Arena, n: nat, p: Handle, ks: seq<Handle>, k: Handle)
    requires WF(m, n) && p < n
    requires forall i :: 0 <= i < |ks| ==> ks[i] in m && p < ks[i]
    ensures k in FlatSeq(m, n, p, ks) <==> exists i :: 0 <= i < |ks| && k in Flat(m, n, ks[i])
    decreases |ks|
  {
    if ks != [] {
      FlatSeqMem(m, n, p, ks[1..], k);
      if k in FlatSeq(m, n, p, ks[1..]) {
        var i :| 0 <= i < |ks[1..]| && k in Flat(m, n, ks[1..][i]);
        assert k in Flat(m, n, ks[i + 1]);
      }
      if exists i :: 0 <= i < |ks| && k in Flat(m, n, ks[i]) {
        var i :| 0 <= i < |ks| && k in Flat(m, n, ks[i]);
        if i > 0 { assert ks[1..][i - 1] == ks[i]; }
      }
    }
  }

  /** The listing under `h` starts with `h`, and holds only prims of the arena
      at or after `h`. With each prim also come its children, and each prim
      other than `h` sits in the children list of a prim of the listing. */
  lemma FlatFacts(m: Arena, n: nat, h: Handle)
    requires WF(m, n) && h in m
    ensures Flat(m, n, h)[0] == h
    ensures forall k :: k in Flat(m, n, h) ==> k in m && h <= k < n
    ensures forall k, i :: k in Flat(m, n, h) && 0 <= i < |m[k].children| ==> m[k].children[i] in Flat(m, n, h)
    ensures forall k :: k in Flat(m, n, h) && k != h ==>
      exists y, i :: y in Flat(m, n, h) && 0 <= i < |m[y].children| && m[y].children[i] == k
  {
    FlatBounds(m, n, h);
    FlatClosed(m, n, h);
    FlatParents(m, n, h);
  }

  /** With each prim the listing under `h` also holds its children. */
  lemma {:induction false} FlatClosed(m: Arena, n: nat, h: Handle)
    requires WF(m, n) && h in m
    ensures forall k, i :: k in Flat(m, n, h) && k in m && 0 <= i < |m[k].children| ==> m[k].children[i] in Flat(m, n, h)
    decreases n - h
  {
    var ks := m[h].children;
    var fl := Flat(m, n, h);
    forall i | 0 <= i < |ks| { FlatClosed(m, n, ks[i]); }
    forall k, i | k in fl && k in m && 0 <= i < |m[k].children| ensures m[k].children[i] in fl {
      var c := m[k].children[i];
      if k == h {
        assert c in Flat(m, n, ks[i]);
        FlatSeqMem(m, n, h, ks, c);
      } else {
        FlatSeqMem(m, n, h, ks, k);
        var j :| 0 <= j < |ks| && k in Flat(m, n, ks[j]);
        FlatSeqMem(m, n, h, ks, c);
      }
    }
  }

  /** Each prim of the listing under `h` other than `h` sits in the children
      list of a prim of the listing. */
  lemma {:induction false} FlatParents(m: Arena, n: nat, h: Handle)
    requires WF(m, n) && h in m
    ensures forall k :: k in Flat(m, n, h) && k != h ==>
      exists y, i :: y in Flat(m, n, h) && y in m && 0 <= i < |m[y].children| && m[y].children[i] == k
    decreases n - h
  {
    var ks := m[h].children;
    var fl := Flat(m, n, h);
    FlatBounds(m, n, h);
    forall i | 0 <= i < |ks| { FlatParents(m, n, ks[i]); }
    forall k | k in fl && k != h
      ensures exists y, i :: y in fl && y in m && 0 <= i < |m[y].children| && m[y].children[i] == k
    {
      FlatSeqMem(m, n, h, ks, k);
      var j :| 0 <= j < |ks| && k in Flat(m, n, ks[j]);
      if k == ks[j] {
        assert h in fl && m[h].children[j] == k;
      } else {
        FlatBounds(m, n, ks[j]);
        var y, i :| y in Flat(m, n, ks[j]) && y in m && 0 <= i < |m[y].children| && m[y].children[i] == k;
        FlatSeqMem(m, n, h, ks, y);
        assert y in fl;
      }
    }
  }

  /** The listing under `h` holds only prims of the arena at or after `h`. */
  lemma {:induction false} FlatBounds(m: Arena, n: nat, h: Handle)
    requires WF(m, n) && h in m
    ensures forall k :: k in Flat(m, n, h) ==> k in m && h <= k < n
    decreases n - h
  {
    var ks := m[h].children;
    forall k | k in Flat(m, n, h) ensures k in m && h <= k < n {
      if k != h {
        FlatSeqMem(m, n, h, ks, k);
        var j :| 0 <= j < |ks| && k in Flat(m, n, ks[j]);
        FlatBounds(m, n, ks[j]);
      }
    }
  }

  /** Two subtrees that share a prim are nested: one root lies in the other's
      subtree. */
  lemma {:induction false} SharedMeansNested(m: Arena, n: nat, a: Handle, b: Handle, x: Handle)
    requires WF(m, n) && a in m && b in m
    ensures x in Flat(m, n, a) && x in Flat(m, n, b) ==> a in Flat(m, n, b) || b in Flat(m, n, a)
    decreases x
  {
    if x in Flat(m, n, a) && x in Flat(m, n, b) && x != a && x != b {
      var y1, i1 := FlatParentOf(m, n, a, x);
      var y2, i2 := FlatParentOf(m, n, b, x);
      assert y1 == y2;
      SharedMeansNested(m, n, a, b, y1);
    }
  }

  /** A prim of the listing under `h` other than `h` is a child of an
      earlier prim of that listing. */
  lemma FlatParentOf(m: Arena, n: nat, h: Handle, k: Handle) returns (y: Handle, i: nat)
    requires WF(m, n) && h in m && k in Flat(m, n, h) && k != h
    ensures y in Flat(m, n, h) && y in m && i < |m[y].children| && m[y].children[i] == k && y < k
  {
    FlatFacts(m, n, h);
    y, i :| y in Flat(m, n, h) && 0 <= i < |m[y].children| && m[y].children[i] == k;
  }

  /** A child found strictly inside the subtree of `b` has its parent there too. */
  lemma ParentInside(m: Arena, n: nat, p: Handle, i: nat, b: Handle)
    requires WF(m, n) && p in m && i < |m[p].children| && b in m
    ensures m[p].children[i] in Flat(m, n, b) && m[p].children[i] != b ==> p in Flat(m, n, b)
  {
    FlatFacts(m, n, b);
    var a := m[p].children[i];
    if a in Flat(m, n, b) && a != b {
      var y, k :| y in Flat(m, n, b) && 0 <= k < |m[y].children| && m[y].children[k] == a;
      assert y == p;
    }
  }

  /** The subtrees of two different children of one prim are disjoint. */
  lemma SiblingsDisjoint(m: Arena, n: nat, p: Handle, i: nat, j: nat, x: Handle)
    requires WF(m, n) && p in m && i < |m[p].children| && j < |m[p].children| && i != j
    ensures !(x in Flat(m, n, m[p].children[i]) && x in Flat(m, n, m[p].children[j]))
  {
    var a, b := m[p].children[i], m[p].children[j];
    SharedMeansNested(m, n, a, b, x);
    ParentInside(m, n, p, i, b);
    ParentInside(m, n, p, j, a);
    FlatFacts(m, n, a);
    FlatFacts(m, n, b);
  }

  lemma {:induction false} FlatSeqNoDup(m: Arena, n: nat, p: Handle, off: nat)
    requires WF(m, n) && p in m && off <= |m[p].children|
    ensures NoDup(FlatSeq(m, n, p, m[p].children[off..]))
    decreases n - p, |m[p].children| - off
  {
    var ks := m[p].children[off..];
    if ks != [] {
      assert ks[1..] == m[p].children[off + 1..];
      FlatSeqNoDup(m, n, p, off + 1);
      FlatNoDup(m, n, ks[0]);
      var a := Flat(m, n, ks[0]);
      var b := FlatSeq(m, n, p, ks[1..]);
      assert FlatSeq(m, n, p, ks) == a + b;
      forall x | x in a ensures x !in b {
        FlatSeqMem(m, n, p, ks[1..], x);
        forall j | 0 <= j < |ks[1..]| ensures x !in Flat(m, n, ks[1..][j]) {
          SiblingsDisjoint(m, n, p, off, off + 1 + j, x);
        }
      }
      forall i, j | 0 <= i < j < |a + b| ensures (a + b)[i] != (a + b)[j] {
        if i < |a| && j >= |a| {
          assert (a + b)[i] in a && (a + b)[j] in b;
        }
        if i >= |a| {
          assert (a + b)[i] == b[i - |a|] && (a + b)[j] == b[j - |a|];
        }
      }
    }
  }

  /** `get_flat_list` lists every prim of the subtree once. */
  lemma {:induction false} FlatNoDup(m: Arena, n: nat, h: Handle)
    requires WF(m, n) && h in m
    ensures NoDup(Flat(m, n, h))
    decreases n - h, |m[h].children| + 1
  {
    FlatSeqNoDup(m, n, h, 0);
    assert m[h].children[0..] == m[h].children;
    var rest := FlatSeq(m, n, h, m[h].children);
    forall k | k in rest ensures k != h {
      FlatSeqMem(m, n, h, m[h].children, k);
      var j :| 0 <= j < |m[h].children| && k in Flat(m, n, m[h].children[j]);
      FlatFacts(m, n, m[h].children[j]);
    }
    var fl := [h] + rest;
    forall i, j | 0 <= i < j < |fl| ensures fl[i] != fl[j] {
      if i == 0 { assert fl[j] in rest; } else { assert fl[i] == rest[i - 1] && fl[j] == rest[j - 1]; }
    }
  }

  /** The listing has exactly as many entries as the subtree has prims. */
  lemma {:induction false} FlatSize(m: Arena, n: nat, h: Handle)
    requires WF(m, n) && h in m
    ensures |Flat(m, n, h)| == TreeSize(View(m, n, h))
    decreases n - h, 1
  {
    FlatSeqSize(m, n, h, 0);
    assert m[h].children[0..] == m[h].children;
    assert View(m, n, h).children[0..] == View(m, n, h).children;
  }

  lemma {:induction false} FlatSeqSize(m: Arena, n: nat, p: Handle, off: nat)
    requires WF(m, n) && p in m && off <= |m[p].children|
    ensures |FlatSeq(m, n, p, m[p].children[off..])| == TreesSize(View(m, n, p).children[off..])
    decreases n - p, 0, |m[p].children| - off
  {
    var ks := m[p].children[off..];
    var ts := View(m, n, p).children[off..];
    if ks != [] {
      assert ks[1..] == m[p].children[off + 1..];
      assert ts[1..] == View(m, n, p).children[off + 1..];
      FlatSeqSize(m, n, p, off + 1);
      FlatSize(m, n, ks[0]);
    }
  }

  /** The listing of a list of children, one child longer. */
  lemma {:induction false} FlatSeqSnoc(m: Arena, n: nat, p: Handle, ks: seq<Handle>, k: Handle)
    requires WF(m, n) && p < n && k in m && p < k
    requires forall i :: 0 <= i < |ks| ==> ks[i] in m && p < ks[i]
    ensures FlatSeq(m, n, p, ks + [k]) == FlatSeq(m, n, p, ks) + Flat(m, n, k)
    decreases |ks|
  {
    if ks == [] {
      assert ([] + [k])[1..] == [];
    } else {
      var ks' := ks + [k];
      assert ks'[0] == ks[0] && ks'[1..] == ks[1..] + [k];
      FlatSeqSnoc(m, n, p, ks[1..], k);
      var a, b, c := Flat(m, n, ks[0]), FlatSeq(m, n, p, ks[1..]), Flat(m, n, k);
      assert FlatSeq(m, n, p, ks') == a + (b + c);
      assert FlatSeq(m, n, p, ks) == a + b;
      ConcatAssoc(a, b, c);
    }
  }

  lemma ConcatAssoc<T>(a: seq<T>, b: seq<T>, c: seq<T>)
    ensures a + (b + c) == (a + b) + c
  {
  }

  // ---------------------------------------------------------------------
  // Frames: what a subtree's listing, value and links depend on

  /** Agreement of two arenas on the subtree under `h`: every field of every
      prim, except the parent link of `h` itself. */
  ghost predicate SameSubtree(m1: Arena, n1: nat, m2: Arena, h: Handle)
    requires WF(m1, n1) && h in m1
  {
    forall k :: k in Flat(m1, n1, h) ==>
      k in m1 && k in m2 && m2[k].path == m1[k].path && m2[k].id == m1[k].id && m2[k].props == m1[k].props
      && m2[k].children == m1[k].children && (k != h ==> m2[k].parent == m1[k].parent)
  }

  lemma {:induction false} SubtreeFrame(m1: Arena, n1: nat, m2: Arena, n2: nat, h: Handle)
    requires WF(m1, n1) && WF(m2, n2) && h in m1
    requires SameSubtree(m1, n1, m2, h)
    ensures h in m2
    ensures Flat(m2, n2, h) == Flat(m1, n1, h)
    ensures View(m2, n2, h) == View(m1, n1, h)
    ensures Linked(m2, n2, h) == Linked(m1, n1, h)
    decreases n1 - h
  {
    assert Flat(m1, n1, h)[0] == h;
    var ks := m1[h].children;
    forall i | 0 <= i < |ks|
      ensures ks[i] in m2 && m2[ks[i]].parent == m1[ks[i]].parent
      ensures Flat(m2, n2, ks[i]) == Flat(m1, n1, ks[i])
      ensures View(m2, n2, ks[i]) == View(m1, n1, ks[i])
      ensures Linked(m2, n2, ks[i]) == Linked(m1, n1, ks[i])
    {
      ChildListingInside(m1, n1, h, i);
      FlatFacts(m1, n1, ks[i]);
      assert ks[i] in Flat(m1, n1, ks[i]);
      SubtreeFrame(m1, n1, m2, n2, ks[i]);
    }
    FlatSeqFrame(m1, n1, m2, n2, h, ks);
  }

  /** The listing of a child lies inside the listing of its parent. */
  lemma ChildListingInside(m: Arena, n: nat, h: Handle, i: nat)
    requires WF(m, n) && h in m && i < |m[h].children|
    ensures forall k :: k in Flat(m, n, m[h].children[i]) ==> k in Flat(m, n, h)
  {
    forall k | k in Flat(m, n, m[h].children[i]) ensures k in Flat(m, n, h) {
      FlatSeqMem(m, n, h, m[h].children, k);
    }
  }

  lemma {:induction false} FlatSeqFrame(m1: Arena, n1: nat, m2: Arena, n2: nat, p: Handle, ks: seq<Handle>)
    requires WF(m1, n1) && WF(m2, n2) && p < n1 && p < n2
    requires forall i :: 0 <= i < |ks| ==> ks[i] in m1 && ks[i] in m2 && p < ks[i]
    requires forall i :: 0 <= i < |ks| ==> Flat(m2, n2, ks[i]) == Flat(m1, n1, ks[i])
    ensures FlatSeq(m2, n2, p, ks) == FlatSeq(m1, n1, p, ks)
    decreases |ks|
  {
    if ks != [] {
      FlatSeqFrame(m1, n1, m2, n2, p, ks[1..]);
    }
  }

  /** A prim of a subtree other than its root is not an orphan. */
  lemma NotOrphanBelow(m: Arena, n: nat, h: Handle, k: Handle)
    requires WF(m, n) && h in m && k in Flat(m, n, h) && k != h
    ensures !Orphan(m, k)
  {
    FlatFacts(m, n, h);
  }

  // ---------------------------------------------------------------------
  // Growing the arena

  /** `m2` keeps every prim of `m1` unchanged and adds only handles from `n1` on. */
  ghost predicate Grows(m1: Arena, m2: Arena, n1: nat) {
    (forall k :: k in m1 ==> k in m2 && m2[k] == m1[k])
    && (forall k :: k in m2 ==> k in m1 || n1 <= k)
  }

  lemma SubtreeKept(m1: Arena, n1: nat, m2: Arena, n2: nat, h: Handle)
    requires WF(m1, n1) && WF(m2, n2) && h in m1
    requires forall k :: k in Flat(m1, n1, h) ==> k in m1 && k in m2 && m2[k] == m1[k]
    ensures h in m2
    ensures Flat(m2, n2, h) == Flat(m1, n1, h)
    ensures View(m2, n2, h) == View(m1, n1, h)
    ensures Linked(m2, n2, h) == Linked(m1, n1, h)
  {
    SubtreeFrame(m1, n1, m2, n2, h);
  }

  /** Adding one record at the next handle keeps the arena well formed. */
  lemma AllocWF(m: Arena, n: nat, p: Prim)
    requires WF(m, n) && p.children == [] && p.id != ""
    requires p.parent.Some? ==> p.parent.value in m
    ensures WF(AllocAt(m, n, p), n + 1)
  {
    var m2 := AllocAt(m, n, p);
    forall h, i | h in m2 && 0 <= i < |m2[h].children|
      ensures m2[h].children[i] in m2 && h < m2[h].children[i]
    {
      AllocSlot(m, n, p, h, i);
    }
    forall h1, i, h2, j | h1 in m2 && h2 in m2 && 0 <= i < |m2[h1].children| && 0 <= j < |m2[h2].children|
      && m2[h1].children[i] == m2[h2].children[j]
      ensures h1 == h2 && i == j
    {
      AllocSlot(m, n, p, h1, i);
      AllocSlot(m, n, p, h2, j);
    }
  }

  /** A child slot after `AllocAt`: the new last slot of the parent, holding
      `n`, or an old slot with its old handle. */
  lemma AllocSlot(m: Arena, n: nat, p: Prim, h: Handle, i: nat)
    requires WF(m, n) && p.children == []
    requires p.parent.Some? ==> p.parent.value in m
    requires h in AllocAt(m, n, p) && i < |AllocAt(m, n, p)[h].children|
    ensures (p.parent == Some(h) && i == |m[h].children| && AllocAt(m, n, p)[h].children[i] == n)
      || (h in m && i < |m[h].children| && AllocAt(m, n, p)[h].children[i] == m[h].children[i])
  {
  }

  /** The arena after `DatablockProxy(path, id, props, parent)`: the new record
      at handle `n`, registered at the end of its parent's children. */
  function AllocAt(m: Arena, n: nat, p: Prim): Arena
    requires p.parent.Some? ==> p.parent.value in m
  {
    var m1 := if p.parent.Some? then
      m[p.parent.value := m[p.parent.value].(children := m[p.parent.value].children + [n])]
    else m;
    m1[n := p]
  }

  /** Attaching an orphan `c` at the end of the children of an earlier prim `p`
      keeps the arena well formed. */
  lemma AttachWF(m: Arena, n: nat, p: Handle, c: Handle)
    requires WF(m, n) && p in m && c in m && p < c && Orphan(m, c)
    ensures WF(Attach(m, p, c), n)
  {
    var m2 := Attach(m, p, c);
    forall h, i | h in m2 && 0 <= i < |m2[h].children|
      ensures m2[h].children[i] in m2 && h < m2[h].children[i]
    {
      AttachSlot(m, n, p, c, h, i);
    }
    forall h1, i, h2, j | h1 in m2 && h2 in m2 && 0 <= i < |m2[h1].children| && 0 <= j < |m2[h2].children|
      && m2[h1].children[i] == m2[h2].children[j]
      ensures h1 == h2 && i == j
    {
      AttachSlot(m, n, p, c, h1, i);
      AttachSlot(m, n, p, c, h2, j);
    }
  }

  /** A child slot after `Attach`: the new last slot of `p`, holding `c`, or
      an old slot with its old handle. */
  lemma AttachSlot(m: Arena, n: nat, p: Handle, c: Handle, h: Handle, i: nat)
    requires WF(m, n) && p in m && c in m
    requires h in Attach(m, p, c) && i < |Attach(m, p, c)[h].children|
    ensures (h == p && i == |m[p].children| && Attach(m, p, c)[h].children[i] == c)
      || (h in m && i < |m[h].children| && Attach(m, p, c)[h].children[i] == m[h].children[i])
  {
  }

  /** `c.parent = p; p.children.append(c)`. */
  function Attach(m: Arena, p: Handle, c: Handle): Arena
    requires p in m && c in m
  {
    var m1 := m[c := m[c].(parent := Some(p))];
    m1[p := m1[p].(children := m1[p].children + [c])]
  }

  // ---------------------------------------------------------------------
  // In-place edits: replacing properties and appending fresh children

  /** `m[x].properties = props`. */
  function SetProps(m: Arena, x: Handle, props: Props): Arena
    requires x in m
  {
    m[x := m[x].(props := props)]
  }

  /** `b` is `a` with entries from `n1` on appended. */
  ghost predicate GrownBy(a: seq<Handle>, b: seq<Handle>, n1: nat) {
    |a| <= |b| && b[..|a|] == a && forall j :: |a| <= j < |b| ==> n1 <= b[j]
  }

  /** `m2` is `m1` after edits that only replace properties, append prims
      allocated from `n1` on to children lists, and add such prims. */
  ghost predicate Extends(m1: Arena, n1: nat, m2: Arena) {
    (forall k :: k in m1 ==>
      k in m2 && m2[k].path == m1[k].path && m2[k].id == m1[k].id && m2[k].parent == m1[k].parent
      && GrownBy(m1[k].children, m2[k].children, n1))
    && (forall k :: k in m2 ==> k in m1 || n1 <= k)
  }

  /** No prim from `top` on has a parent before `top`. */
  ghost predicate AboveClosed(m: Arena, top: nat) {
    forall k :: k in m && top <= k && m[k].parent.Some? ==> top <= m[k].parent.value
  }

  lemma ExtendsTrans(m0: Arena, n0: nat, m1: Arena, n1: nat, m2: Arena)
    requires Extends(m0, n0, m1) && Extends(m1, n1, m2) && n0 <= n1
    ensures Extends(m0, n0, m2)
  {
    forall k | k in m0 ensures GrownBy(m0[k].children, m2[k].children, n0) {
      var a, b, c := m0[k].children, m1[k].children, m2[k].children;
      assert c[..|a|] == c[..|b|][..|a|];
    }
  }

  lemma GrowsExtends(m1: Arena, m2: Arena, n1: nat)
    requires Grows(m1, m2, n1)
    ensures Extends(m1, n1, m2)
  {
    forall k | k in m1 ensures GrownBy(m1[k].children, m2[k].children, n1) {
      assert m2[k].children[..|m1[k].children|] == m2[k].children;
    }
  }

  lemma SetPropsExtends(m0: Arena, n0: nat, m: Arena, n: nat, x: Handle, props: Props)
    requires WF(m, n) && x in m && Extends(m0, n0, m)
    ensures WF(SetProps(m, x, props), n) && Extends(m0, n0, SetProps(m, x, props))
    ensures forall t: nat :: AboveClosed(m, t) ==> AboveClosed(SetProps(m, x, props), t)
  {
    SetPropsWF(m, n, x, props);
  }

  lemma SetPropsWF(m: Arena, n: nat, x: Handle, props: Props)
    requires WF(m, n) && x in m
    ensures WF(SetProps(m, x, props), n)
  {
    var m2 := SetProps(m, x, props);
    forall h | h in m2 ensures m2[h].children == m[h].children && m2[h].parent == m[h].parent { }
  }

  lemma AttachExtends(m0: Arena, n0: nat, m: Arena, n: nat, p: Handle, c: Handle)
    requires WF(m, n) && p in m && c in m && p < c && Orphan(m, c)
    requires Extends(m0, n0, m) && c !in m0 && n0 <= c
    ensures WF(Attach(m, p, c), n) && Extends(m0, n0, Attach(m, p, c))
    ensures forall t: nat :: t <= p && AboveClosed(m, t) ==> AboveClosed(Attach(m, p, c), t)
  {
    AttachWF(m, n, p, c);
    var m2 := Attach(m, p, c);
    forall k | k in m0
      ensures k in m2 && m2[k].path == m0[k].path && m2[k].id == m0[k].id && m2[k].parent == m0[k].parent
      ensures GrownBy(m0[k].children, m2[k].children, n0)
    {
      if k == p {
        var a, b := m0[k].children, m[k].children;
        assert m2[k].children[..|a|] == b[..|a|];
      }
    }
    assert m2.Keys == m.Keys;
  }

  /** Edits that only append fresh prims bring no older prim into a subtree. */
  lemma {:induction false} FlatGrowth(m1: Arena, n1: nat, m2: Arena, n2: nat, x: Handle)
    requires WF(m1, n1) && WF(m2, n2) && x in m1 && Extends(m1, n1, m2)
    ensures forall k :: k in Flat(m2, n2, x) ==> k in Flat(m1, n1, x) || n1 <= k
    decreases n2 - x
  {
    var ks1, ks2 := m1[x].children, m2[x].children;
    forall k | k in Flat(m2, n2, x) ensures k in Flat(m1, n1, x) || n1 <= k {
      if k != x {
        FlatSeqMem(m2, n2, x, ks2, k);
        var i :| 0 <= i < |ks2| && k in Flat(m2, n2, ks2[i]);
        if i < |ks1| {
          assert ks2[i] == ks2[..|ks1|][i] == ks1[i];
          FlatGrowth(m1, n1, m2, n2, ks2[i]);
          ChildListingInside(m1, n1, x, i);
        } else {
          FlatBounds(m2, n2, ks2[i]);
        }
      }
    }
  }

  /** `m2` differs from `m1` at most in paths and properties. */
  ghost predicate SameShape(m1: Arena, m2: Arena) {
    m1.Keys == m2.Keys
    && forall k :: k in m1 ==>
      m2[k].id == m1[k].id && m2[k].parent == m1[k].parent && m2[k].children == m1[k].children
  }

  /** Paths and properties play no part in well-formedness or the listing. */
  lemma {:induction false} ShapeFlat(m1: Arena, m2: Arena, n: nat, h: Handle)
    requires WF(m1, n) && SameShape(m1, m2) && h in m1
    ensures WF(m2, n) && Flat(m2, n, h) == Flat(m1, n, h)
    decreases n - h
  {
    var ks := m1[h].children;
    forall i | 0 <= i < |ks| ensures Flat(m2, n, ks[i]) == Flat(m1, n, ks[i]) {
      ShapeFlat(m1, m2, n, ks[i]);
    }
    FlatSeqFrame(m1, n, m2, n, h, ks);
  }

  /** Replacing the properties of `x` changes the value of its subtree in
      that one field. */
  lemma SetPropsView(m: Arena, n: nat, x: Handle, props: Props)
    requires WF(m, n) && x in m
    ensures WF(SetProps(m, x, props), n)
    ensures Flat(SetProps(m, x, props), n, x) == Flat(m, n, x)
    ensures View(SetProps(m, x, props), n, x) == View(m, n, x).(props := props)
  {
    var m2 := SetProps(m, x, props);
    SetPropsWF(m, n, x, props);
    var ks := m[x].children;
    forall i | 0 <= i < |ks|
      ensures Flat(m2, n, ks[i]) == Flat(m, n, ks[i]) && View(m2, n, ks[i]) == View(m, n, ks[i])
    {
      FlatBounds(m, n, ks[i]);
      SubtreeKept(m, n, m2, n, ks[i]);
    }
    FlatSeqFrame(m, n, m2, n, x, ks);
    assert View(m2, n, x).children == View(m, n, x).children;
  }

  /** When every edit lies inside the subtree of the `j`-th child of `s`,
      the value of `s` changes in that child alone. */
  lemma ReplaceChildView(m1: Arena, n1: nat, m2: Arena, n2: nat, s: Handle, j: nat)
    requires WF(m1, n1) && WF(m2, n2) && s in m1 && j < |m1[s].children|
    requires m1[s].children[j] in m2
    requires forall k :: k in m1 && k !in Flat(m1, n1, m1[s].children[j]) ==> k in m2 && m2[k] == m1[k]
    ensures s in m2 && m2[s] == m1[s]
    ensures View(m2, n2, s) == View(m1, n1, s).(children := View(m1, n1, s).children[j := View(m2, n2, m1[s].children[j])])
  {
    var ks := m1[s].children;
    FlatBounds(m1, n1, ks[j]);
    assert s !in Flat(m1, n1, ks[j]);
    forall i | 0 <= i < |ks| && i != j ensures View(m2, n2, ks[i]) == View(m1, n1, ks[i]) {
      forall k | k in Flat(m1, n1, ks[i]) ensures k in m1 && k in m2 && m2[k] == m1[k] {
        FlatBounds(m1, n1, ks[i]);
        SiblingsDisjoint(m1, n1, s, i, j, k);
      }
      SubtreeKept(m1, n1, m2, n2, ks[i]);
    }
  }

  /** An orphan lies in no subtree but its own. */
  lemma OrphanOutside(m: Arena, n: nat, x: Handle, c: Handle)
    requires WF(m, n) && x in m
    ensures Orphan(m, c) && c != x ==> c !in Flat(m, n, x)
  {
    if c in Flat(m, n, x) && c != x {
      NotOrphanBelow(m, n, x, c);
    }
  }

  /** Attaching the orphan `c` under `p` appends the value of `c` to the
      children of the value of `p`. */
  lemma AttachView(m: Arena, n: nat, p: Handle, c: Handle)
    requires WF(m, n) && p in m && c in m && p < c && Orphan(m, c)
    ensures WF(Attach(m, p, c), n)
    ensures View(Attach(m, p, c), n, p) == View(m, n, p).(children := View(m, n, p).children + [View(m, n, c)])
  {
    AttachWF(m, n, p, c);
    var m2 := Attach(m, p, c);
    var ks := m[p].children;
    forall i | 0 <= i < |ks| ensures View(m2, n, ks[i]) == View(m, n, ks[i]) {
      OrphanOutside(m, n, ks[i], c);
      assert c != ks[i];
      AttachFrame(m, n, p, c, ks[i]);
    }
    AttachFrame(m, n, p, c, c);
    assert m2[p].children == ks + [c];
    var v, v2, w := View(m, n, p), View(m2, n, p), View(m, n, c);
    forall i | 0 <= i < |v2.children| ensures v2.children[i] == (v.children + [w])[i] {
      if i < |ks| {
        assert v2.children[i] == View(m2, n, ks[i]);
      }
    }
    assert v2.children == v.children + [w];
  }

  /** Attaching `c` under `p` changes no subtree that holds neither `p` nor
      (below its root) `c`. */
  lemma AttachFrame(m: Arena, n: nat, p: Handle, c: Handle, x: Handle)
    requires WF(m, n) && p in m && c in m && p < c && Orphan(m, c)
    requires x in m && p < x && (x == c || c !in Flat(m, n, x))
    ensures WF(Attach(m, p, c), n)
    ensures Flat(Attach(m, p, c), n, x) == Flat(m, n, x)
    ensures View(Attach(m, p, c), n, x) == View(m, n, x)
    ensures Linked(Attach(m, p, c), n, x) == Linked(m, n, x)
    ensures x != c ==> Attach(m, p, c)[x].parent == m[x].parent
  {
    AttachWF(m, n, p, c);
    FlatBounds(m, n, x);
    SubtreeFrame(m, n, Attach(m, p, c), n, x);
  }
}
