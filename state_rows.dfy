/** The state-map and relationship-table bookkeeping of the stateful nodes:
    finding a node's row, the comma-joined uuid lists a row holds, the
    upsert New Datablock performs, and the relationship clearing of Set
    Object Data. */
module StateRows {
  import opened Base
  import opened Strings
  import opened NodeTreeData

  // ---------------------------------------------------------------------
  // Finding a row: `next((item for item in tree.fn_state_map if ...), None)`

  /** The first row of the node, whatever its socket. */
  function FirstByNode(rows: seq<StateRow>, nodeId: string): (r: Option<nat>)
    ensures r.Some? ==> r.value < |rows| && rows[r.value].nodeId == nodeId
    ensures r.Some? ==> forall j :: 0 <= j < r.value ==> rows[j].nodeId != nodeId
    ensures r.None? ==> forall j :: 0 <= j < |rows| ==> rows[j].nodeId != nodeId
  {
    if rows == [] then None
    else if rows[0].nodeId == nodeId then Some(0)
    else match FirstByNode(rows[1..], nodeId)
      case None => None
      case Some(k) => Some(k + 1)
  }

  predicate RowOf(row: StateRow, nodeId: string, socket: string) {
    row.nodeId == nodeId && row.socket == socket
  }

  /** The first row of the node for one output socket. */
  function FirstBySocket(rows: seq<StateRow>, nodeId: string, socket: string): (r: Option<nat>)
    ensures r.Some? ==> r.value < |rows| && RowOf(rows[r.value], nodeId, socket)
    ensures r.Some? ==> forall j :: 0 <= j < r.value ==> !RowOf(rows[j], nodeId, socket)
    ensures r.None? ==> forall j :: 0 <= j < |rows| ==> !RowOf(rows[j], nodeId, socket)
  {
    if rows == [] then None
    else if RowOf(rows[0], nodeId, socket) then Some(0)
    else match FirstBySocket(rows[1..], nodeId, socket)
      case None => None
      case Some(k) => Some(k + 1)
  }

  /** A row appended with `fn_state_map.add()` and its node id set. */
  function NewRow(nodeId: string): StateRow {
    StateRow(nodeId, "", "")
  }

  // ---------------------------------------------------------------------
  // The uuid list of a row

  /** `uuids.split(',') if uuids else []`. */
  function Pieces(s: string): seq<string> {
    if s == "" then [] else Split(s, ",")
  }

  /** The pieces joined back give the string. */
  lemma JoinPieces(s: string)
    ensures Join(Pieces(s), ",") == s
  {
    if s != "" {
      JoinSplit(s, ",");
    }
  }

  /** Import's update of a uuid list: append `u` unless it is listed, and
      join with commas. */
  function AddUuid(s: string, u: Uuid): string {
    var cur := Pieces(s);
    Join(if u in cur then cur else cur + [u], ",")
  }

  /** The list after adding is the list before, with `u` appended when it was
      missing: earlier entries are kept in order and `u` ends up listed, as
      often as before when it was there and exactly once otherwise. */
  lemma AddUuidPieces(s: string, u: Uuid)
    requires u != "" && ',' !in u
    ensures Pieces(AddUuid(s, u)) == Pieces(s) + (if u in Pieces(s) then [] else [u])
    ensures u in Pieces(AddUuid(s, u))
    ensures multiset(Pieces(AddUuid(s, u)))[u] == if u in Pieces(s) then multiset(Pieces(s))[u] else 1
  {
    var cur := Pieces(s);
    if u in cur {
      JoinPieces(s);
    } else {
      var xs := cur + [u];
      if s != "" {
        SplitPiecesFree(s, ',');
      }
      assert forall i :: 0 <= i < |xs| ==> ',' !in xs[i] by {
        forall i | 0 <= i < |xs| ensures ',' !in xs[i] {
          if i < |cur| { assert xs[i] == cur[i]; }
        }
      }
      SplitJoin(xs, ',');
      assert multiset(xs)[u] == multiset(cur)[u] + 1;
    }
  }

  /** Adding a uuid twice is adding it once. */
  lemma AddUuidIdempotent(s: string, u: Uuid)
    requires u != "" && ',' !in u
    ensures AddUuid(AddUuid(s, u), u) == AddUuid(s, u)
  {
    var t := AddUuid(s, u);
    AddUuidPieces(s, u);
    JoinPieces(t);
  }

  // ---------------------------------------------------------------------
  // Derive's record `'{source_uuid},{copy_uuid}'`

  /** The row text Derive writes. */
  function Format(source: Uuid, copy: Uuid): string {
    source + "," + copy
  }

  /** A recorded state counts only when it splits into exactly two parts. */
  function Recorded(s: string): Option<(Uuid, Uuid)> {
    if s != "" && |Split(s, ",")| == 2 then Some((Split(s, ",")[0], Split(s, ",")[1])) else None
  }

  /** A record reads back as the pair it was written from, and only the
      text of a comma-free pair reads as a record. */
  lemma RecordedFormat(s: string, a: Uuid, b: Uuid)
    ensures Recorded(s) == Some((a, b)) <==> s == Format(a, b) && ',' !in a && ',' !in b
  {
    if s == Format(a, b) && ',' !in a && ',' !in b {
      SplitConcat(a, ',', b);
      SplitAbsent(a, ',');
      SplitAbsent(b, ',');
      assert s == a + [','] + b;
    }
    if Recorded(s) == Some((a, b)) {
      var parts := Split(s, ",");
      JoinSplit(s, ",");
      SplitPiecesFree(s, ',');
      assert Join(parts, ",") == parts[0] + "," + Join(parts[1..], ",");
      assert parts[1..] == [b];
      assert ',' !in parts[0] && ',' !in parts[1];
    }
  }

  /** `not managed_copy or current_source_uuid != previous_source_uuid`. */
  predicate ShouldCreate(previous: Option<Uuid>, managed: Option<DbRef>, current: Uuid) {
    managed.None? || previous != Some(current)
  }

  /** The record left by deriving `copy` from `source`, with the copy still
      registered, makes the next run reuse that copy for the same source and
      derive again for any other source. */
  lemma ReuseAfterDerive(source: Uuid, copy: Uuid, copyRef: DbRef, next: Uuid)
    requires ',' !in source && ',' !in copy
    ensures Recorded(Format(source, copy)) == Some((source, copy))
    ensures ShouldCreate(Some(Recorded(Format(source, copy)).value.0), Some(copyRef), next) <==> next != source
  {
    RecordedFormat(Format(source, copy), source, copy);
  }

  // ---------------------------------------------------------------------
  // New Datablock's upsert

  /** The first row of the node and socket gets `u` as its whole list, or a
      row is appended when there is none. */
  function Upsert(rows: seq<StateRow>, nodeId: string, socket: string, u: Uuid): seq<StateRow> {
    match FirstBySocket(rows, nodeId, socket)
    case Some(i) => rows[i := rows[i].(uuids := u)]
    case None => rows + [StateRow(nodeId, socket, u)]
  }

  /** After the upsert the node's row for the socket holds exactly `u`; it is
      the row that was found, or a new last row; no other row changes. */
  lemma UpsertFinds(rows: seq<StateRow>, nodeId: string, socket: string, u: Uuid)
    ensures var r, i := Upsert(rows, nodeId, socket, u), FirstBySocket(rows, nodeId, socket);
      FirstBySocket(r, nodeId, socket).Some?
      && r[FirstBySocket(r, nodeId, socket).value].uuids == u
      && (i.Some? ==> |r| == |rows| && FirstBySocket(r, nodeId, socket) == i)
      && (i.None? ==> |r| == |rows| + 1 && FirstBySocket(r, nodeId, socket) == Some(|rows|))
      && forall j :: 0 <= j < |rows| && Some(j) != i ==> r[j] == rows[j]
  {
    var r := Upsert(rows, nodeId, socket, u);
    match FirstBySocket(rows, nodeId, socket)
    case Some(i) =>
      FirstAt(r, nodeId, socket, i);
    case None =>
      FirstAt(r, nodeId, socket, |rows|);
  }

  /** A row of the node and socket with none before it is the first one. */
  lemma FirstAt(rows: seq<StateRow>, nodeId: string, socket: string, i: nat)
    requires i < |rows| && RowOf(rows[i], nodeId, socket)
    requires forall j :: 0 <= j < i ==> !RowOf(rows[j], nodeId, socket)
    ensures FirstBySocket(rows, nodeId, socket) == Some(i)
  {
  }

  /** Upserting the same uuid again changes nothing. */
  lemma UpsertIdempotent(rows: seq<StateRow>, nodeId: string, socket: string, u: Uuid)
    ensures Upsert(Upsert(rows, nodeId, socket, u), nodeId, socket, u) == Upsert(rows, nodeId, socket, u)
  {
    UpsertFinds(rows, nodeId, socket, u);
    var r := Upsert(rows, nodeId, socket, u);
    var k := FirstBySocket(r, nodeId, socket).value;
    assert r[k := r[k].(uuids := u)] == r;
  }

  /** The loop of New Datablock: the first matching row is overwritten and
      the loop breaks; with no match a row is appended. */
  method UpsertRows(tree: DatablockTree, nodeId: string, socket: string, u: Uuid)
    modifies tree
    ensures tree.stateMap == Upsert(old(tree.stateMap), nodeId, socket, u)
    ensures tree.relationships == old(tree.relationships) && tree.overrides == old(tree.overrides)
    ensures tree.initialStates == old(tree.initialStates)
  {
    var found := false;
    var i := 0;
    while i < |tree.stateMap|
      invariant 0 <= i <= |tree.stateMap| == |old(tree.stateMap)|
      invariant tree.relationships == old(tree.relationships) && tree.overrides == old(tree.overrides)
      invariant tree.initialStates == old(tree.initialStates)
      invariant !found ==>
        (tree.stateMap == old(tree.stateMap) && forall j :: 0 <= j < i ==> !RowOf(tree.stateMap[j], nodeId, socket))
      invariant found ==> tree.stateMap == Upsert(old(tree.stateMap), nodeId, socket, u)
    {
      if RowOf(tree.stateMap[i], nodeId, socket) {
        FirstAt(tree.stateMap, nodeId, socket, i);
        tree.stateMap := tree.stateMap[i := tree.stateMap[i].(uuids := u)];
        found := true;
        break;
      }
      i := i + 1;
    }
    if !found {
      tree.stateMap := tree.stateMap + [StateRow(nodeId, socket, u)];
    }
  }

  // ---------------------------------------------------------------------
  // Set Object Data's relationship clearing

  /** A data-assignment row of this node for this object; an untagged object
      (`get_uuid` gives None) matches no row. */
  predicate DataRel(row: RelRow, nodeId: string, objUuid: Option<Uuid>) {
    row.nodeId == nodeId && objUuid == Some(row.source) && StartsWith(row.relType, "OBJECT_DATA_ASSIGN")
  }

  /** The rows that are not such rows, in their order. */
  function Unmatched(rows: seq<RelRow>, nodeId: string, objUuid: Option<Uuid>): (r: seq<RelRow>)
    ensures |r| <= |rows|
  {
    if rows == [] then []
    else (if DataRel(rows[0], nodeId, objUuid) then [] else [rows[0]]) + Unmatched(rows[1..], nodeId, objUuid)
  }

  /** Clearing keeps exactly the other rows. */
  lemma {:induction false} UnmatchedExactly(rows: seq<RelRow>, nodeId: string, objUuid: Option<Uuid>)
    ensures forall x :: x in Unmatched(rows, nodeId, objUuid) <==> x in rows && !DataRel(x, nodeId, objUuid)
  {
    if rows != [] {
      UnmatchedExactly(rows[1..], nodeId, objUuid);
      assert rows == [rows[0]] + rows[1..];
    }
  }

  lemma {:induction false} UnmatchedConcat(a: seq<RelRow>, b: seq<RelRow>, nodeId: string, objUuid: Option<Uuid>)
    ensures Unmatched(a + b, nodeId, objUuid) == Unmatched(a, nodeId, objUuid) + Unmatched(b, nodeId, objUuid)
  {
    if a != [] {
      assert (a + b)[0] == a[0];
      assert (a + b)[1..] == a[1..] + b;
      UnmatchedConcat(a[1..], b, nodeId, objUuid);
    } else {
      assert a + b == b;
    }
  }

  /** The indices of matching rows, ascending, without repeats. */
  ghost predicate MatchIndices(rows: seq<RelRow>, nodeId: string, objUuid: Option<Uuid>, idx: seq<nat>) {
    (forall k :: 0 <= k < |idx| ==> idx[k] < |rows|)
    && (forall k, l :: 0 <= k < l < |idx| ==> idx[k] < idx[l])
    && forall p :: 0 <= p < |rows| ==> (DataRel(rows[p], nodeId, objUuid) <==> p in idx)
  }

  /** `for i, rel_item in enumerate(...)`: the matching indices. */
  method CollectMatches(tree: DatablockTree, nodeId: string, objUuid: Option<Uuid>) returns (idx: seq<nat>)
    ensures MatchIndices(tree.relationships, nodeId, objUuid, idx)
  {
    idx := [];
    var i := 0;
    while i < |tree.relationships|
      invariant 0 <= i <= |tree.relationships|
      invariant forall k :: 0 <= k < |idx| ==> idx[k] < i
      invariant forall k, l :: 0 <= k < l < |idx| ==> idx[k] < idx[l]
      invariant forall p :: 0 <= p < i ==> (DataRel(tree.relationships[p], nodeId, objUuid) <==> p in idx)
    {
      if DataRel(tree.relationships[i], nodeId, objUuid) {
        idx := idx + [i];
      }
      i := i + 1;
    }
  }

  /** `for i in sorted(indices, reverse=True): remove(i)`: deleting from the
      highest index down leaves every lower index in place, so exactly the
      matching rows go. */
  method RemoveDescending(tree: DatablockTree, idx: seq<nat>, nodeId: string, objUuid: Option<Uuid>)
    requires MatchIndices(tree.relationships, nodeId, objUuid, idx)
    modifies tree
    ensures tree.relationships == Unmatched(old(tree.relationships), nodeId, objUuid)
    ensures tree.stateMap == old(tree.stateMap) && tree.overrides == old(tree.overrides)
    ensures tree.initialStates == old(tree.initialStates)
  {
    ghost var rows := tree.relationships;
    var j := |idx|;
    assert rows[..|rows|] == rows;
    while j > 0
      invariant 0 <= j <= |idx|
      invariant tree.stateMap == old(tree.stateMap) && tree.overrides == old(tree.overrides)
      invariant tree.initialStates == old(tree.initialStates)
      invariant Bound(rows, idx, j) <= |rows| && tree.relationships == Partial(rows, Bound(rows, idx, j), nodeId, objUuid)
    {
      var a := idx[j - 1];
      RemoveStep(rows, idx, j, nodeId, objUuid);
      tree.relationships := tree.relationships[..a] + tree.relationships[a + 1..];
      j := j - 1;
    }
    FirstGap(rows, idx, nodeId, objUuid);
  }

  /** The index below which no deletion has happened yet, once the matches
      from the `j`-th on are deleted. */
  function Bound(rows: seq<RelRow>, idx: seq<nat>, j: nat): nat
    requires j <= |idx|
  {
    if j == |idx| then |rows| else idx[j]
  }

  /** The table once the matches at or above `b` are deleted. */
  function Partial(rows: seq<RelRow>, b: nat, nodeId: string, objUuid: Option<Uuid>): seq<RelRow>
    requires b <= |rows|
  {
    rows[..b] + Unmatched(rows[b..], nodeId, objUuid)
  }

  /** One deletion: the rows strictly between two consecutive matches are
      kept as they are. */
  lemma RemoveStep(rows: seq<RelRow>, idx: seq<nat>, j: nat, nodeId: string, objUuid: Option<Uuid>)
    requires MatchIndices(rows, nodeId, objUuid, idx) && 0 < j <= |idx|
    ensures idx[j - 1] < Bound(rows, idx, j) <= |rows|
    ensures var a, s := idx[j - 1], Partial(rows, Bound(rows, idx, j), nodeId, objUuid);
      s[..a] + s[a + 1..] == Partial(rows, a, nodeId, objUuid)
  {
    var a, b := idx[j - 1], Bound(rows, idx, j);
    GapFree(rows, idx, j, a + 1, b, nodeId, objUuid);
    KeptBlock(rows, a + 1, b, nodeId, objUuid);
    DeleteMatch(rows, a, b, nodeId, objUuid);
  }

  /** Deleting a matching row `a` followed by rows up to `b` that clearing
      keeps. */
  lemma DeleteMatch(rows: seq<RelRow>, a: nat, b: nat, nodeId: string, objUuid: Option<Uuid>)
    requires a < b <= |rows| && DataRel(rows[a], nodeId, objUuid)
    requires Unmatched(rows[a + 1..], nodeId, objUuid) == rows[a + 1..b] + Unmatched(rows[b..], nodeId, objUuid)
    ensures var s := Partial(rows, b, nodeId, objUuid);
      s[..a] + s[a + 1..] == Partial(rows, a, nodeId, objUuid)
  {
    UnmatchedSkip(rows, a, nodeId, objUuid);
    SpliceOut(rows, a, b, Unmatched(rows[b..], nodeId, objUuid));
  }

  /** Clearing from a matching row on is clearing from the next row on. */
  lemma UnmatchedSkip(rows: seq<RelRow>, a: nat, nodeId: string, objUuid: Option<Uuid>)
    requires a < |rows| && DataRel(rows[a], nodeId, objUuid)
    ensures Unmatched(rows[a..], nodeId, objUuid) == Unmatched(rows[a + 1..], nodeId, objUuid)
  {
    assert rows[a..][0] == rows[a] && rows[a..][1..] == rows[a + 1..];
  }

  /** Taking element `a` out of a prefix of `s` extended by `t`. */
  lemma SpliceOut<T>(s: seq<T>, a: nat, b: nat, t: seq<T>)
    requires a < b <= |s|
    ensures var u := s[..b] + t; u[..a] + u[a + 1..] == s[..a] + (s[a + 1..b] + t)
  {
    var u := s[..b] + t;
    assert u[..a] == s[..a];
    assert u[a + 1..] == s[a + 1..b] + t;
  }

  /** No row before the first match matches, so once every match is
      deleted the table is the cleared one. */
  lemma FirstGap(rows: seq<RelRow>, idx: seq<nat>, nodeId: string, objUuid: Option<Uuid>)
    requires MatchIndices(rows, nodeId, objUuid, idx)
    ensures Bound(rows, idx, 0) <= |rows|
    ensures Partial(rows, Bound(rows, idx, 0), nodeId, objUuid) == Unmatched(rows, nodeId, objUuid)
  {
    var b := Bound(rows, idx, 0);
    GapFree(rows, idx, 0, 0, b, nodeId, objUuid);
    KeptBlock(rows, 0, b, nodeId, objUuid);
    assert rows[..b] == rows[0..b];
    assert rows == rows[0..];
  }

  /** No row strictly between two consecutive matches matches. */
  lemma GapFree(rows: seq<RelRow>, idx: seq<nat>, j: nat, lo: nat, b: nat, nodeId: string, objUuid: Option<Uuid>)
    requires MatchIndices(rows, nodeId, objUuid, idx) && j <= |idx|
    requires b == (if j == |idx| then |rows| else idx[j])
    requires (j == 0 ==> lo == 0) && (j > 0 ==> lo == idx[j - 1] + 1)
    ensures lo <= b <= |rows|
    ensures forall p :: lo <= p < b ==> !DataRel(rows[p], nodeId, objUuid)
  {
    forall p | lo <= p < b ensures !DataRel(rows[p], nodeId, objUuid) {
      forall k | 0 <= k < |idx| ensures idx[k] != p {
        if k < j - 1 {
          assert idx[k] < idx[j - 1];
        } else if j < k {
          assert idx[j] < idx[k];
        }
      }
    }
  }

  /** A block of rows that do not match passes through clearing unchanged. */
  lemma KeptBlock(rows: seq<RelRow>, lo: nat, b: nat, nodeId: string, objUuid: Option<Uuid>)
    requires lo <= b <= |rows| && forall p :: lo <= p < b ==> !DataRel(rows[p], nodeId, objUuid)
    ensures Unmatched(rows[lo..], nodeId, objUuid) == rows[lo..b] + Unmatched(rows[b..], nodeId, objUuid)
  {
    var mid := rows[lo..b];
    forall j | 0 <= j < |mid| ensures !DataRel(mid[j], nodeId, objUuid) {
      assert mid[j] == rows[lo + j];
    }
    UnmatchedNone(mid, nodeId, objUuid);
    assert rows[lo..] == mid + rows[b..];
    UnmatchedConcat(mid, rows[b..], nodeId, objUuid);
  }

  /** Clearing rows none of which match changes nothing. */
  lemma {:induction false} UnmatchedNone(rows: seq<RelRow>, nodeId: string, objUuid: Option<Uuid>)
    requires forall j :: 0 <= j < |rows| ==> !DataRel(rows[j], nodeId, objUuid)
    ensures Unmatched(rows, nodeId, objUuid) == rows
  {
    if rows != [] {
      var rest := rows[1..];
      assert forall j :: 0 <= j < |rest| ==> rest[j] == rows[j + 1];
      UnmatchedNone(rest, nodeId, objUuid);
      assert rows == [rows[0]] + rest;
    }
  }

  /** Clearing twice is clearing once. */
  lemma UnmatchedIdempotent(rows: seq<RelRow>, nodeId: string, objUuid: Option<Uuid>)
    ensures Unmatched(Unmatched(rows, nodeId, objUuid), nodeId, objUuid) == Unmatched(rows, nodeId, objUuid)
  {
    var once := Unmatched(rows, nodeId, objUuid);
    UnmatchedExactly(rows, nodeId, objUuid);
    assert forall j :: 0 <= j < |once| ==> !DataRel(once[j], nodeId, objUuid) by {
      forall j | 0 <= j < |once| ensures !DataRel(once[j], nodeId, objUuid) {
        assert once[j] in once;
      }
    }
    UnmatchedNone(once, nodeId, objUuid);
  }

  /** The relationship type Set Object Data records for a data type. */
  function AssignType(dataType: string): string {
    "OBJECT_DATA_ASSIGN_" + dataType
  }

  /** A row recorded by an assignment is one the clearing of the same node
      and object removes: assigning and then clearing leaves what clearing
      alone leaves. */
  lemma AssignThenClear(rows: seq<RelRow>, nodeId: string, u: Uuid, target: Uuid, dataType: string)
    ensures Unmatched(rows + [RelRow(nodeId, u, target, AssignType(dataType))], nodeId, Some(u))
      == Unmatched(rows, nodeId, Some(u))
  {
    var row := RelRow(nodeId, u, target, AssignType(dataType));
    assert AssignType(dataType)[..|"OBJECT_DATA_ASSIGN"|] == "OBJECT_DATA_ASSIGN";
    assert DataRel(row, nodeId, Some(u));
    UnmatchedConcat(rows, [row], nodeId, Some(u));
    assert Unmatched([row], nodeId, Some(u)) == [] + Unmatched([row][1..], nodeId, Some(u));
  }

  // ---------------------------------------------------------------------
  // The rows keyed by node id alone (Derive, get-or-create)

  /** Derive's write `map_item.datablock_uuids = text` on the node's first
      row, after adding a row with only the node id when there is none. */
  function Record(rows: seq<StateRow>, nodeId: string, text: string): seq<StateRow> {
    match FirstByNode(rows, nodeId)
    case Some(i) => rows[i := rows[i].(uuids := text)]
    case None => rows + [StateRow(nodeId, "", text)]
  }

  /** Derive with no source: the node's first row, if any, is emptied. */
  function Cleared(rows: seq<StateRow>, nodeId: string): seq<StateRow> {
    Cleared'(rows, nodeId, FirstByNode(rows, nodeId))
  }

  function Cleared'(rows: seq<StateRow>, nodeId: string, i: Option<nat>): seq<StateRow>
    requires i.Some? ==> i.value < |rows|
  {
    if i.Some? then rows[i.value := rows[i.value].(uuids := "")] else rows
  }

  /** A row of the node with none before it is the node's first row. */
  lemma FirstByNodeAt(rows: seq<StateRow>, nodeId: string, i: nat)
    requires i < |rows| && rows[i].nodeId == nodeId
    requires forall j :: 0 <= j < i ==> rows[j].nodeId != nodeId
    ensures FirstByNode(rows, nodeId) == Some(i)
  {
  }

  /** After recording, the node's first row holds exactly `text`: the row
      that was there, or one new last row when the node had none; no other
      row changes. */
  lemma RecordFinds(rows: seq<StateRow>, nodeId: string, text: string)
    ensures var r, i := Record(rows, nodeId, text), FirstByNode(rows, nodeId);
      FirstByNode(r, nodeId).Some? && r[FirstByNode(r, nodeId).value].uuids == text
      && (i.Some? ==> |r| == |rows| && FirstByNode(r, nodeId) == i)
      && (i.None? ==> |r| == |rows| + 1 && FirstByNode(r, nodeId) == Some(|rows|))
      && forall j :: 0 <= j < |rows| && Some(j) != i ==> r[j] == rows[j]
  {
    var r := Record(rows, nodeId, text);
    match FirstByNode(rows, nodeId)
    case Some(i) =>
      FirstByNodeAt(r, nodeId, i);
    case None =>
      FirstByNodeAt(r, nodeId, |rows|);
  }

  /** Recording the same text again changes nothing, and a record written
      after clearing is the record written without it: one row per node. */
  lemma RecordSettles(rows: seq<StateRow>, nodeId: string, text: string)
    ensures Record(Record(rows, nodeId, text), nodeId, text) == Record(rows, nodeId, text)
    ensures Record(Cleared(rows, nodeId), nodeId, text) == Record(rows, nodeId, text)
  {
    RecordFinds(rows, nodeId, text);
    var r := Record(rows, nodeId, text);
    var k := FirstByNode(r, nodeId).value;
    assert r[k := r[k].(uuids := text)] == r;
    match FirstByNode(rows, nodeId)
    case Some(i) =>
      var c := Cleared(rows, nodeId);
      FirstByNodeAt(c, nodeId, i);
      assert c[i := c[i].(uuids := text)] == r;
    case None =>
  }

  /** The record Derive reads: the node's first row, split into
      `(source, copy)` when it is one. */
  function RecordOf(rows: seq<StateRow>, nodeId: string): Option<(Uuid, Uuid)> {
    match FirstByNode(rows, nodeId)
    case Some(i) => Recorded(rows[i].uuids)
    case None => None
  }

  /** What Derive writes reads back as what it wrote. */
  lemma RecordRoundTrip(rows: seq<StateRow>, nodeId: string, source: Uuid, copy: Uuid)
    requires ',' !in source && ',' !in copy
    ensures RecordOf(Record(rows, nodeId, Format(source, copy)), nodeId) == Some((source, copy))
  {
    RecordFinds(rows, nodeId, Format(source, copy));
    RecordedFormat(Format(source, copy), source, copy);
  }

  // ---------------------------------------------------------------------
  // Import's promotion and listing

  /** Whether the node's socket row already lists the datablock's uuid. */
  predicate ManagedHere(rows: seq<StateRow>, nodeId: string, socket: string, cur: Option<Uuid>) {
    match FirstBySocket(rows, nodeId, socket)
    case Some(i) => rows[i].uuids != "" && cur.Some? && cur.value in Split(rows[i].uuids, ",")
    case None => false
  }

  /** `not get_uuid(datablock) or not is_managed_by_this_node`. */
  predicate MustPromote(rows: seq<StateRow>, nodeId: string, socket: string, cur: Option<Uuid>) {
    cur.None? || cur.value == "" || !ManagedHere(rows, nodeId, socket, cur)
  }

  /** The promotion's write: `u` added to the socket row found before; with
      no such row, a new row carrying only the node id and `u`. */
  function Promoted(rows: seq<StateRow>, nodeId: string, socket: string, u: Uuid): seq<StateRow> {
    match FirstBySocket(rows, nodeId, socket)
    case Some(i) => rows[i := rows[i].(uuids := AddUuid(rows[i].uuids, u))]
    case None => rows + [StateRow(nodeId, "", u)]
  }

  /** The socket row found again, or appended empty, with `u` added. */
  function Listed(rows: seq<StateRow>, nodeId: string, socket: string, u: Uuid): seq<StateRow> {
    match FirstBySocket(rows, nodeId, socket)
    case Some(i) => rows[i := rows[i].(uuids := AddUuid(rows[i].uuids, u))]
    case None => rows + [StateRow(nodeId, socket, AddUuid("", u))]
  }

  /** The state map after an import of a datablock whose uuid was `cur`
      and is `u` after promotion. */
  function Imported(rows: seq<StateRow>, nodeId: string, socket: string, cur: Option<Uuid>, u: Uuid): seq<StateRow> {
    Listed(if MustPromote(rows, nodeId, socket, cur) then Promoted(rows, nodeId, socket, u) else rows, nodeId, socket, u)
  }

  /** When the node has a socket row, an import adds `u` to that row once
      (keeping its earlier uuids in order) and touches no other row. */
  lemma ImportExisting(rows: seq<StateRow>, nodeId: string, socket: string, cur: Option<Uuid>, u: Uuid, i: nat)
    requires u != "" && ',' !in u && FirstBySocket(rows, nodeId, socket) == Some(i)
    ensures Imported(rows, nodeId, socket, cur, u) == rows[i := rows[i].(uuids := AddUuid(rows[i].uuids, u))]
    ensures Pieces(AddUuid(rows[i].uuids, u)) == Pieces(rows[i].uuids) + (if u in Pieces(rows[i].uuids) then [] else [u])
  {
    AddUuidPieces(rows[i].uuids, u);
    if MustPromote(rows, nodeId, socket, cur) {
      ListedAfterPromoted(rows, nodeId, socket, u, i);
    }
  }

  /** Listing after a promotion into an existing row adds nothing more. */
  lemma ListedAfterPromoted(rows: seq<StateRow>, nodeId: string, socket: string, u: Uuid, i: nat)
    requires u != "" && ',' !in u && FirstBySocket(rows, nodeId, socket) == Some(i)
    ensures Listed(Promoted(rows, nodeId, socket, u), nodeId, socket, u) == Promoted(rows, nodeId, socket, u)
  {
    var p := Promoted(rows, nodeId, socket, u);
    FirstAt(p, nodeId, socket, i);
    AddUuidIdempotent(rows[i].uuids, u);
    assert p[i := p[i].(uuids := AddUuid(p[i].uuids, u))] == p;
  }

  /** On a node's first import with a socket identifier, two rows are
      appended: one with only the node id, one keyed by the socket, each
      holding `u`. */
  lemma ImportFirstRun(rows: seq<StateRow>, nodeId: string, socket: string, cur: Option<Uuid>, u: Uuid)
    requires u != "" && ',' !in u && FirstBySocket(rows, nodeId, socket).None? && socket != ""
    ensures Imported(rows, nodeId, socket, cur, u) == rows + [StateRow(nodeId, "", u), StateRow(nodeId, socket, u)]
  {
    var p := rows + [StateRow(nodeId, "", u)];
    assert !RowOf(p[|rows|], nodeId, socket);
    assert FirstBySocket(p, nodeId, socket).None?;
    assert AddUuid("", u) == u by {
      assert Pieces("") == [];
      assert Join([u], ",") == u;
    }
  }

  /** A second import of the same datablock promotes nothing and leaves
      the state map as the first left it. */
  lemma ImportSettles(rows: seq<StateRow>, nodeId: string, socket: string, cur: Option<Uuid>, u: Uuid)
    requires u != "" && ',' !in u
    ensures !MustPromote(Imported(rows, nodeId, socket, cur, u), nodeId, socket, Some(u))
    ensures Imported(Imported(rows, nodeId, socket, cur, u), nodeId, socket, Some(u), u) == Imported(rows, nodeId, socket, cur, u)
  {
    var r := Imported(rows, nodeId, socket, cur, u);
    var j := ImportedRow(rows, nodeId, socket, cur, u);
    var t := r[j].uuids;
    assert Pieces(t) == Split(t, ",");
    JoinPieces(t);
    assert AddUuid(t, u) == t;
    assert r[j := r[j].(uuids := t)] == r;
  }

  /** After an import the node's socket row lists `u`. */
  lemma ImportedRow(rows: seq<StateRow>, nodeId: string, socket: string, cur: Option<Uuid>, u: Uuid) returns (j: nat)
    requires u != "" && ',' !in u
    ensures var r := Imported(rows, nodeId, socket, cur, u);
      FirstBySocket(r, nodeId, socket) == Some(j) && r[j].uuids != "" && u in Pieces(r[j].uuids)
  {
    var p := if MustPromote(rows, nodeId, socket, cur) then Promoted(rows, nodeId, socket, u) else rows;
    var r := Listed(p, nodeId, socket, u);
    match FirstBySocket(p, nodeId, socket)
    case Some(i) =>
      j := i;
      AddUuidPieces(p[i].uuids, u);
      FirstAt(r, nodeId, socket, i);
    case None =>
      j := |p|;
      AddUuidPieces("", u);
      FirstAt(r, nodeId, socket, j);
  }
}
