/** User-override detection: the diff of two property snapshots, and the
    handler that layers new diffs over the stored override record of a
    managed datablock. */
module OverrideHandler {
  import opened Base
  import opened HostStore
  import opened NodeTreeData

  /** `_calculate_overrides(initial, current)`: the keys of either snapshot
      whose values differ, each with its current value (None when the key is
      gone from the current snapshot). */
  function CalculateOverrides(initial: Props, current: Props): (r: Props)
    ensures forall k :: k in r <==> Get(initial, k) != Get(current, k)
    ensures forall k :: k in r ==> r[k] == Get(current, k)
  {
    map k | k in initial.Keys + current.Keys && Get(initial, k) != Get(current, k) :: Get(current, k)
  }

  /** A snapshot compared with itself has no overrides. */
  lemma NoSelfOverrides(s: Props)
    ensures CalculateOverrides(s, s) == map[]
  {
    assert forall k :: k !in CalculateOverrides(s, s);
  }

  /** Laying the diff over the initial snapshot reads like the current one:
      every key gives the current value. */
  lemma OverridesReplay(initial: Props, current: Props)
    ensures forall k :: Get(initial + CalculateOverrides(initial, current), k) == Get(current, k)
  {
    var o := CalculateOverrides(initial, current);
    forall k ensures Get(initial + o, k) == Get(current, k) {
      if k !in o {
        assert Get(initial, k) == Get(current, k);
      }
    }
  }

  /** The record stored after layering the diff `o` over what the row held:
      a decoded object is updated with `o`; empty or corrupt text is replaced
      by `o`. */
  function Layered(old_: JsonText, o: Props): (r: Props)
    ensures forall k :: k in r <==> k in o || (old_.Doc? && k in old_.d)
    ensures forall k :: k in o ==> r[k] == o[k]
    ensures forall k :: k in r && k !in o ==> old_.Doc? && r[k] == old_.d[k]
  {
    if old_.Doc? then old_.d + o else o
  }

  /** How the handler ends for one updated datablock. */
  datatype Outcome =
    | Skipped    // unmanaged, uuid-less, no snapshot, corrupt snapshot
    | NoChange   // the diff is empty
    | Recorded   // the override record of the uuid now holds the layered diff
    | Raised     // the tree has no `fn_initial_state_map` attribute

  /** The override rows after recording the diff `o` for `u`: the first row
      for `u` is updated; without one, a row is appended. */
  function RecordOverrides(rows: seq<OverrideRow>, u: Uuid, o: Props): (r: seq<OverrideRow>)
    ensures FindOverride(r, u).Some?
    ensures r[FindOverride(r, u).value].data == Doc(Layered(
      if FindOverride(rows, u).Some? then rows[FindOverride(rows, u).value].data else Empty, o))
    ensures |r| == if FindOverride(rows, u).Some? then |rows| else |rows| + 1
    ensures forall j :: 0 <= j < |rows| && rows[j].uuid != u ==> r[j] == rows[j]
  {
    match FindOverride(rows, u)
    case Some(i) =>
      var r := rows[i := OverrideRow(u, Doc(Layered(rows[i].data, o)))];
      assert FindOverride(r, u) == Some(i) by { FindOverrideAt(r, u, i); }
      r
    case None =>
      var r := rows + [OverrideRow(u, Doc(Layered(Empty, o)))];
      assert FindOverride(r, u) == Some(|rows|) by { FindOverrideAt(r, u, |rows|); }
      r
  }

  /** The search finds the first row carrying the uuid. */
  lemma {:induction false} FindOverrideAt(rows: seq<OverrideRow>, u: Uuid, i: nat)
    requires i < |rows| && rows[i].uuid == u
    requires forall j :: 0 <= j < i ==> rows[j].uuid != u
    ensures FindOverride(rows, u) == Some(i)
    decreases i
  {
    if i > 0 {
      FindOverrideAt(rows[1..], u, i - 1);
    }
  }

  /** `depsgraph_update_post_handler` for one updated datablock `db`, given
      `current`, the snapshot `capture_initial_state` takes of it now. */
  method HandleUpdate(tree: DatablockTree, w: World, db: DbRef, current: Props) returns (r: Outcome)
    requires db in w.dbs && w.dbs[db].alive
    modifies tree
    ensures tree.stateMap == old(tree.stateMap) && tree.relationships == old(tree.relationships)
    ensures tree.initialStates == old(tree.initialStates)
    ensures r == Raised <==> w.dbs[db].fnUuid.Some? && w.dbs[db].fnUuid.value != "" && old(tree.initialStates).None?
    ensures r != Recorded ==> tree.overrides == old(tree.overrides)
    ensures r == Recorded <==>
      var u := w.dbs[db].fnUuid;
      u.Some? && u.value != "" && tree.initialStates.Some?
      && FindInitial(tree.initialStates.value, u.value).Some?
      && tree.initialStates.value[FindInitial(tree.initialStates.value, u.value).value].data.Doc?
      && CalculateOverrides(tree.initialStates.value[FindInitial(tree.initialStates.value, u.value).value].data.d, current) != map[]
    ensures r == Recorded ==>
      var u := w.dbs[db].fnUuid.value;
      var i := FindInitial(tree.initialStates.value, u).value;
      tree.overrides == RecordOverrides(old(tree.overrides), u, CalculateOverrides(tree.initialStates.value[i].data.d, current))
  {
    var u := w.dbs[db].fnUuid;
    if u.None? || u.value == "" {
      return Skipped;
    }
    if tree.initialStates.None? {
      return Raised;
    }
    var rows := tree.initialStates.value;
    var i := FindInitial(rows, u.value);
    if i.None? || !rows[i.value].data.Doc? {
      return Skipped;
    }
    var o := CalculateOverrides(rows[i.value].data.d, current);
    if o == map[] {
      return NoChange;
    }
    tree.overrides := RecordOverrides(tree.overrides, u.value, o);
    r := Recorded;
  }

  /** After recording, the override record of the uuid reads, key by key, as
      the new diff where it has the key and as the earlier record elsewhere. */
  lemma RecordedReads(rows: seq<OverrideRow>, u: Uuid, o: Props, k: string)
    requires FindOverride(rows, u).Some? && rows[FindOverride(rows, u).value].data.Doc?
    ensures var r := RecordOverrides(rows, u, o);
      Get(r[FindOverride(r, u).value].data.d, k)
        == if k in o then o[k] else Get(rows[FindOverride(rows, u).value].data.d, k)
  {
  }
}
