/** The bookkeeping tables a DatablockTree node tree carries: the per-node
    state map, the relationship rows, the override records and the
    initial-state snapshots. JSON text is modelled by what `json.loads`
    makes of it. */
module NodeTreeData {
  import opened Base

  /** An `FNStateMapItem` row. `uuids` is the comma-joined uuid string
      `datablock_uuids`. */
  datatype StateRow = StateRow(nodeId: string, socket: string, uuids: string)

  /** An `FNRelationshipItem` row. */
  datatype RelRow = RelRow(nodeId: string, source: Uuid, target: Uuid, relType: string)

  /** The content of a JSON string field: empty (falsy), a decoded object, or
      text `json.loads` rejects. */
  datatype JsonText = Empty | Doc(d: Props) | Corrupt

  /** An `FNOverrideItem` row. */
  datatype OverrideRow = OverrideRow(uuid: Uuid, data: JsonText)

  /** An `FNInitialStateItem` row. */
  datatype InitialRow = InitialRow(uuid: Uuid, data: JsonText)

  /** Position of the first override row for `u`. */
  function FindOverride(rows: seq<OverrideRow>, u: Uuid): (r: Option<nat>)
    ensures r.Some? ==> r.value < |rows| && rows[r.value].uuid == u
    ensures r.Some? ==> forall j :: 0 <= j < r.value ==> rows[j].uuid != u
    ensures r.None? ==> forall j :: 0 <= j < |rows| ==> rows[j].uuid != u
  {
    if rows == [] then None
    else if rows[0].uuid == u then Some(0)
    else match FindOverride(rows[1..], u)
      case None => None
      case Some(k) => Some(k + 1)
  }

  /** Position of the first initial-state row for `u`. */
  function FindInitial(rows: seq<InitialRow>, u: Uuid): (r: Option<nat>)
    ensures r.Some? ==> r.value < |rows| && rows[r.value].uuid == u
    ensures r.Some? ==> forall j :: 0 <= j < r.value ==> rows[j].uuid != u
    ensures r.None? ==> forall j :: 0 <= j < |rows| ==> rows[j].uuid != u
  {
    if rows == [] then None
    else if rows[0].uuid == u then Some(0)
    else match FindInitial(rows[1..], u)
      case None => None
      case Some(k) => Some(k + 1)
  }

  /** The properties `DatablockTree` declares. `fn_initial_state_map` is
      not among them. */
  const DeclaredMaps: set<string> :=
    {"fn_state_map", "fn_property_assignments_map", "fn_relationships_map", "fn_override_map"}

  /** A DatablockTree's tables. `initialStates` is `None` when the tree has
      no `fn_initial_state_map` attribute, as the class declares it. */
  class DatablockTree {
    var stateMap: seq<StateRow>
    var relationships: seq<RelRow>
    var overrides: seq<OverrideRow>
    var initialStates: Option<seq<InitialRow>>

    /** A tree as the add-on registers it: empty tables, and an initial-state
        map only when `declaresInitial` holds. */
    constructor (declaresInitial: bool)
      ensures stateMap == [] && relationships == [] && overrides == []
      ensures initialStates == if declaresInitial then Some([]) else None
    {
      stateMap := [];
      relationships := [];
      overrides := [];
      initialStates := if declaresInitial then Some([]) else None;
    }
  }
}
