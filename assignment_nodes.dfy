/** The nodes that do not build prims but ask for property writes on
    datablocks by uuid: Set Object Parent, Set Scene World and Set Object
    Material. Each returns its output socket value together with a
    `property_assignments` list of records. */
module AssignmentNodes {
  import opened Base
  import opened EngineUtils
  import opened ListNodes

  /** The key under which a node returns its requested writes. */
  const AssignKey := "property_assignments"

  /** The node result `{outId: out, 'property_assignments': assignments}`;
      when the two keys coincide the later one wins, as in a dict display. */
  function WithAssignments(outId: string, out: Value, assignments: seq<Value>): (r: Value)
    ensures r.VDict? && AssignKey in r.d && r.d[AssignKey] == VList(assignments)
    ensures outId != AssignKey ==> r.d.Keys == {outId, AssignKey} && r.d[outId] == out
  {
    VDict(map[outId := out][AssignKey := VList(assignments)])
  }

  /** `{'target_uuid': child, 'property_name': 'parent', 'value_uuid': parent}`. */
  function ParentRecord(child: Value, parent: Value): Value {
    VDict(map["target_uuid" := child, "property_name" := VStr("parent"), "value_uuid" := parent])
  }

  /** One parent record per child, in order. */
  function ParentRecords(children: seq<Value>, parent: Value): (r: seq<Value>)
    ensures |r| == |children|
    ensures forall i :: 0 <= i < |r| ==> r[i] == ParentRecord(children[i], parent)
  {
    seq(|children|, i requires 0 <= i < |children| => ParentRecord(children[i], parent))
  }

  lemma ParentRecordsSnoc(children: seq<Value>, child: Value, parent: Value)
    ensures ParentRecords(children + [child], parent) == ParentRecords(children, parent) + [ParentRecord(child, parent)]
  {
  }

  /** Filtering a list extended by one value extends the filtered list by
      that value when it is truthy. */
  lemma {:induction false} KeptSnoc(vs: seq<Value>, v: Value)
    ensures Kept(vs + [v]) == Kept(vs) + (if Truthy(v) then [v] else [])
    decreases |vs|
  {
    if vs == [] {
      assert [v][1..] == [];
    } else {
      assert (vs + [v])[1..] == vs[1..] + [v];
      KeptSnoc(vs[1..], v);
    }
  }

  /** `FN_set_object_parent.execute`. A falsy child input gives `{out: []}`
      with no assignment list. Otherwise a single child is wrapped into a
      list, falsy entries are skipped, and each kept child gets a parent
      record when the parent is truthy; the output lists the parent (when
      truthy) and then the kept children. */
  method SetObjectParent(kwargs: Props, parentId: string, childId: string, outId: string)
    returns (r: Value)
    ensures !Truthy(Get(kwargs, childId)) ==> r == Out(outId, VList([]))
    ensures Truthy(Get(kwargs, childId)) ==>
      var parent, kept := Get(kwargs, parentId), Kept(AsList(Get(kwargs, childId)));
      r == WithAssignments(outId,
        VList((if Truthy(parent) then [parent] else []) + kept),
        if Truthy(parent) then ParentRecords(kept, parent) else [])
  {
    var parent := Get(kwargs, parentId);
    var children := Get(kwargs, childId);
    if !Truthy(children) {
      return Out(outId, VList([]));
    }
    var items := AsList(children);
    var assignments: seq<Value> := [];
    var processed: seq<Value> := [];
    var i := 0;
    while i < |items|
      invariant 0 <= i <= |items|
      invariant processed == Kept(items[..i])
      invariant assignments == if Truthy(parent) then ParentRecords(processed, parent) else []
    {
      var child := items[i];
      assert items[..i + 1] == items[..i] + [child];
      KeptSnoc(items[..i], child);
      if Truthy(child) {
        ParentRecordsSnoc(processed, child, parent);
        if Truthy(parent) {
          assignments := assignments + [ParentRecord(child, parent)];
        }
        processed := processed + [child];
      }
      i := i + 1;
    }
    assert items[..i] == items;
    var output: seq<Value> := [];
    if Truthy(parent) {
      output := output + [parent];
    }
    output := output + processed;
    assert output == (if Truthy(parent) then [parent] else []) + Kept(items);
    r := WithAssignments(outId, VList(output), assignments);
  }

  /** Every parent record targets a kept child and names the parent, and
      every truthy child input is targeted. */
  lemma ParentRecordsCover(children: Value, parent: Value)
    requires Truthy(parent)
    ensures var recs := ParentRecords(Kept(AsList(children)), parent);
      (forall i :: 0 <= i < |recs| ==>
         recs[i].d["value_uuid"] == parent && Truthy(recs[i].d["target_uuid"])
         && recs[i].d["target_uuid"] in AsList(children))
      && forall c :: c in AsList(children) && Truthy(c) ==> ParentRecord(c, parent) in recs
  {
    var kept := Kept(AsList(children));
    var recs := ParentRecords(kept, parent);
    forall i | 0 <= i < |recs|
      ensures recs[i].d["target_uuid"] in AsList(children)
    {
      SubsequenceMembers(kept, AsList(children), kept[i]);
    }
    forall c | c in AsList(children) && Truthy(c) ensures ParentRecord(c, parent) in recs {
      var j :| 0 <= j < |kept| && kept[j] == c;
      assert recs[j] == ParentRecord(c, parent);
    }
  }

  /** Every element of a subsequence is an element of the sequence. */
  lemma {:induction false} SubsequenceMembers(a: seq<Value>, b: seq<Value>, x: Value)
    requires IsSubsequence(a, b) && x in a
    ensures x in b
    decreases |b|
  {
    if a[0] == b[0] && IsSubsequence(a[1..], b[1..]) {
      if x != a[0] {
        SubsequenceMembers(a[1..], b[1..], x);
      }
    } else {
      SubsequenceMembers(a, b[1..], x);
    }
  }

  /** The record `FN_set_scene_world` asks for. */
  function WorldRecord(scene: Value, world: Value): Value {
    VDict(map["target_uuid" := scene, "property_name" := VStr("world"), "value_type" := VStr("UUID"),
              "value_uuid" := world, "value_json" := VStr("")])
  }

  /** `FN_set_scene_world.execute`: the scene passes through, and one world
      assignment is asked for exactly when scene and world are both truthy. */
  function SetSceneWorld(kwargs: Props, sceneId: string, worldId: string, outId: string): (r: Value)
    ensures var scene, world := Get(kwargs, sceneId), Get(kwargs, worldId);
      r.VDict? && AssignKey in r.d && r.d[AssignKey].VList?
      && (|r.d[AssignKey].items| == 1 <==> Truthy(scene) && Truthy(world))
      && (Truthy(scene) && Truthy(world) ==> r.d[AssignKey].items == [WorldRecord(scene, world)])
      && (!(Truthy(scene) && Truthy(world)) ==> r.d[AssignKey].items == [])
      && (outId != AssignKey ==> outId in r.d && r.d[outId] == scene)
  {
    var scene, world := Get(kwargs, sceneId), Get(kwargs, worldId);
    WithAssignments(outId, scene, if Truthy(scene) && Truthy(world) then [WorldRecord(scene, world)] else [])
  }

  /** The record `FN_set_object_material` asks for: no `value_type` key. */
  function MaterialRecord(obj: Value, material: Value): Value {
    VDict(map["target_uuid" := obj, "property_name" := VStr("active_material"), "value_uuid" := material])
  }

  /** `FN_set_object_material.execute`: the object passes through, and one
      material assignment is asked for exactly when object and material are
      both truthy. */
  function SetObjectMaterial(kwargs: Props, objectId: string, materialId: string, outId: string): (r: Value)
    ensures var obj, material := Get(kwargs, objectId), Get(kwargs, materialId);
      r.VDict? && AssignKey in r.d && r.d[AssignKey].VList?
      && (|r.d[AssignKey].items| == 1 <==> Truthy(obj) && Truthy(material))
      && (Truthy(obj) && Truthy(material) ==>
            r.d[AssignKey].items == [MaterialRecord(obj, material)]
            && "value_type" !in r.d[AssignKey].items[0].d)
      && (!(Truthy(obj) && Truthy(material)) ==> r.d[AssignKey].items == [])
      && (outId != AssignKey ==> outId in r.d && r.d[outId] == obj)
  {
    var obj, material := Get(kwargs, objectId), Get(kwargs, materialId);
    WithAssignments(outId, obj, if Truthy(obj) && Truthy(material) then [MaterialRecord(obj, material)] else [])
  }
}
