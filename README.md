# DatablockNodes, modelled in Dafny

DatablockNodes is a Blender add-on. A user builds a node tree that describes scenes, objects, collections, their properties and their relationships. The add-on then makes Blender's data (`bpy.data`) match that description. Two engines share the node library:

- **The proxy engine** (`engine/`).
  - The active branch of the tree is evaluated, with each node run at most once per pass.
  - Evaluation yields a tree of `DatablockProxy` prims. A prim has a path, a uuid, properties, a parent and ordered children.
  - The planner sorts the prims with Kahn's algorithm, over parent edges and relationship edges.
  - The orchestrator destroys every managed datablock whose uuid the plan no longer names.
  - The materializer creates, configures and links the rest in three passes. During configuration, stored user overrides win over base properties.
- **The older reconciler** (`reconciler.py`).
  - Nodes are evaluated with a memo keyed by node id.
  - The final state is collected by uuid.
  - Every managed datablock the evaluation no longer requires is removed.
  - Values are written through dotted or indexed RNA paths.

Both engines identify datablocks through the uuid registry (`uuid_manager.py`). The registry is a cache from uuid to datablock. It is filled from the store once and invalidated on file load. Nodes remember the datablocks they own in state-map rows of the node tree. The override handler diffs a datablock against its initial snapshot and layers the diff over the stored overrides.

The model has one Dafny module per source file or closely related group of files. The main modelling choices are:

- The proxy tree is the class `ProxyTypes.ProxyHeap`: an arena of prim records, keyed by handle, that the methods update in place. "The input tree is left untouched" is stated as: every record that existed before keeps its value.
- Blender's data is the class `HostStore.Store`: datablock records keyed by reference, plus their creation order, with opaque create, copy, remove, rename and link operations.
- Python values are the datatype `Base.Value`, with Python's truthiness.
- Node execution, `uuid.uuid4()`, `get_persistent_uuid`, `eval` of a property string and the initial-state capture are parameters of the operations that use them.
- The imperative source (planner, materializer, orchestrator, uuid registry, state-map nodes, link nodes, the scene-editing nodes) is modelled by methods with loops. Each method is proved against a specification function, and the lemmas about that function state what the source promises.
- The pure source (selection parsing, builders, list and string nodes, assignment nodes) is modelled by functions and lemmas.

## Model

| member | source | states |
|---|---|---|
| BuilderNodes.Pick | nodes/scene.py:19-32 | the constructor keeps a given id and otherwise the fresh one, which is never empty |
| BuilderNodes.Scene | nodes/scene.py:19-32 | one new parentless root named `Name or "scene"` at the next handle; no existing prim changes; the output is that root |
| BuilderNodes.Collection | nodes/collection.py:15-32 | a new root and one default-collection prim at `/root/<name>` linked to the root collection; no existing prim changes |
| BuilderNodes.Empty | nodes/empty.py:15-31 | a new root and one data-less object at `/root/<name>` linked to the root collection |
| BuilderNodes.Cube | nodes/cube.py:15-43 | a new root, an object, and the mesh data nested under the object, which names it through its `data` relationship |
| BuilderNodes.Camera | nodes/camera.py:15-43 | the cube's shape with camera data |
| BuilderNodes.Light | nodes/light.py:31-61 | the cube's shape with light data carrying the node's light type and energy |
| BuilderNodes.CreatePrimitive | nodes/create_primitive.py:47-153 | for a cube, sphere (built as a cube), light or camera: the data prim then the object as siblings under a new root; any other choice outputs None and adds no prim |
| BuilderNodes.NestedDataCycle | nodes/cube.py:24-41 | planning a cube, camera or light tree yields the empty plan: the object depends on its data through the relationship, and the data on the object as its parent |
| BuilderNodes.SiblingDataPlans | nodes/create_primitive.py:118-153 | planning a create-primitive tree yields a full, valid plan |
| BuilderNodes.CubeCorners | nodes/create_primitive.py:133-134 | the cube has 8 distinct vertices, each a corner of the box from -1 to 1 |
| BuilderNodes.CubeFacesValid | nodes/create_primitive.py:135-141 | the cube has 6 quad faces over its 8 vertices and no loose edges |
| AssignmentNodes.WithAssignments | nodes/set_object_parent.py:54-57 | the result holds the assignment list under its key and the output under its own |
| AssignmentNodes.ParentRecords | nodes/set_object_parent.py:36-45 | one parent record per child, in order |
| AssignmentNodes.SetObjectParent | nodes/set_object_parent.py:24-57 | a falsy child input outputs an empty list; otherwise falsy children are skipped, each kept child gets a parent record when the parent is truthy, and the output lists the parent then the kept children |
| AssignmentNodes.ParentRecordsCover | nodes/set_object_parent.py:36-48 | every record targets a truthy child input and names the parent, and every truthy child gets one |
| AssignmentNodes.SetSceneWorld | nodes/set_scene_world.py:22-39 | the scene passes through, and one world assignment is asked for exactly when scene and world are both truthy |
| AssignmentNodes.SetObjectMaterial | nodes/set_object_material.py:22-37 | the object passes through, and one material assignment (without a value type) is asked for exactly when object and material are both truthy |
| CollectionNodes.Apply | nodes/set_collection.py:111-119 | an edit touches only the `_fn_relationships` entry; every other property keeps its key and value |
| CollectionNodes.ApplyKeepsTypeAndName | nodes/set_collection.py:111-126 | no link edit changes a prim's `datablock_type` or `name` |
| CollectionNodes.LinkAdds | nodes/set_collection.py:111-119 | linking puts the path into the list exactly once, keeps earlier links unless MOVE clears them, and keeps the other relationships |
| CollectionNodes.LinkIdempotent | nodes/set_collection.py:114-119 | linking the same path twice equals linking it once, with or without MOVE |
| CollectionNodes.MoveAbsorbs | nodes/parent_collection.py:44-47 | moving to one path and then to another is moving to the second alone |
| CollectionNodes.UnlinkRemoves | nodes/set_collection.py:124-126 | unlinking removes the first occurrence of the path; in a list without repeats the path is then gone |
| CollectionNodes.UnlinkUndoesLink | nodes/set_collection.py:118-126 | removing a link just added restores the link list |
| CollectionNodes.EditSeq | nodes/set_collection.py:110-119 | the loop over prims changes only properties, and only of the prims it visits |
| CollectionNodes.EditSeqOnce | nodes/set_collection.py:110-119 | over a list without repeats each visited prim gets the edit exactly once |
| CollectionNodes.EditSeqShape | nodes/set_collection.py:110-126 | the edit loop keeps the tree well formed and every subtree listing unchanged |
| CollectionNodes.EditAll | nodes/set_collection.py:110-126 | the method's loop leaves the heap equal to the edit loop's specification |
| CollectionNodes.Lookup | nodes/set_collection.py:82 | the found collection is a child of the root whose last path component is the name; None means no child has that name |
| CollectionNodes.Detach | nodes/set_collection.py:94-95 | only the old prim's parent's child list changes |
| CollectionNodes.AddCollection | nodes/set_collection.py:102-105 | the new prim is added at the next handle and nothing else is added |
| CollectionNodes.AddCollectionAt | nodes/set_collection.py:102-105 | the new prim has path `'/' + name`, the given uuid, type COLLECTION, the name, no parent, and is last among the root's children; other prims are untouched |
| CollectionNodes.AddCollectionWF | nodes/set_collection.py:102-105 | appending the new collection keeps the tree well formed |
| CollectionNodes.ReplacedFacts | nodes/set_collection.py:86-96 | the CREATE replacement keeps the tree well formed and every path and parent |
| CollectionNodes.ReplacedProps | nodes/set_collection.py:89-92 | in CREATE mode each prim of the tree loses the collection path from its links, and no other prim changes |
| CollectionNodes.Replace | nodes/set_collection.py:86-96 | the method unlinks the path in every prim of the tree, then detaches the old prim |
| CollectionNodes.MakeCollection | nodes/set_collection.py:101-105 | the method adds the new collection prim as `AddCollection` specifies |
| CollectionNodes.Links | nodes/set_collection.py:107-133 | the link phase changes only properties |
| CollectionNodes.LinksAt | nodes/set_collection.py:107-133 | a prim the link phase does not name is unchanged, apart from the `/root` link of the collection itself |
| CollectionNodes.CollectionPass | nodes/set_collection.py:80-133 | one pass of the loop over names leaves the heap equal to `Step` |
| CollectionNodes.PrepareFacts | nodes/set_collection.py:81-105 | lookup, replacement and creation keep the tree well formed and every path; the prim to link is in the arena |
| CollectionNodes.LinksAffected | nodes/set_collection.py:108-119 | in ADD and CREATE mode each affected prim links the path; with MOVE it is the only link |
| CollectionNodes.LinksRemoved | nodes/set_collection.py:121-126 | in REMOVE mode each affected prim loses the first occurrence of the path |
| CollectionNodes.StepFacts | nodes/set_collection.py:80-133 | a pass keeps the tree well formed and every path and parent, and never reuses a handle |
| CollectionNodes.StepLinks | nodes/set_collection.py:108-119 | after an ADD or CREATE pass every affected prim is linked to the collection; with MOVE that is its only link |
| CollectionNodes.StepIsLinks | nodes/set_collection.py:98-119 | outside REMOVE, a pass links exactly as ADD does once the collection exists |
| CollectionNodes.StepRemoveMissing | nodes/set_collection.py:121 | in REMOVE mode a missing collection makes the pass change nothing |
| CollectionNodes.StepUnlinks | nodes/set_collection.py:121-126 | in REMOVE mode, with the collection found, each affected prim loses one link to it and no prim is made |
| CollectionNodes.StepCreateUnlinks | nodes/set_collection.py:86-92 | in CREATE mode every prim of the tree that is not affected loses one link to the old collection |
| CollectionNodes.StepReplaces | nodes/set_collection.py:94-105 | in CREATE mode the old collection leaves the root's children and the new one is appended |
| CollectionNodes.StepMakes | nodes/set_collection.py:99-105 | a missing collection is made at the next handle with its path, uuid, type and name, last among the root's children, and linked to `/root` when asked |
| CollectionNodes.StepScene | nodes/set_collection.py:129-133 | with `link_to_scene`, the collection ends up linked under `/root` |
| CollectionNodes.StepFindsAgain | nodes/set_collection.py:80-105 | after an ADD pass the lookup finds the collection the pass linked |
| CollectionNodes.LinksNoop | nodes/set_collection.py:118-119 | linking without MOVE changes nothing when every link is already there |
| CollectionNodes.StepAddTwice | nodes/set_collection.py:80-133 | an ADD pass without MOVE is idempotent: repeating it for the same name changes nothing |
| CollectionNodes.StepFrame | nodes/set_collection.py:74-133 | a pass on the clone touches no prim outside the clone |
| CollectionNodes.AffectedFacts | nodes/set_collection.py:75 | the affected prims are the selected prims of the clone that have a parent, each listed once |
| CollectionNodes.CollectionLoop | nodes/set_collection.py:80-133 | the loop over names runs one pass per name in order and touches nothing outside the clone |
| CollectionNodes.SetCollection | nodes/set_collection.py:60-136 | a missing scene or empty names string returns the input unchanged; otherwise the result is a clone of the scene after one pass per parsed name, and the input tree is untouched |
| CollectionNodes.FoundCollection | nodes/parent_collection.py:32-34 | a found prim is a COLLECTION child of the root whose last path component is the name |
| CollectionNodes.ParentInnerLinks | nodes/parent_collection.py:36-47 | the child collection ends with the last parent collection named as its only link; with none, its links are unchanged |
| CollectionNodes.ParentOuterKeeps | nodes/parent_collection.py:30-47 | a prim no child name finds, or any prim when no parent collection is found, is unchanged |
| CollectionNodes.ParentOuterLinks | nodes/parent_collection.py:30-47 | every collection a child name finds links to the last parent collection named and nothing else |
| CollectionNodes.FindCollection | nodes/parent_collection.py:31-34 | the method returns the lookup followed by the COLLECTION check |
| CollectionNodes.MoveLinks | nodes/parent_collection.py:44-47 | `links.clear(); links.append(path)` on the child, leaving what lookups read unchanged |
| CollectionNodes.MoveToParents | nodes/parent_collection.py:36-47 | the inner loop's result is `ParentInner` |
| CollectionNodes.ParentLoop | nodes/parent_collection.py:30-47 | the outer loop's result is `ParentOuter` and touches nothing outside the clone |
| CollectionNodes.ParentChild | nodes/parent_collection.py:30-47 | one step of the outer loop extends `ParentOuter` by one child name |
| CollectionNodes.ParentCollection | nodes/parent_collection.py:18-49 | a missing scene or empty names string returns the input unchanged; otherwise a clone of the scene with each found child collection moved under the last parent found |
| CollectionNodes.AsWrittenLookup | nodes/set_collection.py:82 | `find_child_by_path('/' + name)` as written, matched against the root's own path |
| CollectionNodes.AsWrittenMisses | nodes/set_collection.py:82 | under a root at `/root` the lookup as written finds nothing for a name not starting with `root` |
| CollectionNodes.ParentAsWrittenIdle | nodes/parent_collection.py:32 | as written, the parent node leaves the clone unchanged when no child name starts with `root` |
| CollectionNodes.RemoveAsWrittenIdle | nodes/set_collection.py:82 | as written, REMOVE mode changes nothing when no name starts with `root` |
| CollectionNodes.AsWrittenMissesColl | nodes/set_collection.py:82 | on a scene holding `Coll`, ADD as written misses it and makes a second collection prim |
| CollectionNodes.LookupFindsColl | nodes/set_collection.py:82 | on the same scene the name lookup finds `Coll` and ADD links it |
| HostStore.Lower | engine/orchestrator.py:97 | lower-casing keeps the length and lower-cases each ASCII letter in place |
| HostStore.Without | reconciler.py:191 | the member list without x holds exactly the other members |
| HostStore.Removed | reconciler.py:191 | after `remove(db)` the datablock is dead, every other one keeps its liveness, and no member list names it |
| HostStore.SetAttr | engine/utils.py:66 | `setattr` writes exactly when the attribute exists on a live struct and the value fits its type, and the attribute then reads back as the value; a removed struct raises; only values change |
| HostStore.SetAttrFrame | engine/utils.py:66 | a write changes no other attribute of any struct |
| HostStore.ByName | nodes/import_datablock.py:79 | `bpy.data.<kind>.get(name)` finds a live datablock of that kind and name, and None means there is none |
| HostStore.Store.constructor | reconciler.py:191 | the store starts empty |
| HostStore.Store.Create | nodes/new_datablock.py:140-152 | a fresh, live, untagged datablock at the next handle, appended to the creation order, nothing else changed |
| HostStore.Store.Copy | nodes/derive_datablock.py:114 | a fresh datablock with the source's whole record, uuid included |
| HostStore.Store.Remove | reconciler.py:191 | the store becomes Removed |
| HostStore.Store.Rename | nodes/new_datablock.py:136 | only the datablock's name changes |
| HostStore.Store.Tag | uuid_manager.py:48-62 | only the datablock's `_fn_uuid` changes |
| HostStore.Store.Assign | engine/utils.py:66 | the store changes exactly as SetAttr says, or not at all |
| HostStore.Store.LinkObject | nodes/link_to_collection.py:65 | the object becomes the collection's last member object; nothing else changes |
| HostStore.Store.LinkChild | nodes/link_to_collection.py:51 | the child becomes the collection's last child collection; nothing else changes |
| LinkNodes.NamedInIff | nodes/link_to_collection.py:50 | `name in target.children` holds exactly when some member of the list is a datablock with that name |
| LinkNodes.LinkOne | nodes/link_to_collection.py:48-56 | an item that is not an object (collection) changes nothing; reading a removed item or a dead or mistyped target raises; otherwise the item's name ends up in the target's list, and a change is exactly the item appended |
| LinkNodes.LinkSeqAppends | nodes/link_to_collection.py:48-70 | a pass only appends to the target's list it writes; no other datablock changes |
| LinkNodes.LinkSeqCovers | nodes/link_to_collection.py:48-70 | a pass that does not raise leaves every accepted item alive and named in the target's list |
| LinkNodes.CoveredNoop | nodes/link_to_collection.py:50-54 | a pass over items already present changes nothing and does not raise |
| LinkNodes.LinkItems | nodes/link_to_collection.py:48-56 | the loop on the store computes LinkSeq: same new world, same raise |
| LinkNodes.Pass | nodes/link_to_collection.py:45-47 | a pass runs only on a truthy input, a single item read as a list of one |
| LinkNodes.LinkToCollection | nodes/link_to_collection.py:35-72 | the node on the store computes LinkNode with a collection target: no target returns None unchanged, else collections then objects are linked and `{out: target}` is returned |
| LinkNodes.LinkToScene | nodes/link_to_scene.py:36-73 | the same with the scene's root collection as the target |
| LinkNodes.LinkNodeIdempotent | nodes/link_to_collection.py:44-70 | running the node again on its own result changes nothing |
| LinkNodes.LinkNodeCovers | nodes/link_to_collection.py:44-70 | after a run that returns, every collection and object item is named among the target's children and objects |
| LinkNodes.LinkNodeFrame | nodes/link_to_collection.py:44-70 | the node changes no datablock but the target, and only extends its children and objects lists |
| LinkNodes.LinkNodeAdds | nodes/link_to_collection.py:49-65 | every member the node adds is an item of the matching input of the matching kind |
| LinkNodes.LinkSeqAddsItems | nodes/link_to_collection.py:62-65 | a pass appends only items of its input that are of the pass's kind |
| ListNodes.Switch | nodes/switch.py:137-144 | a truthy Switch input returns the True input and anything else, a missing key included, the False input |
| ListNodes.ItemValues | nodes/index_switch.py:131-140 | one candidate per slot: the slot's input, or None where its socket is missing |
| ListNodes.IndexSwitch | nodes/index_switch.py:128-148 | a non-int index gives None, an index in range gives that slot's input, any other index, negative included, gives None; a non-None result is some slot's input |
| ListNodes.TrueIndexPicksSecond | nodes/index_switch.py:131-145 | a `True` index is the int 1 and picks the second slot |
| ListNodes.FindNamed | nodes/get_item_from_list.py:160-164 | the first item with the name, every earlier one neither named so nor removed; Absent exactly when no item has it; Raises only at a removed item |
| ListNodes.GetItemFromList | nodes/get_item_from_list.py:135-166 | a missing, empty or non-list input gives None; INDEX mode gives the item at the index or None out of range; NAME mode gives the named item or None; only reading a removed item's name raises |
| ListNodes.NameModeFinds | nodes/get_item_from_list.py:154-164 | a returned item carries the name asked for |
| ListNodes.ListItems | nodes/create_list.py:113-122 | each socket adds at most one item |
| ListNodes.ListItemsMembers | nodes/create_list.py:113-122 | every item comes from one socket and every socket with something to add is represented |
| ListNodes.ListItemsInOrder | nodes/create_list.py:113 | the list keeps socket order |
| ListNodes.CreateList | nodes/create_list.py:111-124 | the list sits under the one List output, and a None in it comes from an unlinked socket whose default is None |
| ListNodes.Kept | nodes/create_scene_list.py:31-39 | the truthy values, in order, all of them |
| ListNodes.Firsts | nodes/create_scene_list.py:31-35 | reading the first `count` sockets succeeds exactly when there are that many |
| ListNodes.CreateSceneList | nodes/create_scene_list.py:31-39 | the truthy inputs of the first `count` sockets, in socket order, under the one output; an index past the sockets raises |
| ListNodes.JoinStrings | nodes/join_strings.py:37-46 | succeeds exactly when the sockets exist and every kept input is a string, and then outputs one string |
| ListNodes.JoinEnds | nodes/join_strings.py:45 | the joined text starts with the first kept string and ends with the last |
| ListNodes.JoinStringsFacts | nodes/join_strings.py:38-45 | the result is empty exactly when nothing was kept, and splitting it at a separator none of the strings holds gives them back |
| ListNodes.Token | nodes/split_string.py:23 | the leading run of non-whitespace, ended by whitespace or the end |
| ListNodes.Words | nodes/split_string.py:23 | `split()` yields non-empty pieces without whitespace |
| ListNodes.SplitString | nodes/split_string.py:16-23 | an empty or None string gives `[]`, an empty separator raises, and any result is a list of strings |
| ListNodes.SplitStringJoins | nodes/split_string.py:23 | joining the pieces with the separator gives the input string back |
| Materializer.MaterializePlan | engine/materializer.py:7-163 | the store, registry and initial-state rows end as `Materialize` (pass 1, then pass 2, then pass 3 unless pass 2 raised) says; the override, state and relationship tables are untouched |
| Materializer.CreationPass | engine/materializer.py:15-64 | the host ends as `CreatePass` over the whole plan |
| Materializer.CreateOne | engine/materializer.py:17-64 | one prim of pass 1: the host ends as `CreateStep` |
| Materializer.Find | uuid_manager.py:64-73 | an empty uuid finds nothing and populates nothing; otherwise the registry is populated and the lookup yields the cached datablock or none |
| Materializer.Populated | uuid_manager.py:14-31 | populating an already populated registry changes nothing |
| Materializer.FirstWithPath | engine/materializer.py:35 | the prim found is in the plan at that path; none means no plan prim has it |
| Materializer.LastWithPath | engine/materializer.py:107 | `proxy_map[path]` is a plan prim at that path; none means no plan prim has it |
| Materializer.Construct | engine/materializer.py:46-57 | a created record has the requested kind and a string name; the image kind always raises because no width or height is passed |
| Materializer.Created | engine/materializer.py:46-57 | creating a datablock leaves the registry as it was |
| Materializer.ConfigurationPass | engine/materializer.py:66-103 | pass 2 leaves the host and initial-state rows as `ConfigurePass` says and leaves the other tables alone |
| Materializer.ConfigureOne | engine/materializer.py:68-103 | one prim of pass 2 ends as `ConfigureStep` |
| Materializer.WriteBaseProps | engine/materializer.py:74-81 | the base-property loop leaves the store as `WriteBase` |
| Materializer.ApplyStoredOverrides | engine/materializer.py:92-103 | the override loop leaves the store as `ApplyOverrides` |
| Materializer.LinkingPass | engine/materializer.py:105-163 | pass 3 ends as `LinkPass`, with the flag saying an exception escaped |
| Materializer.LinkOne | engine/materializer.py:109-163 | one prim of pass 3 ends as `LinkStep`, which skips every non-Object |
| Materializer.ParentByPath | engine/materializer.py:115-126 | hierarchy parenting ends as `ParentStep` |
| Materializer.LinkInto | engine/materializer.py:135-161 | the loop over `collection_links` targets ends as `LinkTargets` |
| Materializer.LinkOneTarget | engine/materializer.py:138-161 | one target ends as `LinkTarget`, with the flag saying it raised |
| Materializer.LinkRels | engine/materializer.py:129-163 | the relationship loop ends as `RelsStep`: only `collection_links` acts |
| Materializer.LinkTargets | engine/materializer.py:136-161 | the target loop keeps the set of datablocks |
| Materializer.RelsStep | engine/materializer.py:129-163 | the relationship loop keeps the set of datablocks |
| MaterializerFacts.CreateStepShape | engine/materializer.py:17-64 | a prim whose uuid resolves, or whose type has no creation function, changes nothing; otherwise at most one live datablock of the prim's type is made, tagged with the prim's uuid and registered under it, and nothing else changes |
| MaterializerFacts.CreatedObjectData | engine/materializer.py:29-46 | a new Object has no parent and as data the datablock registered for the first plan prim at its `'data'` path, or none |
| MaterializerFacts.CreatePassGrows | engine/materializer.py:15-64 | pass 1 keeps every existing datablock, and every datablock it makes is live, tagged with a pass prim's uuid and registered under it |
| MaterializerFacts.CreatePassRerun | engine/materializer.py:17-20 | over prims whose uuids all resolve, pass 1 creates nothing |
| MaterializerFacts.FirstWithPathAt | engine/materializer.py:35 | the lookup finds the first plan prim at that path |
| MaterializerFacts.DotFreeWrite | engine/materializer.py:79 | a dot-free key writes the datablock's own attribute |
| MaterializerFacts.WriteBaseSame | engine/materializer.py:74-81 | the base-property loop changes attribute values and names only |
| MaterializerFacts.WriteBaseKeeps | engine/materializer.py:74-76 | a private key, `datablock_type`, or a key outside the loop is never written |
| MaterializerFacts.WriteBaseReads | engine/materializer.py:74-81 | each configurable key reads as the proxy's value when the host accepts it, and as before otherwise |
| MaterializerFacts.ApplySame | engine/materializer.py:92-103 | the override loop changes attribute values and names only |
| MaterializerFacts.ApplyKeeps | engine/materializer.py:92-103 | a property without a stored override keeps its value |
| MaterializerFacts.ApplyRuns | engine/materializer.py:95-103 | with every stored value restorable and the datablock live, the override loop runs to its end |
| MaterializerFacts.ApplyReads | engine/materializer.py:95-99 | each overridden property reads as the restored value when the host accepts it |
| MaterializerFacts.OverrideWins | engine/materializer.py:74-99 | overrides apply after base properties, so an overridden key ends with the override value when the host accepts it |
| MaterializerFacts.ConfigurePassHost | engine/materializer.py:66-103 | pass 2 populates the registry and changes attribute values and names only |
| MaterializerFacts.ConfigurePassRows | engine/materializer.py:83-90 | pass 2 only appends initial-state rows, one for a uuid without one, keeping at most one row per uuid |
| MaterializerFacts.UndeclaredMapAborts | engine/materializer.py:84 | as written (the map is not declared on the tree), pass 2 raises exactly when some plan prim resolves |
| MaterializerFacts.UndeclaredMapMaterialize | engine/materializer.py:84 | as written, once pass 1 makes a datablock nothing is configured, parented or linked |
| MaterializerFacts.DeclaredMapRuns | engine/materializer.py:83-90 | with the map declared, pass 2 runs to its end whenever every registered uuid names a live datablock |
| MaterializerFacts.ParentStepFrame | engine/materializer.py:115-126 | hierarchy parenting changes at most an Object's `parent`, to an Object |
| MaterializerFacts.LinkTargetFrame | engine/materializer.py:148-158 | one target adds at most the Object to one collection, and only when no member has its name |
| MaterializerFacts.LinkPassFrame | engine/materializer.py:105-163 | pass 3 never makes, removes, renames or retags a datablock, never unlinks, never links an Object twice into one collection, and writes nothing but an Object's `parent` |
| DepGraph.PredsMember | engine/planner.py:35-36 | a node is among v's prerequisites exactly when the edge to v was added |
| DepGraph.SuccsMember | engine/planner.py:35 | a node is in `adj[u]` exactly when the edge from u was added |
| DepGraph.SuccsPredsSnoc | engine/planner.py:35-36 | adding an edge extends the lists of its two ends and no other |
| Planner.AddRelations | engine/planner.py:30-36 | the relationship loop succeeds exactly when no target is unhashable, and then adds one edge from each known target to the prim |
| ProxyArena.SharedMeansNested | proxy_types.py:165-170 | two subtrees that share a prim are nested, one inside the other |
| ProxyArena.SiblingsDisjoint | proxy_types.py:165-170 | the subtrees of two different children of one prim are disjoint |
| ProxyArena.SetPropsView | proxy_types.py:10-19 | replacing a prim's properties changes its subtree's value only in that field and keeps the listing |
| ProxyArena.AttachView | proxy_types.py:37-38 | attaching an orphan as the last child appends the orphan's tree to the parent's children |
| ProxyArena.AttachFrame | proxy_types.py:37-38 | attaching changes no subtree that holds neither end |
| ProxyArena.FlatGrowth | proxy_types.py:165-170 | edits that only append fresh prims bring no older prim into a subtree |
| Globs.DefaultGlobNeedsDoubleSlash | nodes/select.py:43 | the default glob `//**/*` matches only strings starting with `//` |
| EngineUtils.GlobPass | engine/utils.py:126-127 | the glob loop keeps exactly the prims GlobFilter keeps, in order |
| EngineUtils.FilterPass | engine/utils.py:132-147 | the filter loop keeps exactly the prims FilterKeep keeps, in order |
| Orchestrator.Engine.ExecuteNodeTree | engine/orchestrator.py:26-37 | returns at once, changing nothing, while a run is in progress; otherwise fills the creation map, evaluates the active branch, and plans and synchronises only when a proxy root came out; the flag is cleared however the run ends |
| Orchestrator.Engine.InitializeCreationMap | engine/orchestrator.py:9-24 | the creation map becomes `InitialCreation` of the old one |
| Orchestrator.InitialCreation | engine/orchestrator.py:9-24 | an empty map gets exactly the ten standard type names; a non-empty map is kept |
| Orchestrator.InitialCreationIdempotent | engine/orchestrator.py:11 | filling the creation map twice is filling it once |
| Orchestrator.Engine.Synchronize | engine/orchestrator.py:39-57 | the host ends as the materializer leaves it after the garbage-collection step, and a SCENE root's datablock becomes the window's scene |
| Orchestrator.DestroySet | engine/orchestrator.py:40-44 | a uuid is destroyed exactly when it is managed and no plan prim carries it |
| Orchestrator.DestroySetBounds | engine/orchestrator.py:40-47 | an empty plan makes every managed uuid a candidate; a plan naming every managed uuid destroys nothing |
| Orchestrator.Cleared | engine/orchestrator.py:40-47 | the garbage-collection step populates the registry and keeps the store's listing |
| Orchestrator.ClearedKills | engine/orchestrator.py:40-47 | afterwards a datablock is alive exactly when it was alive and is not a managed datablock the plan leaves out |
| Orchestrator.Live | engine/orchestrator.py:71-89 | a uuid names a datablock only when the census has it and it is alive |
| Orchestrator.PartitionFacts | engine/orchestrator.py:63-89 | the partitions together hold exactly the live targets, each in the partition of its kind |
| Orchestrator.RemoveAllFacts | engine/orchestrator.py:92-106 | a removal loop kills exactly the live members of its list and keeps every other datablock's liveness, uuid and kind |
| Orchestrator.DestroyByKindKills | engine/orchestrator.py:59-114 | after destruction by kind a datablock is alive exactly when it was alive and not targeted |
| Orchestrator.DestroySafely | engine/orchestrator.py:59-114 | the partition loop and removal loops leave the store as `DestroyByKind` |
| Orchestrator.RemoveEach | engine/orchestrator.py:92-94 | one removal loop leaves the store as `RemoveAll` |
| Orchestrator.PartitionAsWrittenAllData | engine/orchestrator.py:77-87 | as written, with host identifiers, every targeted datablock lands in DATA and the other partitions stay empty |
| Orchestrator.RemoveNamedFacts | engine/orchestrator.py:95-100 | as written, a datablock is removed only when its guessed `bpy.data` collection exists |
| Orchestrator.DestroyAsWrittenSurvivors | engine/orchestrator.py:59-114 | as written, a targeted datablock is removed only when its guessed collection exists; the rest survive |
| Orchestrator.GuessMisses | engine/orchestrator.py:97 | meshes, lights and node trees have no guessed collection |
| Orchestrator.GuessHits | engine/orchestrator.py:97 | every other kind has one |
| Orchestrator.StaleMeshSurvives | engine/orchestrator.py:59-114 | a stale managed mesh survives the as-written destroyer and is removed by the one by kind |
| NodeEval.EvaluateActiveBranch | engine/orchestrator.py:116-125 | no flagged socket gives no root; otherwise the result is `ActiveRoot`: the proxy at the first flagged socket, if any |
| NodeEval.ActiveRoot | engine/orchestrator.py:116-125 | a root exists only when a flagged socket exists |
| NodeEval.FirstActive | engine/orchestrator.py:117 | the first flagged output in node and socket order, or none when no output is flagged |
| NodeEval.RootAt | engine/orchestrator.py:122-125 | the branch raises exactly when the results are not a dictionary, and gives a root exactly when the socket's value is a proxy |
| NodeEval.EvaluateNode | engine/orchestrator.py:127-144 | a cached id returns the cached result and changes nothing; otherwise the result equals the fresh evaluation `Eval`, is cached, and with unique ids no node runs twice |
| NodeEval.EvaluateInputs | engine/orchestrator.py:130-140 | the arguments built equal `Kwargs`: `tree`, the upstream result at the first link's socket, or the default or None |
| NodeEval.KwargsStep | engine/orchestrator.py:131-140 | one input adds the upstream value at its link's socket, or its default |
| NodeEval.GetResult | engine/orchestrator.py:135 | `.get` on a dictionary yields the value or None; on anything else it raises |
| NodeEval.MemoHit | engine/orchestrator.py:128-129 | a cache hit equals what evaluating the node afresh gives |
| Orchestrator.Engine.constructor | engine/orchestrator.py:7 | a new engine is not executing, has an empty creation map, and holds the given window scene |
| Orchestrator.Engine.ClearStale | engine/orchestrator.py:40-47 | the method leaves the host and the uuid cache equal to the garbage-collection step `Cleared` |
| Orchestrator.Engine.RunBranch | engine/orchestrator.py:32-35 | an escaped exception fails the run; no root (or a root outside the heap) changes nothing; a root is planned and synchronised |
| Orchestrator.Engine.BuildRoot | engine/orchestrator.py:34-35 | planning failure or an aborted synchronisation fails the run; otherwise the host, cache and initial states are those synchronising the plan gives |
| OverrideHandler.CalculateOverrides | override_handler.py:6-15 | a key is reported exactly when its values in the two snapshots differ, and its value is the current one (None when the key is gone) |
| OverrideHandler.NoSelfOverrides | override_handler.py:6-15 | a snapshot compared with itself gives `{}` |
| OverrideHandler.OverridesReplay | override_handler.py:6-15 | the initial snapshot updated with the diff reads as the current snapshot at every key |
| OverrideHandler.Layered | override_handler.py:62-72 | the stored record holds the new diff's keys with their new values and, when the old text decoded, the old keys the diff lacks; corrupt or empty text is replaced by the diff |
| OverrideHandler.RecordOverrides | override_handler.py:56-72 | the first row for the uuid gets the layered record, or a row is appended when none exists; rows for other uuids are unchanged |
| OverrideHandler.RecordedReads | override_handler.py:62-68 | after recording, each key reads as the new diff where it has the key and as the earlier record elsewhere |
| OverrideHandler.FindOverrideAt | override_handler.py:57 | the search finds the first row carrying the uuid |
| OverrideHandler.HandleUpdate | override_handler.py:25-72 | for one updated datablock: untagged, without snapshot, with a corrupt snapshot or without differences it changes nothing; as written it raises exactly when a tagged datablock meets a tree without `fn_initial_state_map`; otherwise the override rows become `RecordOverrides` of the diff |
| NodeTreeData.FindOverride | override_handler.py:57 | the position of the first override row for the uuid, or none when no row carries it |
| NodeTreeData.FindInitial | override_handler.py:38 | the position of the first initial-state row for the uuid, or none when no row carries it |
| NodeTreeData.DatablockTree.constructor | __init__.py:54-67 | a new tree has empty tables, and an initial-state map only when the class declares one |
| ParentNode.FirstMatch | nodes/parent.py:44-49 | the position of the first prim whose path the glob matches; every earlier prim fails to match, and None means none matches |
| ParentNode.FirstObject | nodes/parent.py:57 | the first OBJECT among the children, every earlier child not an object; None means there is no object child |
| ParentNode.FirstMatchLoop | nodes/parent.py:46-49 | the `for … break` loop returns exactly the first matching position |
| ParentNode.ParentTarget | nodes/parent.py:36-58 | the target, when there is one, is a prim of the arena |
| ParentNode.FindTarget | nodes/parent.py:36-58 | the target lookup in the clone computes ParentTarget: the glob loop plus find_child_by_path with a non-empty selection, the first object child otherwise |
| ParentNode.TargetAbove | nodes/parent.py:33-52 | the target always lies in the fresh copy of the Parent scene, never in the original |
| ParentNode.StarPicksRoot | nodes/parent.py:44-52 | a selection `*` attaches the children to the copy's root |
| ParentNode.ObjectKids | nodes/parent.py:65-67 | the prims the loop moves are exactly the OBJECT children, in order, and no more of them than there are children |
| ParentNode.CopyMoved | nodes/parent.py:72-76 | clone then repath yields a fresh orphan tree equal to the source's tree moved under the target's path; existing prims do not change |
| ParentNode.AdoptOne | nodes/parent.py:72-81 | one round: the target gains the copy as its last child and becomes its parent; every other existing prim is unchanged |
| ParentNode.AdoptAll | nodes/parent.py:65-81 | the loop attaches one moved copy per OBJECT child, in order, and leaves the prims before the loop untouched |
| ParentNode.AdoptedFacts | nodes/parent.py:72-81 | every attached copy lies under the target's path, keeps its source's last path segment and ids, and the target keeps its earlier children first |
| ParentNode.Parent | nodes/parent.py:17-83 | both early returns (an empty Parent scene yields Parent or else Children; an empty Children scene yields Parent) leave the store unchanged; otherwise the result is a fresh copy of the Parent scene, the target is ParentTarget on it, and with a target the OBJECT children are adopted |
| Planner.PlanExecution | engine/planner.py:4-59 | a missing root plans `[]`; otherwise the outcome is `None` exactly when Python raises, `[]` exactly when two prims share a path or the dependencies have a cycle, and else a plan listing every prim once, each after its parent and after a prim at every relationship target path in the tree |
| Planner.PlanFlat | engine/planner.py:12-59 | the same outcome for an already listed tree |
| Planner.BuildGraph | engine/planner.py:16-36 | succeeds exactly when no prim makes Python raise; the edges are then exactly the parent and known-target dependencies of the prims |
| Planner.AddDeps | engine/planner.py:20-36 | one prim's edges: its parent's path, then each relationship target that is a known path; fails exactly where Python raises |
| Planner.AddTargets | engine/planner.py:30-36 | one relationship's targets add an edge for each known path; fails exactly on an unhashable target |
| Planner.ProxyMap | engine/planner.py:14 | every path of the listing maps to the last prim carrying it |
| Planner.DedupFacts | engine/planner.py:17-18 | the dictionary keys hold each path once and lose an entry exactly when a path repeats |
| Planner.ZeroSeedsFacts | engine/planner.py:39 | the first queue holds exactly the nodes of in-degree zero, each once, in node order |
| Planner.SortPlan | engine/planner.py:38-49 | the sorted list has no duplicates, puts every node after all its prerequisites, starts with the zero-in-degree seeds in order, and lists every node exactly when the graph is acyclic |
| Planner.KahnEnd | engine/planner.py:42-51 | when the queue runs dry, the graph is acyclic exactly when every node was planned |
| Planner.AcyclicSame | engine/planner.py:20-36 | the string graph is acyclic exactly when the prims' dependencies are |
| DepGraph.SuccsPredsCount | engine/planner.py:35-36 | the adjacency list and the in-degree count each edge once from either end |
| Planner.SortedOutcome | engine/planner.py:51-59 | the length check turns the sorted paths into the outcome: a plan when every prim was sorted, `[]` otherwise |
| Planner.PlanSound | engine/planner.py:42-53 | with distinct paths and every node sorted, mapping the sorted paths back to prims gives a plan (each prim once, after its dependencies) |
| Planner.PlanCovers | engine/planner.py:44-53 | every prim of the tree is in the returned plan |
| Planner.PlanDepAt | engine/planner.py:42-49 | every dependency of a planned prim is the path of a prim planned before it |
| ProxyTypes.ProxyHeap.NewProxy | proxy_types.py:10-19 | the new prim's id is `fn_uuid` when given, else the fresh id; it is stored at a new handle with the given path, properties and parent, appended to the parent's children, and it is an orphan exactly when no parent is given |
| ProxyTypes.ProxyHeap.GetFlatList | proxy_types.py:165-170 | returns the pre-order listing `Flat` of the subtree |
| ProxyArena.FlatFacts | proxy_types.py:165-170 | the listing starts with the prim itself, holds only prims of its subtree and is closed under children |
| ProxyArena.FlatNoDup | proxy_types.py:165-170 | the listing names every prim once |
| ProxyArena.FlatSize | proxy_types.py:165-170 | the listing's length is the number of prims in the subtree |
| ProxyTypes.ProxyHeap.Clone | proxy_types.py:21-40 | the copy is a fresh parentless orphan whose tree value (paths, ids, properties, children in order) equals the original's, every copied child points to its copied parent, and no existing prim changes |
| ProxyTypes.ProxyHeap.ChildNamed | proxy_types.py:82-88 | returns the first child whose last path component equals the name |
| ProxyTypes.IndexOf | proxy_types.py:83-88 | the position of the first match, or none exactly when the name is absent |
| ProxyTypes.RootOf | proxy_types.py:58-60 | the prim reached by climbing parents has no parent |
| ProxyTypes.ProxyHeap.FindChildByPath | proxy_types.py:42-95 | returns exactly what `FindSpec` (non-string gives none; absolute paths via the root; the relative walk) gives |
| ProxyTypes.FindSegment | proxy_types.py:70-95 | a one-component path finds the prim itself for `''`, its parent for `'..'`, else the first child of that name |
| ProxyTypes.FindRootPath | proxy_types.py:57-67 | the root's own path, with any trailing slashes, finds the root from every prim of the tree |
| ProxyTypes.FindPrefixNotComponent | proxy_types.py:62-68 | the absolute check is a string prefix: root path + `x` looks `x` up under the root |
| ProxyTypes.FindAbsolute | proxy_types.py:57-68 | root path + `/` + a relative path resolves that relative path from the root, from any starting prim |
| ProxyTypes.ProxyHeap.Merge | proxy_types.py:97-121 | only the merged-into tree changes; when no name below the other root is `'..'`, the merged subtree's value becomes `MergeTree` of the two values and nothing else changes |
| ProxyTypes.MergeTreeKeeps | proxy_types.py:105-121 | a merge keeps the root's path and id and every existing child in place; children are only added |
| ProxyTypes.MergeFromRootProps | proxy_types.py:103-105 | the other root's own properties never reach the result |
| ProxyTypes.MergeOnlyChildren | proxy_types.py:103-105 | two other roots with the same children merge identically |
| ProxyTypes.MergeOverrideWins | proxy_types.py:112-116 | a same-named child ends with its own properties overlaid by the other child's: every key of the other child wins, all other keys stay |
| ProxyTypes.MergeOneHasName | proxy_types.py:105-121 | after one step a child named like the other child exists |
| ProxyTypes.MergeFromCovers | proxy_types.py:105-121 | after the merge every named child of the other root has a same-named counterpart |
| ProxyTypes.ProxyHeap.Repath | proxy_types.py:136-163 | the subtree's value becomes `RepathTree` of the old value, its shape is unchanged, and no prim outside the subtree changes |
| ProxyTypes.RewriteRels | proxy_types.py:150-163 | only `_fn_relationships` is rewritten; every other property is kept |
| ProxyTypes.RepathKeepsName | proxy_types.py:142-144 | a repathed prim keeps its last path component |
| ProxyTypes.RepathUnder | proxy_types.py:141-148 | every prim of a repathed subtree has a path under the new parent path |
| ProxyTypes.RepathSameIds | proxy_types.py:141-148 | repath keeps every id and the tree shape |
| ProxyTypes.RetargetBack | proxy_types.py:154-155 | a target moved from `a` to `b` and back is restored |
| Reconciler.SyncActiveSocket | reconciler.py:7-59 | evaluates from the active socket, scans the managed datablocks, sweeps the ones not produced and activates the socket's target in the swept store; an evaluation that raises changes nothing |
| Reconciler.GetManagedDatablocks | reconciler.py:126-148 | the scan loop returns `Managed`: for each truthy uuid the last datablock met that carries it |
| Reconciler.ManagedCensus | reconciler.py:126-148 | every entry points at a live datablock of a scanned collection carrying that uuid, and every live tagged datablock other than an armature or workspace is found |
| Reconciler.ScannedKinds | reconciler.py:134-139 | every kind but armatures and workspaces is scanned |
| Reconciler.Stale | reconciler.py:157-161 | a uuid is stale exactly when it is managed and the evaluation did not produce it |
| Reconciler.DiffAndSync | reconciler.py:151-196 | visits exactly the stale uuids, each once, and leaves the store as the sweep by kind over them |
| Reconciler.SweepFacts | reconciler.py:184-196 | the sweep kills exactly the live datablocks it has a remover for and keeps every record's kind, class, name, uuid and properties |
| Reconciler.GarbageCollected | reconciler.py:151-196 | with unique uuids, a datablock dies exactly when it was alive, has a remover, and carries a uuid the evaluation did not produce |
| Reconciler.DoomedIff | reconciler.py:157-191 | a live datablock is marked for removal exactly when its kind has a remover and its uuid is managed but not required |
| Reconciler.SweepAsWritten | reconciler.py:170-196 | the as-written sweep looks removers up by exact class |
| Reconciler.StaleLightSurvives | reconciler.py:170-186 | a stale light survives the as-written sweep and is removed by the sweep by kind |
| Reconciler.NavigateWalk | reconciler.py:205-231 | the walk over the leading segments is `getattr` repeated |
| Reconciler.SetRnaPropertyValue | reconciler.py:198-231 | the loop's outcome is `SetRnaProperty`, and the store holds its result only when something was stored |
| Reconciler.PlainPathAgrees | reconciler.py:205-218 | without an index in the last segment both writers agree, and they store exactly when `set_nested_property` writes, with the same result |
| Reconciler.LastWriteLands | reconciler.py:212-216 | an indexed last segment that is written holds the value at that element of the array property; other records are unchanged |
| Reconciler.LastWriteKeeps | reconciler.py:207-224 | a write keeps every datablock, alive or not, of the same kind and uuid |
| Reconciler.IndexedWriteLands | reconciler.py:205-216 | an indexed write through a path stores the value at that element of the array property the path leads to |
| Reconciler.LastWriteAsWrittenKeepsAttributes | reconciler.py:212-216 | as written, an indexed write never changes an RNA property, only custom properties |
| Reconciler.IndexedPath | reconciler.py:212-214 | `p[n]` parses as property `p` and index `n` |
| Reconciler.IndexedAttributeUnwritten | reconciler.py:212-216 | `location[0]` on an object without a same-named custom property: the write as written leaves it untouched, the intended write sets the element |
| Reconciler.Target | reconciler.py:27-44 | a dict output is reduced to the socket's entry, a list to its first item, and a truthy plain value is its own target |
| Reconciler.ActivationOf | reconciler.py:46-57 | a live Scene becomes the window scene, a live Object the active selected object; a removed one raises |
| Reconciler.FalsyOutputKeeps | reconciler.py:27-40 | None, an empty list, an empty dict or a missing entry activates nothing |
| Reconciler.Context.Activate | reconciler.py:46-57 | sets the window scene for a Scene, the active object and selection for an Object, and raises exactly for a removed target |
| ReconcilerEval.EvaluateNode | reconciler.py:96-123 | with unique ids the result equals the fresh evaluation `REval`; only a node with `execute` is cached, and a cached id returns its entry |
| ReconcilerEval.CachedExecutes | reconciler.py:117-123 | only nodes that define `execute` are ever cached, each with its fresh evaluation |
| ReconcilerEval.EvaluateInputs | reconciler.py:104-114 | the arguments equal `RKwargs`: `tree`, the whole upstream result for a linked input, the default for an unlinked one, nothing without a default |
| ReconcilerEval.GetEvaluatedInputs | reconciler.py:233-247 | the inputs equal `Inputs`: like the arguments, with None for an unlinked input without default |
| ReconcilerEval.InputValue | reconciler.py:239-246 | one socket gives the upstream result when linked, else its default or None |
| ReconcilerEval.InputsMatchKwargs | reconciler.py:104-114 | the evaluated inputs and the keyword arguments raise together; otherwise the arguments are `tree` plus the inputs less the omitted sockets, which hold None among the inputs |
| ReconcilerEval.EvaluateNodeForOutput | reconciler.py:249-274 | returns the evaluated inputs and exactly the datablocks found directly in them or inside list inputs |
| ReconcilerEval.CollectDatablocks | reconciler.py:261-268 | the collection loop gathers exactly `OutputDatablocks` |
| ReconcilerEval.EvaluateNodeTree | reconciler.py:63-94 | pulls from the active node with a fresh cache and returns `final_state` over the cache and the active socket's entry of its node's result |
| ReconcilerEval.CollectFinalState | reconciler.py:77-89 | the loop's result is `FsNodes` over the cache in insertion order |
| ReconcilerEval.FinalStateKeys | reconciler.py:77-89 | `final_state` holds exactly the uuids some cached result carries at a socket, directly or in a list, each mapped to a value carrying it; it raises exactly when reading one of them raises |
| ReconcilerEval.ProbeOf | reconciler.py:83-84 | a found uuid is truthy and hashable and comes from a datablock or dict |
| ReconcilerEval.GetOf | reconciler.py:92 | `.get` on a dict yields its entry or None |
| SelectionNodes.Run | nodes/select.py:35 | a greedy run stops at the first character outside the class, or at the end |
| SelectionNodes.Bracket | nodes/select.py:35 | the position of the first `[`, with none before it |
| SelectionNodes.PathGlob | nodes/select.py:35-43 | the path glob is never empty and holds no `[` |
| SelectionNodes.FilterPart | nodes/select.py:35-41 | the bracketed filter text is non-empty and holds no `]` |
| SelectionNodes.FuncParse | nodes/select.py:48 | a function filter yields a non-empty name and argument |
| SelectionNodes.PropParse | nodes/select.py:57-63 | a property filter yields a non-empty key and operator |
| SelectionNodes.ParseFilter | nodes/select.py:47-64 | parses exactly the strings the source parses, to the same filter, with `==` handed on as `eq` |
| SelectionNodes.ParseFilters | nodes/select.py:46-64 | at most one filter per piece |
| SelectionNodes.ParseExpression | nodes/select.py:28-70 | the raw text is kept, the glob is non-empty without `[`, and an expression without `[` is its stripped self (or the default glob) with no filters |
| SelectionNodes.Select | nodes/select.py:23-26 | the Expression input when truthy, else the node's expression, becomes the query's raw text; a truthy non-string raises |
| SelectionNodes.FuncRoundTrip | nodes/select.py:48-54 | `name('arg')` parses back to its name and argument |
| SelectionNodes.PropRoundTrip | nodes/select.py:57-64 | `@key op value` parses back to its key, operator and value |
| SelectionNodes.SelectRoundTrip | nodes/select.py:35-64 | a path with one function filter parses to exactly that path and filter |
| SelectionNodes.PathBeforeBracket | nodes/select.py:35-43 | the text before the bracket is the glob |
| SelectionNodes.BracketedPart | nodes/select.py:35-41 | the text inside the brackets is the filter part |
| SelectionNodes.TypeEqualityKeepsNothing | nodes/select.py:57-64 | as written: Select hands on `==`, and the resolver's `eq` test then keeps no prim |
| SelectionNodes.TypeEqualityKeepsType | engine/utils.py:140-144 | with `eq` handed on, an `@type == value` filter keeps exactly the prims of that datablock type |
| SelectionNodes.Union | nodes/union_selection.py:17-41 | both missing gives None, one missing gives the other, two queries give `(A) or (B)` with glob `*` and one union filter; a truthy non-query raises |
| SelectionNodes.Intersection | nodes/intersection_selection.py:17-32 | either missing gives None; two queries give `(A) and (B)` with one intersection filter |
| SelectionNodes.Difference | nodes/difference_selection.py:17-34 | a missing A gives None, a missing B gives A; two queries give `(A) and not (B)` with one difference filter |
| SelectionNodes.StarKeepsAll | engine/utils.py:126-127 | the glob `*` keeps every prim |
| SelectionNodes.CombinatorsKeepAll | engine/utils.py:133-147 | filters the resolver does not know keep every prim |
| SelectionNodes.CombinedKeepsAll | engine/utils.py:112-149 | a combined query selects the whole breadth-first listing |
| SelectionNodes.CombinedSelectsAll | engine/utils.py:136-143 | as written: union, intersection and difference all select every prim, whatever A and B select |
| SelectionNodes.KeepWhere | nodes/union_selection.py:28-38 | the prims kept are exactly those the combination admits |
| SelectionNodes.IntendedUnion | nodes/union_selection.py:29 | as intended, the union selects the prims either query selects |
| SelectionNodes.IntendedIntersection | nodes/intersection_selection.py:17-32 | as intended, the intersection selects the prims both select |
| SelectionNodes.IntendedDifference | nodes/difference_selection.py:17-34 | as intended, the difference selects the prims A selects and B does not |
| SelectionNodes.DifferenceWithItself | nodes/difference_selection.py:17-34 | a query less itself selects nothing as intended but every prim as written |
| TreeNodes.EverythingPicks | nodes/prune.py:28-29 | the default query keeps every prim |
| TreeNodes.SelectionPicks | engine/utils.py:112-149 | a selection is exactly the prims of the subtree the query picks, each once |
| TreeNodes.MergeNode | nodes/merge.py:22-42 | neither input gives None; one input gives a clone of it; both give a clone of the base with the override merged in; the result is a fresh root and no existing prim changes |
| TreeNodes.RemoveFirst | nodes/prune.py:40-45 | `list.remove` on a list without the item leaves it unchanged |
| TreeNodes.RemoveFirstCounts | nodes/prune.py:41 | `list.remove` takes out exactly one occurrence |
| TreeNodes.CutAll | nodes/prune.py:37-45 | the removal loop takes each selected prim out of its parent's children |
| TreeNodes.PruneView | nodes/prune.py:35-45 | after cutting the picked prims, each subtree is the prune of its old value |
| TreeNodes.Prune | nodes/prune.py:20-47 | a missing scene comes back as it is; otherwise the result is a fresh root whose tree is the prune of the input, and no existing prim changes |
| TreeNodes.PruneRemovesPicked | nodes/prune.py:35-45 | nothing the query picks is left below the root |
| TreeNodes.PruneNothing | nodes/prune.py:35-45 | a tree in which nothing is picked below the root is its own prune |
| TreeNodes.PruneIdempotent | nodes/prune.py:20-47 | pruning twice is pruning once |
| TreeNodes.PruneEverything | nodes/prune.py:28-29 | with no selection every prim below the root goes |
| TreeNodes.StampAll | nodes/set_property.py:47-49 | the assignment loop sets the property on every selected prim |
| TreeNodes.StampView | nodes/set_property.py:39-49 | after the loop each subtree is its old value with the property set on the picked prims |
| TreeNodes.SetProperty | nodes/set_property.py:22-51 | a missing scene or name returns the input; otherwise a fresh root whose tree has the evaluated value set on every picked prim, and no existing prim changes |
| TreeNodes.SetEverything | nodes/set_property.py:32-33 | with no selection every prim gets the property, the root included |
| TreeNodes.SetTwice | nodes/set_property.py:39-49 | setting the same property twice is setting it once |
| StateNodes.Resolve | uuid_manager.py:64-73 | the lookup populates the cache unless the uuid is empty, returns the cache entry, and what it finds is a record of the store |
| StateNodes.RenameIfDiffers | nodes/new_datablock.py:135-136 | succeeds exactly when the datablock is alive and the name is a string, and then only renames it; otherwise nothing changes |
| StateNodes.CreateTagged | nodes/new_datablock.py:140-153 | a fresh datablock at the next handle, tagged with the target uuid when given and the fresh one otherwise, registered in the cache |
| StateNodes.ManagedAfterUpsert | nodes/new_datablock.py:127-129 | after the upsert the node looks up exactly the uuid it wrote |
| StateNodes.NewDatablockReuses | nodes/new_datablock.py:123-169 | a run that creates leaves the next run finding what it created |
| StateNodes.Construct | nodes/new_datablock.py:140-152 | creation succeeds exactly when the name is a string (and an image's size is integral), with the node's kind, name and RNA type |
| StateNodes.NewDatablock | nodes/new_datablock.py:116-172 | a managed datablock that resolves is only renamed, with no creation and no state-map change; otherwise a new one is created with a fresh uuid and upserted into the socket row; a bad name raises and changes nothing |
| StateNodes.Import | nodes/import_datablock.py:70-134 | an empty name or a missing datablock gives None and changes nothing; otherwise an untagged datablock gets a fresh uuid and the state map becomes Imported |
| StateNodes.CopyTagged | nodes/derive_datablock.py:114-119 | the copy is the source's record under a forced fresh uuid at the next handle, renamed when a name is given, and registered in the cache |
| StateNodes.Reuse | nodes/derive_datablock.py:128-133 | returns the managed copy exactly when it is alive and the name is usable, renaming it when a name is given |
| StateNodes.ReadRecord | nodes/derive_datablock.py:97-106 | the previous source uuid and the managed copy are what the node's record says, resolved through the cache |
| StateNodes.DeriveCopy | nodes/derive_datablock.py:114-127 | a new copy of the source's kind with the fresh copy uuid; on return the record becomes `source,copy` |
| StateNodes.Derive | nodes/derive_datablock.py:84-133 | no source empties the record and returns `{}`; a new copy, with a uuid unlike the source's, is made exactly when no managed copy resolves or the source changed; otherwise the managed copy is reused and nothing is recorded |
| StateNodes.DeriveAsWritten | nodes/derive_datablock.py:84-108 | as written: with a source, every run raises at `get_or_create_uuid` and records nothing |
| StateNodes.DeriveThenReuse | nodes/derive_datablock.py:102-125 | after a derivation, the next run from the same source reuses the copy and a run from any other source derives again |
| StateNodes.GetOrCreate | nodes/utils.py:4-51 | with no row, a datablock is created with a fresh uuid and one row appended; with a row, the recorded datablock is reused (and updated), or recreated under the recorded uuid when missing |
| StateNodes.GetOrCreateReuses | nodes/utils.py:20-49 | the datablock made on a first run is what the next run finds, and a recreation keeps the recorded uuid |
| StateNodes.GetOrCreateAsWritten | nodes/utils.py:20-49 | as written: the undeclared row field makes every run raise; a first run still creates a datablock and appends a bare row |
| StateNodes.ClearData | nodes/set_object_data.py:92-94 | afterwards the object has no data and no other record changed; it fails only when the read or the write raises |
| StateNodes.AssignBranch | nodes/set_object_data.py:80-89 | the data is assigned and exactly one relationship row appended; a removed datablock raises with nothing changed |
| StateNodes.SetObjectData | nodes/set_object_data.py:63-105 | a non-object gives None; with data the object's data is set and a row appended; otherwise the data is cleared and exactly this node's data-assignment rows for the object are removed, the rest kept in order |
| StateRows.FirstByNode | nodes/derive_datablock.py:97 | the node's first row: it belongs to the node, no earlier row does, and None means no row does |
| StateRows.FirstBySocket | nodes/new_datablock.py:123 | the first row of the node for the socket, with no earlier such row; None means there is none |
| StateRows.JoinPieces | nodes/import_datablock.py:108-111 | splitting a uuid list at commas and joining it back gives the list |
| StateRows.AddUuidPieces | nodes/import_datablock.py:108-111 | adding a uuid keeps the earlier entries in order and appends it only when missing, so it is then listed |
| StateRows.AddUuidIdempotent | nodes/import_datablock.py:108-111 | adding a uuid twice is adding it once |
| StateRows.RecordedFormat | nodes/derive_datablock.py:102-106 | a `source,copy` record reads back as its pair, and only a comma-free pair reads as a record |
| StateRows.ReuseAfterDerive | nodes/derive_datablock.py:102-125 | after Derive records a copy, the next run reuses that copy exactly when the source uuid is the same |
| StateRows.UpsertFinds | nodes/new_datablock.py:156-169 | after the upsert the socket row holds exactly the new uuid; it is the row found before or a new last row, and no other row changes |
| StateRows.UpsertIdempotent | nodes/new_datablock.py:156-169 | upserting the same uuid again changes nothing |
| StateRows.UpsertRows | nodes/new_datablock.py:158-169 | the loop with its break and the append compute Upsert; the other tables do not change |
| StateRows.Unmatched | nodes/set_object_data.py:97-103 | clearing never lengthens the table |
| StateRows.UnmatchedExactly | nodes/set_object_data.py:97-103 | clearing keeps exactly the rows that are not this node's data assignments for this object |
| StateRows.CollectMatches | nodes/set_object_data.py:97-100 | the enumerate loop collects exactly the matching indices, ascending |
| StateRows.RemoveDescending | nodes/set_object_data.py:102-103 | deleting from the highest index down removes exactly the matching rows and keeps the others in order |
| StateRows.UnmatchedNone | nodes/set_object_data.py:97-103 | clearing a table with no matching row changes nothing |
| StateRows.UnmatchedIdempotent | nodes/set_object_data.py:97-103 | clearing twice is clearing once |
| StateRows.AssignThenClear | nodes/set_object_data.py:78-103 | a row an assignment records is one the same node's clearing removes |
| StateRows.RecordFinds | nodes/derive_datablock.py:121-125 | after recording, the node's first row holds exactly the text: the row found before or a new last row, and no other row changes |
| StateRows.RecordSettles | nodes/derive_datablock.py:89-125 | recording again changes nothing, and clearing before recording makes no difference |
| StateRows.RecordRoundTrip | nodes/derive_datablock.py:102-125 | what Derive writes reads back as the `(source, copy)` pair it wrote |
| StateRows.ImportExisting | nodes/import_datablock.py:106-132 | with a socket row present, an import adds the uuid to that row once and touches no other row |
| StateRows.ListedAfterPromoted | nodes/import_datablock.py:106-132 | listing after a promotion into the same row adds nothing more |
| StateRows.ImportFirstRun | nodes/import_datablock.py:102-120 | the first import appends two rows, one with only the node id and one keyed by the socket, each holding the uuid |
| StateRows.ImportSettles | nodes/import_datablock.py:89-132 | a second import of the same datablock promotes nothing and leaves the state map as the first left it |
| StateRows.ImportedRow | nodes/import_datablock.py:113-132 | after an import the node's socket row lists the uuid |
| Strings.Split | engine/utils.py:54 | `str.split` with a separator always yields at least one piece |
| Strings.JoinSplit | nodes/import_datablock.py:108-111 | joining the pieces of a split with the same separator gives the string back |
| Strings.SplitJoin | nodes/derive_datablock.py:103-125 | splitting the join of separator-free pieces gives the pieces back |
| Strings.SplitPiecesFree | reconciler.py:205 | no piece of a split on a character contains that character |
| Strings.SplitAbsent | reconciler.py:205 | a string without the separator splits into itself alone |
| Strings.SplitConcat | proxy_types.py:71 | splitting at a separator character splits the two sides apart |
| Strings.LastSegment | proxy_types.py:85 | `path.split('/')[-1]` contains no slash |
| Strings.LastSegmentAfter | proxy_types.py:142 | the last component of `p + '/' + x`, for a slash-free x, is x |
| Strings.LStripChar | proxy_types.py:65 | `lstrip('/')` removes exactly a leading run of slashes and keeps the rest |
| Strings.Strip | nodes/select.py:43 | `strip()` never lengthens the string |
| Strings.StripTrims | engine/utils.py:155 | a stripped string has no whitespace at either end |
| Strings.StripNoop | nodes/select.py:46 | stripping a string already trimmed changes nothing |
| Strings.StripInside | nodes/select.py:46 | stripping adds no character |
| Strings.ReplacePrefix | proxy_types.py:155 | `replace(old, new, 1)` on a string starting with `old` swaps that prefix and keeps the rest |
| Strings.NatString | reconciler.py:214 | `str(n)` of a natural number is a non-empty run of digits |
| Strings.ParseInt | reconciler.py:214 | `int(s)` succeeds only on a string with something besides whitespace |
| Strings.NatStringValue | reconciler.py:214 | the digits `str(n)` writes denote n |
| Strings.ParseIntString | reconciler.py:214 | `int(str(n)) == n` |
| EngineUtils.ResolveSelection | engine/utils.py:112-149 | a missing root or query gives `[]`; otherwise the result is `Selection`: the breadth-first listing filtered by the glob and then by the filters |
| EngineUtils.BreadthFirst | engine/utils.py:119-124 | the queue loop returns the breadth-first listing `Bfs` |
| EngineUtils.BfsSubtree | engine/utils.py:119-124 | the breadth-first listing visits every prim of the subtree exactly once and nothing else |
| EngineUtils.BfsPermutes | engine/utils.py:119-124 | breadth-first and pre-order listings are permutations of each other |
| EngineUtils.PassesFilters | engine/utils.py:133-147 | a prim is kept exactly when every `'type'` filter has op `'eq'` and value equal to its `datablock_type`; other keys never exclude |
| EngineUtils.GlobFilterMem | engine/utils.py:126-127 | the glob pass keeps exactly the prims whose path matches, without repeats |
| EngineUtils.FilterKeepMem | engine/utils.py:132-147 | the filter pass keeps exactly the prims passing every filter, without repeats |
| EngineUtils.ResolveSelectionExact | engine/utils.py:112-149 | the result has no repeats and holds exactly the prims of the subtree that match the glob and pass the filters |
| EngineUtils.SelectionInOrder | engine/utils.py:119-149 | the result is an order-preserving subsequence of the breadth-first listing |
| EngineUtils.TypeFilterNeedsEq | engine/utils.py:140-144 | a `'type'` filter whose op is not the literal `'eq'` removes every prim |
| EngineUtils.ParseMultiTargetString | engine/utils.py:151-155 | empty input gives `[]`; every piece returned is non-empty, comma-free and stripped |
| EngineUtils.ParseJoin | engine/utils.py:151-155 | clean names joined with commas parse back to the same names |
| EngineUtils.ToJsonPlain | engine/utils.py:25-27 | numbers, strings, booleans, None and lists of these come out of `to_json_safe` unchanged |
| EngineUtils.ToJsonList | engine/utils.py:40-41 | a converted list keeps its length |
| EngineUtils.JsonRoundTrip | engine/utils.py:25-50 | `from_json_safe(to_json_safe(v)) == v` for JSON-shaped values and for live, tagged datablocks registered in the cache |
| EngineUtils.NamePointerNotRestored | engine/utils.py:39-50 | an untagged datablock becomes a `NAME_POINTER` record that `from_json_safe` does not turn back into the datablock |
| EngineUtils.NestedWriteFacts | engine/utils.py:52-69 | the write succeeds exactly when the walk over all but the last segment reaches a struct and the attribute write is accepted; it then sets that attribute to the value and changes no datablock's identity |
| EngineUtils.SetNestedProperty | engine/utils.py:52-69 | returns True exactly when `NestedWrite` writes, and the store then holds its result; on False nothing changes; only a removed datablock makes it raise |
| Globs.StarMatchesAll | engine/utils.py:127 | the pattern `'*'` matches every path |
| Globs.LiteralMatch | engine/utils.py:127 | a wildcard-free pattern matches exactly the equal string |
| Globs.LiteralPrefix | engine/utils.py:127 | a pattern starting with literal characters only matches strings with that prefix |
| UuidManager.UuidCache.constructor | uuid_manager.py:11-12 | the cache starts empty and unpopulated |
| UuidManager.UuidCache.Populate | uuid_manager.py:14-31 | nothing changes when the flag is set; otherwise the cache becomes the scan of the store and the flag is set |
| UuidManager.ScanStore | uuid_manager.py:21-30 | the scan loop over the thirteen collections, each in store order, yields `ScanAll` |
| UuidManager.ScanAllSound | uuid_manager.py:27-30 | every cache entry points to a live datablock of a scanned kind carrying that uuid |
| UuidManager.ScanAllComplete | uuid_manager.py:27-30 | every live, tagged datablock of a scanned kind has its uuid in the cache |
| UuidManager.ScanKindKeeps | uuid_manager.py:27-30 | the scan never drops a key already present |
| UuidManager.PopulatedCache | uuid_manager.py:14-31 | the populated cache points only at live datablocks of scanned kinds, each under its own uuid, and misses none |
| UuidManager.WorkspacesUnseen | uuid_manager.py:22-26 | a workspace is never found through the populated cache, even when tagged |
| UuidManager.UuidCache.Register | uuid_manager.py:38-40 | the cache maps the uuid to the datablock and nothing else changes |
| UuidManager.UuidCache.Unregister | uuid_manager.py:42-46 | drops only the datablock's current uuid key, when truthy and present; a removed datablock raises |
| UuidManager.UuidCache.SetUuid | uuid_manager.py:48-62 | a target uuid is always written; otherwise a fresh uuid is written when forced or when the datablock has none; otherwise nothing changes and the existing uuid is returned; every write registers the datablock and no cache key is removed |
| UuidManager.UuidCache.Find | uuid_manager.py:64-73 | the empty uuid gives None and changes nothing; otherwise the cache is populated once and the lookup yields the entry or None |
| UuidManager.UuidCache.GetAll | uuid_manager.py:75-78 | returns the whole cache after populating it once |
| UuidManager.UuidCache.Invalidate | uuid_manager.py:84-87 | only the flag is cleared; the entries stay |

## Left out

- Reconciler.SyncActiveSocket: node execution is the pure parameter `exec`, so a node cannot create a datablock while the tree is being evaluated. The census of managed datablocks is therefore the one taken before evaluation. A datablock made during the run, which the source finds at reconciler.py:126-148 and keeps or sweeps, is outside the model. The sweep lemmas (`Reconciler.GarbageCollected`, `Reconciler.SweepFacts`) speak only of datablocks that existed before the run.
- NodeEval.EvaluateNode: the node graph must be acyclic, which is stated by a rank that decreases along every followed link. On a cyclic graph the source recursion ends in RecursionError; the model does not cover that input. The same rank requirement holds for `NodeEval.EvaluateActiveBranch`, `ReconcilerEval.EvaluateNode` and `ReconcilerEval.EvaluateNodeTree`.
- Planner.PlanExecution: the FIFO order of the deque and the insertion order of the `adj`/`in_degree` dictionaries are not modelled. The outcome is proved to contain each prim once and every prim after its parent and its relationship targets. The first prims are proved to be the zero in-degree ones, in listing order. The empty plan is proved to occur exactly on a cycle or a repeated path. Which of several valid orders Kahn's loop picks is not determined by the model.
- HostStore.Store.Create: the datablock takes exactly the requested name. Blender's `.001` renaming on a clash and its 63-byte name limit are not modelled.
- HostStore.Store.Copy: the copy is named exactly as given. Blender's `.001` suffixing of copies is not modelled.
- HostStore.Store.Rename: renaming sets the name exactly, with no clash renaming or truncation.
- HostStore.Store.LinkChild: the child collection is appended unconditionally. Blender raises RuntimeError when a collection is linked into itself or into one of its descendants; that error is not modelled.
- ProxyTypes.ProxyHeap.Merge: the tree after the merge is stated only when no prim of the other tree is named `..`. For such a name, `find_child_by_path` climbs to the parent, and the model then promises only that the heap stays valid and that the other tree is left untouched. The parent back-link of an appended clone is covered only by the heap's well-formedness, not by a separate clause.
- ProxyTypes.ProxyHeap.Repath: in the source, a `_fn_relationships` value that is not a dictionary, or a non-string entry in a target list, raises AttributeError. In the model such values are left as they are.
- Globs.Match: `fnmatch` is reduced to `*` (which also crosses `/`), `?` and literal characters. A bracket class `[...]` is matched as literal characters, and `os.path.normcase` is not modelled.
- EngineUtils.SetNestedProperty: the conversion of list values to `mathutils` Vector, Color, Euler, Quaternion or Matrix (engine/utils.py:60-65) is not modelled. A list is written as a list.
- Strings.IsSpace: whitespace is the ASCII set (space, tab, newline, carriage return, vertical tab, form feed). Python's `str.split()` and `str.strip()` also treat `\x1c`-`\x1f` and Unicode spaces as whitespace. This also holds for `ListNodes.Words`, `ListNodes.SplitString` with no separator and `Strings.Strip`.
- Orchestrator.Engine.RunBranch: a root handle the proxy heap does not hold ends the run as `Idle`, with nothing changed. In the source the root is always a live `DatablockProxy`, so this case exists only in the model.
- CollectionNodes.RelsOf: a `_fn_relationships` value that is not a dictionary reads as empty. In the source, `.get` and `setdefault` on it raise AttributeError (nodes/set_collection.py:90, 111).
- CollectionNodes.LinksOf: a `collection_links` value that is not a list reads as empty, where the source raises.
- Host store internals (`bpy.data.*.new`/`remove`, `children.link`, `.copy()`, `evaluated_get`, `view_layer.update`) are opaque operations of `HostStore.Store`. Setting `window.scene` is a field of the engine.
- `uuid.uuid4()`, `get_persistent_uuid` and `fn_output_uuid` are parameters, assumed distinct from the ids in use where the source relies on that.
- `eval` of the Set Property value string is a parameter: the value it parsed, or None when it raised.
- RNA introspection: `capture_initial_state` and the `mathutils`, `bpy_prop_array` and ID branches of `to_json_safe` (engine/utils.py:25-39, 71-110) are a capture parameter or are left out. Float values are carried as `real` without rounding.
- Depsgraph and handler plumbing are not modelled: handler registration, the debounce timer, engine/entry_point.py and `__init__.py`. The handler `__init__.py` registers, `reconciler.datablock_nodes_depsgraph_handler`, is not defined in reconciler.py.
- File I/O and rendering are not modelled: nodes/read_file.py, nodes/write_file.py, nodes/import_node.py, nodes/batch_render.py and the write-file operator.
- UI and registration are not modelled: sockets, properties, operators, and `draw_buttons`/`update_sockets` of every node.
- The `new_*` creator nodes (nodes/new_scene.py and its siblings) are not modelled. Each one repeats the get-or-create pattern of nodes/utils.py, which is modelled (`StateNodes.GetOrCreate`). They read the undeclared `datablock_uuid` row field in the same way.
- Thin host wrappers are not modelled: nodes/get_datablock_content.py, set_datablock_name.py, set_object_name.py, set_datablock_properties.py and set_datablock_cycles_properties.py. The last two delegate to the RNA path writer, which is modelled.
- Trivial or float-valued leaves are not modelled: nodes/new_value.py, value_to_string.py, sequence_of_actions.py, execute.py, output_scenes.py and constants.py.
- Logging and `print` calls are left out. Where a print reads a removed datablock and so raises ReferenceError, that raise is modelled.

## Findings

| source | as written | input that shows it | evidently intended | confidence | as-written member | corrected member |
|---|---|---|---|---|---|---|
| reconciler.py:186 | `removal_map.get(type(datablock))` looks the remover up by exact class | a stale point light, whose class is the `Light` subclass `PointLight`, is not in the map and survives the sweep | remove every stale datablock through the collection of its kind | not executed | Reconciler.SweepAsWritten, Reconciler.StaleLightSurvives | Reconciler.DiffAndSync, Reconciler.GarbageCollected |
| reconciler.py:215-216 | a trailing `name[i]` indexes `current_obj[name]`, the custom property, not the RNA attribute | writing `location[0]` on an object with no custom property `location` leaves `location` unchanged | write element `i` of the attribute the path leads to | not executed | Reconciler.SetRnaPropertyAsWritten, Reconciler.IndexedAttributeUnwritten | Reconciler.SetRnaPropertyValue, Reconciler.IndexedWriteLands |
| nodes/derive_datablock.py:108 | calls `uuid_manager.get_or_create_uuid`, which uuid_manager.py does not define | any run with a source datablock raises AttributeError and records nothing | read the source's uuid (`set_uuid` without force) and derive a copy | not executed | StateNodes.DeriveAsWritten | StateNodes.Derive, StateNodes.DeriveThenReuse |
| nodes/utils.py:25, 49 | reads and writes `map_item.datablock_uuid`, while the state-map row declares `datablock_uuids` (`__init__.py`:29-32) | a first run creates a datablock, appends a bare row and then raises; every later run raises | use the declared `datablock_uuids` field, so a second run reuses the datablock | not executed | StateNodes.GetOrCreateAsWritten | StateNodes.GetOrCreate, StateNodes.GetOrCreateReuses |
| nodes/set_collection.py:82 | looks the collection up with `find_child_by_path('/' + name)` on the root, and an absolute path must start with the root's own path `/root` | a scene holding collection `Coll`: ADD misses it and appends a second `Coll` prim; REMOVE changes nothing | find the root's child named `name` | not executed | CollectionNodes.AsWrittenMissesColl, CollectionNodes.RemoveAsWrittenIdle | CollectionNodes.LookupFindsColl, CollectionNodes.StepAddTwice, CollectionNodes.SetCollection |
| nodes/parent_collection.py:32, 38 | the same `find_child_by_path('/' + name)` lookups | any child name not starting with `root`: the node returns the clone unchanged | move each child collection under the last parent collection named | not executed | CollectionNodes.ParentAsWrittenIdle | CollectionNodes.ParentOuterLinks, CollectionNodes.ParentCollection |
| engine/utils.py:136-143 | only filters with `key == 'type'` exclude prims, and the union, intersection and difference filters have no `key` | the difference of a query with itself selects every prim | the set union, intersection and difference of the two queries' selections | not executed | SelectionNodes.CombinedSelectsAll, SelectionNodes.DifferenceWithItself | SelectionNodes.IntendedUnion, SelectionNodes.IntendedIntersection, SelectionNodes.IntendedDifference |
| nodes/select.py:57-64 | hands the parsed operator on as written, while the resolver keeps a prim only for op `'eq'` | `*[@type == MESH]` selects nothing, even in a tree with meshes | an `@type == value` filter keeps the prims of that type | not executed | SelectionNodes.ParseFilterAsWritten, SelectionNodes.TypeEqualityKeepsNothing | SelectionNodes.ParseFilter, SelectionNodes.TypeEqualityKeepsType |
| engine/orchestrator.py:77-111 | partitions by `bl_rna.identifier` compared with `'OBJECT'`, `'SCENE'`, `'COLLECTION'`, and removes data through `identifier.lower() + 's'` | a stale mesh: `'Mesh'` is none of the three, and `bpy.data.meshs` does not exist, so it survives | remove each stale datablock through the collection of its kind, objects first | not executed | Orchestrator.DestroyAsWrittenSurvivors, Orchestrator.StaleMeshSurvives | Orchestrator.DestroyByKindKills |
| engine/materializer.py:84 | reads `tree.fn_initial_state_map`, which the node tree never declares | any plan with a prim that resolves raises AttributeError in pass 2, so nothing is configured or linked | a declared initial-state map, so pass 2 runs to its end | not executed | MaterializerFacts.UndeclaredMapAborts | MaterializerFacts.DeclaredMapRuns |
| nodes/cube.py:31-41 | nests the mesh prim under the object and points the object's `data` relationship at it | planning any cube, camera or light tree yields the empty plan, because parent and relationship edges form a cycle | a plan with the data before the object, as the sibling layout of nodes/create_primitive.py gives | not executed | BuilderNodes.NestedDataCycle | BuilderNodes.SiblingDataPlans |
