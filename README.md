# flexi-cad editing engine, modelled in Dafny

This project models the editing engine of flexi-cad, a collaborative CAD program.
The engine has a Rust kernel that stores a drawing, and a TypeScript client that
drives the kernel from the mouse.

**Kernel store with undo and redo.**
- The object store of a file maps ids to objects. add accepts any key not yet present,
  the nil id included (database.rs:17-26); adding an id twice is refused; get and
  get_mut answer NotFound for the nil id and for a missing key, and remove for a missing key.
- The pending events record one change per touched object. The recorder has a nesting
  and a suspension counter.
- The undo and redo stacks are searched per user from the most recent event. Undoing
  an event walks its changes back to front and records the inverse event.
- The dependency graph maps each publisher to its subscribers.
- The operation manager of a file composes these. It broadcasts an update message on
  each of its channels, and refreshes the dependents of whatever an edit, undo, redo
  or cancel touched.
- The application state maps each open file to its manager. The entity operations on
  top of it are move, property get and set, copy with reference retargeting, and
  snapping to the closest geometry.

**Entities.** Walls, doors, linear dimensions and slabs are values. Each has:
- get_data and set_data property dispatch;
- index tables for its points, results and references;
- the rule that a dangling point reference is reset to nil.

The older wall and stub dimension of the first kernel are modelled too.

**Client session.** The operations layer is a `Session` object. It holds:
- the registry of waiters on object changes, in registration order per id;
- the registry of waiters on query answers, one per query id;
- the renderer's scene, as a map from names to nodes;
- the calls made on the kernel, either as packets on the socket or as native calls.

`handleUpdate` dispatches on the message's parts by priority: Error, then Delete,
then Read, then the Mesh and Other parts. The drawing tools and the UI controller
are classes. A call a tool makes on the operations layer is appended to the tool's
command log. The kernel's answers that a tool awaits are parameters. The GUI's
overlay label, property merge and edit handler are modelled as the code writes them.

**Choices where the sources disagree.**
- The client and the data manager pass a caller-chosen undo event id, but
  `PendingEvents::begin_event` mints its own (undo.rs:110-123). The model follows
  undo.rs: the kernel mints the id, given as a fresh parameter. The client's minted
  id is a parameter on the client side.
- `begin_event` checks the pending map under the user id, although the map is keyed
  by event id. This is modelled as written.
- The entity operations call `app_state::get_obj`, `copy_obj` and `set_ref`, which
  app_state.rs does not define. They are routed to the file's operation manager, as
  the other file operations are.
- operation_manager/mod.rs reads references through an older interface (`refer.id`,
  `ref_type`). This is mapped onto the entities' owner/other references: the
  followed object and its geometry index.
- The error enum lacks the `PropertyNotFound` that every entity returns, so the model
  adds it.
- For the overlay label, the code writes "<n> <type>s" (gui.ts:155). The model
  follows the code.
- `ObjStore::get_ref_point` (data-model/src/lib.rs:66-90) asks for the RefPoint
  interface, but no entity of data-model registers it (wall.rs:17 lists ObjectClone,
  Debug, Data, ReferTo, Position and UpdateFromRefs). The model follows the code:
  every object found answers ObjLacksTrait (`Objects.GetRefPoint`). The older
  kernel's wall does register RefPoint, and `OldKernel.OldGetRefPoint` answers its
  points.
- copy_objs takes the geometry from the referencing original, at the referenced
  index, and sets the slot with that same index. This is modelled as written
  (`EntityOps.RetargetOne`).

## Model

| member | source | states |
|---|---|---|
| Base.Index | data-model/src/entities/wall.rs:116-132 | indexing a JSON value reads the field of an object that has it and Null in every other case, as the entities' property setters rely on |
| Base.NatToDecimal | ui/src/ui/gui.ts:155 | the text of a count is non-empty, all decimal digits, and one digit below ten |
| Base.DecimalRoundTrip | ui/src/ui/gui.ts:155-162 | the decimal text of a count reads back as that count, so distinct counts give distinct captions |
| GeometryKernel.PointJson | data-model/src/entities/door.rs:54-55 | a point is rendered as an object with exactly the fields x, y and z holding its coordinates |
| GeometryKernel.PushPt | data-model/src/geometry_kernel/mod.rs:24-29 | one vertex is appended, three coordinates long, with the model's z as graphic y and the model's y negated as graphic z; id, indices and metadata are kept |
| GeometryKernel.InterpNew | data-model/src/geometry_kernel/mod.rs:58-69 | the value is clamped into [0, 1]: kept inside, 1 above, 0 below |
| GeometryKernel.Translate | data-model/src/geometry_kernel/mod.rs:76-78 | each coordinate moves by the matching component of the vector |
| GeometryKernel.TranslateBack | data-model/src/geometry_kernel/mod.rs:76-78 | moving by a vector and then by its negation restores the point |
| GeometryKernel.NewParametricPoint | data-model/src/entities/wall.rs:23-24 | a new parametric point sits at the position and follows nothing |
| GeometryKernel.SetReference | data-model/src/entities/wall.rs:236-240 | the assumed rule (set_reference is defined outside the modelled crates): the point takes the referenced position and follows the other geometry |
| GeometryKernel.UpdatePoint | data-model/src/entities/wall.rs:282-286 | the assumed rule (update is defined outside the modelled crates): a present geometry moves the point and keeps its reference; an absent one drops the reference and keeps the position |
| DataModel.ErrorOther | data-model/src/lib.rs:29-31 | a foreign error becomes an Other error carrying its text, never NotFound or ObjLacksTrait |
| DataModel.Metadata | data-model/src/entities/door.rs:47-56 | the mesh metadata is an object whose type is the entity's name and whose obj is its property bag |
| WallEntity.NewWall | data-model/src/entities/wall.rs:20-31 | both ends are unreferenced points at the given positions, width and height as given, no openings, the minted id |
| WallEntity.GetData | data-model/src/entities/wall.rs:106-114 | Width, Height, First and Second are readable, any other name is PropertyNotFound, and the value read is the property bag's |
| WallEntity.SetData | data-model/src/entities/wall.rs:116-132 | succeeds exactly when Width or Height is a number; each numeric one is taken, nothing else changes; otherwise PropertyNotFound and the wall is untouched |
| WallEntity.SetDataOfGetData | data-model/src/entities/wall.rs:106-132 | writing back the Width or Height just read succeeds and leaves the wall unchanged |
| WallEntity.GetDataOfSetData | data-model/src/entities/wall.rs:106-132 | a Width or Height written is the value read back |
| WallEntity.Update | data-model/src/entities/wall.rs:44-76 | the wall comes back with exactly its openings that follow something, and nothing else changed; the message is a mesh under the wall's id whose metadata names the type Wall, the traits ReferTo, Position and UpdateFromRefs, and the wall's property bag |
| WallEntity.Referenced | data-model/src/entities/wall.rs:57 | every kept opening follows something; each opening that follows something is kept exactly as often as it occurs and every other one is dropped; a list whose openings all follow something is kept whole |
| WallEntity.ReferencedAppend | data-model/src/entities/wall.rs:57 | retaining distributes over concatenation, so the kept openings stay in their order |
| WallEntity.ReferencedSingle | data-model/src/entities/wall.rs:57 | a single opening is kept exactly when it follows something |
| WallEntity.TempRepr | data-model/src/entities/wall.rs:78-104 | a mesh with the wall's id and no metadata |
| WallEntity.GetPoint | data-model/src/entities/wall.rs:136-149 | a point exists exactly for the indices below 2 plus the number of openings |
| WallEntity.AllPointsIndexed | data-model/src/entities/wall.rs:136-163 | the list of all points has get_num_points entries and matches get_point index by index |
| WallEntity.GetAllPoints | data-model/src/entities/wall.rs:151-159 | the loop returns both ends followed by every opening point |
| WallEntity.ClearRefs | data-model/src/entities/wall.rs:168-174 | the loop leaves the wall with every point unreferenced and nothing else changed |
| WallEntity.ClearedForgetsReferences | data-model/src/entities/wall.rs:168-174 | a cleared wall keeps all its points, reports two empty end references and offers both ends again |
| WallEntity.EndRef | data-model/src/entities/wall.rs:178-189 | an end reports a reference exactly when it follows something, owned by the wall at that end's index |
| WallEntity.GetRefs | data-model/src/entities/wall.rs:176-217 | the loop returns the two end entries followed by the nine references of every complete, fully referenced opening triple |
| WallEntity.TriplesOfUnreferenced | data-model/src/entities/wall.rs:190-215 | openings that follow nothing contribute no references |
| WallEntity.TriplesOwned | data-model/src/entities/wall.rs:190-215 | every opening reference is owned by the wall at one of its opening slots |
| WallEntity.RefsOwned | data-model/src/entities/wall.rs:176-217 | at least the two end entries are reported, and every reference is owned by the wall at an index below get_num_refs |
| WallEntity.AvailableRefs | data-model/src/entities/wall.rs:219-228 | exactly the ends that follow nothing are offered: 0 for the first, 1 for the second |
| WallEntity.SetRef | data-model/src/entities/wall.rs:234-244 | an index in range makes that point sit at the result and follow the other geometry; every other point, the width, the height, the id and the number of openings stay; an index past the openings changes nothing |
| WallEntity.SetRefTakesEnd | data-model/src/entities/wall.rs:219-244 | an end given a reference is no longer offered by get_available_refs, and get_refs reports it owned by the wall at that end and following the other geometry |
| WallEntity.AddRef | data-model/src/entities/wall.rs:246-251 | always succeeds; the wall gains exactly one opening, at the end, placed at the result and following the other geometry, and nothing else changes |
| WallEntity.DeleteRef | data-model/src/entities/wall.rs:253-263 | index 0 or 1 drops only that end's reference; an opening index in range removes exactly that opening, keeping the others in order; an index out of range changes nothing |
| WallEntity.DeleteRefUndoesAddRef | data-model/src/entities/wall.rs:246-263 | deleting the opening add_ref just appended gives back the wall as it was |
| WallEntity.AssociatedPoint | data-model/src/entities/wall.rs:265-278 | the associated point is the point at that index |
| WallEntity.SetAssociatedPoint | data-model/src/entities/wall.rs:280-290 | for an index in range, a present geometry moves that point keeping its reference and an absent one drops its reference keeping its position; every other point, the width, the height, the id and the number of openings stay; an index out of range changes nothing |
| WallEntity.MoveObj | data-model/src/entities/wall.rs:294-297 | both ends are translated with their references kept; the openings stay |
| WallEntity.MoveBack | data-model/src/entities/wall.rs:294-297 | moving by a vector and then by its negation restores the wall |
| DoorEntity.NewDoor | data-model/src/entities/door.rs:13-21 | the segment runs between the two points and follows nothing; width, height and the minted id as given |
| DoorEntity.GetData | data-model/src/entities/door.rs:96-105 | Width, Height, Length, First and Second are readable, with Length from the segment; any other name is PropertyNotFound |
| DoorEntity.SetData | data-model/src/entities/door.rs:107-126 | succeeds exactly when one of Width, Height or Length is a number, taking each numeric one; otherwise PropertyNotFound and the door is untouched; the ends, id and reference never change |
| DoorEntity.GetDataOfSetLength | data-model/src/entities/door.rs:96-126 | a Length written is the Length read back, and only the segment's length changes |
| DoorEntity.Update | data-model/src/entities/door.rs:43-72 | a mesh with the door's id whose metadata names the type Door and carries its property bag |
| DoorEntity.TempRepr | data-model/src/entities/door.rs:74-94 | a mesh with the door's id and no metadata |
| DoorEntity.GetResult | data-model/src/entities/door.rs:130-152 | results exist exactly for indices 0 to 2: the two ends as points, then a rectangle whose third corner is the height above the second end |
| DoorEntity.AllResultsIndexed | data-model/src/entities/door.rs:154-177 | get_all_results has get_num_results entries and matches get_result index by index |
| DoorEntity.Refs | data-model/src/entities/door.rs:185-204 | three entries: the segment's reference at slot 0 exactly when it follows something, then the rectangle's two references to the door's own ends |
| DoorEntity.ClearRefs | data-model/src/entities/door.rs:181-183 | only the segment's reference is dropped |
| DoorEntity.ClearedRefsAreInternal | data-model/src/entities/door.rs:181-212 | after clearing, every remaining reference points at the door itself and slot 0 is offered again |
| DoorEntity.AvailableRefs | data-model/src/entities/door.rs:206-212 | slot 0 is offered exactly when the segment follows nothing |
| DoorEntity.SetRef | data-model/src/entities/door.rs:218-229 | index 0 makes the segment follow the other geometry and get_refs report it; any other index changes nothing |
| DoorEntity.AddRef | data-model/src/entities/door.rs:231-233 | a door refuses extra references and is unchanged |
| DoorEntity.DeleteRef | data-model/src/entities/door.rs:235-240 | index 0 drops the reference; any other index changes nothing |
| DoorEntity.AssociatedGeom | data-model/src/entities/door.rs:242-247 | only index 0 has an associated geometry, the line between the two ends |
| DoorEntity.SetAssociatedGeom | data-model/src/entities/door.rs:249-254 | the segment's geometry and the id stay; an absent geometry at 0 drops the reference; any other index changes nothing |
| DoorEntity.MoveObj | data-model/src/entities/door.rs:257-262 | both ends are translated; size, length, id and reference are kept |
| GeometryKernel.LineGeom | data-model/src/entities/door.rs:244 | the line geometry of a segment joins its two ends |
| GeometryKernel.SetLineReference | data-model/src/entities/door.rs:226 | the segment records the other geometry and keeps its shape |
| GeometryKernel.UpdateLine | data-model/src/entities/door.rs:251 | the segment keeps its shape; an absent geometry drops its reference, a present one keeps it |
| DimensionEntity.NewDimension | data-model/src/entities/dimension.rs:13-21 | both ends are unreferenced points at the given positions; offset and minted id as given |
| DimensionEntity.GetData | data-model/src/entities/dimension.rs:92-99 | Offset, First and Second are readable; any other name is PropertyNotFound |
| DimensionEntity.SetData | data-model/src/entities/dimension.rs:101-112 | succeeds exactly when Offset is a number, which then becomes the offset and nothing else changes; otherwise PropertyNotFound and the dimension is untouched |
| DimensionEntity.SetDataOfGetData | data-model/src/entities/dimension.rs:92-112 | writing back the offset just read succeeds and changes nothing |
| DimensionEntity.Describe | data-model/src/entities/dimension.rs:50-63 | the description carries the id as text and metadata naming the type Dimension with its offset |
| DimensionEntity.Update | data-model/src/entities/dimension.rs:42-65 | update sends the description as a non-mesh message |
| DimensionEntity.TempRepr | data-model/src/entities/dimension.rs:67-90 | the temporary representation is the same message update sends, so it too is not a mesh |
| DimensionEntity.ClearRefs | data-model/src/entities/dimension.rs:116-119 | both ends stop following and nothing else changes |
| DimensionEntity.Refs | data-model/src/entities/dimension.rs:121-134 | two entries, each present exactly when its end follows something, owned by the dimension at that end's slot |
| DimensionEntity.AvailableRefs | data-model/src/entities/dimension.rs:136-145 | exactly the ends that follow nothing are offered |
| DimensionEntity.ClearedForgetsReferences | data-model/src/entities/dimension.rs:116-145 | a cleared dimension reports no references and offers both slots again |
| DimensionEntity.SetRef | data-model/src/entities/dimension.rs:151-163 | slot 0 or 1 takes the reference on that end only; another index changes nothing |
| DimensionEntity.SetRefTakesSlot | data-model/src/entities/dimension.rs:121-163 | a slot given a reference is no longer offered and get_refs reports it |
| DimensionEntity.AddRef | data-model/src/entities/dimension.rs:165-167 | a dimension refuses extra references and is unchanged |
| DimensionEntity.DeleteRef | data-model/src/entities/dimension.rs:169-175 | slot 0 or 1 drops that end's reference; another index changes nothing |
| DimensionEntity.AssociatedGeom | data-model/src/entities/dimension.rs:177-183 | slots 0 and 1 expose their end as a point; others have nothing |
| DimensionEntity.SetAssociatedGeom | data-model/src/entities/dimension.rs:185-191 | slot 0 or 1 updates that end from the geometry; another index changes nothing |
| DimensionEntity.SetAssociatedOfAssociated | data-model/src/entities/dimension.rs:177-191 | writing back a slot's own geometry leaves the dimension unchanged |
| DimensionEntity.MoveObj | data-model/src/entities/dimension.rs:194-200 | the ends and the id do not move |
| GeometryKernel.SetPointReference | data-model/src/entities/dimension.rs:159-160 | the assumed rule (set_reference is defined outside the modelled crates; snap_pt is dropped): the end records the other geometry and takes a point result's position; any other result keeps it |
| GeometryKernel.UpdateRefPoint | data-model/src/entities/dimension.rs:187-188 | the assumed rule (update is defined outside the modelled crates): an absent geometry drops the reference; a point moves the end; any other kind changes nothing |
| SlabEntity.Update | data-model/src/entities/slab.rs:35-48 | an empty mesh with the slab's id whose metadata names the type Wall and carries an empty property bag |
| SlabEntity.TempRepr | data-model/src/entities/slab.rs:50-58 | an empty-metadata mesh with the slab's id |
| SlabEntity.GetData | data-model/src/entities/slab.rs:60-64 | every property name is PropertyNotFound |
| SlabEntity.SetData | data-model/src/entities/slab.rs:66-73 | every write fails with PropertyNotFound and leaves the slab unchanged |
| SlabEntity.GetResult | data-model/src/entities/slab.rs:77-79 | a slab offers no geometry at any index |
| SlabEntity.AllResults | data-model/src/entities/slab.rs:81-84 | the list of results is empty |
| SlabEntity.Refs | data-model/src/entities/slab.rs:94-97 | a slab reports no references |
| Objects.SetId | data-model/src/lib.rs:46 | the object answers the id it was given |
| Objects.Update | data-model/src/lib.rs:43 | update keeps the id and kind; only a wall can change (it drops openings); every kind but the dimension answers a mesh about itself, the dimension its description |
| Objects.TempRepr | data-model/src/entities/dimension.rs:67-90 | only a dimension's temporary representation is not a mesh; every other kind's is a mesh with its own id |
| Objects.GetData | data-model/src/entities/slab.rs:60-64 | the only error any kind reports for a property read is PropertyNotFound |
| Objects.SetData | data-model/src/lib.rs:44 | a property write keeps the id; a failed one is PropertyNotFound and changes nothing |
| Objects.GetResult | data-model/src/entities/slab.rs:76-89 | a dimension or a slab offers no geometry; otherwise a result exists exactly for the indices of get_all_results and equals that entry |
| Objects.ClearRefs | data-model/src/lib.rs:95 | clearing keeps the id, and every reference left afterwards points back at the object itself |
| Objects.Refs | data-model/src/lib.rs:96 | every reference an object reports is owned by that object |
| Objects.SetRef | data-model/src/entities/wall.rs:234-244 | setting a reference keeps the object's id |
| Objects.SetAssociatedGeom | data-model/src/entities/wall.rs:280-290 | updating from a referenced geometry keeps the object's id |
| Objects.MoveObj | data-model/src/geometry_kernel/mod.rs:76-78 | moving keeps the object's id |
| Objects.Lookup | operations/src/operation_manager/data_manager/database.rs:28-36 | an object is found exactly when the id is not nil and stored, and it is the stored one; otherwise NotFound |
| Objects.GetRefPoint | data-model/src/lib.rs:66-90 | no entity registers RefPoint, so the answer is always an error: ObjLacksTrait exactly when the referenced id is stored and not nil, NotFound otherwise; NotFound resets the reference's id to nil and ObjLacksTrait leaves the reference unchanged |
| Objects.GetRefPointSettles | data-model/src/lib.rs:84-87 | looking the reference up again after a call gives the same answer and changes it no further |
| Database.WalkConcat | operations/src/operation_manager/data_manager/database.rs:58-80 | undoing a + b undoes b first, then a from where b left the store, and a failure in b stops before a |
| Database.UndoChangeKeyed | operations/src/operation_manager/data_manager/database.rs:59-79 | undoing one change keeps every object stored under its own id |
| Database.UndoChangeKey | operations/src/operation_manager/data_manager/database.rs:59-79 | the inverse of an undone change is about the same object |
| Database.WalkKeyed | operations/src/operation_manager/data_manager/database.rs:55-82 | the undo walk keeps every object stored under its own id |
| Database.WalkRecordsInverses | operations/src/operation_manager/data_manager/database.rs:55-82 | a completed undo records one inverse per change, in reverse order, each about the same object |
| Database.WalkChangedSet | operations/src/operation_manager/data_manager/database.rs:55-82 | a completed undo's redo event touches exactly the objects the undone event touched |
| Database.ReversibleConcat | operations/src/operation_manager/data_manager/database.rs:58-80 | a walk over a + b is reversible exactly when b is and a is from the store b leaves |
| Database.ReversibleCompletes | operations/src/operation_manager/data_manager/database.rs:58-80 | a reversible walk completes without NotFound |
| Database.UndoChangeInverts | operations/src/operation_manager/data_manager/database.rs:59-79 | undoing a change and then its inverse restores the store and gives back the change |
| Database.RoundTrip | operations/src/operation_manager/data_manager/database.rs:55-82 | undoing the event an undo returned restores the store and the original changes, and that redo is itself reversible |
| Database.WalkFails | operations/src/operation_manager/data_manager/database.rs:61-71 | a step that finds its key missing stops the walk with NotFound and records nothing from there on |
| Database.WalkSteps | operations/src/operation_manager/data_manager/database.rs:58-80 | a step that succeeds records its inverse and the walk goes on with the earlier changes |
| Database.SetIdTwice | operations/src/operation_manager/data_manager/mod.rs:96-98 | giving a duplicate a new id and then the old one back restores the object |
| Database.FileDatabase.constructor | operations/src/operation_manager/data_manager/database.rs:11-15 | the store starts empty |
| Database.FileDatabase.Add | operations/src/operation_manager/data_manager/database.rs:17-26 | a new id is stored and Success; an id already present is Overwrite and nothing changes |
| Database.FileDatabase.Get | operations/src/operation_manager/data_manager/database.rs:28-36 | the nil id is NotFound; otherwise the stored object exactly when the key is present, else NotFound |
| Database.FileDatabase.Remove | operations/src/operation_manager/data_manager/database.rs:38-43 | a present key's object is answered and the key is gone; a missing key is NotFound and nothing changes |
| Database.FileDatabase.GetMut | operations/src/operation_manager/data_manager/database.rs:45-53 | a nil or missing key is NotFound and nothing changes; otherwise the callback's edit is stored and its status answered |
| Database.FileDatabase.Duplicate | operations/src/operation_manager/data_manager/mod.rs:96-98 | a stored object yields a copy under the new id which is the original apart from the id; a missing one is NotFound |
| Database.FileDatabase.Undo | operations/src/operation_manager/data_manager/database.rs:55-82 | the store becomes the undo walk's result; success answers the event with its inverse changes; a missing key answers NotFound, keeping what was already undone |
| Database.FileDatabase.UndoOne | operations/src/operation_manager/data_manager/database.rs:59-79 | one loop step does what undoing that change means, and a NotFound step changes nothing |
| UndoEvents.NewEvent | operations/src/operation_manager/data_manager/undo.rs:30-40 | a new event has the minted id, the user and the description, no changes, and is neither nested nor suspended |
| UndoEvents.GetChangedObjects | operations/src/operation_manager/data_manager/undo.rs:42-52 | the loop answers exactly the ids some change of the event is about |
| UndoEvents.ChangedSetMembers | operations/src/operation_manager/data_manager/undo.rs:42-52 | an id is in the changed set exactly when some change is about it |
| Undo.Record | operations/src/operation_manager/data_manager/undo.rs:206-208 | a change is appended only while the event is not suspended; ids, description and levels are kept |
| Undo.PerformKeyed | operations/src/operation_manager/data_manager/undo.rs:200-251 | an edit keeps every object stored under its own id |
| Undo.PerformUndone | operations/src/operation_manager/data_manager/undo.rs:200-251 | undoing the change an edit recorded takes the store back to before the edit |
| Undo.SessionUndone | operations/src/operation_manager/data_manager/undo.rs:200-251 | undoing the event a run of edits recorded restores the store as it was before them, and that undo is itself reversible |
| Undo.LatestOf | operations/src/operation_manager/data_manager/undo.rs:69-71 | the search from the back finds the user's most recent event, and finds none exactly when the user has none |
| Undo.RemoveAt | operations/src/operation_manager/data_manager/undo.rs:72 | removing one event keeps the others in order |
| Undo.RemoveLatestKeepsOthers | operations/src/operation_manager/data_manager/undo.rs:68-82 | removing one user's latest event leaves every other user's events in order |
| Undo.FilterConcat | operations/src/operation_manager/data_manager/undo.rs:68-98 | one user's events in a concatenation are that user's events in each part, in order |
| Undo.UndoStack.constructor | operations/src/operation_manager/data_manager/undo.rs:61-66 | both stacks start empty |
| Undo.UndoStack.UndoLatest | operations/src/operation_manager/data_manager/undo.rs:68-82 | without an event of the user, NoUndoEvent and nothing changes; otherwise that event is taken off the stack and undone, on success its inverse goes onto the redo stack and the ids it touched are answered, and a failed undo is NotFound |
| Undo.UndoStack.RedoLatest | operations/src/operation_manager/data_manager/undo.rs:84-98 | the same from the redo stack back onto the undo stack |
| Undo.PendingEvents.constructor | operations/src/operation_manager/data_manager/undo.rs:106-108 | no events are pending |
| Undo.PendingEvents.BeginEvent | operations/src/operation_manager/data_manager/undo.rs:110-123 | the lookup by user id in the map keyed by event id: a hit nests that event one level deeper and answers its id, a miss starts a new event under the minted id |
| Undo.PendingEvents.EndEvent | operations/src/operation_manager/data_manager/undo.rs:126-152 | an unknown event is NoUndoEvent; a nested event loses one level; an outermost one moves onto the back of the undo stack; the redo stack is untouched |
| Undo.PendingEvents.TakeSnapshot | operations/src/operation_manager/data_manager/undo.rs:154-166 | an unknown event or object is NotFound and nothing changes; otherwise the object is recorded as modified |
| Undo.PendingEvents.SuspendEvent | operations/src/operation_manager/data_manager/undo.rs:168-176 | an unknown event is NotFound; otherwise its suspension is one level deeper |
| Undo.PendingEvents.ResumeEvent | operations/src/operation_manager/data_manager/undo.rs:178-188 | an unknown event is NotFound; otherwise its suspension is one level less, never below zero |
| Undo.PendingEvents.CancelEvent | operations/src/operation_manager/data_manager/undo.rs:190-198 | an unknown event is NotFound; otherwise the event is dropped and undone, and the ids it touched answered or NotFound when the undo fails |
| Undo.PendingEvents.AddObj | operations/src/operation_manager/data_manager/undo.rs:200-218 | an unknown event is NoUndoEvent; an id already present is Overwrite; otherwise the object is stored and the add recorded |
| Undo.PendingEvents.DeleteObj | operations/src/operation_manager/data_manager/undo.rs:220-236 | an unknown event is NoUndoEvent; a missing key is NotFound; otherwise the object is removed, answered and recorded as deleted |
| Undo.PendingEvents.GetMutObj | operations/src/operation_manager/data_manager/undo.rs:238-251 | an unknown event is NoUndoEvent; a nil or missing key is NotFound; otherwise the old object is recorded, the edit stored and the callback's status answered |
| Dependencies.Registered | operations/src/operation_manager/dep_manager/mod.rs:43-56 | the nil subscriber changes nothing; any other is added to the publisher's subscribers, creating the entry if needed; other publishers are untouched |
| Dependencies.RegisterIdempotent | operations/src/operation_manager/dep_manager/mod.rs:43-56 | registering the same subscription twice is the same as once |
| Dependencies.Unsubscribed | operations/src/operation_manager/dep_manager/mod.rs:58-62 | the subscriber leaves the publisher's set; no entry is created or removed; other publishers are untouched |
| Dependencies.UnsubscribeUndoesRegister | operations/src/operation_manager/dep_manager/mod.rs:43-62 | removing a subscription just registered on an existing publisher restores the graph |
| Dependencies.Pruned | operations/src/operation_manager/dep_manager/mod.rs:64-69 | the publisher's entry goes and it is removed from every remaining subscriber set |
| Dependencies.DependencyManager.constructor | operations/src/operation_manager/dep_manager/mod.rs:9-13 | no subscriptions |
| Dependencies.DependencyManager.GetDeps | operations/src/operation_manager/dep_manager/mod.rs:15-21 | the publisher's subscribers, or none for an unknown publisher |
| Dependencies.DependencyManager.GetAllDeps | operations/src/operation_manager/dep_manager/mod.rs:23-32 | the loop answers exactly the subscribers of some listed id |
| Dependencies.DependencyManager.RegisterSub | operations/src/operation_manager/dep_manager/mod.rs:43-56 | the graph becomes the registered graph |
| Dependencies.DependencyManager.DeleteSub | operations/src/operation_manager/dep_manager/mod.rs:58-62 | the graph becomes the unsubscribed graph |
| Dependencies.DependencyManager.DeleteObj | operations/src/operation_manager/dep_manager/mod.rs:64-69 | the graph becomes the pruned graph |
| DataManagement.DataManager.constructor | operations/src/operation_manager/data_manager/mod.rs:17-23 | a fresh empty store, no pending events and two empty stacks |
| DataManagement.DataManager.BeginUndoEvent | operations/src/operation_manager/data_manager/mod.rs:42-44 | as PendingEvents.BeginEvent: a hit on the user id nests that event, a miss starts one under the minted id |
| DataManagement.DataManager.EndUndoEvent | operations/src/operation_manager/data_manager/mod.rs:46-49 | as PendingEvents.EndEvent, onto the one shared undo stack; the redo stack is untouched |
| DataManagement.DataManager.SuspendEvent | operations/src/operation_manager/data_manager/mod.rs:51-53 | an unknown event is NotFound; otherwise one level more suspended |
| DataManagement.DataManager.ResumeEvent | operations/src/operation_manager/data_manager/mod.rs:55-57 | an unknown event is NotFound; otherwise one level less suspended, never below zero |
| DataManagement.DataManager.CancelEvent | operations/src/operation_manager/data_manager/mod.rs:59-61 | the pending event is dropped and undone against the store; the ids it touched are answered |
| DataManagement.DataManager.AddObj | operations/src/operation_manager/data_manager/mod.rs:63-65 | an unknown event is NoUndoEvent, a present id Overwrite; otherwise stored and recorded |
| DataManagement.DataManager.DeleteObj | operations/src/operation_manager/data_manager/mod.rs:67-69 | an unknown event is NoUndoEvent, a missing key NotFound; otherwise removed, answered and recorded |
| DataManagement.DataManager.GetObj | operations/src/operation_manager/data_manager/mod.rs:71-73 | the stored object exactly when the key is not nil and present; otherwise NotFound |
| DataManagement.DataManager.GetMutObj | operations/src/operation_manager/data_manager/mod.rs:83-90 | the old object is recorded in the event and the edit stored; errors as PendingEvents.GetMutObj |
| DataManagement.DataManager.GetMutObjNoUndo | operations/src/operation_manager/data_manager/mod.rs:92-94 | the edit goes straight to the store with nothing recorded; a nil or missing key is NotFound |
| DataManagement.DataManager.DuplicateObj | operations/src/operation_manager/data_manager/mod.rs:96-98 | a copy of a stored object under the new id; NotFound otherwise |
| DataManagement.DataManager.UndoLatest | operations/src/operation_manager/data_manager/mod.rs:100-103 | the user's latest event is taken off the shared stack and undone, its inverse going onto the redo stack; NoUndoEvent when the user has none |
| DataManagement.DataManager.TakeUndoSnapshot | operations/src/operation_manager/data_manager/mod.rs:105-107 | the object as it is now is recorded as modified in the event; an unknown event or object is NotFound |
| DataManagement.DataManager.RedoLatest | operations/src/operation_manager/data_manager/mod.rs:109-112 | the user's latest redo event is undone back onto the undo stack; NoUndoEvent when the user has none |
| Operations.SendAllConcat | operations/src/operation_manager/mod.rs:49-53 | sending a and then b on every channel is sending a + b |
| Operations.SendNothing | operations/src/operation_manager/mod.rs:49-53 | sending no messages leaves every channel as it was |
| Operations.AllSubsOfListing | operations/src/operation_manager/mod.rs:197-200 | listing the publishers in any order gathers the same subscribers |
| Operations.Collect | operations/src/operation_manager/mod.rs:78 | collecting a set lists each of its members exactly once |
| Operations.UpdateAllMessages | operations/src/operation_manager/mod.rs:109-123 | one message per id in the order visited: the object's update when present, Delete when missing; every present listed object is left as its update leaves it and no key is added or removed |
| Operations.ResolvedRef | operations/src/operation_manager/mod.rs:125-144 | a geometry is resolved only for a reference whose object exists and answers ReferTo, and it is that object's result at the index |
| Operations.RefResults | operations/src/operation_manager/mod.rs:154-157 | one resolved geometry per reference, in order |
| Operations.RefreshStepMessage | operations/src/operation_manager/mod.rs:172-190 | refreshing one id keeps the keys, and its message is Delete(id) exactly when the id is nil or missing |
| Operations.RefreshAllKeys | operations/src/operation_manager/mod.rs:172-190 | refreshing a list of ids sends one message per id and never adds or removes an object |
| Operations.RefreshAllMessages | operations/src/operation_manager/mod.rs:172-190 | among the messages, Delete comes exactly for the ids that are missing |
| Operations.RegisterAllSubscribes | operations/src/operation_manager/mod.rs:227-235 | after add_object registers an object's references it follows every object it references, and no earlier subscription is lost |
| Operations.CopyIsDetached | operations/src/operation_manager/mod.rs:210-218 | the copy has the new id and every reference it keeps points at itself |
| Operations.OperationManager.constructor | operations/src/operation_manager/mod.rs:18-24 | an empty store, no pending events, empty stacks, no subscriptions, and one empty channel |
| Operations.OperationManager.Send | operations/src/operation_manager/mod.rs:49-53 | the message is appended to every channel |
| Operations.OperationManager.BeginUndoEvent | operations/src/operation_manager/mod.rs:59-61 | as the pending events' begin_event |
| Operations.OperationManager.EndUndoEvent | operations/src/operation_manager/mod.rs:63-65 | as the pending events' end_event on the shared undo stack |
| Operations.OperationManager.SuspendEvent | operations/src/operation_manager/mod.rs:67-69 | an unknown event is NotFound; otherwise one level more suspended |
| Operations.OperationManager.ResumeEvent | operations/src/operation_manager/mod.rs:71-73 | an unknown event is NotFound; otherwise one level less suspended, never below zero |
| Operations.OperationManager.TakeUndoSnapshot | operations/src/operation_manager/mod.rs:82-84 | the object is recorded as modified in the event; an unknown event or object is NotFound |
| Operations.OperationManager.UpdateOne | operations/src/operation_manager/mod.rs:110-120 | a present object is updated and its message sent; a missing one is announced deleted |
| Operations.OperationManager.UpdateSet | operations/src/operation_manager/mod.rs:109-123 | the store and every channel end as UpdateAll over some listing of the set prescribes |
| Operations.OperationManager.GetResolvedRef | operations/src/operation_manager/mod.rs:125-144 | no reference resolves to nothing; a resolved one names a stored object; the answer is the value-level resolution |
| Operations.OperationManager.ResolveRefs | operations/src/operation_manager/mod.rs:154-157 | each reference resolved against the current store, one answer per reference in order, with nothing changed |
| Operations.OperationManager.UpdateFromRefs | operations/src/operation_manager/mod.rs:146-170 | a missing object is NotFound and nothing changes; otherwise the object is refreshed from its resolved references, updated, stored, and its message answered |
| Operations.OperationManager.RefreshOne | operations/src/operation_manager/mod.rs:174-186 | a present object is refreshed, stored and its message sent; a missing one is announced deleted; the store and channels end as RefreshStep prescribes |
| Operations.OperationManager.UpdateSetFromRefs | operations/src/operation_manager/mod.rs:172-190 | the store and every channel end as RefreshAll over some listing of the set prescribes |
| Operations.OperationManager.UpdateDeps | operations/src/operation_manager/mod.rs:192-195 | the subscribers of the id, listed once each, are refreshed and their messages sent |
| Operations.OperationManager.UpdateAllDeps | operations/src/operation_manager/mod.rs:197-200 | the subscribers of every listed id, once each, are refreshed and their messages sent |
| Operations.OperationManager.AddDep | operations/src/operation_manager/mod.rs:202-204 | the graph becomes the registered graph |
| Operations.OperationManager.RemoveDep | operations/src/operation_manager/mod.rs:206-208 | the graph becomes the unsubscribed graph |
| Operations.OperationManager.RefreshChanged | operations/src/operation_manager/mod.rs:76-79 | the changed ids are updated, then their subscribers refreshed, with every message sent in that order |
| Operations.OperationManager.CancelEvent | operations/src/operation_manager/mod.rs:75-80 | an unknown event is NotFound and nothing is sent; otherwise the event is dropped and undone, and on success what it touched is updated and its subscribers refreshed |
| Operations.OperationManager.UndoLatest | operations/src/operation_manager/mod.rs:86-91 | without an event of the user NoUndoEvent and nothing changes; otherwise it is undone, its inverse goes onto the redo stack, and what it touched is updated and refreshed |
| Operations.OperationManager.RedoLatest | operations/src/operation_manager/mod.rs:93-98 | the same from the redo stack back onto the undo stack |
| Operations.OperationManager.UpdateEverything | operations/src/operation_manager/mod.rs:100-107 | every stored object is updated and its message sent |
| Operations.OperationManager.SubscribeAll | operations/src/operation_manager/mod.rs:230-234 | the object is registered as a subscriber of each referenced object, in reference order, and nothing else changes |
| Operations.OperationManager.AddObject | operations/src/operation_manager/mod.rs:227-240 | the object subscribes to all it references; an unknown event is NoUndoEvent, a present id Overwrite; otherwise the updated object is stored and recorded and its message broadcast |
| Operations.OperationManager.DeleteObj | operations/src/operation_manager/mod.rs:242-248 | errors change nothing; otherwise the object is removed and recorded, Delete is broadcast, its subscribers are refreshed, and it leaves the dependency graph |
| Operations.OperationManager.ModifyObj | operations/src/operation_manager/mod.rs:250-256 | the object is recorded and the callback applied; unless the callback fails, the object is updated and its message broadcast |
| Operations.ModifyStores | operations/src/operation_manager/mod.rs:250-256 | a modification that succeeded found its object, stored and not nil, and leaves it edited by the callback and then updated, with every other object as it was |
| Operations.OperationManager.CopyObj | operations/src/operation_manager/mod.rs:210-218 | a missing object is NotFound; otherwise a copy with the new id and cleared references is added under the event and the new id answered |
| Operations.OperationManager.GetObj | operations/src/operation_manager/mod.rs:258-260 | the stored object exactly when the id is not nil and present; otherwise NotFound |
| AppStates.SetRefEdit | operations/src/entity_ops/mod.rs:163-170 | on an entity with references the edit is that entity's set_ref and succeeds |
| AppStates.Scheduler.constructor | operations/src/scheduler.rs:16-20 | no jobs are queued |
| AppStates.AppState.Apart | operations/src/app_state.rs:12-15 | the scheduler and the state itself belong to no file's manager |
| AppStates.AppState.AllApart | operations/src/app_state.rs:12-15 | the scheduler belongs to no file's manager, whatever the path |
| AppStates.AppState.constructor | operations/src/app_state.rs:18-23 | no files are open; the user id is the one given |
| AppStates.AppState.InitFile | operations/src/app_state.rs:26-28 | the path gets a new, empty manager with one empty channel, replacing any it had; other files keep theirs |
| AppStates.AppState.BeginUndoEvent | operations/src/app_state.rs:30-35 | an unknown path is NotFound; otherwise the file's manager begins an event for this kernel's user |
| AppStates.AppState.EndUndoEvent | operations/src/app_state.rs:37-42 | an unknown path is NotFound; otherwise the file's manager ends the event |
| AppStates.AppState.UndoLatest | operations/src/app_state.rs:44-49 | an unknown path is NotFound; otherwise the file's manager undoes this user's latest event |
| AppStates.AppState.RedoLatest | operations/src/app_state.rs:51-56 | an unknown path is NotFound; otherwise the file's manager redoes this user's latest event |
| AppStates.AppState.SuspendEvent | operations/src/app_state.rs:58-63 | an unknown path is NotFound; otherwise the file's manager suspends the event |
| AppStates.AppState.ResumeEvent | operations/src/app_state.rs:65-70 | an unknown path is NotFound; otherwise the file's manager resumes the event |
| AppStates.AppState.TakeUndoSnapshot | operations/src/app_state.rs:72-77 | an unknown path is NotFound; otherwise the file's manager snapshots the object |
| AppStates.AppState.AddObj | operations/src/app_state.rs:79-84 | an unknown path is NotFound; otherwise the file's manager adds the object |
| AppStates.AppState.ModifyObj | operations/src/app_state.rs:86-91 | an unknown path is NotFound; otherwise the file's manager modifies the object, and the dependency graph is untouched |
| AppStates.AppState.DeleteObj | operations/src/app_state.rs:93-98 | an unknown path is NotFound; otherwise the file's manager deletes the object |
| AppStates.AppState.GetObj | operations/src/entity_ops/mod.rs:37-48 | an unknown path is NotFound; otherwise the stored object exactly when the id is not nil and present |
| AppStates.AppState.CopyObj | operations/src/entity_ops/mod.rs:73 | an unknown path is NotFound; otherwise the file's manager copies the object and a success answers the new id |
| AppStates.AppState.SetRef | operations/src/entity_ops/mod.rs:163-171 | an unknown path is NotFound; otherwise the object is modified under the event by its own set_ref |
| AppStates.AppState.UpdateDeps | operations/src/app_state.rs:100-109 | the refresh is queued after the others and nothing else happens now |
| AppStates.AppState.UpdateAllDeps | operations/src/app_state.rs:111-120 | the refresh of all listed ids is queued after the others and nothing else happens now |
| AppStates.AppState.RunJob | operations/src/app_state.rs:101-108 | a queued job refreshes the subscribers in the file's manager, or does nothing for an unknown path |
| AppStates.AppState.RunNextJob | operations/src/scheduler.rs:49-59 | the oldest job leaves the queue and is run |
| AppStates.AppState.AddDep | operations/src/app_state.rs:122-127 | an unknown path is NotFound; otherwise Success and the subscription is registered, with store, events and channels untouched |
| AppStates.AppState.RemoveDep | operations/src/app_state.rs:129-134 | an unknown path is NotFound; otherwise Success and the subscription is removed |
| EntityOps.MoveEdit | operations/src/entity_ops/mod.rs:8-16 | the edit translates any entity by delta and succeeds, since every kind has Position |
| EntityOps.SetDataEdit | operations/src/entity_ops/mod.rs:51-53 | the edit is the entity's own set_data, with its status |
| EntityOps.ModifyThenSchedule | operations/src/entity_ops/mod.rs:7-19 | an unknown file is NotFound; the object is modified under the event, and only a success queues the refresh of its dependents |
| EntityOps.MoveObject | operations/src/entity_ops/mod.rs:7-19 | the object is moved by delta under the event; only a success queues the refresh of its dependents |
| EntityOps.SetObjData | operations/src/entity_ops/mod.rs:50-56 | the object's set_data runs under the event; only a success queues the refresh of its dependents |
| EntityOps.MoveObjects | operations/src/entity_ops/mod.rs:21-35 | every id is moved in the set's iteration order up to the first failure; a failure queues nothing, a success queues one refresh over all the ids; an empty set succeeds |
| EntityOps.GetObjData | operations/src/entity_ops/mod.rs:37-48 | a missing file, nil id or absent object is NotFound; otherwise the entity's get_data for the property, whose only errors are NotFound and PropertyNotFound |
| EntityOps.BatchIds | operations/src/entity_ops/mod.rs:59-65 | the ids are exactly those named by some pair of the batch |
| EntityOps.SetEachData | operations/src/entity_ops/mod.rs:60-65 | the pairs are applied in order up to the first failure, which is returned; nothing is queued |
| EntityOps.SetObjsData | operations/src/entity_ops/mod.rs:58-68 | a failure queues nothing; a success queues one refresh over exactly the ids of the batch; an empty batch succeeds |
| EntityOps.RetargetOne | operations/src/entity_ops/mod.rs:82-94 | a reference contributes one retarget exactly when it follows a copied object, the referencing object can be referred to and has geometry at that index; the retarget follows the copy at the same index |
| EntityOps.RetargetsFromRefs | operations/src/entity_ops/mod.rs:82-95 | there are no more retargets than references, and each comes from one of them |
| EntityOps.RefsAreRetargeted | operations/src/entity_ops/mod.rs:82-95 | every reference that can be retargeted is |
| EntityOps.RetargetsFollowCopies | operations/src/entity_ops/mod.rs:84-90 | every retarget follows one of the copies, never an object outside the copied set |
| EntityOps.RetargetFor | operations/src/entity_ops/mod.rs:82-94 | one reference examined: it yields the retarget RetargetOne describes, and nothing otherwise |
| EntityOps.CollectRetargets | operations/src/entity_ops/mod.rs:79-96 | an object with update_from_refs yields exactly the retargets of all its references, in order |
| EntityOps.RetargetsFrom | operations/src/entity_ops/mod.rs:82-95 | the loop over a list of references gathers exactly their retargets, in order |
| EntityOps.SetRefs | operations/src/entity_ops/mod.rs:103-106 | setting the references keeps the object's id |
| EntityOps.RetargetEdit | operations/src/entity_ops/mod.rs:101-109 | the edit sets every retarget in order and succeeds |
| EntityOps.RegisterRetargetsSubscribes | operations/src/entity_ops/mod.rs:104 | the copy ends up subscribed to every followed copy, and no earlier subscription is lost |
| EntityOps.AddRetargetDeps | operations/src/entity_ops/mod.rs:103-106 | only the dependency graph changes, by registering the copy under each followed copy |
| EntityOps.RetargetCopy | operations/src/entity_ops/mod.rs:99-111 | the copy is modified under the event by the retargeting edit; on success it was stored, and it is now stored with every retarget set and updated, nothing else in the store changed; the dependencies are registered only on success |
| EntityOps.CopyStep | operations/src/entity_ops/mod.rs:73-74 | an unknown file is NotFound; a success answers the minted id, and the store becomes the old one with the detached, updated copy under that id (CopyInto); a failure leaves it as it was |
| EntityOps.CopyEach | operations/src/entity_ops/mod.rs:71-75 | on success the map has exactly one entry per listed id, each one that id's minted copy, and the store is the old one with every copy added in order (CopyAll); an unknown file with ids is NotFound |
| EntityOps.GatherRetargets | operations/src/entity_ops/mod.rs:79-98 | NotFound exactly when the original cannot be read; otherwise its retargets |
| EntityOps.ReattachOne | operations/src/entity_ops/mod.rs:99-111 | a copy with nothing to retarget is left untouched; otherwise a success found the copy and stores it with the retargets set and updated, nothing else changed |
| EntityOps.ReattachEach | operations/src/entity_ops/mod.rs:76-113 | an unknown file with ids is NotFound; on success every original was handled, in order, and the store is the old one with each original's copy reattached to it in turn (ReattachAll) |
| EntityOps.ReattachStep | operations/src/entity_ops/mod.rs:78-111 | an unknown file is NotFound; a success leaves the store as the old one with this original's copy reattached (ReattachInto) |
| EntityOps.CopyAllKeeps | operations/src/entity_ops/mod.rs:72-75 | the first loop adds only minted keys, and, when no minted id was stored before, every object stored before is as it was |
| EntityOps.CopyAllStores | operations/src/entity_ops/mod.rs:72-75 | for stored originals with distinct fresh minted ids, each minted id holds the copy of its original |
| EntityOps.ReattachAllKeeps | operations/src/entity_ops/mod.rs:78-111 | the second loop adds and removes no key and leaves every object that is not one of the copies as it was |
| EntityOps.ReattachAllSets | operations/src/entity_ops/mod.rs:78-111 | for originals listed once each, stored, whose copies are stored, distinct and not originals, each copy is reattached exactly once, against its unchanged original |
| EntityOps.CopiesStored | operations/src/entity_ops/mod.rs:70-115 | for distinct stored originals with distinct fresh minted ids, copy_objs stores under each minted id the original with its id changed, its outside references cleared, its retargets into the copied set set and updated; every object stored before is as it was |
| EntityOps.CopyObjs | operations/src/entity_ops/mod.rs:70-116 | on success the map's keys are exactly the ids, each mapped to its minted copy, one refresh over the ids is queued, and the store is the old one with all copies added and then reattached (CopiesStored says what each copy then is); a failure queues nothing |
| Snapping.ClosestAmong | operations/src/entity_ops/snapping.rs:12-22 | after the first n entries the search has chosen, if anything, an earlier entry that is a candidate |
| Snapping.ClosestAmongIsClosest | operations/src/entity_ops/snapping.rs:10-22 | the search over the first n entries finds nothing exactly when none is a candidate (right kind, nearer than f64::MAX), else the closest one: earlier candidates strictly farther, later ones no nearer |
| Snapping.Closest | operations/src/entity_ops/snapping.rs:10-22 | over all the results: nothing exactly when there is no candidate, else the closest candidate |
| Snapping.ClosestIsUnique | operations/src/entity_ops/snapping.rs:15-19 | the closest candidate is unique, so a tie keeps the earliest |
| Snapping.Chosen | operations/src/entity_ops/snapping.rs:9-22 | the snap names the searched object and the closest candidate's position in the full result list, and carries that result |
| Snapping.ClosestOf | operations/src/entity_ops/snapping.rs:3-29 | a missing object is NotFound, one without ReferTo is ObjLacksTrait; otherwise nothing exactly when no result is a candidate, else the closest candidate with its index in the full list |
| Snapping.StoreOf | operations/src/entity_ops/snapping.rs:6 | a store exactly when the file is registered |
| Snapping.ClosestIn | operations/src/entity_ops/snapping.rs:6 | an unregistered file is NotFound |
| Snapping.Search | operations/src/entity_ops/snapping.rs:9-22 | the loop yields exactly the closest-candidate snap |
| Snapping.GetClosestResult | operations/src/entity_ops/snapping.rs:3-29 | the answer is the closest candidate of the object in the file, or its error |
| Snapping.SnapTo | operations/src/entity_ops/snapping.rs:31-41 | a search error is returned and no candidate is NotFound, nothing queued in either case; otherwise the reference is set under the event to the chosen geometry, and a success returns that geometry and queues the refresh |
| Snapping.JoinAt | operations/src/entity_ops/snapping.rs:43-67 | either search's error is returned, in order; NotFound unless both objects offer a candidate; a success queues one refresh of the two objects and a failure queues nothing |
| Snapping.JoinBoth | operations/src/entity_ops/snapping.rs:50-61 | the second object's reference is set first; a success queues one refresh of both objects and a failure nothing |
| Snapping.JoinFirst | operations/src/entity_ops/snapping.rs:54-59 | the second object is searched again; nothing is queued, and an object without a candidate leaves the first unchanged |
| Snapping.PointRef | operations/src/entity_ops/snapping.rs:51-56 | one set_ref of join_at: a success found the object and stores it as its own set_ref leaves it, updated, nothing else in the store changed; a failure leaves the store as it was; nothing is queued |
| OldKernel.NewOldWall | operations-kernel/data-model/src/entities/wall.rs:19-29 | the wall holds the given points, sizes and id, with both endpoints unjoined |
| OldKernel.OldGetPoint | operations-kernel/data-model/src/entities/wall.rs:80-86 | 0 gives the first endpoint, 1 the second, and a point exists exactly for those two indices |
| OldKernel.OldSetPoint | operations-kernel/data-model/src/entities/wall.rs:88-100 | index 0 or 1 sets that endpoint and its join; any other index leaves the wall unchanged |
| OldKernel.SetThenGetPoint | operations-kernel/data-model/src/entities/wall.rs:80-100 | get_point after set_point at an endpoint gives the point set, the other endpoint is untouched and the id is kept |
| OldKernel.SetPointOwnValue | operations-kernel/data-model/src/entities/wall.rs:80-100 | setting an endpoint to the point and join it already had leaves the wall unchanged |
| OldKernel.OldLookup | operations-kernel/data-model/src/lib.rs:52 | found exactly for a non-nil id in the store, with the stored object; otherwise NotFound |
| OldKernel.OldGetRefPoint | operations-kernel/data-model/src/lib.rs:56-80 | the point exactly when a wall with that point is found, with the reference unchanged; ObjLacksTrait only for a found dimension, reference unchanged; NotFound resets only the id to nil, never which_pt |
| OldKernel.OldGetRefPointSettles | operations-kernel/data-model/src/lib.rs:56-80 | looking the reference up again gives the same answer and changes it no further |
| OldKernel.OldWallInit | operations-kernel/data-model/src/entities/wall.rs:104-107 | two registrations, the wall subscribing first to its first join's id, then to its second's |
| OldKernel.OldWallUpdate | operations-kernel/data-model/src/entities/wall.rs:37-76 | the update is a mesh under the wall's id with 36 indices |
| OldKernel.OldWallUpdateFromRefs | operations-kernel/data-model/src/entities/wall.rs:109-117 | the answer is the refreshed wall's update; id and sizes are kept |
| OldKernel.OldUpdateFromRefsReplaces | operations-kernel/data-model/src/entities/wall.rs:109-117 | an endpoint takes the point its join resolves to exactly when the lookup succeeds, else keeps its place; each join becomes what its lookup left |
| OldKernel.OldUpdateFromRefsIdempotent | operations-kernel/data-model/src/entities/wall.rs:109-117 | a second refresh against the same store changes nothing more |
| OldKernel.OldWallMove | operations-kernel/data-model/src/entities/wall.rs:120-125 | both endpoints are translated by delta; joins, id and sizes are untouched |
| OldKernel.OldWallMoveBack | operations-kernel/data-model/src/entities/wall.rs:120-125 | moving by delta and then by its negation restores the wall |
| OldKernel.OldDimensionUpdate | operations-kernel/data-model/src/entities/dimension.rs:37-39 | always NotFound |
| OldKernel.OldDimensionUpdateFromRefs | operations-kernel/data-model/src/entities/dimension.rs:48-50 | always NotFound, with the dimension unchanged |
| OldKernel.OldDimensionInit | operations-kernel/data-model/src/entities/dimension.rs:43-46 | two registrations, the dimension subscribing to its first and then its second reference's id |
| OldKernel.OldDimensionMove | operations-kernel/data-model/src/entities/dimension.rs:53-56 | the dimension is unchanged |
| ClientSession.Packet | ui/src/operations/operations.ts:87-93 | the packet is an object with exactly the keys func_name and params, holding the function name and the parameter array |
| ClientSession.Route | ui/src/operations/operations.ts:141-151 | a packet is sent exactly when a socket is open, and it is the call's packet; otherwise the native function is called with its own arguments |
| ClientSession.Pairs | ui/src/operations/operations.ts:483-492 | one [id, data] pair per entry, in order |
| ClientSession.RenderRepr | ui/src/operations/operations.ts:224-233 | a message with neither part leaves the scene alone; the Mesh part is drawn under the mesh's id and a Dimension's Other part under its own id; no node is removed |
| ClientSession.RenderFromMsgAsWritten | ui/src/operations/operations.ts:358-366 | the rendering throws exactly when the message has an Other part and no Mesh part |
| ClientSession.RenderFromMsgThrowsForDimension | ui/src/operations/operations.ts:363-365 | an Other-only message, the form a dimension's preview takes, throws as written |
| ClientSession.RenderFromMsgCorrected | ui/src/operations/operations.ts:358-366 | the corrected rendering draws a dimension under its own id, with its data |
| ClientSession.RenderFromMsgAgreesOnMeshes | ui/src/operations/operations.ts:358-366 | on a message without an Other part the as-written and corrected renderings agree |
| ClientSession.RenderChange | ui/src/operations/operations.ts:267-276 | the scene is rendered from both parts, and the id read is Other's when present, else Mesh's, else null |
| ClientSession.Dispatch | ui/src/operations/operations.ts:250-289 | dispatching never forgets a settled promise |
| ClientSession.DispatchError | ui/src/operations/operations.ts:252-254 | an Error message changes nothing |
| ClientSession.DispatchDelete | ui/src/operations/operations.ts:255-257 | a Delete message removes exactly that scene node; waiters are untouched |
| ClientSession.DispatchRead | ui/src/operations/operations.ts:259-265 | a Read message with a waiter settles it with the answer and removes it; without one nothing changes; the scene and change waiters are untouched either way |
| ClientSession.DispatchChange | ui/src/operations/operations.ts:266-287 | a change message renders its parts; when the id is truthy and has waiters they are settled in registration order with the node now in the scene and that id alone is cleared; query waiters are untouched |
| ClientSession.DispatchOtherIdWins | ui/src/operations/operations.ts:268-286 | with both parts present, the waiters on the Other part's id are the ones settled and cleared |
| ClientSession.DispatchSettlesWaiter | ui/src/operations/operations.ts:277-286 | a waiter registered on an object settles when a change message for it arrives |
| ClientSession.DispatchAll | ui/src/operations/operations.ts:291-298 | the batch is dispatched in order |
| ClientSession.DispatchAllAppend | ui/src/operations/operations.ts:291-298 | dispatching two batches in turn equals dispatching them joined |
| ClientSession.DispatchAllKeepsSettled | ui/src/operations/operations.ts:291-298 | a settled promise stays settled |
| ClientSession.AddWaiter | ui/src/operations/operations.ts:307-315 | the waiter goes last in the id's list, the id becomes a key, and every other id keeps its waiters |
| ClientSession.IdSet | ui/src/operations/operations.ts:340-347 | every listed id is in the set |
| ClientSession.AddWaitersPerId | ui/src/operations/operations.ts:340-347 | each id's waiters become its old ones followed by one new token per listing, in order, duplicates allowed |
| ClientSession.AddWaitersKeys | ui/src/operations/operations.ts:340-347 | registering a batch adds exactly the listed ids as keys |
| ClientSession.TokensBelowGrows | ui/src/operations/operations.ts:322-338 | a bound on handed-out tokens stays a bound when it grows |
| ClientSession.AddWaiterKeepsTokensBelow | ui/src/operations/operations.ts:307-315 | adding a handed-out token keeps all tokens below the bound |
| ClientSession.DispatchKeepsTokensBelow | ui/src/operations/operations.ts:250-289 | dispatching settles only pending promises, so no token appears that was not handed out |
| ClientSession.Session.constructor | ui/src/operations/operations.ts:46-55 | no file, no waiters, an empty scene and nothing called yet |
| ClientSession.Session.RenderNext | ui/src/operations/operations.ts:300-305 | polls the native kernel for the file exactly when no socket is open; nothing else changes |
| ClientSession.Session.HandleUpdate | ui/src/operations/operations.ts:250-289 | the registries and the scene change exactly as Dispatch says, and nothing is called |
| ClientSession.Session.HandleRead | ui/src/operations/operations.ts:259-265 | the Read branch, as Answer says |
| ClientSession.Session.HandleChange | ui/src/operations/operations.ts:266-287 | the change branch renders the parts and settles the waiters on the last id read |
| ClientSession.Session.HandleUpdates | ui/src/operations/operations.ts:291-298 | without an error the batch is dispatched in order, with one nothing changes; polling is re-armed either way |
| ClientSession.Session.AddPendingChange | ui/src/operations/operations.ts:307-315 | the waiter is appended to the id's list; nothing else changes |
| ClientSession.Session.AddPendingRead | ui/src/operations/operations.ts:317-320 | the waiter replaces any earlier one on the query; nothing else changes |
| ClientSession.Session.WaitForChange | ui/src/operations/operations.ts:322-329 | a new token, registered last on the id |
| ClientSession.Session.WaitForRead | ui/src/operations/operations.ts:331-338 | a new token, the query's only waiter |
| ClientSession.Session.WaitForAllChanges | ui/src/operations/operations.ts:340-347 | one new token per listed id, in list order, registered per id |
| ClientSession.Session.InitFile | ui/src/operations/operations.ts:95-106 | the file is named defaultNew.flx and the scene is fresh; init_file is routed, then polling starts |
| ClientSession.Session.OpenFile | ui/src/operations/operations.ts:108-119 | the named file with a fresh scene; open_file is routed, then polling starts |
| ClientSession.Session.SaveFile | ui/src/operations/operations.ts:121-129 | save_file is routed with the file name; nothing else changes |
| ClientSession.Session.SaveAsFile | ui/src/operations/operations.ts:131-139 | save_as_file is routed with both names; nothing else changes |
| ClientSession.Session.BeginUndoEvent | ui/src/operations/operations.ts:141-151 | the client-minted event id is returned; the packet carries file, event and description, the native call adds the user |
| ClientSession.Session.EndUndoEvent | ui/src/operations/operations.ts:153-161 | end_undo_event is routed with file and event; nothing else changes |
| ClientSession.Session.UndoLatest | ui/src/operations/operations.ts:163-172 | undo_latest is routed, the native call with the user, then polling starts |
| ClientSession.Session.SuspendEvent | ui/src/operations/operations.ts:174-182 | suspend_event is routed with file and event |
| ClientSession.Session.ResumeEvent | ui/src/operations/operations.ts:184-192 | resume_event is routed with file and event |
| ClientSession.Session.CancelEvent | ui/src/operations/operations.ts:194-202 | cancel_event is routed with file and event |
| ClientSession.Session.RedoLatest | ui/src/operations/operations.ts:204-212 | redo_latest is routed, without polling afterwards |
| ClientSession.Session.TakeUndoSnapshot | ui/src/operations/operations.ts:214-222 | take_undo_snapshot is routed with file, event and id |
| ClientSession.Session.RenderTempObject | ui/src/operations/operations.ts:224-233 | the preview is drawn as temporary; the kernel is not called |
| ClientSession.Session.DeleteTempObject | ui/src/operations/operations.ts:235-238 | the node is removed if present; the kernel is not called |
| ClientSession.Session.DeleteObject | ui/src/operations/operations.ts:240-248 | delete_object is routed with file, event and id |
| ClientSession.Session.CreateObj | ui/src/operations/operations.ts:368-379 | the preview is drawn as final, add_object carries the object's type and body, and a waiter on the object's id is registered |
| ClientSession.Session.JoinAtPoints | ui/src/operations/operations.ts:381-390 | one join_at_points call, then a waiter on each of the two ids |
| ClientSession.Session.CanReferTo | ui/src/operations/operations.ts:392-402 | can_refer_to with a kernel-minted query id, the native call adding the user, and the query's waiter |
| ClientSession.Session.GetClosestPoint | ui/src/operations/operations.ts:404-414 | get_closest_point with the query id, the native call adding the user, and the query's waiter |
| ClientSession.Session.SnapTo | ui/src/operations/operations.ts:416-436 | snap_to_point or snap_to_line, then a waiter on the snapped object |
| ClientSession.Session.MoveObj | ui/src/operations/operations.ts:438-447 | move_object, then a waiter on the object |
| ClientSession.Session.MoveObjs | ui/src/operations/operations.ts:449-458 | one move_objects call for the batch, then a waiter per listed id |
| ClientSession.Session.GetObjectData | ui/src/operations/operations.ts:460-470 | get_object_data with the query id, the native call adding the user, and the query's waiter |
| ClientSession.Session.SetObjectData | ui/src/operations/operations.ts:472-481 | set_object_data, the packet carrying the value and the native call its JSON text, then a waiter on the object |
| ClientSession.Session.SetObjectsDatas | ui/src/operations/operations.ts:483-492 | the packet is set_object_datas and the native call set_objects_datas, each with the pairs; then a waiter per pair's id |
| ClientSession.Session.GetMeshById | ui/src/operations/operations.ts:494-497 | the scene node of that name exactly when there is one |
| ClientSession.Session.CopyObjs | ui/src/operations/operations.ts:499-509 | copy_objects on both routes carries the user and the query id; its answer is awaited as a read |
| ClientSession.Session.Demo | ui/src/operations/operations.ts:511-529 | demo or demo_100 with the file and position, the native call adding the user |
| Scene.RenderMesh | ui/src/rendering/renderer.ts:107-134 | upsert: the node exists afterwards with the new metadata and payload, draggable only if it was made non-temporary, and every other node is unchanged |
| Scene.RenderObject | ui/src/rendering/renderer.ts:136-179 | only a Dimension is drawn, upserted under its name with its metadata and never draggable when new; any other type leaves the scene unchanged |
| Scene.DeleteMesh | ui/src/rendering/renderer.ts:181-186 | exactly that node is removed, if present; the others are unchanged |
| Scene.GetMesh | ui/src/rendering/renderer.ts:188-190 | the node of that name exactly when there is one |
| Scene.RenderMeshIdempotent | ui/src/rendering/renderer.ts:107-134 | rendering the same mesh again changes nothing |
| Scene.DeleteAfterRender | ui/src/rendering/renderer.ts:107-134 | deleting a node just rendered is deleting it from the scene as it was |
| Scene.GetAfterRender | ui/src/rendering/renderer.ts:107-134 | after a render the node is found with the new payload |
| Scene.DeleteIdempotent | ui/src/rendering/renderer.ts:181-186 | deleting twice is deleting once, and the node is gone |
| UiMath.ModelToGraphic | ui/src/utils/math.ts:13-16 | (x, y, z) goes to (x, z, -y) |
| UiMath.GraphicToModel | ui/src/utils/math.ts:18-21 | (x, y, z) goes to (x, -z, y) |
| UiMath.ToBabylonVector3 | ui/src/utils/math.ts:23-26 | the Babylon vector is the graphic-to-model image of the point |
| UiMath.GraphicAfterModel | ui/src/utils/math.ts:13-21 | graphic-to-model undoes model-to-graphic |
| UiMath.ModelAfterGraphic | ui/src/utils/math.ts:13-21 | model-to-graphic undoes graphic-to-model |
| UiMath.ModelToGraphicKeepsLength | ui/src/utils/math.ts:13-16 | the transform keeps squared length: it is a rotation |
| UiMath.ToBabylonIsNotModelToGraphic | ui/src/utils/math.ts:15-25 | toBabylonVector3 differs from model-to-graphic at every point off the x axis |
| BrowserMath.Point3d.constructor | browser/src/utils/math.ts:3-12 | the coordinates are stored unchanged |
| BrowserMath.Point3d.AsTriple | browser/src/utils/math.ts:4-6 | the point's current coordinates |
| BrowserMath.Vector3d.constructor | browser/src/utils/math.ts:14-23 | the components are stored unchanged |
| BrowserMath.TransformModelToGraphic | browser/src/utils/math.ts:32-35 | a new point at the model-to-graphic image |
| BrowserMath.TransformGraphicToModel | browser/src/utils/math.ts:37-40 | a new point at the graphic-to-model image of the Babylon vector |
| BrowserMath.PointToBabylonVector3 | browser/src/utils/math.ts:42-45 | the Babylon vector equals graphic-to-model on the same coordinates |
| BrowserMath.GraphicRoundTrip | browser/src/utils/math.ts:32-45 | going to the graphics frame and back through a Babylon vector restores the coordinates |
| JsValues.KeyText | ui/src/operations/operations.ts:260-278 | an id that is a string names itself; any other value names the empty string |
| JsValues.TruthyStringKey | ui/src/operations/operations.ts:277-278 | a truthy string id names a non-empty key |
| ToolCommands.BeginsAppend | ui/src/ui/tools/wall_tool.ts:30-32 | the events opened by two stretches of calls add up |
| ToolCommands.KeepOneEvent | ui/src/ui/tools/wall_tool.ts:33-39 | calls made inside the open event keep the one-event discipline |
| ToolCommands.OpenOneEvent | ui/src/ui/tools/wall_tool.ts:30-32 | opening the event when none is open and then working inside it keeps the discipline |
| ToolCommands.LazyEvent | ui/src/ui/tools/wall_tool.ts:30-32 | the event open afterwards is the current one if there is one, else the minted one |
| ToolCommands.LazyBegin | ui/src/ui/tools/wall_tool.ts:30-32 | begin_undo_event is called exactly when no event is open yet |
| ToolCommands.LazyOneEvent | ui/src/ui/tools/door_tool.ts:27-29 | however the event stood, opening it lazily and then working inside it keeps the discipline |
| ToolCommands.WithinOne | ui/src/ui/tools/door_tool.ts:30 | a call that opens nothing and names only the open event stays within it |
| ToolCommands.WithinJoin | ui/src/ui/tools/wall_tool.ts:33-39 | two stretches within the open event make one |
| ToolCommands.NoBegins | ui/src/ui/tools/wall_tool.ts:33-39 | calls none of which begins an event open none |
| ToolCommands.WithinAll | ui/src/ui/tools/wall_tool.ts:33-39 | calls that open nothing and name only the open event stay within it |
| WallTools.WallTool.constructor | ui/src/ui/tools/wall_tool.ts:13-22 | no points, empty ids and no event; width 1 and height 5 unless given; nothing called |
| WallTools.WallTool.CanJoinToWall | ui/src/ui/tools/wall_tool.ts:24-26 | joinable exactly when a wall is hovered whose name is neither the previous nor the active wall |
| WallTools.WallTool.CommitCalls | ui/src/ui/tools/wall_tool.ts:33-39 | the wall is created first; the join to the previous wall at the first point exactly when there is one; the join to the picked wall at the second point last, exactly when it is joinable; all inside the event |
| WallTools.WallTool.CreateWall | ui/src/ui/tools/wall_tool.ts:28-40 | the event is opened only if none is open, then the commit calls follow inside the open event; points and ids are unchanged |
| WallTools.WallTool.OnMouseDown | ui/src/ui/tools/wall_tool.ts:42-58 | the first click previews (x, y, 0) to (x+1, y+1, 0) and opens no event; a later click commits, makes the active wall the previous one and previews (x, y, 0) to (x+0.1, y+0.1, 0); the preview id is renderTempWall's |
| WallTools.WallTool.OnMouseMove | ui/src/ui/tools/wall_tool.ts:60-69 | while previewing only the second point's x and y follow the pointer and the preview is redrawn; the answer is always joinability |
| WallTools.WallTool.Cancel | ui/src/ui/tools/wall_tool.ts:71-77 | cancel_event exactly when an event is open, then the preview is deleted in any case |
| WallTools.WallTool.Finish | ui/src/ui/tools/wall_tool.ts:84-90 | commit the active wall with its joins, then end the event the commit has opened |
| DoorTools.DoorTool.constructor | ui/src/ui/tools/door_tool.ts:12-19 | no preview and no event; width 1, height 4, length 2 unless given; nothing called |
| DoorTools.DoorTool.CanJoinToWall | ui/src/ui/tools/door_tool.ts:21-23 | joinable exactly when a wall is hovered |
| DoorTools.DoorTool.Issue | ui/src/ui/tools/door_tool.ts:30 | one call inside the open event is logged; the tool's fields are unchanged |
| DoorTools.DoorTool.CreateDoor | ui/src/ui/tools/door_tool.ts:25-31 | the event is opened only if none is open, then createObj is called with the preview inside it; a null preview throws |
| DoorTools.DoorTool.OnMouseDown | ui/src/ui/tools/door_tool.ts:33-48 | without a preview, a door from (x, y, 0) to (x+1, y+1, 0) facing (1, 0, 0) is built and drawn, opening no event; with one, it is committed and dropped |
| DoorTools.DoorTool.OnMouseMove | ui/src/ui/tools/door_tool.ts:50-60 | while previewing, the direction becomes the pointer minus the first point with z 0 and the preview is redrawn; the answer is always joinability |
| DoorTools.DoorTool.Cancel | ui/src/ui/tools/door_tool.ts:62-68 | cancel_event exactly when an event is open; then the preview is deleted, and a null preview throws |
| DoorTools.DoorTool.Finish | ui/src/ui/tools/door_tool.ts:77-83 | commit the preview, even a null one, then end the event only when the commit did not throw |
| DimensionTools.DimensionTool.constructor | ui/src/ui/tools/dimension_tool.ts:11-17 | no preview, nothing attached and no event; offset 5 unless given; nothing called |
| DimensionTools.DimensionTool.Issue | ui/src/ui/tools/dimension_tool.ts:29-33 | one call inside the open event is logged; the tool's fields are unchanged |
| DimensionTools.DimensionTool.CanAttach | ui/src/ui/tools/dimension_tool.ts:19-21 | true exactly when something is hovered and the kernel says it can be referred to; the kernel is asked only about a hovered object |
| DimensionTools.DimensionTool.CommitCalls | ui/src/ui/tools/dimension_tool.ts:28-34 | the preview is deleted and the new dimension created first; two snaps follow exactly when the picked object can be attached to |
| DimensionTools.DimensionTool.Commit | ui/src/ui/tools/dimension_tool.ts:29-34 | inside the open event: the preview deleted, the given dimension created, then the attach question and, when the answer allows, the two snaps; the event and preview stay as they were |
| DimensionTools.DimensionTool.CreateDimension | ui/src/ui/tools/dimension_tool.ts:23-35 | the event is opened only if none is open; a new dimension between the preview's points is created inside it and snapped at its first point and at the click when attachable |
| DimensionTools.DimensionTool.OnMouseDown | ui/src/ui/tools/dimension_tool.ts:37-56 | without a preview the first point is the kernel's closest point when attachable, else (x, y, 0), the second (x+1, y, 0), and the preview is drawn; with one, a dimension is committed and the preview dropped |
| DimensionTools.DimensionTool.OnMouseMove | ui/src/ui/tools/dimension_tool.ts:58-67 | joinability is asked first and returned; while previewing the second point follows the pointer at z 0 and the preview is redrawn |
| DimensionTools.DimensionTool.Cancel | ui/src/ui/tools/dimension_tool.ts:69-75 | cancel_event exactly when an event is open; then the preview is deleted, and a null preview throws |
| DimensionTools.DimensionTool.Finish | ui/src/ui/tools/dimension_tool.ts:84-92 | commit only when there is a preview, then end the event only when one is open |
| SlabTools.SlabTool.constructor | ui/src/ui/tools/slab_tool.ts:9-12 | no preview and no event; nothing called |
| SlabTools.SlabTool.Issue | ui/src/ui/tools/slab_tool.ts:19-20 | one call inside the open event is logged; the tool's fields are unchanged |
| SlabTools.SlabTool.CreateSlab | ui/src/ui/tools/slab_tool.ts:14-21 | the event is opened only if none is open; then the preview is deleted and a new slab, distinct from it, is created inside the event; without a preview it throws after the event is opened |
| SlabTools.SlabTool.OnMouseDown | ui/src/ui/tools/slab_tool.ts:23-33 | every click ends with a fresh preview drawn; a click with a preview first commits a slab and deletes the old preview |
| SlabTools.SlabTool.OnMouseMove | ui/src/ui/tools/slab_tool.ts:35-41 | never joinable; a preview is redrawn if there is one |
| SlabTools.SlabTool.Cancel | ui/src/ui/tools/slab_tool.ts:43-50 | the open event is ended, not cancelled; then the preview is deleted if there is one |
| SlabTools.SlabTool.Finish | ui/src/ui/tools/slab_tool.ts:58-63 | commit, then end the event; without a preview the commit throws and the event stays open |
| Controller.LastCall | ui/src/ui/controller.ts:26-73 | the last call found, if any, was made on that tool |
| Controller.LastCallAppend | ui/src/ui/controller.ts:26-73 | appending a call changes only the last call of the tool it is made on |
| Controller.LastCallNone | ui/src/ui/controller.ts:26-73 | a tool has no last call exactly when no call was made on it |
| Controller.UIController.constructor | ui/src/ui/controller.ts:16-19 | no active tool, nothing selected, nothing called |
| Controller.UIController.GetSelectedObjs | ui/src/ui/controller.ts:21-24 | the selection, in click order |
| Controller.UIController.SetActiveTool | ui/src/ui/controller.ts:26-33 | the previous tool, if any, is cancelled exactly once before the new one becomes active; the selection is unchanged; every inactive tool stays at rest |
| Controller.UIController.LeftClick | ui/src/ui/controller.ts:35-51 | with a tool, the click goes to its onMouseDown and the selection is unchanged; without one a clicked mesh is appended to the selection, duplicates allowed, and a click on nothing changes nothing |
| Controller.UIController.MouseMove | ui/src/ui/controller.ts:58-64 | forwarded exactly when a tool is active; nothing else changes |
| Controller.UIController.ActiveToolComplete | ui/src/ui/controller.ts:66-73 | the active tool, if any, is finished and no tool is active afterwards |
| Controller.UIController.RightClick | ui/src/ui/controller.ts:53-56 | completes the active tool; with none it changes nothing |
| Controller.ControllerRegistry.constructor | ui/src/ui/controller.ts:78 | no controller exists yet |
| Controller.ControllerRegistry.NewSingleton | ui/src/ui/controller.ts:79-83 | the first construction creates a fresh, idle controller; every later one keeps the same instance |
| Controller.ControllerRegistry.GetInstance | ui/src/ui/controller.ts:85-87 | the controller the first construction created |
| Gui.LabelText | ui/src/ui/gui.ts:152-163 | nothing selected gives no text; one object gives its type; several of one type give "<n> <type>s"; mixed types give "<n> Objects" |
| Gui.SetObjectOverlay | ui/src/ui/gui.ts:137-171 | the loop's label is LabelText of the selection, and the panel then filled in is populateObjectOverlay's for the same selection: its ids in order, its merged properties and the corrected fields |
| Gui.SameTypes | ui/src/ui/gui.ts:143-151 | a reordering of a single-type selection is single-type, with the same type |
| Gui.LabelOrderFree | ui/src/ui/gui.ts:143-163 | the label does not depend on the order the selection is visited in |
| Gui.StrictEq | ui/src/ui/gui.ts:124 | strict equality implies equal values, and on primitives it is exactly value equality |
| Gui.MergeStep | ui/src/ui/gui.ts:119-128 | the merged keys after one object are the earlier keys plus that object's |
| Gui.MergeAll | ui/src/ui/gui.ts:117-129 | the merged key set is the set of every selected object's keys |
| Gui.First | ui/src/ui/gui.ts:121-123 | a first value exists exactly for keys some object has, and it is held by one of them |
| Gui.AllKeysMember | ui/src/ui/gui.ts:119-120 | a key is merged exactly when some selected object has it |
| Gui.MergeAllValue | ui/src/ui/gui.ts:117-129 | a merged property holds the first object's value when every object having it agrees, and null otherwise |
| Gui.MergeLastValue | ui/src/ui/gui.ts:121-126 | the merge rule is kept when the last object also has the key |
| Gui.AgreedSkip | ui/src/ui/gui.ts:119-120 | an object without the key changes nothing about agreement on it |
| Gui.AgreedPrefix | ui/src/ui/gui.ts:124-125 | agreement over a selection holds over its prefix |
| Gui.AgreedExtend | ui/src/ui/gui.ts:124-125 | agreement extends to one more object whose value equals the first |
| Gui.PopulateObjectOverlay | ui/src/ui/gui.ts:107-135 | the ids are the selection's names in order, the properties are the merge of the selection, and the panel shows the corrected fields |
| Gui.MergeInto | ui/src/ui/gui.ts:119-128 | one object's properties merged in, whatever the order of its keys |
| Gui.PanelAsWritten | ui/src/ui/gui.ts:130-134 | the panel throws exactly when some merged value is null; otherwise it shows every merged value |
| Gui.DisagreementThrows | ui/src/ui/gui.ts:124-132 | objects that disagree on a property make the as-written panel throw |
| Gui.TwoWidthsThrow | ui/src/ui/gui.ts:124-132 | two walls of widths 1 and 2 make the as-written panel throw |
| Gui.PanelFields | ui/src/ui/gui.ts:130-134 | a field per merged property, empty exactly for a null value and otherwise showing the value |
| Gui.PanelShowsAgreed | ui/src/ui/gui.ts:107-134 | there is a field for every key of any selected object; it shows a value exactly when the objects having the key agree on a non-null one, and that value is every such object's |
| Gui.FieldData | ui/src/ui/gui.ts:91 | an object with exactly the edited property, set to the number typed |
| Gui.DataArray | ui/src/ui/gui.ts:96-99 | every id paired with the same data, in order |
| Gui.WriteField | ui/src/ui/gui.ts:92-100 | one write call: setObjectData for a single id, otherwise setObjectsDatas with every id paired with the same data in order; a waiter on each id written; nothing else in the session changes |
| Gui.OnFieldBlur | ui/src/ui/gui.ts:89-103 | exactly one begin, one write, one end, in that order, under the same event: setObjectData for a single id, otherwise setObjectsDatas with the same data for each id, in order; a waiter per written id |

## Left out

- Mesh generation and floating-point geometry are left out. This covers wall, door and old-wall tessellation, opening interpolation and sorting, door rotation, the dimension's text and offset lines, and distances in snapping. Coordinates are reals, and a snap distance is a real given per geometry.
- DimensionEntity.MoveObj: the dimension's offset along its perpendicular is not modelled, so the move leaves the dimension unchanged. It is stated weaker than the source, which changes the offset.
- EntityOps.MoveObjects: the contract states the errors and the scheduling. The store's state after each step of the loop is stated only per step, through the file manager's modify contract, and not for the loop as a whole.
- EntityOps.SetObjsData: as for MoveObjects, the per-pair effects on the store are not summarised in the contract.
- Snapping.JoinAt: the contract states the errors, the condition for success and the scheduling. The store effect of the two set_ref edits is stated by PointRef at each call, not summarised for the join.
- Snapping.JoinBoth: weaker in the same way as JoinAt.
- Snapping.JoinFirst: weaker in the same way as JoinAt.
- ClientSession.Session.CreateObj: models the corrected renderFromMsg (see Findings). As written, createObj throws at operations.ts:364 for an object whose preview is Other-only, a dimension's, before add_object is sent.
- DimensionTools.DimensionTool.CommitCalls: the calls after create_obj follow the corrected createObj. As written, createObj throws for the new dimension, so the canAttach question and the two snapToPoint calls (dimension_tool.ts:31-33) are never reached.
- DimensionTools.DimensionTool.Commit: weaker in the same way as CommitCalls. As written, the preview's deletion by its "id" key, a key the packed native binding accepts, is the only call made before createObj throws.
- DimensionTools.DimensionTool.CreateDimension: weaker in the same way as CommitCalls. As written, the event is opened (dimension_tool.ts:26) and createDimension's promise is rejected before any dimension is added. With the "first"/"second" keys as assumed (see DimensionTools.DimensionTool.OnMouseMove below), the preview is deleted first and createObj throws. Against the packed native binding, `get("first")` at dimension_tool.ts:28 throws already, before the preview is deleted.
- DimensionTools.DimensionTool.OnMouseDown: its commit branch follows the corrected createObj. As written, createDimension is not awaited, so the rejection is unhandled and the preview is still dropped, without a dimension being added.
- DimensionTools.DimensionTool.Finish: follows the corrected createObj. As written, the awaited createDimension rejects, so endUndoEvent (dimension_tool.ts:90) is not reached while a preview is shown.
- GeometryKernel.SetLineReference: UpdatableGeometry::set_reference is defined outside the modelled crates, so the model records the reference and keeps the segment as it was. The result geometry and the snap point that door.rs:226 passes are dropped.
- GeometryKernel.UpdateLine: UpdatableGeometry::update is defined outside the modelled crates, so the model keeps the segment as it was. It drops the reference only for an absent geometry.
- DoorEntity.SetRef: inherits SetLineReference's choice. The segment's shape after set_ref is kept, not computed from the referenced geometry.
- DoorEntity.SetAssociatedGeom: inherits UpdateLine's choice. The segment's shape after set_associated_geom is kept, not computed from the given geometry.
- GeometryKernel.SetReference: ParametricPoint::set_reference is defined outside the modelled crates. The rule that the point takes the result and follows the other geometry is assumed from how wall.rs:234-251 uses it.
- GeometryKernel.UpdatePoint: ParametricPoint::update is defined outside the modelled crates. The rule is assumed from how wall.rs:280-290 uses it: a present point moves the point and an absent one drops its reference.
- GeometryKernel.SetPointReference: UpdatableGeometry<RefPoint>::set_reference is defined outside the modelled crates. Its rule is assumed: a point result moves the end, any other result keeps it, and the reference is recorded. The snap_pt that dimension.rs:159-160 passes is dropped.
- GeometryKernel.UpdateRefPoint: UpdatableGeometry<RefPoint>::update is defined outside the modelled crates. Its rule is assumed: an absent geometry drops the reference, a point moves the end, and any other kind changes nothing.
- WallEntity.Update: `to_json("Wall", &self)` (wall.rs:54) is defined outside the modelled crates. The metadata shape is assumed to be the type name, the traits list and the property bag (type/traits/obj).
- DoorEntity.NewDoor: Door::new (door.rs:13-21) has no length argument; RefLineSeg::new(first, second), defined outside the modelled crates, derives it. The model takes the length as a parameter instead.
- DoorTools.DoorTool.OnMouseMove: the tools' "first" and "second" keys are taken to address the preview's points. The packed native binding (ui/native/src/door.rs:27-74) names them first_pt and second_pt and throws a type error for any other key, so `get("first")` at door_tool.ts:54 would throw there. That binding is from another revision (it reads dir.geom.pt_1 and offers set_dir), so the keys are an assumption, not a finding.
- DimensionTools.DimensionTool.OnMouseMove: the same assumption for `set("second")` at dimension_tool.ts:63 and `get("first")`/`get("second")` at dimension_tool.ts:28. The packed binding (ui/native/src/dimension.rs:15-89) accepts only first_pt, second_pt and offset in set, and id as well in get.
- The entities' update_from_refs bodies are defined outside the modelled crates. The operation manager takes them as a parameter, `refresh`, which keeps ids.
- update() is pure and cannot fail in the model. So the branch of update_set that aborts on other errors cannot be reached.
- FileDatabase::duplicate: database.rs defines no duplicate, although data_manager/mod.rs:97 calls it. duplicate_obj is modelled as a copy of the object under a new id.
- `snap_ref_to_result` (operations/src/entity_ops/mod.rs:118-177) is not modelled, because line 147 does not parse.
- Concurrency is left out: the Scheduler's threads, the tokio runtime, the locks, rayon in demo_100, and the panics on a failed job. Jobs are the queued entries of a Scheduler object, and running one is a separate method.
- File open and save (data_manager/mod.rs:25-40), debug_state and iterate_all are left out: they are I/O, not modelled.
- The clock read for an undo event's timestamp is not modelled.
- Set iteration order (HashSet) is a ghost out-parameter that enumerates the set. Contracts hold for any order.
- UUID minting is a parameter: event ids, query ids, object ids, and the id each new JsSlab or Dimension gets.
- The WebSocket transport, `setConnection` and `unpackMessage` are left out. Whether a socket is open is a field of the session.
- The kernel's get_updates callback is taken to deliver through HandleUpdates.
- A kernel answer the client awaits completes before the next mouse event. The answer is a parameter.
- The client tools call ops.createWall, ops.renderTempWall and ops.joinAtPoint, which operations.ts does not define. They are abstract commands in the tools' logs.
- The controller records the calls it makes on a tool instead of running the tool. What a tool does with them is modelled in the tool's own class.
- Ids are strings on the client. A message whose id field is not a string reads as the empty key.
- A preview is a value in a tool, so the aliasing between a tool's preview object and the kernel object it wraps is not modelled.
- `Number(text)` parsing and NaN are left out. An edited field carries the real number typed.
- A selected object's type is a string. Inherited keys of a property object (`hasOwnProperty`) are not modelled.
- The Babylon scene, engine, camera, picking, widget trees, drag behaviour and text writer are left out. The scene is a map from names to nodes that remember their payload, metadata and whether they were made draggable.
- The Dimension's two child line nodes in renderObject are left out.
- OperationManager.ModifyObj is modelled as the modify followed by the object's update. This has the same effect as the source's single closure.

## Findings

| source | as written | input that shows it | evidently intended | confidence | as-written member | corrected member |
|---|---|---|---|---|---|---|
| ui/src/operations/operations.ts:363-365 | renderFromMsg draws the Other part under `msg.Mesh.data.id` | a dimension's preview, whose representation is Other-only (data-model/src/entities/dimension.rs:67-90), committed through createObj: reading `msg.Mesh.data` throws | draw the Other part under `msg.Other.data.id`, as renderTempObject does | not executed | ClientSession.RenderFromMsgAsWritten, ClientSession.RenderFromMsgThrowsForDimension | ClientSession.RenderRepr, ClientSession.RenderFromMsgCorrected |
| ui/src/ui/gui.ts:132 | every merged property is turned into text with `props[prop].toString()` | two selected walls with widths 1 and 2: Width merges to null, and null.toString() throws | show a property the objects disagree on as an empty field | not executed | Gui.PanelAsWritten, Gui.TwoWidthsThrow, Gui.DisagreementThrows | Gui.PanelFields, Gui.PanelShowsAgreed |
