/**
 * The entity operations the client calls on a file
 * (operations/src/entity_ops/mod.rs): moving objects, reading and writing
 * their properties, and copying a set of objects while pointing the copies'
 * references at each other.
 *
 * Each operation is a sequence of file operations of the application state;
 * when every step succeeds, the refresh of the touched objects' dependents is
 * handed to the scheduler. An operation stops at its first error, and what
 * its earlier steps did stays done: nothing is rolled back.
 */
module EntityOps {
  import opened Base
  import opened GeometryKernel
  import opened DataModel
  import opened Objects
  import opened Database
  import opened Dependencies
  import opened Operations
  import opened AppStates
  import opened UndoEvents
  import opened Undo

  /** The edit move_obj performs: every kind is movable (Position), so the ObjLacksTrait branch is never taken. */
  function MoveEdit(delta: Vector3): (f: Edit)
    ensures forall o :: f(o) == (MoveObj(o, delta), Success)
  {
    (o: Obj) => if HasPosition(o) then (MoveObj(o, delta), Success) else (o, Err(ObjLacksTrait))
  }

  /** The edit set_obj_data performs: the entity's own set_data. */
  function SetDataEdit(data: Json): (f: Edit)
    ensures forall o :: f(o) == SetData(o, data)
  {
    (o: Obj) => SetData(o, data)
  }

  /**
   * The pattern shared by move_obj, set_obj_data and snap_to: modify one
   * object under the event and, only when that succeeded, schedule the
   * refresh of its dependents.
   */
  method ModifyThenSchedule(app: AppState, file: string, eventId: RefID, id: RefID, edit: Edit) returns (r: Status)
    requires app.Valid()
    modifies app.scheduler, app.FileRepr(file)
    ensures app.Valid() && app.files == old(app.files)
    ensures file !in app.files ==> r == Err(NotFound)
    ensures file in app.files ==> app.files[file].ModifiedObject(eventId, id, edit, r)
    ensures r.Ok? ==> r == Success && app.scheduler.jobs == old(app.scheduler.jobs) + [UpdateDepsJob(file, id)]
    ensures r.Err? ==> app.scheduler.jobs == old(app.scheduler.jobs)
  {
    app.Apart(file);
    ghost var m := if file in app.files then app.files[file] else null;
    r := app.ModifyObj(file, eventId, id, edit);
    if r.Ok? {
      var u: () := r.value;
      assert u == ();
      assert m.ModifiedObject(eventId, id, edit, r);
      app.UpdateDeps(file, id);
    }
  }

  /** move_obj: the object is translated by delta under the event; its dependents are scheduled. */
  method MoveObject(app: AppState, file: string, eventId: RefID, id: RefID, delta: Vector3) returns (r: Status)
    requires app.Valid()
    modifies app.scheduler, app.FileRepr(file)
    ensures app.Valid() && app.files == old(app.files)
    ensures file !in app.files ==> r == Err(NotFound)
    ensures file in app.files ==> app.files[file].ModifiedObject(eventId, id, MoveEdit(delta), r)
    ensures r.Ok? ==> r == Success && app.scheduler.jobs == old(app.scheduler.jobs) + [UpdateDepsJob(file, id)]
    ensures r.Err? ==> app.scheduler.jobs == old(app.scheduler.jobs)
  {
    r := ModifyThenSchedule(app, file, eventId, id, MoveEdit(delta));
  }

  /** set_obj_data: the entity's set_data under the event; its dependents are scheduled when it succeeded. */
  method SetObjData(app: AppState, file: string, eventId: RefID, id: RefID, data: Json) returns (r: Status)
    requires app.Valid()
    modifies app.scheduler, app.FileRepr(file)
    ensures app.Valid() && app.files == old(app.files)
    ensures file !in app.files ==> r == Err(NotFound)
    ensures file in app.files ==> app.files[file].ModifiedObject(eventId, id, SetDataEdit(data), r)
    ensures r.Ok? ==> r == Success && app.scheduler.jobs == old(app.scheduler.jobs) + [UpdateDepsJob(file, id)]
    ensures r.Err? ==> app.scheduler.jobs == old(app.scheduler.jobs)
  {
    r := ModifyThenSchedule(app, file, eventId, id, SetDataEdit(data));
  }

  /**
   * move_objs: every id of the set is moved, in the set's iteration order;
   * the first failure is returned at once, with the ids before it moved and
   * nothing scheduled. Otherwise the dependents of all of them are scheduled.
   */
  method MoveObjects(app: AppState, file: string, eventId: RefID, ids: set<RefID>, delta: Vector3) returns (r: Status, ghost order: seq<RefID>)
    requires app.Valid()
    modifies app.scheduler, app.FileRepr(file)
    ensures app.Valid() && app.files == old(app.files)
    ensures Enumerates(order, ids)
    ensures ids == {} ==> r == Success
    ensures file !in app.files && ids != {} ==> r == Err(NotFound)
    ensures r.Ok? ==> app.scheduler.jobs == old(app.scheduler.jobs) + [UpdateAllDepsJob(file, order)]
    ensures r.Err? ==> app.scheduler.jobs == old(app.scheduler.jobs)
  {
    app.Apart(file);
    var xs := Collect(ids);
    order := xs;
    var i := 0;
    while i < |xs|
      invariant 0 <= i <= |xs|
      invariant app.Valid() && app.files == old(app.files)
      invariant app.scheduler.jobs == old(app.scheduler.jobs)
      invariant file !in app.files ==> i == 0
    {
      assert xs[i] in ids;
      app.Apart(file);
      r := app.ModifyObj(file, eventId, xs[i], MoveEdit(delta));
      if r.Err? {
        return;
      }
      i := i + 1;
    }
    if file !in app.files {
      assert xs == [];
      assert ids == {};
    }
    app.UpdateAllDeps(file, xs);
    r := Success;
  }

  /**
   * get_obj_data: the named property of the object, or the entity's error;
   * a missing file or object is NotFound.
   */
  function GetObjData(app: AppState, file: string, id: RefID, prop: string): (r: Result<Json>)
    reads app, if file in app.files then {app.files[file], app.files[file].data, app.files[file].data.db} else {}
    ensures file !in app.files ==> r == Err(NotFound)
    ensures file in app.files && !(id != NIL && id in app.files[file].data.db.db) ==> r == Err(NotFound)
    ensures file in app.files && id != NIL && id in app.files[file].data.db.db ==>
      r == GetData(app.files[file].data.db.db[id], prop)
    ensures r.Err? ==> r.error == NotFound || r.error == PropertyNotFound
  {
    match app.GetObj(file, id)
    case Err(e) => Err(e)
    case Ok(obj) => GetData(obj, prop)
  }

  /** The ids of a batch of (id, value) pairs. */
  function BatchIds(data: seq<(RefID, Json)>): (s: set<RefID>)
    ensures forall k :: k in s <==> exists i :: 0 <= i < |data| && data[i].0 == k
  {
    set i | 0 <= i < |data| :: data[i].0
  }

  /** The data-setting loop of set_objs_data: the pairs in order, stopping at the first failure. */
  method SetEachData(app: AppState, file: string, eventId: RefID, data: seq<(RefID, Json)>) returns (r: Status)
    requires app.Valid()
    modifies app.FileRepr(file)
    ensures app.Valid() && app.files == old(app.files) && app.scheduler.jobs == old(app.scheduler.jobs)
    ensures data == [] ==> r == Success
    ensures file !in app.files && data != [] ==> r == Err(NotFound)
    ensures r.Ok? ==> r == Success
  {
    r := Success;
    var i := 0;
    while i < |data|
      invariant 0 <= i <= |data|
      invariant app.Valid() && app.files == old(app.files) && app.scheduler.jobs == old(app.scheduler.jobs)
      invariant file !in app.files ==> i == 0
      invariant r == Success
    {
      app.Apart(file);
      var st := app.ModifyObj(file, eventId, data[i].0, SetDataEdit(data[i].1));
      if st.Err? {
        return st;
      }
      i := i + 1;
    }
  }

  /**
   * set_objs_data: each pair is applied in order; the first failure is
   * returned at once, with nothing scheduled. Otherwise the dependents of
   * every touched id are scheduled.
   */
  method SetObjsData(app: AppState, file: string, eventId: RefID, data: seq<(RefID, Json)>) returns (r: Status, ghost order: seq<RefID>)
    requires app.Valid()
    modifies app.scheduler, app.FileRepr(file)
    ensures app.Valid() && app.files == old(app.files)
    ensures data == [] ==> r == Success
    ensures file !in app.files && data != [] ==> r == Err(NotFound)
    ensures r.Ok? ==> Enumerates(order, BatchIds(data)) && app.scheduler.jobs == old(app.scheduler.jobs) + [UpdateAllDepsJob(file, order)]
    ensures r.Err? ==> app.scheduler.jobs == old(app.scheduler.jobs)
  {
    app.Apart(file);
    order := [];
    r := SetEachData(app, file, eventId, data);
    if r.Err? {
      return;
    }
    var keys := set i | 0 <= i < |data| :: data[i].0;
    var xs := Collect(keys);
    order := xs;
    app.UpdateAllDeps(file, xs);
  }

  // ---- copy_objs ----

  /** A reference to give a copy: its slot, the geometry it takes and the geometry it follows. */
  datatype Retarget = Retarget(slot: nat, result: RefGeometry, other: GeometryId)

  /**
   * What one reference of a copied object contributes: when it follows a
   * member of the copied set, a reference to the same geometry of that
   * member's copy. As written, both the geometry taken and the slot set use
   * the referenced index, and the geometry is looked up on the referencing
   * object itself; a reference whose lookup finds nothing contributes
   * nothing.
   */
  function RetargetOne(o: Obj, ref: Option<GeomReference>, copies: map<RefID, RefID>): (r: seq<Retarget>)
    ensures |r| <= 1
    ensures |r| == 1 <==>
      ref.Some? && ref.value.other.obj in copies && HasReferTo(o) && GetResult(o, ref.value.other.index).Some?
    ensures |r| == 1 ==>
      r[0].slot == ref.value.other.index && r[0].other == GeometryId(copies[ref.value.other.obj], ref.value.other.index) &&
      Some(r[0].result) == GetResult(o, ref.value.other.index)
  {
    if ref.Some? && ref.value.other.obj in copies && HasReferTo(o) then
      match GetResult(o, ref.value.other.index)
      case None => []
      case Some(res) => [Retarget(ref.value.other.index, res, GeometryId(copies[ref.value.other.obj], ref.value.other.index))]
    else []
  }

  /** The references gathered over a list of references, in their order. */
  function RetargetsOf(o: Obj, refs: seq<Option<GeomReference>>, copies: map<RefID, RefID>): seq<Retarget>
    decreases |refs|
  {
    if refs == [] then [] else RetargetsOf(o, refs[..|refs| - 1], copies) + RetargetOne(o, refs[|refs| - 1], copies)
  }

  /** Every retargeted reference comes from one of the original's references. */
  lemma {:induction false} RetargetsFromRefs(o: Obj, refs: seq<Option<GeomReference>>, copies: map<RefID, RefID>)
    ensures |RetargetsOf(o, refs, copies)| <= |refs|
    ensures forall e :: e in RetargetsOf(o, refs, copies) ==> exists k :: 0 <= k < |refs| && RetargetOne(o, refs[k], copies) == [e]
    decreases |refs|
  {
    if refs != [] {
      var init := refs[..|refs| - 1];
      RetargetsFromRefs(o, init, copies);
      forall e | e in RetargetsOf(o, refs, copies)
        ensures exists k :: 0 <= k < |refs| && RetargetOne(o, refs[k], copies) == [e]
      {
        if e in RetargetsOf(o, init, copies) {
          var k :| 0 <= k < |init| && RetargetOne(o, init[k], copies) == [e];
          assert refs[k] == init[k];
        } else {
          assert RetargetOne(o, refs[|refs| - 1], copies) == [e];
        }
      }
    }
  }

  /** Every original reference that can be retargeted is. */
  lemma {:induction false} RefsAreRetargeted(o: Obj, refs: seq<Option<GeomReference>>, copies: map<RefID, RefID>)
    ensures forall k :: 0 <= k < |refs| && |RetargetOne(o, refs[k], copies)| == 1 ==> RetargetOne(o, refs[k], copies)[0] in RetargetsOf(o, refs, copies)
    decreases |refs|
  {
    if refs != [] {
      var init := refs[..|refs| - 1];
      RefsAreRetargeted(o, init, copies);
      forall k | 0 <= k < |refs| - 1
        ensures RetargetOne(o, refs[k], copies) == RetargetOne(o, init[k], copies)
      {
        assert refs[k] == init[k];
      }
    }
  }

  /** Every retargeted reference follows one of the copies. */
  lemma {:induction false} RetargetsFollowCopies(o: Obj, refs: seq<Option<GeomReference>>, copies: map<RefID, RefID>)
    ensures forall e :: e in RetargetsOf(o, refs, copies) ==> e.other.obj in copies.Values
    decreases |refs|
  {
    if refs != [] {
      RetargetsFollowCopies(o, refs[..|refs| - 1], copies);
      forall e | e in RetargetOne(o, refs[|refs| - 1], copies)
        ensures e.other.obj in copies.Values
      {
        var k := refs[|refs| - 1].value.other.obj;
        assert copies[k] == e.other.obj;
      }
    }
  }

  /** One step of that loop: the reference is kept only when it follows a copied object and the original offers a result at its index. */
  method RetargetFor(o: Obj, ref: Option<GeomReference>, copies: map<RefID, RefID>) returns (one: seq<Retarget>)
    ensures one == RetargetOne(o, ref, copies)
  {
    one := [];
    if ref.Some? && ref.value.other.obj in copies && HasReferTo(o) {
      var res := GetResult(o, ref.value.other.index);
      if res.Some? {
        one := [Retarget(ref.value.other.index, res.value, GeometryId(copies[ref.value.other.obj], ref.value.other.index))];
      }
    }
  }

  /** The loop inside copy_objs' get_obj callback: the references of the original that can be retargeted. */
  method CollectRetargets(o: Obj, copies: map<RefID, RefID>) returns (sets: seq<Retarget>)
    ensures sets == RetargetsOf(o, Refs(o), copies)
  {
    var refs: seq<Option<GeomReference>> := [];
    if HasUpdateFromRefs(o) {
      refs := Refs(o);
    }
    sets := RetargetsFrom(o, refs, copies);
  }

  /** The loop over an object's references, one RetargetFor each, in order. */
  method RetargetsFrom(o: Obj, refs: seq<Option<GeomReference>>, copies: map<RefID, RefID>) returns (sets: seq<Retarget>)
    ensures sets == RetargetsOf(o, refs, copies)
  {
    sets := [];
    var k := 0;
    while k < |refs|
      invariant 0 <= k <= |refs|
      invariant sets == RetargetsOf(o, refs[..k], copies)
    {
      assert refs[..k + 1][..k] == refs[..k];
      var one := RetargetFor(o, refs[k], copies);
      sets := sets + one;
      k := k + 1;
    }
    assert refs[..k] == refs;
  }


  /** The retargeted references set one after the other, in order, through the entity's set_ref. */
  function SetRefs(o: Obj, sets: seq<Retarget>): (r: Obj)
    ensures Id(r) == Id(o)
    decreases |sets|
  {
    if sets == [] then o else SetRefs(SetRef(o, sets[0].slot, sets[0].result, sets[0].other), sets[1..])
  }

  /** The edit of copy_objs' modify_obj callback; it always succeeds. */
  function RetargetEdit(sets: seq<Retarget>): (f: Edit)
    ensures forall o :: f(o) == (SetRefs(o, sets), Success)
  {
    (o: Obj) => if HasUpdateFromRefs(o) then (SetRefs(o, sets), Success) else (o, Success)
  }

  /** The graph after each retargeted reference's followed copy has been registered as a publisher of sub, in order. */
  function RegisterRetargets(g: map<RefID, set<RefID>>, sets: seq<Retarget>, sub: RefID): map<RefID, set<RefID>>
    decreases |sets|
  {
    if sets == [] then g else RegisterRetargets(Registered(g, sets[0].other.obj, sub), sets[1..], sub)
  }

  /** Registering only adds: sub follows every retargeted copy, and no earlier subscription is lost. */
  lemma {:induction false} RegisterRetargetsSubscribes(g: map<RefID, set<RefID>>, sets: seq<Retarget>, sub: RefID)
    requires sub != NIL
    ensures forall e :: e in sets ==> sub in Subs(RegisterRetargets(g, sets, sub), e.other.obj)
    ensures forall p :: Subs(g, p) <= Subs(RegisterRetargets(g, sets, sub), p)
    decreases |sets|
  {
    if sets != [] {
      var g1 := Registered(g, sets[0].other.obj, sub);
      RegisterRetargetsSubscribes(g1, sets[1..], sub);
      forall e | e in sets
        ensures sub in Subs(RegisterRetargets(g, sets, sub), e.other.obj)
      {
        if e != sets[0] {
          assert e in sets[1..];
        }
      }
    }
  }

  /** The add_dep calls of copy_objs' modify_obj callback, one per retargeted reference. */
  method AddRetargetDeps(app: AppState, file: string, copyId: RefID, sets: seq<Retarget>)
    requires app.Valid() && file in app.files
    modifies app.FileRepr(file)
    ensures app.Valid() && app.files == old(app.files) && app.scheduler.jobs == old(app.scheduler.jobs)
    ensures app.files[file].deps.pubSubs == RegisterRetargets(old(app.files[file].deps.pubSubs), sets, copyId)
    ensures app.files[file].data.db.db == old(app.files[file].data.db.db) && app.files[file].updates == old(app.files[file].updates)
    ensures app.files[file].data.pending.events == old(app.files[file].data.pending.events)
  {
    var j := 0;
    while j < |sets|
      invariant 0 <= j <= |sets|
      invariant app.Valid() && app.files == old(app.files) && app.scheduler.jobs == old(app.scheduler.jobs)
      invariant RegisterRetargets(app.files[file].deps.pubSubs, sets[j..], copyId) == RegisterRetargets(old(app.files[file].deps.pubSubs), sets, copyId)
      invariant app.files[file].data.db.db == old(app.files[file].data.db.db) && app.files[file].updates == old(app.files[file].updates)
      invariant app.files[file].data.pending.events == old(app.files[file].data.pending.events)
    {
      app.Apart(file);
      assert sets[j..][1..] == sets[j + 1..];
      var added := app.AddDep(file, sets[j].other.obj, copyId);
      j := j + 1;
    }
  }

  /**
   * One copy's references, as copy_objs sets them: the copy is modified under
   * the event with the retargeting edit, and, when that succeeded, each
   * followed copy is registered as a publisher of it. (The source registers
   * them from inside the edit, which runs only when the modification gets
   * that far.)
   */
  method RetargetCopy(app: AppState, file: string, eventId: RefID, copyId: RefID, sets: seq<Retarget>) returns (r: Status)
    requires app.Valid() && file in app.files
    modifies app.FileRepr(file)
    ensures app.Valid() && app.files == old(app.files) && app.scheduler.jobs == old(app.scheduler.jobs)
    ensures app.files[file].ModifiedObject(eventId, copyId, RetargetEdit(sets), r)
    ensures r.Err? ==> app.files[file].deps.pubSubs == old(app.files[file].deps.pubSubs)
    ensures r.Ok? ==> app.files[file].deps.pubSubs == RegisterRetargets(old(app.files[file].deps.pubSubs), sets, copyId)
    ensures r.Ok? ==> Lookup(old(app.files[file].data.db.db), copyId).Ok?
    ensures r.Ok? ==>
      app.files[file].data.db.db == old(app.files[file].data.db.db)[copyId := Update(SetRefs(old(app.files[file].data.db.db)[copyId], sets)).0]
  {
    app.Apart(file);
    ghost var db0 := app.files[file].data.db.db;
    r := app.ModifyObj(file, eventId, copyId, RetargetEdit(sets));
    if r.Ok? {
      ModifyStores(db0, app.files[file].data.db.db, copyId, RetargetEdit(sets), r);
      assert RetargetEdit(sets)(db0[copyId]).0 == SetRefs(db0[copyId], sets);
      AddRetargetDeps(app, file, copyId, sets);
    }
  }

  /** The object copy_obj stores as the copy of o: under the new id, with its outside references cleared, then updated. */
  function CopyOf(o: Obj, copyId: RefID): Obj {
    Update(ClearRefs(SetId(o, copyId))).0
  }

  /** A copy as the second loop of copy_objs leaves it: given the original's retargets, when it has any, and updated. */
  function Reattached(copy: Obj, orig: Obj, copies: map<RefID, RefID>): Obj {
    var sets := RetargetsOf(orig, Refs(orig), copies);
    if sets == [] then copy else Update(SetRefs(copy, sets)).0
  }

  // The two loops of copy_objs as folds over the store. They are stated for
  // any kind of stored value and any copying rule (CopyOf and Reattached
  // above), since what they do to the store does not depend on either.

  /** The store after copying id under copyId; a missing original or a taken copy id leaves it as it is. */
  function CopyInto<V>(db: map<RefID, V>, id: RefID, copyId: RefID, copy: (V, RefID) -> V): map<RefID, V> {
    if id != NIL && id in db && copyId !in db then db[copyId := copy(db[id], copyId)] else db
  }

  /** The store after the first loop has copied every listed id, in order. */
  function CopyAll<V>(db: map<RefID, V>, xs: seq<RefID>, mint: RefID -> RefID, copy: (V, RefID) -> V): map<RefID, V>
    decreases |xs|
  {
    if xs == [] then db else CopyInto(CopyAll(db, xs[..|xs| - 1], mint, copy), xs[|xs| - 1], mint(xs[|xs| - 1]), copy)
  }

  /** The store after one pass of the second loop, for the original id: its stored copy is reattached. */
  function ReattachInto<V>(db: map<RefID, V>, id: RefID, copies: map<RefID, RefID>, reattach: (V, V, map<RefID, RefID>) -> V): map<RefID, V> {
    if id != NIL && id in db && id in copies && copies[id] != NIL && copies[id] in db then
      db[copies[id] := reattach(db[copies[id]], db[id], copies)]
    else db
  }

  /** The store after the second loop has handled every listed original, in order. */
  function ReattachAll<V>(db: map<RefID, V>, xs: seq<RefID>, copies: map<RefID, RefID>, reattach: (V, V, map<RefID, RefID>) -> V): map<RefID, V>
    decreases |xs|
  {
    if xs == [] then db else ReattachInto(ReattachAll(db, xs[..|xs| - 1], copies, reattach), xs[|xs| - 1], copies, reattach)
  }

  /** The ids minted for the listed originals. */
  function Minted(xs: seq<RefID>, mint: RefID -> RefID): set<RefID> {
    set k | k in xs :: mint(k)
  }

  /** Copying only adds entries, each under a minted id; when no minted id is taken, every stored value stays as it was. */
  lemma {:induction false} CopyAllKeeps<V>(db: map<RefID, V>, xs: seq<RefID>, mint: RefID -> RefID, copy: (V, RefID) -> V)
    ensures CopyAll(db, xs, mint, copy).Keys <= db.Keys + Minted(xs, mint)
    ensures (forall k :: k in xs ==> mint(k) !in db) ==>
      forall key :: key in db ==> key in CopyAll(db, xs, mint, copy) && CopyAll(db, xs, mint, copy)[key] == db[key]
    decreases |xs|
  {
    if xs != [] {
      var init := xs[..|xs| - 1];
      assert forall k :: k in init ==> k in xs;
      assert Minted(init, mint) <= Minted(xs, mint);
      CopyAllKeeps(db, init, mint, copy);
    }
  }

  /**
   * When the originals are stored and their minted ids are distinct and not
   * yet taken, copying them all stores one copy per original, under its
   * minted id.
   */
  lemma {:induction false} CopyAllStores<V>(db: map<RefID, V>, xs: seq<RefID>, mint: RefID -> RefID, copy: (V, RefID) -> V)
    requires forall i :: 0 <= i < |xs| ==> xs[i] != NIL && xs[i] in db && mint(xs[i]) !in db
    requires forall i, j :: 0 <= i < |xs| && 0 <= j < |xs| && xs[i] != xs[j] ==> mint(xs[i]) != mint(xs[j])
    ensures forall i :: 0 <= i < |xs| ==>
      mint(xs[i]) in CopyAll(db, xs, mint, copy) && CopyAll(db, xs, mint, copy)[mint(xs[i])] == copy(db[xs[i]], mint(xs[i]))
    decreases |xs|
  {
    if xs != [] {
      var n := |xs| - 1;
      var init := xs[..n];
      var x: RefID := xs[n];
      CopyAllStores(db, init, mint, copy);
      CopyAllKeeps(db, init, mint, copy);
      var before := CopyAll(db, init, mint, copy);
      assert before[x] == db[x];
      if mint(x) in before {
        assert mint(x) in Minted(init, mint);
        var k :| k in init && mint(x) == mint(k);
        var i :| 0 <= i < n && init[i] == k;
        assert xs[i] == x;
        assert before[mint(x)] == copy(db[x], mint(x));
      }
      assert CopyAll(db, xs, mint, copy) == CopyInto(before, x, mint(x), copy);
    }
  }

  /** Reattaching changes only copies of listed originals and keeps the keys. */
  lemma {:induction false} ReattachAllKeeps<V>(db: map<RefID, V>, xs: seq<RefID>, copies: map<RefID, RefID>, reattach: (V, V, map<RefID, RefID>) -> V)
    ensures ReattachAll(db, xs, copies, reattach).Keys == db.Keys
    ensures forall key :: key in db && (forall k :: k in xs && k in copies ==> key != copies[k]) ==>
      ReattachAll(db, xs, copies, reattach)[key] == db[key]
    decreases |xs|
  {
    if xs != [] {
      var init := xs[..|xs| - 1];
      assert forall k :: k in init ==> k in xs;
      ReattachAllKeeps(db, init, copies, reattach);
    }
  }

  /**
   * When the originals are listed once each, they and their copies are
   * stored, the copies are distinct and none of them is an original, the
   * second loop reattaches each copy
   * once, against its unchanged original.
   */
  lemma {:induction false} ReattachAllSets<V>(db: map<RefID, V>, xs: seq<RefID>, copies: map<RefID, RefID>, reattach: (V, V, map<RefID, RefID>) -> V)
    requires forall i :: 0 <= i < |xs| ==> xs[i] in copies && xs[i] != NIL && xs[i] in db
    requires forall i :: 0 <= i < |xs| ==> copies[xs[i]] != NIL && copies[xs[i]] in db && copies[xs[i]] !in xs
    requires forall i, j :: 0 <= i < |xs| && 0 <= j < |xs| && xs[i] != xs[j] ==> copies[xs[i]] != copies[xs[j]]
    requires forall i, j :: 0 <= i < j < |xs| ==> xs[i] != xs[j]
    ensures forall i :: 0 <= i < |xs| ==>
      copies[xs[i]] in ReattachAll(db, xs, copies, reattach) &&
      ReattachAll(db, xs, copies, reattach)[copies[xs[i]]] == reattach(db[copies[xs[i]]], db[xs[i]], copies)
    decreases |xs|
  {
    if xs != [] {
      var n := |xs| - 1;
      var init := xs[..n];
      var x: RefID := xs[n];
      ReattachAllSets(db, init, copies, reattach);
      ReattachAllKeeps(db, init, copies, reattach);
      var before := ReattachAll(db, init, copies, reattach);
      assert before[x] == db[x];
      assert forall i :: 0 <= i < n ==> init[i] == xs[i] && xs[i] != x;
      assert x !in init;
      forall k | k in init && k in copies
        ensures copies[x] != copies[k]
      {
        var i :| 0 <= i < n && init[i] == k;
        assert xs[i] == k;
      }
      assert before[copies[x]] == db[copies[x]];
      assert ReattachAll(db, xs, copies, reattach) == ReattachInto(before, x, copies, reattach);
    }
  }

  /**
   * copy_objs' effect on the store, for originals listed once each (as the
   * enumeration of a set lists them) that are stored, with distinct minted
   * ids not yet taken: each original's copy is stored under
   * its minted id, as the original under that id with its outside
   * references cleared (CopyIsDetached) and then given the retargets of the
   * original's references into the copied set (RefsAreRetargeted,
   * RetargetsFollowCopies); every object stored before is as it was.
   */
  lemma CopiesStored(db: map<RefID, Obj>, xs: seq<RefID>, mint: RefID -> RefID, copies: map<RefID, RefID>)
    requires forall i :: 0 <= i < |xs| ==> xs[i] != NIL && xs[i] in db && xs[i] in copies && copies[xs[i]] == mint(xs[i])
    requires forall i :: 0 <= i < |xs| ==> mint(xs[i]) !in db && mint(xs[i]) != NIL
    requires forall i, j :: 0 <= i < |xs| && 0 <= j < |xs| && xs[i] != xs[j] ==> mint(xs[i]) != mint(xs[j])
    requires forall i, j :: 0 <= i < j < |xs| ==> xs[i] != xs[j]
    ensures forall i :: 0 <= i < |xs| ==>
      var stored := ReattachAll(CopyAll(db, xs, mint, CopyOf), xs, copies, Reattached);
      mint(xs[i]) in stored && stored[mint(xs[i])] == Reattached(CopyOf(db[xs[i]], mint(xs[i])), db[xs[i]], copies)
    ensures forall key :: key in db ==>
      var stored := ReattachAll(CopyAll(db, xs, mint, CopyOf), xs, copies, Reattached);
      key in stored && stored[key] == db[key]
  {
    CopyAllStores(db, xs, mint, CopyOf);
    CopyAllKeeps(db, xs, mint, CopyOf);
    var mid := CopyAll(db, xs, mint, CopyOf);
    ReattachAllSets(mid, xs, copies, Reattached);
    ReattachAllKeeps(mid, xs, copies, Reattached);
  }

  /** One step of the first loop of copy_objs: copy_obj, as the loop sees it. */
  method CopyStep(app: AppState, file: string, eventId: RefID, id: RefID, copyId: RefID) returns (r: Result<RefID>)
    requires app.Valid()
    modifies app.FileRepr(file)
    ensures app.Valid() && app.files == old(app.files) && app.scheduler.jobs == old(app.scheduler.jobs)
    ensures file !in app.files ==> r == Err(NotFound)
    ensures r.Ok? ==> r == Ok(copyId)
    ensures file in app.files ==>
      app.files[file].data.db.db == if r.Ok? then CopyInto(old(app.files[file].data.db.db), id, copyId, CopyOf) else old(app.files[file].data.db.db)
  {
    r := app.CopyObj(file, eventId, id, copyId);
  }

  /** The first loop of copy_objs: each listed id copied under the event, stopping at the first failure. */
  method CopyEach(app: AppState, file: string, eventId: RefID, xs: seq<RefID>, mint: RefID -> RefID) returns (r: Result<map<RefID, RefID>>)
    requires app.Valid()
    modifies app.FileRepr(file)
    ensures app.Valid() && app.files == old(app.files) && app.scheduler.jobs == old(app.scheduler.jobs)
    ensures file !in app.files && xs != [] ==> r == Err(NotFound)
    ensures r.Ok? ==> (forall k :: k in r.value <==> k in xs) && (forall k :: k in r.value ==> r.value[k] == mint(k))
    ensures r.Ok? && file in app.files ==> app.files[file].data.db.db == CopyAll(old(app.files[file].data.db.db), xs, mint, CopyOf)
  {
    var origToCopy: map<RefID, RefID> := map[];
    var i := 0;
    while i < |xs|
      invariant 0 <= i <= |xs|
      invariant app.Valid() && app.files == old(app.files) && app.scheduler.jobs == old(app.scheduler.jobs)
      invariant forall k :: k in origToCopy <==> k in xs[..i]
      invariant forall k :: k in origToCopy ==> origToCopy[k] == mint(k)
      invariant file !in app.files ==> i == 0
      invariant file in app.files ==> app.files[file].data.db.db == CopyAll(old(app.files[file].data.db.db), xs[..i], mint, CopyOf)
    {
      assert xs[..i + 1][..i] == xs[..i];
      var copied := CopyStep(app, file, eventId, xs[i], mint(xs[i]));
      if copied.Err? {
        return Err(copied.error);
      }
      origToCopy := origToCopy[xs[i] := copied.value];
      assert xs[..i + 1] == xs[..i] + [xs[i]];
      i := i + 1;
    }
    assert xs[..i] == xs;
    r := Ok(origToCopy);
  }

  /** The get_obj callback of copy_objs: the original's retargetable references, or NotFound. */
  method GatherRetargets(app: AppState, file: string, id: RefID, origToCopy: map<RefID, RefID>) returns (r: Result<seq<Retarget>>)
    ensures r.Err? <==> app.GetObj(file, id).Err?
    ensures r.Err? ==> r.error == NotFound
    ensures r.Ok? ==> r.value == RetargetsOf(app.GetObj(file, id).value, Refs(app.GetObj(file, id).value), origToCopy)
  {
    var found := app.GetObj(file, id);
    if found.Err? {
      return Err(found.error);
    }
    var sets := CollectRetargets(found.value, origToCopy);
    r := Ok(sets);
  }

  /** The `refs_to_set.len() > 0` block of copy_objs: a copy is modified only when it has references to give. */
  method ReattachOne(app: AppState, file: string, eventId: RefID, copyId: RefID, sets: seq<Retarget>) returns (r: Status)
    requires app.Valid() && file in app.files
    modifies app.FileRepr(file)
    ensures app.Valid() && app.files == old(app.files) && app.scheduler.jobs == old(app.scheduler.jobs)
    ensures sets == [] ==> r == Success && app.files[file].data.db.db == old(app.files[file].data.db.db)
    ensures r.Ok? ==> r == Success
    ensures r.Ok? && sets != [] ==> Lookup(old(app.files[file].data.db.db), copyId).Ok?
    ensures r.Ok? && sets != [] ==>
      app.files[file].data.db.db == old(app.files[file].data.db.db)[copyId := Update(SetRefs(old(app.files[file].data.db.db)[copyId], sets)).0]
  {
    r := Success;
    if |sets| > 0 {
      r := RetargetCopy(app, file, eventId, copyId, sets);
      if r.Ok? {
        r := Success;
      }
    }
  }

  /** One pass of the second loop of copy_objs: the original's retargets gathered and given to its copy. */
  method ReattachStep(app: AppState, file: string, eventId: RefID, id: RefID, origToCopy: map<RefID, RefID>) returns (r: Status)
    requires app.Valid() && id in origToCopy
    modifies app.FileRepr(file)
    ensures app.Valid() && app.files == old(app.files) && app.scheduler.jobs == old(app.scheduler.jobs)
    ensures file !in app.files ==> r == Err(NotFound)
    ensures r.Ok? ==> r == Success
    ensures r.Ok? && file in app.files ==> app.files[file].data.db.db == ReattachInto(old(app.files[file].data.db.db), id, origToCopy, Reattached)
  {
    var sets := GatherRetargets(app, file, id, origToCopy);
    if sets.Err? {
      return Err(sets.error);
    }
    ghost var db0 := app.files[file].data.db.db;
    r := ReattachOne(app, file, eventId, origToCopy[id], sets.value);
    if r.Ok? && sets.value == [] {
      assert ReattachInto(db0, id, origToCopy, Reattached) == db0 by {
        if Lookup(db0, origToCopy[id]).Ok? {
          assert db0[origToCopy[id] := db0[origToCopy[id]]] == db0;
        }
      }
    }
  }

  /**
   * The second loop of copy_objs: for each original in turn, its
   * retargetable references are gathered and given to its copy; the
   * originals handled are listed in order.
   */
  method ReattachEach(app: AppState, file: string, eventId: RefID, xs: seq<RefID>, origToCopy: map<RefID, RefID>)
    returns (r: Status, toUpdate: seq<RefID>)
    requires app.Valid()
    requires forall k :: k in xs ==> k in origToCopy
    modifies app.FileRepr(file)
    ensures app.Valid() && app.files == old(app.files) && app.scheduler.jobs == old(app.scheduler.jobs)
    ensures file !in app.files && xs != [] ==> r == Err(NotFound)
    ensures r.Ok? ==> r == Success && toUpdate == xs
    ensures r.Ok? && file in app.files ==> app.files[file].data.db.db == ReattachAll(old(app.files[file].data.db.db), xs, origToCopy, Reattached)
  {
    r := Success;
    toUpdate := [];
    var i := 0;
    while i < |xs|
      invariant 0 <= i <= |xs|
      invariant app.Valid() && app.files == old(app.files) && app.scheduler.jobs == old(app.scheduler.jobs)
      invariant toUpdate == xs[..i]
      invariant file !in app.files ==> i == 0
      invariant file in app.files ==> app.files[file].data.db.db == ReattachAll(old(app.files[file].data.db.db), xs[..i], origToCopy, Reattached)
    {
      assert xs[..i + 1][..i] == xs[..i];
      var st := ReattachStep(app, file, eventId, xs[i], origToCopy);
      if st.Err? {
        return st, toUpdate;
      }
      toUpdate := toUpdate + [xs[i]];
      assert xs[..i + 1] == xs[..i] + [xs[i]];
      i := i + 1;
    }
    assert xs[..i] == xs;
  }

  /**
   * copy_objs: every id of the set is copied under the event (the copy's id
   * is minted, here given by mint), stopping at the first failure; then each
   * original's references to members of the set are given to its copy,
   * pointing at those members' copies; last, the originals' dependents are
   * scheduled. The answer maps each original to its copy.
   */
  method CopyObjs(app: AppState, file: string, eventId: RefID, ids: set<RefID>, mint: RefID -> RefID)
    returns (r: Result<map<RefID, RefID>>, ghost order: seq<RefID>)
    requires app.Valid()
    modifies app.scheduler, app.FileRepr(file)
    ensures app.Valid() && app.files == old(app.files)
    ensures Enumerates(order, ids)
    ensures file !in app.files && ids != {} ==> r == Err(NotFound)
    ensures r.Ok? ==> r.value.Keys == ids && (forall k :: k in ids ==> r.value[k] == mint(k))
    ensures r.Ok? ==> app.scheduler.jobs == old(app.scheduler.jobs) + [UpdateAllDepsJob(file, order)]
    ensures r.Err? ==> app.scheduler.jobs == old(app.scheduler.jobs)
    ensures r.Ok? && file in app.files ==>
      app.files[file].data.db.db == ReattachAll(CopyAll(old(app.files[file].data.db.db), order, mint, CopyOf), order, r.value, Reattached)
  {
    app.Apart(file);
    var xs := Collect(ids);
    order := xs;
    if ids != {} {
      var k :| k in ids;
      assert k in xs;
    }
    var copied := CopyEach(app, file, eventId, xs, mint);
    if copied.Err? {
      return Err(copied.error), order;
    }
    var origToCopy := copied.value;
    var st, toUpdate := ReattachEach(app, file, eventId, xs, origToCopy);
    if st.Err? {
      return Err(st.error), order;
    }
    app.UpdateAllDeps(file, toUpdate);
    r := Ok(origToCopy);
  }
}
