/**
 * The operation manager of one file (operations/src/operation_manager/mod.rs):
 * the data manager and the dependency graph, composed so that every edit
 * broadcasts the update messages the views need, and every undo, redo and
 * cancel refreshes the objects it touched and then the objects that follow them.
 *
 * Each update channel is an outbox: the messages sent on it, in order.
 * Iterating a set visits its ids in an order the model does not fix; each
 * such method reports the order it used as a ghost result.
 */
module Operations {
  import opened Base
  import opened GeometryKernel
  import opened DataModel
  import opened Objects
  import opened UndoEvents
  import opened Database
  import opened Undo
  import opened Dependencies
  import opened DataManagement

  /**
   * An entity's update_from_refs, which recomputes the entity from the
   * geometry its references now resolve to. The entities' implementations
   * are not part of this model, so the manager is given one; it keeps the
   * object's id.
   */
  type Refresh = f: (Obj, seq<Option<RefGeometry>>) -> Obj | forall o, rs :: Id(f(o, rs)) == Id(o)
    witness (o: Obj, rs: seq<Option<RefGeometry>>) => o

  /** Every outbox after the same messages were sent on each. */
  function SendAll(chans: seq<seq<UpdateMsg>>, msgs: seq<UpdateMsg>): seq<seq<UpdateMsg>> {
    seq(|chans|, i requires 0 <= i < |chans| => chans[i] + msgs)
  }

  /** A second update of the same key overrides the first. */
  /** A modification that succeeded leaves the edited object, updated, under its id, and nothing else changed in the store. */
  lemma ModifyStores(db0: map<RefID, Obj>, db: map<RefID, Obj>, id: RefID, callback: Edit, r: Status)
    requires r.Ok?
    requires match Perform(db0, ModifyOp(id, callback))
      case None => r.Err?
      case Some((db1, c)) => db == db1[id := Update(db1[id]).0]
    ensures id != NIL && id in db0
    ensures db == db0[id := Update(callback(db0[id]).0).0]
  {
    assert id != NIL && id in db0;
    var edited := callback(db0[id]).0;
    var db1 := db0[id := edited];
    assert Perform(db0, ModifyOp(id, callback)) == Some((db1, ModifyChange(db0[id])));
    assert db == db1[id := Update(edited).0];
    UpdateTwice(db0, id, edited, Update(edited).0);
  }

  lemma UpdateTwice<K, V>(m: map<K, V>, k: K, a: V, b: V)
    ensures m[k := a][k := b] == m[k := b]
  {
  }

  lemma SendAllConcat(chans: seq<seq<UpdateMsg>>, a: seq<UpdateMsg>, b: seq<UpdateMsg>)
    ensures SendAll(SendAll(chans, a), b) == SendAll(chans, a + b)
  {
    forall i | 0 <= i < |chans| ensures SendAll(SendAll(chans, a), b)[i] == SendAll(chans, a + b)[i] {
      assert (chans[i] + a) + b == chans[i] + (a + b);
    }
  }

  lemma SendNothing(chans: seq<seq<UpdateMsg>>)
    ensures SendAll(chans, []) == chans
  {
    forall i | 0 <= i < |chans| ensures SendAll(chans, [])[i] == chans[i] {
      assert chans[i] + [] == chans[i];
    }
  }

  /** A duplicate-free listing of exactly the ids of s. */
  ghost predicate Enumerates(order: seq<RefID>, s: set<RefID>) {
    (forall i, j :: 0 <= i < j < |order| ==> order[i] != order[j]) &&
    (forall k :: k in order <==> k in s)
  }

  /** The subscribers of every listed publisher. */
  ghost function AllSubs(g: map<RefID, set<RefID>>, ids: seq<RefID>): set<RefID> {
    set i, k | 0 <= i < |ids| && k in Subs(g, ids[i]) :: k
  }

  /** The subscribers of every publisher in a set. */
  ghost function SubsOfSet(g: map<RefID, set<RefID>>, ps: set<RefID>): set<RefID> {
    set p, k | p in ps && k in Subs(g, p) :: k
  }

  /** Listing the publishers in any order gathers the same subscribers. */
  lemma AllSubsOfListing(g: map<RefID, set<RefID>>, ids: seq<RefID>, ps: set<RefID>)
    requires forall k :: k in ids <==> k in ps
    ensures AllSubs(g, ids) == SubsOfSet(g, ps)
  {
    forall k | k in SubsOfSet(g, ps) ensures k in AllSubs(g, ids) {
      var p :| p in ps && k in Subs(g, p);
      var i :| 0 <= i < |ids| && ids[i] == p;
    }
  }

  /** Collecting a set into a sequence (into_iter().collect()): each member once, in some order. */
  method Collect(s: set<RefID>) returns (xs: seq<RefID>)
    ensures Enumerates(xs, s)
  {
    xs := [];
    var todo := s;
    while todo != {}
      invariant todo <= s && Enumerates(xs, s - todo)
      decreases todo
    {
      var x :| x in todo;
      xs := xs + [x];
      todo := todo - {x};
    }
  }

  // ---- update_set, on values ----

  /** One id of update_set: a present object is updated and its message sent; a missing one is announced deleted. */
  function UpdateStep(db: map<RefID, Obj>, id: RefID): (map<RefID, Obj>, UpdateMsg) {
    match Lookup(db, id)
    case Err(_) => (db, Delete(id))
    case Ok(o) => (db[id := Update(o).0], Update(o).1)
  }

  function UpdateAll(db: map<RefID, Obj>, ids: seq<RefID>): (map<RefID, Obj>, seq<UpdateMsg>)
    decreases |ids|
  {
    if ids == [] then (db, [])
    else
      var p := UpdateAll(db, ids[..|ids| - 1]);
      var q := UpdateStep(p.0, ids[|ids| - 1]);
      (q.0, p.1 + [q.1])
  }

  /**
   * update_set: one message per id, in the order visited: the object's fresh
   * update when it is present, Delete when it is not; every present object
   * is left as its update leaves it and nothing else changes.
   */
  lemma {:induction false} UpdateAllMessages(db: map<RefID, Obj>, ids: seq<RefID>)
    requires forall i, j :: 0 <= i < j < |ids| ==> ids[i] != ids[j]
    ensures |UpdateAll(db, ids).1| == |ids|
    ensures forall j :: 0 <= j < |ids| ==>
      UpdateAll(db, ids).1[j] == (if Lookup(db, ids[j]).Ok? then Update(db[ids[j]]).1 else Delete(ids[j]))
    ensures UpdateAll(db, ids).0.Keys == db.Keys
    ensures forall k :: k in db ==>
      UpdateAll(db, ids).0[k] == (if k in ids && k != NIL then Update(db[k]).0 else db[k])
    decreases |ids|
  {
    if ids != [] {
      var front := ids[..|ids| - 1];
      var x := ids[|ids| - 1];
      UpdateAllMessages(db, front);
      assert x !in front;
      assert forall k :: k in ids <==> k in front || k == x;
    }
  }

  // ---- update_set_from_refs, on values ----

  /** get_ref_result: the referenced geometry, when the referenced object exists and offers results. */
  function ResolvedRef(db: map<RefID, Obj>, refer: Option<GeomReference>): (r: Option<RefGeometry>)
    ensures r.Some? ==> refer.Some? && Lookup(db, refer.value.other.obj).Ok? && HasReferTo(db[refer.value.other.obj])
    ensures r.Some? ==> refer.Some? && r == GetResult(db[refer.value.other.obj], refer.value.other.index)
  {
    if refer.None? then None
    else match Lookup(db, refer.value.other.obj)
      case Err(_) => None
      case Ok(o) => if HasReferTo(o) then GetResult(o, refer.value.other.index) else None
  }

  function RefResults(db: map<RefID, Obj>, refs: seq<Option<GeomReference>>): (r: seq<Option<RefGeometry>>)
    ensures |r| == |refs|
    ensures forall i :: 0 <= i < |refs| ==> r[i] == ResolvedRef(db, refs[i])
  {
    seq(|refs|, i requires 0 <= i < |refs| => ResolvedRef(db, refs[i]))
  }

  /** update_from_refs on values: the refreshed and updated object with its message, or None when it is missing. */
  function Refreshed(db: map<RefID, Obj>, refresh: Refresh, id: RefID): Option<(Obj, UpdateMsg)> {
    match Lookup(db, id)
    case Err(_) => None
    case Ok(o) => Some(Update(refresh(o, RefResults(db, Refs(o)))))
  }

  /** The refreshed object is what the in-place refresh edit makes of the stored one. */
  lemma RefreshedByEdit(db: map<RefID, Obj>, refresh: Refresh, id: RefID, o: Obj)
    requires Lookup(db, id) == Ok(o)
    ensures var results := RefResults(db, Refs(o));
      Refreshed(db, refresh, id) == Some((RefreshInPlace(refresh, results)(o).0, Update(refresh(o, results)).1))
  {
  }

  function RefreshStep(db: map<RefID, Obj>, refresh: Refresh, id: RefID): (map<RefID, Obj>, UpdateMsg) {
    match Refreshed(db, refresh, id)
    case None => (db, Delete(id))
    case Some((o, m)) => (db[id := o], m)
  }

  function RefreshAll(db: map<RefID, Obj>, refresh: Refresh, ids: seq<RefID>): (map<RefID, Obj>, seq<UpdateMsg>)
    decreases |ids|
  {
    if ids == [] then (db, [])
    else
      var p := RefreshAll(db, refresh, ids[..|ids| - 1]);
      var q := RefreshStep(p.0, refresh, ids[|ids| - 1]);
      (q.0, p.1 + [q.1])
  }

  /** One id of update_set_from_refs: the keys stay, and the message is Delete exactly when the id is missing. */
  lemma RefreshStepMessage(db: map<RefID, Obj>, refresh: Refresh, id: RefID)
    ensures RefreshStep(db, refresh, id).0.Keys == db.Keys
    ensures RefreshStep(db, refresh, id).1.Delete? <==> id == NIL || id !in db
    ensures id == NIL || id !in db ==> RefreshStep(db, refresh, id).1 == Delete(id)
  {
    if id != NIL && id in db {
      var o := db[id];
      var o1 := refresh(o, RefResults(db, Refs(o)));
      assert Id(o1) == Id(o);
      assert !Update(o1).1.Delete?;
    }
  }

  /** update_set_from_refs sends one message per id and never adds or removes an object. */
  lemma {:induction false} RefreshAllKeys(db: map<RefID, Obj>, refresh: Refresh, ids: seq<RefID>)
    ensures |RefreshAll(db, refresh, ids).1| == |ids|
    ensures RefreshAll(db, refresh, ids).0.Keys == db.Keys
    decreases |ids|
  {
    if ids != [] {
      RefreshAllKeys(db, refresh, ids[..|ids| - 1]);
      RefreshStepMessage(RefreshAll(db, refresh, ids[..|ids| - 1]).0, refresh, ids[|ids| - 1]);
    }
  }

  /** update_set_from_refs announces Delete exactly for the ids that are missing. */
  lemma {:induction false} RefreshAllMessages(db: map<RefID, Obj>, refresh: Refresh, ids: seq<RefID>)
    ensures |RefreshAll(db, refresh, ids).1| == |ids|
    ensures forall j :: 0 <= j < |ids| ==>
      (RefreshAll(db, refresh, ids).1[j].Delete? <==> ids[j] == NIL || ids[j] !in db)
    ensures forall j :: 0 <= j < |ids| && (ids[j] == NIL || ids[j] !in db) ==>
      RefreshAll(db, refresh, ids).1[j] == Delete(ids[j])
    decreases |ids|
  {
    RefreshAllKeys(db, refresh, ids);
    if ids != [] {
      var front := ids[..|ids| - 1];
      var x := ids[|ids| - 1];
      RefreshAllMessages(db, refresh, front);
      RefreshAllKeys(db, refresh, front);
      var p := RefreshAll(db, refresh, front);
      RefreshStepMessage(p.0, refresh, x);
      var q := RefreshStep(p.0, refresh, x);
      var ms := RefreshAll(db, refresh, ids).1;
      assert ms == p.1 + [q.1];
      forall j | 0 <= j < |ids|
        ensures ms[j].Delete? <==> ids[j] == NIL || ids[j] !in db
        ensures ids[j] == NIL || ids[j] !in db ==> ms[j] == Delete(ids[j])
      {
        if j < |front| {
          assert ms[j] == p.1[j] && ids[j] == front[j];
        } else {
          assert ms[j] == q.1 && ids[j] == x;
          assert x in p.0 <==> x in db;
        }
      }
    }
  }

  /**
   * The common tail of undo, redo and cancel on values: the changed ids are
   * updated in the order given, then their subscribers are refreshed, and
   * every message goes out in that order.
   */
  ghost predicate RefreshedAfter(db: map<RefID, Obj>, refresh: Refresh, changed: set<RefID>, g: map<RefID, set<RefID>>,
                                 changedOrder: seq<RefID>, depOrder: seq<RefID>,
                                 out0: seq<seq<UpdateMsg>>, db': map<RefID, Obj>, out': seq<seq<UpdateMsg>>)
  {
    Enumerates(changedOrder, changed) && Enumerates(depOrder, SubsOfSet(g, changed)) &&
    var (db1, ms1) := UpdateAll(db, changedOrder);
    var (db2, ms2) := RefreshAll(db1, refresh, depOrder);
    db' == db2 && out' == SendAll(out0, ms1 + ms2)
  }

  /** The edit update_set makes to each present object. */
  function UpdateInPlace(): Edit {
    (o: Obj) => (Update(o).0, Success)
  }

  /** The edit update_from_refs makes: refresh from the resolved geometry, then update. */
  function RefreshInPlace(refresh: Refresh, results: seq<Option<RefGeometry>>): Edit {
    (o: Obj) => if HasUpdateFromRefs(o) then (Update(refresh(o, results)).0, Success) else (o, Err(ObjLacksTrait))
  }

  /** The subscriptions add_object registers: one per reference the object holds. */
  function RegisterAll(g: map<RefID, set<RefID>>, refs: seq<Option<GeomReference>>, sub: RefID): map<RefID, set<RefID>>
    decreases |refs|
  {
    if refs == [] then g
    else
      var g1 := RegisterAll(g, refs[..|refs| - 1], sub);
      if refs[|refs| - 1].Some? then Registered(g1, refs[|refs| - 1].value.other.obj, sub) else g1
  }

  /** After add_object, the object follows every object it references. */
  lemma {:induction false} RegisterAllSubscribes(g: map<RefID, set<RefID>>, refs: seq<Option<GeomReference>>, sub: RefID)
    requires sub != NIL
    ensures forall i :: 0 <= i < |refs| && refs[i].Some? ==> sub in Subs(RegisterAll(g, refs, sub), refs[i].value.other.obj)
    ensures forall p :: Subs(g, p) <= Subs(RegisterAll(g, refs, sub), p)
    decreases |refs|
  {
    if refs != [] {
      RegisterAllSubscribes(g, refs[..|refs| - 1], sub);
    }
  }

  class OperationManager {
    const data: DataManager
    const deps: DependencyManager
    var updates: seq<seq<UpdateMsg>>
    const refresh: Refresh
    /** The objects this manager owns besides itself. */
    ghost const Repr: set<object>

    ghost predicate Owns() {
      Repr == {data, data.db, data.pending, data.undo, deps}
    }

    ghost predicate Valid()
      reads this, Repr
    {
      Owns() && data.Valid()
    }

    /** new: a fresh data manager and graph, and the one given channel, empty so far. */
    constructor (refresh: Refresh)
      ensures Valid() && updates == [[]] && this.refresh == refresh
      ensures data.db.db == map[] && data.pending.events == map[] && data.undo.stack == [] && data.undo.redoStack == []
      ensures deps.pubSubs == map[]
      ensures fresh(data) && fresh(data.db) && fresh(data.pending) && fresh(data.undo) && fresh(deps)
    {
      var d := new DataManager();
      var g := new DependencyManager();
      data, deps := d, g;
      updates := [[]];
      this.refresh := refresh;
      Repr := {d, d.db, d.pending, d.undo, g};
    }

    twostate predicate BeganEvent(user: RefID, desc: string, freshId: RefID, new r: Result<RefID>)
      reads this, data.db, data.pending, data.undo, deps
    {
      (user in old(data.pending.events) ==>
        data.pending.events == old(data.pending.events)[user := old(data.pending.events)[user].(nested := old(data.pending.events)[user].nested + 1)] &&
        r == Ok(user)) &&
      (user !in old(data.pending.events) ==>
        data.pending.events == old(data.pending.events)[freshId := NewEvent(user, desc, freshId)] && r == Ok(freshId))
    }

    twostate predicate EndedEvent(eventId: RefID, new r: Status)
      reads this, data.db, data.pending, data.undo, deps
    {
      (data.undo.redoStack == old(data.undo.redoStack)) &&
      (eventId !in old(data.pending.events) ==>
        r == Err(NoUndoEvent) && data.pending.events == old(data.pending.events) && data.undo.stack == old(data.undo.stack)) &&
      (eventId in old(data.pending.events) && old(data.pending.events)[eventId].nested > 0 ==>
        r == Success && data.undo.stack == old(data.undo.stack) &&
        data.pending.events == old(data.pending.events)[eventId := old(data.pending.events)[eventId].(nested := old(data.pending.events)[eventId].nested - 1)]) &&
      (eventId in old(data.pending.events) && old(data.pending.events)[eventId].nested == 0 ==>
        r == Success && data.pending.events == old(data.pending.events) - {eventId} &&
        data.undo.stack == old(data.undo.stack) + [old(data.pending.events)[eventId]])
    }

    twostate predicate SuspendedEvent(eventId: RefID, new r: Status)
      reads this, data.db, data.pending, data.undo, deps
    {
      (eventId !in old(data.pending.events) ==> r == Err(NotFound) && data.pending.events == old(data.pending.events)) &&
      (eventId in old(data.pending.events) ==>
        r == Success &&
        data.pending.events == old(data.pending.events)[eventId := old(data.pending.events)[eventId].(suspended := old(data.pending.events)[eventId].suspended + 1)])
    }

    twostate predicate ResumedEvent(eventId: RefID, new r: Status)
      reads this, data.db, data.pending, data.undo, deps
    {
      (eventId !in old(data.pending.events) ==> r == Err(NotFound) && data.pending.events == old(data.pending.events)) &&
      (eventId in old(data.pending.events) ==>
        var n := old(data.pending.events)[eventId].suspended;
        r == Success &&
        data.pending.events == old(data.pending.events)[eventId := old(data.pending.events)[eventId].(suspended := if n > 0 then n - 1 else 0)])
    }

    twostate predicate TookSnapshot(eventId: RefID, key: RefID, new r: Status)
      reads this, data.db, data.pending, data.undo, deps
    {
      (eventId !in old(data.pending.events) ==> r == Err(NotFound) && data.pending.events == old(data.pending.events)) &&
      (eventId in old(data.pending.events) && Lookup(data.db.db, key).Err? ==>
        r == Err(NotFound) && data.pending.events == old(data.pending.events)) &&
      (eventId in old(data.pending.events) && Lookup(data.db.db, key).Ok? ==>
        r == Success &&
        data.pending.events == old(data.pending.events)[eventId := Record(old(data.pending.events)[eventId], ModifyChange(data.db.db[key]))])
    }

    twostate predicate CancelledEvent(eventId: RefID, new r: Status, new changedOrder: seq<RefID>, new depOrder: seq<RefID>)
      reads this, data.db, data.pending, data.undo, deps
    {
      (eventId !in old(data.pending.events) ==>
        r == Err(NotFound) && data.pending.events == old(data.pending.events) && data.db.db == old(data.db.db) && updates == old(updates)) &&
      (eventId in old(data.pending.events) ==>
        var e := old(data.pending.events)[eventId];
        var w := Walk(old(data.db.db), e.changes);
        data.pending.events == old(data.pending.events) - {eventId} &&
        (!w.ok ==> r == Err(NotFound) && data.db.db == w.db && updates == old(updates)) &&
        (w.ok ==>
          r == Success &&
          RefreshedAfter(w.db, refresh, ChangedSet(e.changes), deps.pubSubs, changedOrder, depOrder, old(updates), data.db.db, updates)))
    }

    twostate predicate UndidLatest(user: RefID, new r: Status, new changedOrder: seq<RefID>, new depOrder: seq<RefID>)
      reads this, data.db, data.pending, data.undo, deps
    {
      (LatestOf(old(data.undo.stack), user).None? ==>
        r == Err(NoUndoEvent) && data.undo.stack == old(data.undo.stack) && data.undo.redoStack == old(data.undo.redoStack) &&
        data.db.db == old(data.db.db) && updates == old(updates)) &&
      (LatestOf(old(data.undo.stack), user).Some? ==>
        var i := LatestOf(old(data.undo.stack), user).value;
        var e := old(data.undo.stack)[i];
        var w := Walk(old(data.db.db), e.changes);
        data.undo.stack == RemoveAt(old(data.undo.stack), i) &&
        (!w.ok ==> r == Err(NotFound) && data.undo.redoStack == old(data.undo.redoStack) && data.db.db == w.db && updates == old(updates)) &&
        (w.ok ==>
          r == Success && data.undo.redoStack == old(data.undo.redoStack) + [e.(changes := w.redo)] &&
          RefreshedAfter(w.db, refresh, ChangedSet(e.changes), deps.pubSubs, changedOrder, depOrder, old(updates), data.db.db, updates)))
    }

    twostate predicate RedidLatest(user: RefID, new r: Status, new changedOrder: seq<RefID>, new depOrder: seq<RefID>)
      reads this, data.db, data.pending, data.undo, deps
    {
      (LatestOf(old(data.undo.redoStack), user).None? ==>
        r == Err(NoUndoEvent) && data.undo.stack == old(data.undo.stack) && data.undo.redoStack == old(data.undo.redoStack) &&
        data.db.db == old(data.db.db) && updates == old(updates)) &&
      (LatestOf(old(data.undo.redoStack), user).Some? ==>
        var i := LatestOf(old(data.undo.redoStack), user).value;
        var e := old(data.undo.redoStack)[i];
        var w := Walk(old(data.db.db), e.changes);
        data.undo.redoStack == RemoveAt(old(data.undo.redoStack), i) &&
        (!w.ok ==> r == Err(NotFound) && data.undo.stack == old(data.undo.stack) && data.db.db == w.db && updates == old(updates)) &&
        (w.ok ==>
          r == Success && data.undo.stack == old(data.undo.stack) + [e.(changes := w.redo)] &&
          RefreshedAfter(w.db, refresh, ChangedSet(e.changes), deps.pubSubs, changedOrder, depOrder, old(updates), data.db.db, updates)))
    }

    twostate predicate AddedObject(eventId: RefID, obj: Obj, new r: Status)
      reads this, data.db, data.pending, data.undo, deps
    {
      (deps.pubSubs == RegisterAll(old(deps.pubSubs), Refs(obj), Id(obj))) &&
      (eventId !in old(data.pending.events) ==>
        r == Err(NoUndoEvent) && data.pending.events == old(data.pending.events) && data.db.db == old(data.db.db) && updates == old(updates)) &&
      (eventId in old(data.pending.events) ==>
        match Perform(old(data.db.db), AddOp(Update(obj).0))
        case None => r == Err(Overwrite) && data.pending.events == old(data.pending.events) && data.db.db == old(data.db.db) && updates == old(updates)
        case Some((db1, c)) =>
          r == Success && data.db.db == db1 && updates == SendAll(old(updates), [Update(obj).1]) &&
          data.pending.events == old(data.pending.events)[eventId := Record(old(data.pending.events)[eventId], c)])
    }

    twostate predicate DeletedObject(eventId: RefID, id: RefID, new r: Result<Obj>, new order: seq<RefID>)
      reads this, data.db, data.pending, data.undo, deps
    {
      (eventId !in old(data.pending.events) ==>
        r == Err(NoUndoEvent) && data.pending.events == old(data.pending.events) && data.db.db == old(data.db.db) &&
        updates == old(updates) && deps.pubSubs == old(deps.pubSubs)) &&
      (eventId in old(data.pending.events) ==>
        match Perform(old(data.db.db), DeleteOp(id))
        case None =>
          r == Err(NotFound) && data.pending.events == old(data.pending.events) && data.db.db == old(data.db.db) &&
          updates == old(updates) && deps.pubSubs == old(deps.pubSubs)
        case Some((db1, c)) =>
          r == Ok(old(data.db.db)[id]) &&
          data.pending.events == old(data.pending.events)[eventId := Record(old(data.pending.events)[eventId], c)] &&
          Enumerates(order, Subs(old(deps.pubSubs), id)) &&
          data.db.db == RefreshAll(db1, refresh, order).0 &&
          updates == SendAll(old(updates), [Delete(id)] + RefreshAll(db1, refresh, order).1) &&
          deps.pubSubs == Pruned(old(deps.pubSubs), id))
    }

    twostate predicate ModifiedObject(eventId: RefID, id: RefID, callback: Edit, new r: Status)
      reads this, data.db, data.pending, data.undo, deps
    {
      (eventId !in old(data.pending.events) ==>
        r == Err(NoUndoEvent) && data.pending.events == old(data.pending.events) && data.db.db == old(data.db.db) && updates == old(updates)) &&
      (eventId in old(data.pending.events) ==>
        match Perform(old(data.db.db), ModifyOp(id, callback))
        case None => r == Err(NotFound) && data.pending.events == old(data.pending.events) && data.db.db == old(data.db.db) && updates == old(updates)
        case Some((db1, c)) =>
          r == callback(old(data.db.db)[id]).1 &&
          data.pending.events == old(data.pending.events)[eventId := Record(old(data.pending.events)[eventId], c)] &&
          (r.Err? ==> data.db.db == db1 && updates == old(updates)) &&
          (r.Ok? ==> data.db.db == db1[id := Update(db1[id]).0] && updates == SendAll(old(updates), [Update(db1[id]).1])))
    }

    twostate predicate CopiedObject(eventId: RefID, id: RefID, copyId: RefID, new r: Result<RefID>)
      reads this, data.db, data.pending, data.undo, deps
    {
      (Lookup(old(data.db.db), id).Err? ==>
        r == Err(NotFound) && data.db.db == old(data.db.db) && data.pending.events == old(data.pending.events) &&
        updates == old(updates) && deps.pubSubs == old(deps.pubSubs)) &&
      (Lookup(old(data.db.db), id).Ok? ==>
        var copy := ClearRefs(SetId(old(data.db.db)[id], copyId));
        deps.pubSubs == RegisterAll(old(deps.pubSubs), Refs(copy), copyId) &&
        (eventId !in old(data.pending.events) ==> r == Err(NoUndoEvent) && data.db.db == old(data.db.db)) &&
        (eventId in old(data.pending.events) && copyId in old(data.db.db) ==> r == Err(Overwrite) && data.db.db == old(data.db.db)) &&
        (eventId in old(data.pending.events) && copyId !in old(data.db.db) ==>
          r == Ok(copyId) && data.db.db == old(data.db.db)[copyId := Update(copy).0] &&
          updates == SendAll(old(updates), [Update(copy).1])))
    }

    twostate predicate UpdatedDeps(id: RefID, new r: Status, new order: seq<RefID>)
      reads this, data.db, data.pending, data.undo, deps
    {
      (r == Success && Enumerates(order, Subs(deps.pubSubs, id))) &&
      (data.db.db == RefreshAll(old(data.db.db), refresh, order).0) &&
      (updates == SendAll(old(updates), RefreshAll(old(data.db.db), refresh, order).1))
    }

    twostate predicate UpdatedAllDeps(ids: seq<RefID>, new r: Status, new order: seq<RefID>)
      reads this, data.db, data.pending, data.undo, deps
    {
      (r == Success && Enumerates(order, AllSubs(deps.pubSubs, ids))) &&
      (data.db.db == RefreshAll(old(data.db.db), refresh, order).0) &&
      (updates == SendAll(old(updates), RefreshAll(old(data.db.db), refresh, order).1))
    }

    /** send: the same message to every channel. */
    method Send(msg: UpdateMsg)
      requires Valid()
      modifies this
      ensures Valid()
      ensures updates == SendAll(old(updates), [msg])
    {
      var sent: seq<seq<UpdateMsg>> := [];
      var i := 0;
      while i < |updates|
        invariant 0 <= i <= |updates|
        invariant sent == SendAll(updates[..i], [msg])
      {
        sent := sent + [updates[i] + [msg]];
        i := i + 1;
      }
      assert updates[..i] == updates;
      updates := sent;
    }

    method BeginUndoEvent(user: RefID, desc: string, freshId: RefID) returns (r: Result<RefID>)
      requires Valid()
      modifies data.pending
      ensures Valid()
      ensures BeganEvent(user, desc, freshId, r)
    {
      r := data.BeginUndoEvent(user, desc, freshId);
    }

    method EndUndoEvent(eventId: RefID) returns (r: Status)
      requires Valid()
      modifies data.pending, data.undo
      ensures Valid()
      ensures EndedEvent(eventId, r)
    {
      r := data.EndUndoEvent(eventId);
    }

    method SuspendEvent(eventId: RefID) returns (r: Status)
      requires Valid()
      modifies data.pending
      ensures Valid()
      ensures SuspendedEvent(eventId, r)
    {
      r := data.SuspendEvent(eventId);
    }

    method ResumeEvent(eventId: RefID) returns (r: Status)
      requires Valid()
      modifies data.pending
      ensures Valid()
      ensures ResumedEvent(eventId, r)
    {
      r := data.ResumeEvent(eventId);
    }

    method TakeUndoSnapshot(eventId: RefID, key: RefID) returns (r: Status)
      requires Valid()
      modifies data.pending
      ensures Valid()
      ensures TookSnapshot(eventId, key, r)
    {
      r := data.TakeUndoSnapshot(eventId, key);
    }

    /** One id of update_set: see UpdateStep. */
    method UpdateOne(id: RefID)
      requires Valid()
      modifies this, data.db
      ensures Valid()
      ensures data.db.db == UpdateStep(old(data.db.db), id).0
      ensures updates == SendAll(old(updates), [UpdateStep(old(data.db.db), id).1])
    {
      var before := data.GetObj(id);
      var st := data.GetMutObjNoUndo(id, UpdateInPlace());
      var msg: UpdateMsg;
      if st.Err? {
        if st.error == NotFound {
          msg := Delete(id);
        } else {
          assert false;
        }
      } else {
        msg := Update(before.value).1;
      }
      Send(msg);
    }

    /** update_set: see UpdateAll; the callback cannot fail, so the walk over the ids always completes. */
    method UpdateSet(ids: set<RefID>) returns (r: Status, ghost order: seq<RefID>)
      requires Valid()
      modifies this, data.db
      ensures Valid() && r == Success && Enumerates(order, ids)
      ensures data.db.db == UpdateAll(old(data.db.db), order).0
      ensures updates == SendAll(old(updates), UpdateAll(old(data.db.db), order).1)
    {
      ghost var db0 := data.db.db;
      ghost var out0 := updates;
      SendNothing(out0);
      order := [];
      var todo := ids;
      while todo != {}
        invariant Valid()
        invariant todo <= ids && Enumerates(order, ids - todo)
        invariant data.db.db == UpdateAll(db0, order).0
        invariant updates == SendAll(out0, UpdateAll(db0, order).1)
        decreases todo
      {
        var id :| id in todo;
        ghost var dbBefore := data.db.db;
        ghost var msg := UpdateStep(dbBefore, id).1;
        UpdateOne(id);
        SendAllConcat(out0, UpdateAll(db0, order).1, [msg]);
        assert (order + [id])[..|order|] == order;
        order := order + [id];
        todo := todo - {id};
      }
      r := Success;
    }

    /** get_ref_result: see RefResult. */
    function GetResolvedRef(refer: Option<GeomReference>): (r: Option<RefGeometry>)
      reads this, data, data.db
      ensures refer.None? ==> r.None?
      ensures r.Some? ==> Lookup(data.db.db, refer.value.other.obj).Ok?
      ensures r == ResolvedRef(data.db.db, refer)
    {
      match refer
      case None => None
      case Some(ref) =>
        match data.GetObj(ref.other.obj)
        case Err(_) => None
        case Ok(obj) => if HasReferTo(obj) then GetResult(obj, ref.other.index) else None
    }

    /** The loop of update_from_refs that resolves each reference in turn. */
    method ResolveRefs(refs: seq<Option<GeomReference>>) returns (results: seq<Option<RefGeometry>>)
      ensures results == RefResults(data.db.db, refs)
    {
      results := [];
      var i := 0;
      while i < |refs|
        invariant 0 <= i <= |refs|
        invariant results == RefResults(data.db.db, refs[..i])
      {
        results := results + [GetResolvedRef(refs[i])];
        i := i + 1;
      }
      assert refs[..i] == refs;
    }

    /** update_from_refs: resolves each reference, refreshes the object and answers its update; a missing object is NotFound. */
    method UpdateFromRefs(objId: RefID) returns (r: Result<UpdateMsg>)
      requires Valid()
      modifies data.db
      ensures Valid()
      ensures Refreshed(old(data.db.db), refresh, objId).None? ==> r == Err(NotFound) && data.db.db == old(data.db.db)
      ensures Refreshed(old(data.db.db), refresh, objId).Some? ==>
        var (o, m) := Refreshed(old(data.db.db), refresh, objId).value;
        r == Ok(m) && data.db.db == old(data.db.db)[objId := o]
    {
      var found := data.GetObj(objId);
      if found.Err? {
        r := Err(found.error);
        return;
      }
      var refs: seq<Option<GeomReference>> := [];
      if HasUpdateFromRefs(found.value) {
        refs := Refs(found.value);
      }
      var results := ResolveRefs(refs);
      RefreshedByEdit(data.db.db, refresh, objId, found.value);
      var st := data.GetMutObjNoUndo(objId, RefreshInPlace(refresh, results));
      r := Ok(Update(refresh(found.value, results)).1);
    }

    /** The body of update_set_from_refs' loop: one id refreshed and its message, or Delete for a missing id, sent. */
    method RefreshOne(id: RefID)
      requires Valid()
      modifies this, data.db
      ensures Valid()
      ensures data.db.db == RefreshStep(old(data.db.db), refresh, id).0
      ensures updates == SendAll(old(updates), [RefreshStep(old(data.db.db), refresh, id).1])
    {
      var res := UpdateFromRefs(id);
      var msg: UpdateMsg;
      if res.Ok? {
        msg := res.value;
      } else if res.error == NotFound {
        msg := Delete(id);
      } else {
        assert false;
      }
      Send(msg);
    }

    /**
     * update_set_from_refs: each id's refreshed update is sent, a missing id
     * is announced deleted; refreshing cannot fail otherwise, so the branches
     * that skip or abort on other errors are never taken.
     */
    method UpdateSetFromRefs(ids: set<RefID>) returns (r: Status, ghost order: seq<RefID>)
      requires Valid()
      modifies this, data.db
      ensures Valid() && r == Success && Enumerates(order, ids)
      ensures data.db.db == RefreshAll(old(data.db.db), refresh, order).0
      ensures updates == SendAll(old(updates), RefreshAll(old(data.db.db), refresh, order).1)
    {
      ghost var db0 := data.db.db;
      ghost var out0 := updates;
      SendNothing(out0);
      order := [];
      var todo := ids;
      while todo != {}
        invariant Valid()
        invariant todo <= ids && Enumerates(order, ids - todo)
        invariant data.db.db == RefreshAll(db0, refresh, order).0
        invariant updates == SendAll(out0, RefreshAll(db0, refresh, order).1)
        decreases todo
      {
        var id :| id in todo;
        ghost var msg := RefreshStep(data.db.db, refresh, id).1;
        RefreshOne(id);
        SendAllConcat(out0, RefreshAll(db0, refresh, order).1, [msg]);
        assert (order + [id])[..|order|] == order;
        order := order + [id];
        todo := todo - {id};
      }
      r := Success;
    }

    /** update_deps: refreshes the subscribers of one id. */
    method UpdateDeps(id: RefID) returns (r: Status, ghost order: seq<RefID>)
      requires Valid()
      modifies this, data.db
      ensures Valid()
      ensures UpdatedDeps(id, r, order)
    {
      var subs := deps.GetDeps(id);
      r, order := UpdateSetFromRefs(subs);
    }

    /** update_all_deps: refreshes the subscribers of every listed id. */
    method UpdateAllDeps(ids: seq<RefID>) returns (r: Status, ghost order: seq<RefID>)
      requires Valid()
      modifies this, data.db
      ensures Valid()
      ensures UpdatedAllDeps(ids, r, order)
    {
      var subs := deps.GetAllDeps(ids);
      assert subs == AllSubs(deps.pubSubs, ids);
      r, order := UpdateSetFromRefs(subs);
    }

    method AddDep(publisher: RefID, sub: RefID)
      modifies deps
      ensures deps.pubSubs == Registered(old(deps.pubSubs), publisher, sub)
    {
      deps.RegisterSub(publisher, sub);
    }

    method RemoveDep(publisher: RefID, sub: RefID)
      modifies deps
      ensures deps.pubSubs == Unsubscribed(old(deps.pubSubs), publisher, sub)
    {
      deps.DeleteSub(publisher, sub);
    }

    /**
     * The common tail of undo, redo and cancel: the changed ids are updated,
     * then the subscribers of those ids are refreshed.
     */
    method RefreshChanged(changed: set<RefID>) returns (r: Status, ghost changedOrder: seq<RefID>, ghost depOrder: seq<RefID>)
      requires Valid()
      modifies this, data.db
      ensures Valid() && r == Success
      ensures RefreshedAfter(old(data.db.db), refresh, changed, deps.pubSubs, changedOrder, depOrder, old(updates), data.db.db, updates)
    {
      ghost var out0 := updates;
      r, changedOrder := UpdateSet(changed);
      ghost var out1 := updates;
      var ids := Collect(changed);
      AllSubsOfListing(deps.pubSubs, ids, changed);
      r, depOrder := UpdateAllDeps(ids);
      SendAllConcat(out0, UpdateAll(old(data.db.db), changedOrder).1, RefreshAll(UpdateAll(old(data.db.db), changedOrder).0, refresh, depOrder).1);
    }

    /** cancel_event: the event's changes are reverted, then what they touched is refreshed. */
    method CancelEvent(eventId: RefID) returns (r: Status, ghost changedOrder: seq<RefID>, ghost depOrder: seq<RefID>)
      requires Valid()
      modifies this, data.pending, data.db
      ensures Valid()
      ensures CancelledEvent(eventId, r, changedOrder, depOrder)
    {
      changedOrder, depOrder := [], [];
      var set_ := data.CancelEvent(eventId);
      if set_.Err? {
        r := Err(set_.error);
        return;
      }
      r, changedOrder, depOrder := RefreshChanged(set_.value);
    }

    /** undo_latest: the user's latest event is undone, then what it touched is refreshed. */
    method UndoLatest(user: RefID) returns (r: Status, ghost changedOrder: seq<RefID>, ghost depOrder: seq<RefID>)
      requires Valid()
      modifies this, data.undo, data.db
      ensures Valid()
      ensures UndidLatest(user, r, changedOrder, depOrder)
    {
      changedOrder, depOrder := [], [];
      var set_ := data.UndoLatest(user);
      if set_.Err? {
        r := Err(set_.error);
        return;
      }
      r, changedOrder, depOrder := RefreshChanged(set_.value);
    }

    /** redo_latest: the same, from the redo stack. */
    method RedoLatest(user: RefID) returns (r: Status, ghost changedOrder: seq<RefID>, ghost depOrder: seq<RefID>)
      requires Valid()
      modifies this, data.undo, data.db
      ensures Valid()
      ensures RedidLatest(user, r, changedOrder, depOrder)
    {
      changedOrder, depOrder := [], [];
      var set_ := data.RedoLatest(user);
      if set_.Err? {
        r := Err(set_.error);
        return;
      }
      r, changedOrder, depOrder := RefreshChanged(set_.value);
    }

    /** update_all: updates every stored object (iterate_all collects the ids). */
    method UpdateEverything() returns (r: Status, ghost order: seq<RefID>)
      requires Valid()
      modifies this, data.db
      ensures Valid() && r == Success && Enumerates(order, old(data.db.db).Keys)
      ensures data.db.db == UpdateAll(old(data.db.db), order).0
      ensures updates == SendAll(old(updates), UpdateAll(old(data.db.db), order).1)
    {
      var all := data.db.db.Keys;
      r, order := UpdateSet(all);
    }

    /** The loop of add_object that subscribes the object to each object it references, in order. */
    method SubscribeAll(refs: seq<Option<GeomReference>>, sub: RefID)
      requires Valid()
      modifies deps
      ensures Valid()
      ensures deps.pubSubs == RegisterAll(old(deps.pubSubs), refs, sub)
    {
      var i := 0;
      while i < |refs|
        invariant 0 <= i <= |refs|
        invariant deps.pubSubs == RegisterAll(old(deps.pubSubs), refs[..i], sub)
      {
        assert refs[..i + 1][..i] == refs[..i];
        if refs[i].Some? {
          deps.RegisterSub(refs[i].value.other.obj, sub);
        }
        i := i + 1;
      }
      assert refs[..i] == refs;
    }

    /**
     * add_object: the object first subscribes to every object it references,
     * then is updated and stored under the event; its message is broadcast
     * only when the store took it.
     */
    method AddObject(eventId: RefID, obj: Obj) returns (r: Status)
      requires Valid()
      modifies this, deps, data.pending, data.db
      ensures Valid()
      ensures AddedObject(eventId, obj, r)
    {
      var refs: seq<Option<GeomReference>> := [];
      if HasUpdateFromRefs(obj) {
        refs := Refs(obj);
      }
      SubscribeAll(refs, Id(obj));
      var (stored, msg) := Update(obj);
      r := data.AddObj(eventId, stored);
      if r.Err? {
        return;
      }
      Send(msg);
    }

    /**
     * delete_obj: the object leaves the store under the event, Delete is
     * broadcast first, then its subscribers are refreshed, then it leaves the
     * dependency graph.
     */
    method DeleteObj(eventId: RefID, id: RefID) returns (r: Result<Obj>, ghost order: seq<RefID>)
      requires Valid()
      modifies this, deps, data.pending, data.db
      ensures Valid()
      ensures DeletedObject(eventId, id, r, order)
    {
      order := [];
      r := data.DeleteObj(eventId, id);
      if r.Err? {
        return;
      }
      ghost var out0 := updates;
      ghost var db1 := data.db.db;
      Send(Delete(id));
      var st;
      st, order := UpdateDeps(id);
      SendAllConcat(out0, [Delete(id)], RefreshAll(db1, refresh, order).1);
      deps.DeleteObj(id);
    }

    /**
     * modify_obj: the callback runs on the object through the event (which
     * snapshots it first); unless the callback fails, the object is updated
     * and its message broadcast. The source does both inside one closure;
     * here the update is a second edit on the store, with the same effect.
     */
    method ModifyObj(eventId: RefID, id: RefID, callback: Edit) returns (r: Status)
      requires Valid()
      modifies this, data.pending, data.db
      ensures Valid()
      ensures ModifiedObject(eventId, id, callback, r)
      ensures deps.pubSubs == old(deps.pubSubs)
    {
      ghost var db0, g0, up0 := data.db.db, deps.pubSubs, updates;
      r := data.GetMutObj(eventId, id, callback);
      assert deps.pubSubs == g0 && updates == up0;
      if r.Ok? {
        // the callback succeeded: the update runs on what it left, as the source's closure does
        assert id != NIL && id in db0;
        ghost var db1, ev1 := data.db.db, data.pending.events;
        assert db1 == db0[id := callback(db0[id]).0];
        assert UpdateStep(db1, id) == (db1[id := Update(db1[id]).0], Update(db1[id]).1);
        UpdateOne(id);
        assert deps.pubSubs == g0 && data.pending.events == ev1;
      }
    }

    /**
     * copy_obj: a duplicate under a new id (minted, here a parameter), with
     * its references cleared, added under the same event; the answer is the
     * new id.
     */
    method CopyObj(eventId: RefID, id: RefID, copyId: RefID) returns (r: Result<RefID>)
      requires Valid()
      modifies this, deps, data.pending, data.db
      ensures Valid()
      ensures CopiedObject(eventId, id, copyId, r)
    {
      var dup := data.DuplicateObj(id, copyId);
      if dup.Err? {
        r := Err(dup.error);
        return;
      }
      var copy := dup.value;
      if HasUpdateFromRefs(copy) {
        copy := ClearRefs(copy);
      }
      var added := AddObject(eventId, copy);
      if added.Err? {
        r := Err(added.error);
        return;
      }
      r := Ok(copyId);
    }

    function GetObj(id: RefID): (r: Result<Obj>)
      reads this, data, data.db
      ensures r.Ok? <==> id != NIL && id in data.db.db
      ensures r.Ok? ==> r.value == data.db.db[id]
      ensures r.Err? ==> r.error == NotFound
    {
      data.GetObj(id)
    }
  }

  /** The copy copy_obj adds has its own id and follows nothing outside itself. */
  lemma CopyIsDetached(o: Obj, copyId: RefID)
    ensures Id(ClearRefs(SetId(o, copyId))) == copyId
    ensures forall k :: 0 <= k < |Refs(ClearRefs(SetId(o, copyId)))| && Refs(ClearRefs(SetId(o, copyId)))[k].Some? ==>
      Refs(ClearRefs(SetId(o, copyId)))[k].value.other.obj == copyId
  {
  }
}
