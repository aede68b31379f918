/**
 * The data manager of one file (operations/src/operation_manager/data_manager/mod.rs):
 * the object store, the pending events and the one undo stack shared by
 * every user, composed so that edits either go through a pending event (and
 * can be undone) or straight to the store.
 *
 * begin_undo_event is modelled as undo.rs writes it: the event id is minted
 * by the pending events (a fresh id passed in), not chosen by the caller.
 */
module DataManagement {
  import opened Base
  import opened DataModel
  import opened Objects
  import opened UndoEvents
  import opened Database
  import opened Undo

  class DataManager {
    const db: FileDatabase
    const pending: PendingEvents
    const undo: UndoStack

    ghost predicate Valid()
      reads this, db, pending
    {
      db.Valid() && pending.Valid()
    }

    constructor ()
      ensures Valid() && fresh(db) && fresh(pending) && fresh(undo)
      ensures db.db == map[] && pending.events == map[] && undo.stack == [] && undo.redoStack == []
    {
      db := new FileDatabase();
      pending := new PendingEvents();
      undo := new UndoStack();
    }

    method BeginUndoEvent(user: RefID, desc: string, freshId: RefID) returns (r: Result<RefID>)
      requires Valid()
      modifies pending
      ensures Valid()
      ensures user in old(pending.events) ==>
        pending.events == old(pending.events)[user := old(pending.events)[user].(nested := old(pending.events)[user].nested + 1)] &&
        r == Ok(user)
      ensures user !in old(pending.events) ==>
        pending.events == old(pending.events)[freshId := NewEvent(user, desc, freshId)] && r == Ok(freshId)
    {
      r := pending.BeginEvent(user, desc, freshId);
    }

    /** end_undo_event: the finished event goes onto the one shared undo stack. */
    method EndUndoEvent(eventId: RefID) returns (r: Status)
      requires Valid()
      modifies pending, undo
      ensures Valid()
      ensures undo.redoStack == old(undo.redoStack)
      ensures eventId !in old(pending.events) ==>
        r == Err(NoUndoEvent) && pending.events == old(pending.events) && undo.stack == old(undo.stack)
      ensures eventId in old(pending.events) && old(pending.events)[eventId].nested > 0 ==>
        r == Success && undo.stack == old(undo.stack) &&
        pending.events == old(pending.events)[eventId := old(pending.events)[eventId].(nested := old(pending.events)[eventId].nested - 1)]
      ensures eventId in old(pending.events) && old(pending.events)[eventId].nested == 0 ==>
        r == Success && pending.events == old(pending.events) - {eventId} &&
        undo.stack == old(undo.stack) + [old(pending.events)[eventId]]
    {
      r := pending.EndEvent(undo, eventId);
    }

    method SuspendEvent(eventId: RefID) returns (r: Status)
      requires Valid()
      modifies pending
      ensures Valid()
      ensures eventId !in old(pending.events) ==> r == Err(NotFound) && pending.events == old(pending.events)
      ensures eventId in old(pending.events) ==>
        r == Success && pending.events == old(pending.events)[eventId := old(pending.events)[eventId].(suspended := old(pending.events)[eventId].suspended + 1)]
    {
      r := pending.SuspendEvent(eventId);
    }

    method ResumeEvent(eventId: RefID) returns (r: Status)
      requires Valid()
      modifies pending
      ensures Valid()
      ensures eventId !in old(pending.events) ==> r == Err(NotFound) && pending.events == old(pending.events)
      ensures eventId in old(pending.events) ==>
        var n := old(pending.events)[eventId].suspended;
        r == Success && pending.events == old(pending.events)[eventId := old(pending.events)[eventId].(suspended := if n > 0 then n - 1 else 0)]
    {
      r := pending.ResumeEvent(eventId);
    }

    method CancelEvent(eventId: RefID) returns (r: Result<set<RefID>>)
      requires Valid()
      modifies pending, db
      ensures Valid()
      ensures eventId !in old(pending.events) ==>
        r == Err(NotFound) && pending.events == old(pending.events) && db.db == old(db.db)
      ensures eventId in old(pending.events) ==>
        var w := Walk(old(db.db), old(pending.events)[eventId].changes);
        pending.events == old(pending.events) - {eventId} && db.db == w.db &&
        (w.ok ==> r == Ok(ChangedSet(old(pending.events)[eventId].changes))) &&
        (!w.ok ==> r == Err(NotFound))
    {
      r := pending.CancelEvent(db, eventId);
    }

    method AddObj(eventId: RefID, obj: Obj) returns (r: Status)
      requires Valid()
      modifies pending, db
      ensures Valid()
      ensures eventId !in old(pending.events) ==>
        r == Err(NoUndoEvent) && pending.events == old(pending.events) && db.db == old(db.db)
      ensures eventId in old(pending.events) ==>
        match Perform(old(db.db), AddOp(obj))
        case None => r == Err(Overwrite) && pending.events == old(pending.events) && db.db == old(db.db)
        case Some((db1, c)) =>
          r == Success && db.db == db1 &&
          pending.events == old(pending.events)[eventId := Record(old(pending.events)[eventId], c)]
    {
      r := pending.AddObj(db, eventId, obj);
    }

    method DeleteObj(eventId: RefID, key: RefID) returns (r: Result<Obj>)
      requires Valid()
      modifies pending, db
      ensures Valid()
      ensures eventId !in old(pending.events) ==>
        r == Err(NoUndoEvent) && pending.events == old(pending.events) && db.db == old(db.db)
      ensures eventId in old(pending.events) ==>
        match Perform(old(db.db), DeleteOp(key))
        case None => r == Err(NotFound) && pending.events == old(pending.events) && db.db == old(db.db)
        case Some((db1, c)) =>
          r == Ok(old(db.db)[key]) && db.db == db1 &&
          pending.events == old(pending.events)[eventId := Record(old(pending.events)[eventId], c)]
    {
      r := pending.DeleteObj(db, eventId, key);
    }

    function GetObj(key: RefID): (r: Result<Obj>)
      reads this, db
      ensures r.Ok? <==> key != NIL && key in db.db
      ensures r.Ok? ==> r.value == db.db[key]
      ensures r.Err? ==> r.error == NotFound
    {
      db.Get(key)
    }

    /** get_mut_obj: through the pending event, which snapshots the object before the callback runs. */
    method GetMutObj(eventId: RefID, key: RefID, f: Edit) returns (r: Status)
      requires Valid()
      modifies pending, db
      ensures Valid()
      ensures eventId !in old(pending.events) ==>
        r == Err(NoUndoEvent) && pending.events == old(pending.events) && db.db == old(db.db)
      ensures eventId in old(pending.events) ==>
        match Perform(old(db.db), ModifyOp(key, f))
        case None => r == Err(NotFound) && pending.events == old(pending.events) && db.db == old(db.db)
        case Some((db1, c)) =>
          r == f(old(db.db)[key]).1 && db.db == db1 &&
          pending.events == old(pending.events)[eventId := Record(old(pending.events)[eventId], c)]
    {
      r := pending.GetMutObj(db, eventId, key, f);
    }

    /** get_mut_obj_no_undo: straight to the store; no pending event records anything. */
    method GetMutObjNoUndo(key: RefID, f: Edit) returns (r: Status)
      requires Valid()
      modifies db
      ensures Valid()
      ensures Lookup(old(db.db), key).Err? ==> r == Err(NotFound) && db.db == old(db.db)
      ensures Lookup(old(db.db), key).Ok? ==>
        db.db == old(db.db)[key := f(old(db.db)[key]).0] && r == f(old(db.db)[key]).1
    {
      r := db.GetMut(key, f);
    }

    function DuplicateObj(key: RefID, copyId: RefID): (r: Result<Obj>)
      requires Valid()
      reads this, db, pending
      ensures r.Ok? <==> Lookup(db.db, key).Ok?
      ensures r.Err? ==> r.error == NotFound
      ensures r.Ok? ==> Id(r.value) == copyId && SetId(r.value, key) == db.db[key]
    {
      db.Duplicate(key, copyId)
    }

    method UndoLatest(user: RefID) returns (r: Result<set<RefID>>)
      requires Valid()
      modifies undo, db
      ensures Valid()
      ensures LatestOf(old(undo.stack), user).None? ==>
        r == Err(NoUndoEvent) && undo.stack == old(undo.stack) && undo.redoStack == old(undo.redoStack) && db.db == old(db.db)
      ensures LatestOf(old(undo.stack), user).Some? ==>
        var i := LatestOf(old(undo.stack), user).value;
        var e := old(undo.stack)[i];
        var w := Walk(old(db.db), e.changes);
        undo.stack == RemoveAt(old(undo.stack), i) && db.db == w.db &&
        (w.ok ==> undo.redoStack == old(undo.redoStack) + [e.(changes := w.redo)] && r == Ok(ChangedSet(e.changes))) &&
        (!w.ok ==> undo.redoStack == old(undo.redoStack) && r == Err(NotFound))
    {
      r := undo.UndoLatest(user, db);
    }

    method TakeUndoSnapshot(eventId: RefID, key: RefID) returns (r: Status)
      requires Valid()
      modifies pending
      ensures Valid()
      ensures eventId !in old(pending.events) ==> r == Err(NotFound) && pending.events == old(pending.events)
      ensures eventId in old(pending.events) && Lookup(db.db, key).Err? ==> r == Err(NotFound) && pending.events == old(pending.events)
      ensures eventId in old(pending.events) && Lookup(db.db, key).Ok? ==>
        r == Success && pending.events == old(pending.events)[eventId := Record(old(pending.events)[eventId], ModifyChange(db.db[key]))]
    {
      r := pending.TakeSnapshot(db, eventId, key);
    }

    method RedoLatest(user: RefID) returns (r: Result<set<RefID>>)
      requires Valid()
      modifies undo, db
      ensures Valid()
      ensures LatestOf(old(undo.redoStack), user).None? ==>
        r == Err(NoUndoEvent) && undo.stack == old(undo.stack) && undo.redoStack == old(undo.redoStack) && db.db == old(db.db)
      ensures LatestOf(old(undo.redoStack), user).Some? ==>
        var i := LatestOf(old(undo.redoStack), user).value;
        var e := old(undo.redoStack)[i];
        var w := Walk(old(db.db), e.changes);
        undo.redoStack == RemoveAt(old(undo.redoStack), i) && db.db == w.db &&
        (w.ok ==> undo.stack == old(undo.stack) + [e.(changes := w.redo)] && r == Ok(ChangedSet(e.changes))) &&
        (!w.ok ==> undo.stack == old(undo.stack) && r == Err(NotFound))
    {
      r := undo.RedoLatest(user, db);
    }
  }
}
