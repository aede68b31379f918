/**
 * The undo bookkeeping of one file (operations/src/operation_manager/data_manager/undo.rs):
 * the pending events that are still being recorded, and the undo and redo
 * stacks of finished events, searched per user from the most recent.
 */
module Undo {
  import opened Base
  import opened DataModel
  import opened Objects
  import opened UndoEvents
  import opened Database

  // ---- What a pending event records ----

  /** The three edits a pending event records. */
  datatype Op =
    | AddOp(obj: Obj)
    | DeleteOp(key: RefID)
    | ModifyOp(key: RefID, f: Edit)

  /**
   * One edit as add_obj, delete_obj and get_mut_obj perform it: the store
   * afterwards and the change recorded, or None when the store refuses the
   * edit (an id already present, a missing key, or nil for a modification),
   * in which case nothing changes and nothing is recorded.
   */
  function Perform(db: map<RefID, Obj>, op: Op): Option<(map<RefID, Obj>, Change)> {
    match op
    case AddOp(o) => if Id(o) in db then None else Some((db[Id(o) := o], AddChange(Id(o))))
    case DeleteOp(k) => if k in db then Some((db - {k}, DeleteChange(db[k]))) else None
    case ModifyOp(k, f) => if k != NIL && k in db then Some((db[k := f(db[k]).0], ModifyChange(db[k]))) else None
  }

  /** A change is appended to an event only while the event is not suspended. */
  function Record(e: UndoEvent, c: Change): (r: UndoEvent)
    ensures r.eventId == e.eventId && r.userId == e.userId && r.desc == e.desc
    ensures r.nested == e.nested && r.suspended == e.suspended
    ensures r.changes == if e.suspended == 0 then e.changes + [c] else e.changes
  {
    if e.suspended == 0 then e.(changes := e.changes + [c]) else e
  }

  /** A sequence of edits under one unsuspended event: the final store and the changes recorded. */
  function Session(db: map<RefID, Obj>, ops: seq<Op>): (map<RefID, Obj>, seq<Change>)
    decreases |ops|
  {
    if ops == [] then (db, [])
    else
      var (db1, cs) := Session(db, ops[..|ops| - 1]);
      match Perform(db1, ops[|ops| - 1])
      case None => (db1, cs)
      case Some((db2, c)) => (db2, cs + [c])
  }

  lemma PerformKeyed(db: map<RefID, Obj>, op: Op)
    requires Keyed(db)
    ensures Perform(db, op).Some? ==> Keyed(Perform(db, op).value.0)
  {
  }

  /** Undoing the change an edit recorded takes the store back to before the edit. */
  lemma PerformUndone(db: map<RefID, Obj>, op: Op)
    requires Keyed(db) && Perform(db, op).Some?
    ensures var (db1, c) := Perform(db, op).value;
      UndoChange(db1, c).Some? && UndoChange(db1, c).value.0 == db &&
      (c.DeleteChange? ==> Id(c.obj) !in db1)
  {
    match op
    case AddOp(o) =>
      assert db[Id(o) := o] - {Id(o)} == db;
    case DeleteOp(k) =>
      assert (db - {k})[Id(db[k]) := db[k]] == db;
    case ModifyOp(k, f) =>
      assert db[k := f(db[k]).0][k := db[k]] == db;
  }

  /**
   * Undoing the event a session recorded restores the store as it was when
   * the session began, and that undo can itself be undone (the add, delete,
   * modify and redo scenarios of data_manager/tests.rs:56-130).
   */
  lemma {:induction false} SessionUndone(db: map<RefID, Obj>, ops: seq<Op>)
    requires Keyed(db)
    ensures Keyed(Session(db, ops).0)
    ensures Reversible(Session(db, ops).0, Session(db, ops).1)
    ensures Walk(Session(db, ops).0, Session(db, ops).1).ok
    ensures Walk(Session(db, ops).0, Session(db, ops).1).db == db
    decreases |ops|
  {
    if ops != [] {
      SessionUndone(db, ops[..|ops| - 1]);
      var (db1, cs) := Session(db, ops[..|ops| - 1]);
      var op := ops[|ops| - 1];
      PerformKeyed(db1, op);
      match Perform(db1, op)
      case None =>
      case Some((db2, c)) =>
        PerformUndone(db1, op);
        assert (cs + [c])[..|cs|] == cs;
        assert (cs + [c])[|cs|] == c;
        ReversibleCompletes(db2, cs + [c]);
    }
  }

  // ---- Finished events ----

  /** The index of the user's most recent event in a stack, searching from the back. */
  function LatestOf(s: seq<UndoEvent>, user: RefID): (r: Option<nat>)
    ensures r.Some? ==> r.value < |s| && s[r.value].userId == user
    ensures r.Some? ==> forall j :: r.value < j < |s| ==> s[j].userId != user
    ensures r.None? <==> forall j :: 0 <= j < |s| ==> s[j].userId != user
    decreases |s|
  {
    if s == [] then None
    else if s[|s| - 1].userId == user then Some(|s| - 1)
    else LatestOf(s[..|s| - 1], user)
  }

  /** The stack without its i-th event; the others keep their order. */
  function RemoveAt(s: seq<UndoEvent>, i: nat): (r: seq<UndoEvent>)
    requires i < |s|
    ensures |r| == |s| - 1
    ensures forall j :: 0 <= j < i ==> r[j] == s[j]
    ensures forall j :: i <= j < |r| ==> r[j] == s[j + 1]
  {
    s[..i] + s[i + 1..]
  }

  /** Removing the user's latest event leaves every other user's events in order. */
  lemma RemoveLatestKeepsOthers(s: seq<UndoEvent>, user: RefID, other: RefID)
    requires LatestOf(s, user).Some? && other != user
    ensures var r := RemoveAt(s, LatestOf(s, user).value);
      Filter(r, other) == Filter(s, other)
  {
    var i := LatestOf(s, user).value;
    assert s == s[..i] + [s[i]] + s[i + 1..];
    FilterSkip(s[..i], s[i], s[i + 1..], other);
  }

  /** An event of another user drops out of a user's filter. */
  lemma FilterSkip(front: seq<UndoEvent>, e: UndoEvent, rear: seq<UndoEvent>, user: RefID)
    requires e.userId != user
    ensures Filter(front + [e] + rear, user) == Filter(front + rear, user)
  {
    FilterConcat(front + [e], rear, user);
    FilterConcat(front, rear, user);
    assert (front + [e])[..|front|] == front;
  }

  /** The events of one user, in stack order. */
  function Filter(s: seq<UndoEvent>, user: RefID): seq<UndoEvent>
    decreases |s|
  {
    if s == [] then []
    else Filter(s[..|s| - 1], user) + (if s[|s| - 1].userId == user then [s[|s| - 1]] else [])
  }

  lemma {:induction false} FilterConcat(a: seq<UndoEvent>, b: seq<UndoEvent>, user: RefID)
    ensures Filter(a + b, user) == Filter(a, user) + Filter(b, user)
    decreases |b|
  {
    if b == [] {
      assert a + b == a;
    } else {
      assert (a + b)[..|a + b| - 1] == a + b[..|b| - 1];
      FilterConcat(a, b[..|b| - 1], user);
    }
  }

  class UndoStack {
    var stack: seq<UndoEvent>
    var redoStack: seq<UndoEvent>

    constructor ()
      ensures stack == [] && redoStack == []
    {
      stack := [];
      redoStack := [];
    }

    /**
     * undo_latest: takes the user's most recent event off the undo stack,
     * undoes it, pushes the inverse onto the redo stack and answers the ids
     * it touched. With no event of that user it is NoUndoEvent and nothing
     * changes. A walk that fails has still taken the event off the stack.
     */
    method UndoLatest(user: RefID, db: FileDatabase) returns (r: Result<set<RefID>>)
      requires db.Valid()
      modifies this, db
      ensures db.Valid()
      ensures LatestOf(old(stack), user).None? ==>
        r == Err(NoUndoEvent) && stack == old(stack) && redoStack == old(redoStack) && db.db == old(db.db)
      ensures LatestOf(old(stack), user).Some? ==>
        var i := LatestOf(old(stack), user).value;
        var e := old(stack)[i];
        var w := Walk(old(db.db), e.changes);
        stack == RemoveAt(old(stack), i) && db.db == w.db &&
        (w.ok ==> redoStack == old(redoStack) + [e.(changes := w.redo)] && r == Ok(ChangedSet(e.changes))) &&
        (!w.ok ==> redoStack == old(redoStack) && r == Err(NotFound))
    {
      var i := |stack|;
      while i > 0
        invariant 0 <= i <= |stack|
        invariant forall j :: i <= j < |stack| ==> stack[j].userId != user
        decreases i
      {
        i := i - 1;
        if stack[i].userId == user {
          var event := stack[i];
          ghost var db0 := db.db;
          assert LatestOf(stack, user) == Some(i);
          stack := stack[..i] + stack[i + 1..];
          var redo := db.Undo(event);
          if redo.Err? {
            r := Err(redo.error);
            return;
          }
          WalkChangedSet(db0, event.changes);
          var objs := GetChangedObjects(redo.value);
          ChangedSetMembers(redo.value.changes);
          assert objs == ChangedSet(redo.value.changes);
          redoStack := redoStack + [redo.value];
          r := Ok(objs);
          return;
        }
      }
      r := Err(NoUndoEvent);
    }

    /** redo_latest: the same, from the redo stack back onto the undo stack. */
    method RedoLatest(user: RefID, db: FileDatabase) returns (r: Result<set<RefID>>)
      requires db.Valid()
      modifies this, db
      ensures db.Valid()
      ensures LatestOf(old(redoStack), user).None? ==>
        r == Err(NoUndoEvent) && stack == old(stack) && redoStack == old(redoStack) && db.db == old(db.db)
      ensures LatestOf(old(redoStack), user).Some? ==>
        var i := LatestOf(old(redoStack), user).value;
        var e := old(redoStack)[i];
        var w := Walk(old(db.db), e.changes);
        redoStack == RemoveAt(old(redoStack), i) && db.db == w.db &&
        (w.ok ==> stack == old(stack) + [e.(changes := w.redo)] && r == Ok(ChangedSet(e.changes))) &&
        (!w.ok ==> stack == old(stack) && r == Err(NotFound))
    {
      var i := |redoStack|;
      while i > 0
        invariant 0 <= i <= |redoStack|
        invariant forall j :: i <= j < |redoStack| ==> redoStack[j].userId != user
        decreases i
      {
        i := i - 1;
        if redoStack[i].userId == user {
          var event := redoStack[i];
          ghost var db0 := db.db;
          assert LatestOf(redoStack, user) == Some(i);
          redoStack := redoStack[..i] + redoStack[i + 1..];
          var undo := db.Undo(event);
          if undo.Err? {
            r := Err(undo.error);
            return;
          }
          WalkChangedSet(db0, event.changes);
          var objs := GetChangedObjects(undo.value);
          ChangedSetMembers(undo.value.changes);
          assert objs == ChangedSet(undo.value.changes);
          stack := stack + [undo.value];
          r := Ok(objs);
          return;
        }
      }
      r := Err(NoUndoEvent);
    }
  }

  // ---- Pending events ----

  class PendingEvents {
    var events: map<RefID, UndoEvent>

    /** Every pending event is stored under its own event id. */
    ghost predicate Valid()
      reads this
    {
      forall k :: k in events ==> events[k].eventId == k
    }

    constructor ()
      ensures events == map[] && Valid()
    {
      events := map[];
    }

    /**
     * begin_event: the lookup is made with the user id in the map keyed by
     * event id. When it finds an event, that event is nested one level deeper
     * and its id answered; otherwise a new event under the freshly minted id
     * (a parameter here) is started.
     */
    method BeginEvent(user: RefID, desc: string, freshId: RefID) returns (r: Result<RefID>)
      requires Valid()
      modifies this
      ensures Valid()
      ensures user in old(events) ==>
        events == old(events)[user := old(events)[user].(nested := old(events)[user].nested + 1)] &&
        r == Ok(old(events)[user].eventId) && r == Ok(user)
      ensures user !in old(events) ==>
        events == old(events)[freshId := NewEvent(user, desc, freshId)] && r == Ok(freshId)
    {
      if user in events {
        var event := events[user];
        events := events[user := event.(nested := event.nested + 1)];
        r := Ok(event.eventId);
      } else {
        var event := NewEvent(user, desc, freshId);
        events := events[event.eventId := event];
        r := Ok(freshId);
      }
    }

    /**
     * end_event: a nested event only loses one level; an outermost one leaves
     * the pending map and goes on the back of the undo stack.
     */
    method EndEvent(undo: UndoStack, eventId: RefID) returns (r: Status)
      requires Valid()
      modifies this, undo
      ensures Valid()
      ensures undo.redoStack == old(undo.redoStack)
      ensures eventId !in old(events) ==>
        r == Err(NoUndoEvent) && events == old(events) && undo.stack == old(undo.stack)
      ensures eventId in old(events) && old(events)[eventId].nested > 0 ==>
        r == Success && undo.stack == old(undo.stack) &&
        events == old(events)[eventId := old(events)[eventId].(nested := old(events)[eventId].nested - 1)]
      ensures eventId in old(events) && old(events)[eventId].nested == 0 ==>
        r == Success && events == old(events) - {eventId} && undo.stack == old(undo.stack) + [old(events)[eventId]]
    {
      if eventId !in events {
        r := Err(NoUndoEvent);
        return;
      }
      var event := events[eventId];
      if event.nested > 0 {
        events := events[eventId := event.(nested := event.nested - 1)];
        r := Success;
        return;
      }
      events := events - {eventId};
      undo.stack := undo.stack + [event];
      r := Success;
    }

    /** take_snapshot: records the object as it is now; an unknown event or object is NotFound. */
    method TakeSnapshot(db: FileDatabase, eventId: RefID, objId: RefID) returns (r: Status)
      requires Valid()
      modifies this
      ensures Valid()
      ensures eventId !in old(events) ==> r == Err(NotFound) && events == old(events)
      ensures eventId in old(events) && db.Get(objId).Err? ==> r == Err(NotFound) && events == old(events)
      ensures eventId in old(events) && db.Get(objId).Ok? ==>
        r == Success && events == old(events)[eventId := Record(old(events)[eventId], ModifyChange(db.Get(objId).value))]
    {
      if eventId !in events {
        r := Err(NotFound);
        return;
      }
      var found := db.Get(objId);
      if found.Err? {
        r := Err(found.error);
        return;
      }
      var event := events[eventId];
      if event.suspended == 0 {
        events := events[eventId := event.(changes := event.changes + [ModifyChange(found.value)])];
      }
      r := Success;
    }

    method SuspendEvent(eventId: RefID) returns (r: Status)
      requires Valid()
      modifies this
      ensures Valid()
      ensures eventId !in old(events) ==> r == Err(NotFound) && events == old(events)
      ensures eventId in old(events) ==>
        r == Success && events == old(events)[eventId := old(events)[eventId].(suspended := old(events)[eventId].suspended + 1)]
    {
      if eventId !in events {
        r := Err(NotFound);
        return;
      }
      var event := events[eventId];
      events := events[eventId := event.(suspended := event.suspended + 1)];
      r := Success;
    }

    /** resume_event: one level less suspended, never below zero. */
    method ResumeEvent(eventId: RefID) returns (r: Status)
      requires Valid()
      modifies this
      ensures Valid()
      ensures eventId !in old(events) ==> r == Err(NotFound) && events == old(events)
      ensures eventId in old(events) ==>
        r == Success &&
        events == old(events)[eventId := old(events)[eventId].(suspended := if old(events)[eventId].suspended > 0 then old(events)[eventId].suspended - 1 else 0)]
    {
      if eventId !in events {
        r := Err(NotFound);
        return;
      }
      var event := events[eventId];
      if event.suspended > 0 {
        events := events[eventId := event.(suspended := event.suspended - 1)];
      }
      r := Success;
    }

    /**
     * cancel_event: the pending event is dropped and its changes undone; the
     * ids it touched are answered and neither stack is involved.
     */
    method CancelEvent(db: FileDatabase, eventId: RefID) returns (r: Result<set<RefID>>)
      requires Valid() && db.Valid()
      modifies this, db
      ensures Valid() && db.Valid()
      ensures eventId !in old(events) ==> r == Err(NotFound) && events == old(events) && db.db == old(db.db)
      ensures eventId in old(events) ==>
        var w := Walk(old(db.db), old(events)[eventId].changes);
        events == old(events) - {eventId} && db.db == w.db &&
        (w.ok ==> r == Ok(ChangedSet(old(events)[eventId].changes))) &&
        (!w.ok ==> r == Err(NotFound))
    {
      if eventId !in events {
        r := Err(NotFound);
        return;
      }
      var event := events[eventId];
      events := events - {eventId};
      ghost var db0 := db.db;
      var redo := db.Undo(event);
      if redo.Err? {
        r := Err(redo.error);
        return;
      }
      WalkChangedSet(db0, event.changes);
      var objs := GetChangedObjects(redo.value);
      ChangedSetMembers(redo.value.changes);
      assert objs == ChangedSet(redo.value.changes);
      r := Ok(objs);
    }

    /** add_obj: an unknown event is NoUndoEvent and the store is not touched; a refused add records nothing. */
    method AddObj(db: FileDatabase, eventId: RefID, obj: Obj) returns (r: Status)
      requires Valid() && db.Valid()
      modifies this, db
      ensures Valid() && db.Valid()
      ensures eventId !in old(events) ==> r == Err(NoUndoEvent) && events == old(events) && db.db == old(db.db)
      ensures eventId in old(events) ==>
        match Perform(old(db.db), AddOp(obj))
        case None => r == Err(Overwrite) && events == old(events) && db.db == old(db.db)
        case Some((db1, c)) => r == Success && db.db == db1 && events == old(events)[eventId := Record(old(events)[eventId], c)]
    {
      if eventId !in events {
        r := Err(NoUndoEvent);
        return;
      }
      var key := Id(obj);
      r := db.Add(obj);
      if r.Ok? {
        var event := events[eventId];
        if event.suspended == 0 {
          events := events[eventId := event.(changes := event.changes + [AddChange(key)])];
        }
      }
    }

    /** delete_obj: the removed object, recorded as deleted; an unknown event is checked first. */
    method DeleteObj(db: FileDatabase, eventId: RefID, key: RefID) returns (r: Result<Obj>)
      requires Valid() && db.Valid()
      modifies this, db
      ensures Valid() && db.Valid()
      ensures eventId !in old(events) ==> r == Err(NoUndoEvent) && events == old(events) && db.db == old(db.db)
      ensures eventId in old(events) ==>
        match Perform(old(db.db), DeleteOp(key))
        case None => r == Err(NotFound) && events == old(events) && db.db == old(db.db)
        case Some((db1, c)) => r == Ok(old(db.db)[key]) && db.db == db1 && events == old(events)[eventId := Record(old(events)[eventId], c)]
    {
      if eventId !in events {
        r := Err(NoUndoEvent);
        return;
      }
      r := db.Remove(key);
      if r.Err? {
        return;
      }
      var event := events[eventId];
      if event.suspended == 0 {
        events := events[eventId := event.(changes := event.changes + [DeleteChange(r.value)])];
      }
    }

    /**
     * get_mut_obj: the object is snapshotted as a Modify before the callback
     * runs; the callback's status is the answer.
     */
    method GetMutObj(db: FileDatabase, eventId: RefID, key: RefID, f: Edit) returns (r: Status)
      requires Valid() && db.Valid()
      modifies this, db
      ensures Valid() && db.Valid()
      ensures eventId !in old(events) ==> r == Err(NoUndoEvent) && events == old(events) && db.db == old(db.db)
      ensures eventId in old(events) ==>
        match Perform(old(db.db), ModifyOp(key, f))
        case None => r == Err(NotFound) && events == old(events) && db.db == old(db.db)
        case Some((db1, c)) => r == f(old(db.db)[key]).1 && db.db == db1 && events == old(events)[eventId := Record(old(events)[eventId], c)]
    {
      if eventId !in events {
        r := Err(NoUndoEvent);
        return;
      }
      var found := db.Get(key);
      if found.Err? {
        r := Err(found.error);
        return;
      }
      var event := events[eventId];
      if event.suspended == 0 {
        events := events[eventId := event.(changes := event.changes + [ModifyChange(found.value)])];
      }
      r := db.GetMut(key, f);
    }
  }
}
