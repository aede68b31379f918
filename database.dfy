/**
 * The object store of one file (operations/src/operation_manager/data_manager/database.rs):
 * a map from id to object, with the rules for the nil id, overwriting and
 * missing keys, and the walk that undoes an undo event and records its inverse.
 */
module Database {
  import opened Base
  import opened DataModel
  import opened Objects
  import opened UndoEvents

  /** Every object is stored under its own id. */
  ghost predicate Keyed(db: map<RefID, Obj>) {
    forall k :: k in db ==> Id(db[k]) == k
  }

  /** A callback handed a stored object to change; it may not change the object's id. */
  type Edit = f: Obj -> (Obj, Status) | forall o :: Id(f(o).0) == Id(o)
    witness (o: Obj) => (o, Success)

  // ---- The undo walk, on values ----

  /**
   * Undoing one change, as database.rs:59-79 does it: the store afterwards and
   * the change that would undo the undo, or None (NotFound) when the key an
   * Add or a Modify is about is absent, in which case nothing has changed.
   */
  function UndoChange(db: map<RefID, Obj>, c: Change): Option<(map<RefID, Obj>, Change)> {
    match c
    case AddChange(k) => if k in db then Some((db - {k}, DeleteChange(db[k]))) else None
    case ModifyChange(o) => if Id(o) in db then Some((db[Id(o) := o], ModifyChange(db[Id(o)]))) else None
    case DeleteChange(o) => Some((db[Id(o) := o], AddChange(Id(o))))
  }

  /** Where a walk over a list of changes ends: the store, the inverse changes recorded, and whether it completed. */
  datatype Outcome = Outcome(db: map<RefID, Obj>, redo: seq<Change>, ok: bool)

  /**
   * The walk of FileDatabase::undo: the changes are undone from the last to the
   * first; each inverse is recorded in that order, so redo[0] inverts the last
   * change. A failed step stops the walk and keeps what was already undone.
   */
  function Walk(db: map<RefID, Obj>, cs: seq<Change>): Outcome
    decreases |cs|
  {
    if cs == [] then Outcome(db, [], true)
    else
      match UndoChange(db, cs[|cs| - 1])
      case None => Outcome(db, [], false)
      case Some((db1, inv)) =>
        var rest := Walk(db1, cs[..|cs| - 1]);
        Outcome(rest.db, [inv] + rest.redo, rest.ok)
  }

  /** The walk's outcome with some inverse changes already recorded in front. */
  function Prepend(redo: seq<Change>, o: Outcome): Outcome {
    Outcome(o.db, redo + o.redo, o.ok)
  }

  /** A walk over a + b walks b, then a from where b left the store. */
  lemma {:induction false} WalkConcat(db: map<RefID, Obj>, a: seq<Change>, b: seq<Change>)
    ensures Walk(db, a + b) ==
      (var wb := Walk(db, b); if wb.ok then Prepend(wb.redo, Walk(wb.db, a)) else wb)
    decreases |b|
  {
    if b == [] {
      assert a + b == a;
    } else {
      var last := b[|b| - 1];
      assert (a + b)[|a + b| - 1] == last;
      assert (a + b)[..|a + b| - 1] == a + b[..|b| - 1];
      match UndoChange(db, last)
      case None =>
      case Some((db1, inv)) =>
        WalkConcat(db1, a, b[..|b| - 1]);
    }
  }

  /** Undoing keeps every object stored under its own id. */
  lemma UndoChangeKeyed(db: map<RefID, Obj>, c: Change)
    requires Keyed(db)
    ensures UndoChange(db, c).Some? ==> Keyed(UndoChange(db, c).value.0)
  {
  }

  /** The inverse of an undone change is about the same object. */
  lemma UndoChangeKey(db: map<RefID, Obj>, c: Change)
    requires Keyed(db) && UndoChange(db, c).Some?
    ensures ChangedKey(UndoChange(db, c).value.1) == ChangedKey(c)
  {
  }

  lemma {:induction false} WalkKeyed(db: map<RefID, Obj>, cs: seq<Change>)
    requires Keyed(db)
    ensures Keyed(Walk(db, cs).db)
    decreases |cs|
  {
    if cs != [] {
      UndoChangeKeyed(db, cs[|cs| - 1]);
      match UndoChange(db, cs[|cs| - 1])
      case None =>
      case Some((db1, _)) => WalkKeyed(db1, cs[..|cs| - 1]);
    }
  }

  /**
   * A completed walk records exactly one inverse per change, in reverse order,
   * each about the same object as the change it inverts.
   */
  lemma {:induction false} WalkRecordsInverses(db: map<RefID, Obj>, cs: seq<Change>)
    requires Keyed(db) && Walk(db, cs).ok
    ensures |Walk(db, cs).redo| == |cs|
    ensures forall j :: 0 <= j < |cs| ==> ChangedKey(Walk(db, cs).redo[j]) == ChangedKey(cs[|cs| - 1 - j])
    decreases |cs|
  {
    if cs != [] {
      var c := cs[|cs| - 1];
      UndoChangeKeyed(db, c);
      UndoChangeKey(db, c);
      var (db1, inv) := UndoChange(db, c).value;
      WalkRecordsInverses(db1, cs[..|cs| - 1]);
    }
  }

  /** So a completed walk's inverse event touches exactly the objects the undone event touched. */
  lemma WalkChangedSet(db: map<RefID, Obj>, cs: seq<Change>)
    requires Keyed(db) && Walk(db, cs).ok
    ensures ChangedSet(Walk(db, cs).redo) == ChangedSet(cs)
  {
    WalkRecordsInverses(db, cs);
    var redo := Walk(db, cs).redo;
    forall k | k in ChangedSet(cs) ensures k in ChangedSet(redo) {
      var i :| 0 <= i < |cs| && ChangedKey(cs[i]) == k;
      assert ChangedKey(redo[|cs| - 1 - i]) == k;
    }
    forall k | k in ChangedSet(redo) ensures k in ChangedSet(cs) {
      var j :| 0 <= j < |redo| && ChangedKey(redo[j]) == k;
      assert ChangedKey(cs[|cs| - 1 - j]) == k;
    }
  }

  /**
   * A walk is reversible when it completes and every Delete it undoes puts
   * back an object whose id is absent at that point (otherwise the reinsertion
   * overwrites an object that the inverse Add would then remove).
   */
  ghost predicate Reversible(db: map<RefID, Obj>, cs: seq<Change>)
    decreases |cs|
  {
    cs == [] ||
    (var c := cs[|cs| - 1];
     UndoChange(db, c).Some? &&
     (c.DeleteChange? ==> Id(c.obj) !in db) &&
     Reversible(UndoChange(db, c).value.0, cs[..|cs| - 1]))
  }

  lemma {:induction false} ReversibleConcat(db: map<RefID, Obj>, a: seq<Change>, b: seq<Change>)
    ensures Reversible(db, a + b) <==> Reversible(db, b) && Reversible(Walk(db, b).db, a)
    decreases |b|
  {
    if b == [] {
      assert a + b == a;
    } else {
      var last := b[|b| - 1];
      assert (a + b)[|a + b| - 1] == last;
      assert (a + b)[..|a + b| - 1] == a + b[..|b| - 1];
      match UndoChange(db, last)
      case None =>
      case Some((db1, inv)) =>
        ReversibleConcat(db1, a, b[..|b| - 1]);
    }
  }

  lemma {:induction false} ReversibleCompletes(db: map<RefID, Obj>, cs: seq<Change>)
    requires Reversible(db, cs)
    ensures Walk(db, cs).ok
    decreases |cs|
  {
    if cs != [] {
      ReversibleCompletes(UndoChange(db, cs[|cs| - 1]).value.0, cs[..|cs| - 1]);
    }
  }

  /** Undoing one change and then its inverse restores the store and gives back the change. */
  lemma UndoChangeInverts(db: map<RefID, Obj>, c: Change)
    requires Keyed(db) && UndoChange(db, c).Some?
    requires c.DeleteChange? ==> Id(c.obj) !in db
    ensures var (db1, inv) := UndoChange(db, c).value;
      UndoChange(db1, inv) == Some((db, c)) &&
      (inv.DeleteChange? ==> Id(inv.obj) !in db1)
  {
    match c
    case AddChange(k) =>
      assert (db - {k})[k := db[k]] == db;
    case ModifyChange(o) =>
      assert db[Id(o) := o][Id(o) := db[Id(o)]] == db;
    case DeleteChange(o) =>
      assert db[Id(o) := o] - {Id(o)} == db;
  }

  /**
   * The round trip of database.rs:55-82: undoing the event that an undo
   * returned restores the store as it was and gives back the original changes,
   * and that second walk is itself reversible, so undo and redo can alternate.
   */
  lemma {:induction false} RoundTrip(db: map<RefID, Obj>, cs: seq<Change>)
    requires Keyed(db) && Reversible(db, cs)
    ensures Walk(db, cs).ok
    ensures Walk(Walk(db, cs).db, Walk(db, cs).redo) == Outcome(db, cs, true)
    ensures Reversible(Walk(db, cs).db, Walk(db, cs).redo)
    decreases |cs|
  {
    ReversibleCompletes(db, cs);
    if cs != [] {
      var c := cs[|cs| - 1];
      var front := cs[..|cs| - 1];
      var (db1, inv) := UndoChange(db, c).value;
      UndoChangeKeyed(db, c);
      UndoChangeInverts(db, c);
      RoundTrip(db1, front);
      var w := Walk(db1, front);
      assert Walk(db, cs) == Outcome(w.db, [inv] + w.redo, w.ok);
      // The second walk undoes w.redo first (back to db1), then inv (back to db).
      WalkConcat(w.db, [inv], w.redo);
      ReversibleConcat(w.db, [inv], w.redo);
      assert Walk(db1, [inv]) == Outcome(db, [c], true);
      assert front + [c] == cs;
    }
  }

  // ---- The store ----

  class FileDatabase {
    var db: map<RefID, Obj>

    ghost predicate Valid()
      reads this
    {
      Keyed(db)
    }

    constructor ()
      ensures db == map[] && Valid()
    {
      db := map[];
    }

    /** add: a key already present is Overwrite and changes nothing; the nil id is not refused. */
    method Add(obj: Obj) returns (r: Status)
      requires Valid()
      modifies this
      ensures Valid()
      ensures Id(obj) in old(db) ==> r == Err(Overwrite) && db == old(db)
      ensures Id(obj) !in old(db) ==> r == Success && db == old(db)[Id(obj) := obj]
    {
      var key := Id(obj);
      if key !in db {
        db := db[key := obj];
        r := Success;
      } else {
        r := Err(Overwrite);
      }
    }

    /** get: the object under key; the nil id is NotFound before any lookup. */
    function Get(key: RefID): (r: Result<Obj>)
      reads this
      ensures key == NIL ==> r == Err(NotFound)
      ensures r.Ok? <==> key != NIL && key in db
      ensures r.Ok? ==> r.value == db[key]
      ensures r.Err? ==> r.error == NotFound
    {
      Lookup(db, key)
    }

    /** remove: the stored object, taken out of the store; a missing key is NotFound. There is no nil check. */
    method Remove(key: RefID) returns (r: Result<Obj>)
      requires Valid()
      modifies this
      ensures Valid()
      ensures key in old(db) ==> r == Ok(old(db)[key]) && db == old(db) - {key}
      ensures key !in old(db) ==> r == Err(NotFound) && db == old(db)
      ensures key !in db
    {
      if key in db {
        r := Ok(db[key]);
        db := db - {key};
      } else {
        r := Err(NotFound);
      }
    }

    /**
     * get_mut: hands the stored object to the callback and keeps what the
     * callback leaves, whatever status it answers; the callback's status is
     * the result. The nil id and a missing key are NotFound.
     */
    method GetMut(key: RefID, f: Edit) returns (r: Status)
      requires Valid()
      modifies this
      ensures Valid()
      ensures Lookup(old(db), key).Err? ==> r == Err(NotFound) && db == old(db)
      ensures Lookup(old(db), key).Ok? ==>
        db == old(db)[key := f(old(db)[key]).0] && r == f(old(db)[key]).1
    {
      if key == NIL || key !in db {
        r := Err(NotFound);
      } else {
        var (obj, st) := f(db[key]);
        db := db[key := obj];
        r := st;
      }
    }

    /**
     * duplicate (called at data_manager/mod.rs:96-98; its body is not part
     * of this model): a copy of the stored object under a new id, not stored.
     */
    function Duplicate(key: RefID, copyId: RefID): (r: Result<Obj>)
      requires Valid()
      reads this
      ensures r.Ok? <==> Get(key).Ok?
      ensures r.Err? ==> r.error == NotFound
      ensures r.Ok? ==> Id(r.value) == copyId && SetId(r.value, key) == db[key]
    {
      match Get(key)
      case Err(e) => Err(e)
      case Ok(obj) => SetIdTwice(obj, copyId); Ok(SetId(obj, copyId))
    }

    /**
     * undo: walks the event's changes from the last to the first. On success
     * the answer is the event with the same ids and description whose changes
     * are the recorded inverses; a NotFound step aborts the walk, keeps the
     * changes already undone and answers NotFound.
     */
    method Undo(event: UndoEvent) returns (r: Result<UndoEvent>)
      requires Valid()
      modifies this
      ensures Valid()
      ensures db == Walk(old(db), event.changes).db
      ensures Walk(old(db), event.changes).ok ==> r == Ok(event.(changes := Walk(old(db), event.changes).redo))
      ensures !Walk(old(db), event.changes).ok ==> r == Err(NotFound)
    {
      ghost var db0 := db;
      var redo: seq<Change> := [];
      var i := |event.changes|;
      assert event.changes[..i] == event.changes;
      while i > 0
        invariant 0 <= i <= |event.changes|
        invariant Valid()
        invariant Walk(db0, event.changes) == Prepend(redo, Walk(db, event.changes[..i]))
        decreases i
      {
        ghost var before := db;
        var inv := UndoOne(event.changes[i - 1]);
        if inv.None? {
          WalkFails(before, event.changes, i);
          r := Err(NotFound);
          return;
        }
        WalkSteps(before, event.changes, i, db, inv.value);
        redo := redo + [inv.value];
        i := i - 1;
      }
      assert event.changes[..0] == [];
      assert redo + [] == redo;
      r := Ok(event.(changes := redo));
    }

    /** The body of the undo loop: undoes one change and answers its inverse, or None for NotFound. */
    method UndoOne(change: Change) returns (inv: Option<Change>)
      requires Valid()
      modifies this
      ensures Valid()
      ensures UndoChange(old(db), change) == (if inv.None? then None else Some((db, inv.value)))
      ensures inv.None? ==> db == old(db)
    {
      UndoChangeKeyed(db, change);
      match change {
        case AddChange(key) =>
          if key in db {
            inv := Some(DeleteChange(db[key]));
            db := db - {key};
          } else {
            inv := None;
          }
        case ModifyChange(obj) =>
          if Id(obj) in db {
            inv := Some(ModifyChange(db[Id(obj)]));
          } else {
            inv := None;
            return;
          }
          db := db[Id(obj) := obj];
        case DeleteChange(obj) =>
          inv := Some(AddChange(Id(obj)));
          db := db[Id(obj) := obj];
      }
    }
  }

  /** A walk over the first i changes whose last step fails stops there. */
  lemma WalkFails(db: map<RefID, Obj>, cs: seq<Change>, i: nat)
    requires 0 < i <= |cs| && UndoChange(db, cs[i - 1]).None?
    ensures Walk(db, cs[..i]) == Outcome(db, [], false)
  {
  }

  /** A walk over the first i changes whose last step succeeds goes on with the others. */
  lemma WalkSteps(db: map<RefID, Obj>, cs: seq<Change>, i: nat, db1: map<RefID, Obj>, inv: Change)
    requires 0 < i <= |cs| && UndoChange(db, cs[i - 1]) == Some((db1, inv))
    ensures Walk(db, cs[..i]) == Prepend([inv], Walk(db1, cs[..i - 1]))
  {
    assert cs[..i][..i - 1] == cs[..i - 1];
  }

  lemma SetIdTwice(o: Obj, id: RefID)
    ensures SetId(SetId(o, id), Id(o)) == o
  {
  }
}
