/**
 * The undo records (operations/src/operation_manager/data_manager/undo.rs):
 * one change per touched object, and an undo event gathering a user's changes.
 * The event's timestamp (read from the clock) is not modelled.
 */
module UndoEvents {
  import opened Base
  import opened Objects

  /** Add remembers the key of an added object; Modify and Delete keep a copy of the object as it was. */
  datatype Change =
    | AddChange(key: RefID)
    | ModifyChange(obj: Obj)
    | DeleteChange(obj: Obj)

  datatype UndoEvent = UndoEvent(
    eventId: RefID,
    userId: RefID,
    changes: seq<Change>,
    desc: string,
    nested: nat,
    suspended: nat)

  /** UndoEvent::new; the minted event id is a parameter. */
  function NewEvent(user: RefID, desc: string, eventId: RefID): (e: UndoEvent)
    ensures e.eventId == eventId && e.userId == user && e.desc == desc
    ensures e.changes == [] && e.nested == 0 && e.suspended == 0
  {
    UndoEvent(eventId, user, [], desc, 0, 0)
  }

  /** The id of the object a change is about. */
  function ChangedKey(c: Change): RefID {
    match c
    case AddChange(k) => k
    case ModifyChange(o) => Id(o)
    case DeleteChange(o) => Id(o)
  }

  function ChangedSet(cs: seq<Change>): set<RefID> {
    set i | 0 <= i < |cs| :: ChangedKey(cs[i])
  }

  /** get_changed_objects: every id some change of the event is about, and no other. */
  method GetChangedObjects(e: UndoEvent) returns (results: set<RefID>)
    ensures forall k :: k in results <==> exists i :: 0 <= i < |e.changes| && ChangedKey(e.changes[i]) == k
  {
    results := {};
    var i := 0;
    while i < |e.changes|
      invariant 0 <= i <= |e.changes|
      invariant forall k :: k in results <==> exists j :: 0 <= j < i && ChangedKey(e.changes[j]) == k
    {
      match e.changes[i] {
        case AddChange(key) => results := results + {key};
        case ModifyChange(obj) => results := results + {Id(obj)};
        case DeleteChange(obj) => results := results + {Id(obj)};
      }
      i := i + 1;
    }
  }

  lemma ChangedSetMembers(cs: seq<Change>)
    ensures forall k :: k in ChangedSet(cs) <==> exists i :: 0 <= i < |cs| && ChangedKey(cs[i]) == k
  {
  }
}
