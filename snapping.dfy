/**
 * Snapping (operations/src/entity_ops/snapping.rs): choosing, among the
 * geometry an object offers, the piece of the wanted kind closest to a guess,
 * and pointing a reference of another object at it.
 *
 * The distance from a geometry to the guess is floating point in the source;
 * here it is a parameter, a real per geometry (the guess folded in). The loop
 * starts from f64::MAX, so a candidate must lie strictly below it. The
 * source's RefType/RefResult pair is the kind and the geometry here, and the
 * reference it builds is the geometry's id (object and index).
 */
module Snapping {
  import opened Base
  import opened GeometryKernel
  import opened DataModel
  import opened Objects
  import opened AppStates
  import opened EntityOps
  import opened Operations

  /** The kinds of geometry a reference can ask for (type_equals compares only the kind). */
  datatype GeomKind = PointKind | LineKind | RectKind

  function KindOf(g: RefGeometry): GeomKind {
    match g
    case GPoint(_) => PointKind
    case GLine(_, _) => LineKind
    case GRect(_, _, _) => RectKind
  }

  /** std::f64::MAX, the distance the search starts from. */
  const MaxDist: real := 179769313486231570000000000000000000000000000000000000000000000000000000000000000000000000000000000000000000000000000000000000000000000000000000000000000000000000000000000000000000000000000000000000000000000000000000000000000000000000000000000000000000000000000000000000000000000000000000000000000.0

  /** A chosen piece of geometry: which one it is (object and index in get_all_results) and its value. */
  datatype Snap = Snap(which: GeometryId, result: RefGeometry)

  /** Entry j can be chosen at all: of the wanted kind and nearer than f64::MAX. */
  predicate Candidate(results: seq<RefGeometry>, kind: GeomKind, dist: RefGeometry -> real, j: int) {
    0 <= j < |results| && KindOf(results[j]) == kind && dist(results[j]) < MaxDist
  }

  /** Entry i is the closest candidate, every earlier candidate being strictly farther and no later one nearer. */
  predicate IsClosest(results: seq<RefGeometry>, kind: GeomKind, dist: RefGeometry -> real, i: int) {
    Candidate(results, kind, dist, i) &&
    (forall j :: 0 <= j < i && Candidate(results, kind, dist, j) ==> dist(results[j]) > dist(results[i])) &&
    (forall j :: i < j < |results| && Candidate(results, kind, dist, j) ==> dist(results[j]) >= dist(results[i]))
  }

  /** The choice the search has made after the first n entries. */
  function ClosestAmong(results: seq<RefGeometry>, kind: GeomKind, dist: RefGeometry -> real, n: nat): (r: Option<nat>)
    requires n <= |results|
    ensures r.Some? ==> r.value < n && Candidate(results, kind, dist, r.value)
  {
    if n == 0 then None
    else
      var prev := ClosestAmong(results, kind, dist, n - 1);
      if Candidate(results, kind, dist, n - 1) && (prev.None? || dist(results[n - 1]) < dist(results[prev.value]))
      then Some(n - 1)
      else prev
  }

  /** The search over the first n entries finds the closest of them, and finds nothing only when none is a candidate. */
  lemma {:induction false} ClosestAmongIsClosest(results: seq<RefGeometry>, kind: GeomKind, dist: RefGeometry -> real, n: nat)
    requires n <= |results|
    ensures ClosestAmong(results, kind, dist, n).None? <==> forall j :: 0 <= j < n ==> !Candidate(results, kind, dist, j)
    ensures ClosestAmong(results, kind, dist, n).Some? ==> IsClosest(results[..n], kind, dist, ClosestAmong(results, kind, dist, n).value)
  {
    if n > 0 {
      ClosestAmongIsClosest(results, kind, dist, n - 1);
      var prev := ClosestAmong(results, kind, dist, n - 1);
      assert forall j :: 0 <= j < n ==> (Candidate(results[..n], kind, dist, j) <==> Candidate(results, kind, dist, j));
      assert forall j :: 0 <= j < n - 1 ==> (Candidate(results[..n - 1], kind, dist, j) <==> Candidate(results, kind, dist, j));
    }
  }

  /** The choice over all of the results. */
  function Closest(results: seq<RefGeometry>, kind: GeomKind, dist: RefGeometry -> real): (r: Option<nat>)
    ensures r.None? <==> forall j :: 0 <= j < |results| ==> !Candidate(results, kind, dist, j)
    ensures r.Some? ==> IsClosest(results, kind, dist, r.value)
  {
    ClosestAmongIsClosest(results, kind, dist, |results|);
    assert results[..|results|] == results;
    ClosestAmong(results, kind, dist, |results|)
  }

  /** At most one entry is the closest: the rule breaks ties towards the earliest. */
  lemma ClosestIsUnique(results: seq<RefGeometry>, kind: GeomKind, dist: RefGeometry -> real, i: int, j: int)
    requires IsClosest(results, kind, dist, i) && IsClosest(results, kind, dist, j)
    ensures i == j
  {
  }

  /** The snap the search yields over the results of object obj. */
  function Chosen(results: seq<RefGeometry>, obj: RefID, kind: GeomKind, dist: RefGeometry -> real): (r: Option<Snap>)
    ensures r.None? <==> forall j :: 0 <= j < |results| ==> !Candidate(results, kind, dist, j)
    ensures r.Some? ==>
      r.value.which.obj == obj && IsClosest(results, kind, dist, r.value.which.index) &&
      r.value.result == results[r.value.which.index]
  {
    match Closest(results, kind, dist)
    case None => None
    case Some(i) => Some(Snap(GeometryId(obj, i), results[i]))
  }

  /**
   * What get_closest_result answers about an object of the store: NotFound
   * for a missing object, ObjLacksTrait for one without ReferTo, else the
   * closest of its results of the kind, if any.
   */
  function ClosestOf(store: map<RefID, Obj>, obj: RefID, kind: GeomKind, dist: RefGeometry -> real): (r: Result<Option<Snap>>)
    ensures Lookup(store, obj).Err? ==> r == Err(NotFound)
    ensures Lookup(store, obj).Ok? && !HasReferTo(store[obj]) ==> r == Err(ObjLacksTrait)
    ensures r.Ok? && r.value.Some? ==>
      r.value.value.which.obj == obj && IsClosest(AllResults(store[obj]), kind, dist, r.value.value.which.index) &&
      r.value.value.result == AllResults(store[obj])[r.value.value.which.index]
    ensures r.Ok? && r.value.None? ==> forall j :: 0 <= j < |AllResults(store[obj])| ==> !Candidate(AllResults(store[obj]), kind, dist, j)
  {
    match Lookup(store, obj)
    case Err(e) => Err(e)
    case Ok(o) =>
      if !HasReferTo(o) then Err(ObjLacksTrait) else Ok(Chosen(AllResults(o), obj, kind, dist))
  }

  /** The store of a file as get_obj sees it: none for an unknown path. */
  function StoreOf(app: AppState, file: string): (r: Option<map<RefID, Obj>>)
    reads app, if file in app.files then {app.files[file], app.files[file].data, app.files[file].data.db} else {}
    ensures r.Some? <==> file in app.files
  {
    if file in app.files then Some(app.files[file].data.db.db) else None
  }

  /** get_closest_result as it answers for a file: NotFound for an unknown path. */
  function ClosestIn(store: Option<map<RefID, Obj>>, obj: RefID, kind: GeomKind, dist: RefGeometry -> real): (r: Result<Option<Snap>>)
    ensures store.None? ==> r == Err(NotFound)
  {
    if store.None? then Err(NotFound) else ClosestOf(store.value, obj, kind, dist)
  }

  /** The loop of get_closest_result: one pass over the results, keeping the first strictly nearer candidate. */
  method Search(results: seq<RefGeometry>, obj: RefID, kind: GeomKind, dist: RefGeometry -> real) returns (best: Option<Snap>)
    ensures best == Chosen(results, obj, kind, dist)
  {
    best := None;
    var bestDist := MaxDist;
    var index := 0;
    while index < |results|
      invariant 0 <= index <= |results|
      invariant ClosestAmong(results, kind, dist, index).None? ==> best.None? && bestDist == MaxDist
      invariant ClosestAmong(results, kind, dist, index).Some? ==>
        var i := ClosestAmong(results, kind, dist, index).value;
        best == Some(Snap(GeometryId(obj, i), results[i])) && bestDist == dist(results[i])
    {
      var res := results[index];
      if KindOf(res) == kind {
        var curDist := dist(res);
        if curDist < bestDist {
          best := Some(Snap(GeometryId(obj, index), res));
          bestDist := curDist;
        }
      }
      index := index + 1;
    }
    assert results[..|results|] == results;
  }

  /** get_closest_result: the object of the file, the closest of its results of the kind. */
  method GetClosestResult(app: AppState, file: string, obj: RefID, kind: GeomKind, dist: RefGeometry -> real) returns (r: Result<Option<Snap>>)
    ensures r == ClosestIn(StoreOf(app, file), obj, kind, dist)
  {
    var found := app.GetObj(file, obj);
    if found.Err? {
      return Err(found.error);
    }
    var o := found.value;
    if !HasReferTo(o) {
      return Err(ObjLacksTrait);
    }
    var best := Search(AllResults(o), obj, kind, dist);
    r := Ok(best);
  }

  /**
   * snap_to: points reference `index` of `obj` at the closest geometry of
   * the kind on `other` and schedules a refresh of obj's dependents; NotFound
   * when other offers no candidate.
   */
  method SnapTo(app: AppState, file: string, eventId: RefID, obj: RefID, index: nat, other: RefID, kind: GeomKind, dist: RefGeometry -> real)
    returns (r: Result<Option<RefGeometry>>)
    requires app.Valid()
    modifies app.scheduler, app.FileRepr(file)
    ensures app.Valid() && app.files == old(app.files)
    ensures var c := old(ClosestIn(StoreOf(app, file), other, kind, dist));
      (c.Err? ==> r == Err(c.error) && app.scheduler.jobs == old(app.scheduler.jobs)) &&
      (c.Ok? && c.value.None? ==> r == Err(NotFound) && app.scheduler.jobs == old(app.scheduler.jobs)) &&
      (c.Ok? && c.value.Some? ==>
        app.files[file].ModifiedObject(eventId, obj, SetRefEdit(index, c.value.value.result, c.value.value.which), if r.Ok? then Success else Err(r.error)) &&
        (r.Ok? ==> r.value == Some(c.value.value.result) && app.scheduler.jobs == old(app.scheduler.jobs) + [UpdateDepsJob(file, obj)]) &&
        (r.Err? ==> app.scheduler.jobs == old(app.scheduler.jobs)))
  {
    app.Apart(file);
    var c := GetClosestResult(app, file, other, kind, dist);
    if c.Err? {
      return Err(c.error);
    }
    if c.value.None? {
      return Err(NotFound);
    }
    var snap := c.value.value;
    var st := ModifyThenSchedule(app, file, eventId, obj, SetRefEdit(index, snap.result, snap.which));
    if st.Err? {
      return Err(st.error);
    }
    r := Ok(Some(snap.result));
  }

  /**
   * join_at: both objects must offer a candidate. The second object's
   * reference (at the index of its own candidate) is pointed at the first's
   * candidate; then the second object is searched again and, if it still
   * offers one, the first object's reference at the index of the first
   * candidate is pointed at it. Both objects' dependents are scheduled.
   */
  method JoinAt(app: AppState, file: string, eventId: RefID, first: RefID, second: RefID,
                firstKind: GeomKind, secondKind: GeomKind, dist: RefGeometry -> real) returns (r: Status)
    requires app.Valid()
    modifies app.scheduler, app.FileRepr(file)
    ensures app.Valid() && app.files == old(app.files)
    ensures var c1 := old(ClosestIn(StoreOf(app, file), first, firstKind, dist));
      var c2 := old(ClosestIn(StoreOf(app, file), second, secondKind, dist));
      (c1.Err? ==> r == Err(c1.error)) &&
      (c1.Ok? && c2.Err? ==> r == Err(c2.error)) &&
      (c1.Ok? && c2.Ok? && (c1.value.None? || c2.value.None?) ==> r == Err(NotFound)) &&
      (r.Ok? ==> c1.Ok? && c1.value.Some? && c2.Ok? && c2.value.Some?)
    ensures r.Ok? ==> app.scheduler.jobs == old(app.scheduler.jobs) + [UpdateAllDepsJob(file, [first, second])]
    ensures r.Err? ==> app.scheduler.jobs == old(app.scheduler.jobs)
  {
    app.Apart(file);
    var c1 := GetClosestResult(app, file, first, firstKind, dist);
    if c1.Err? {
      return Err(c1.error);
    }
    var c2 := GetClosestResult(app, file, second, secondKind, dist);
    if c2.Err? {
      return Err(c2.error);
    }
    if c1.value.None? || c2.value.None? {
      return Err(NotFound);
    }
    r := JoinBoth(app, file, eventId, first, second, secondKind, dist, c1.value.value, c2.value.value);
  }

  /** The edits of join_at once both candidates are known. */
  method JoinBoth(app: AppState, file: string, eventId: RefID, first: RefID, second: RefID,
                  secondKind: GeomKind, dist: RefGeometry -> real, snap1: Snap, snap2: Snap) returns (r: Status)
    requires app.Valid() && file in app.files
    modifies app.scheduler, app.FileRepr(file)
    ensures app.Valid() && app.files == old(app.files)
    ensures r.Ok? ==> app.scheduler.jobs == old(app.scheduler.jobs) + [UpdateAllDepsJob(file, [first, second])]
    ensures r.Err? ==> app.scheduler.jobs == old(app.scheduler.jobs)
  {
    r := PointRef(app, file, eventId, second, snap2.which.index, snap1.result, snap1.which);
    if r.Err? {
      return;
    }
    r := JoinFirst(app, file, eventId, first, second, secondKind, dist, snap1.which.index);
    if r.Err? {
      return;
    }
    app.UpdateAllDeps(file, [first, second]);
  }

  /** The second half of join_at: search the second object again and point the first object's reference at its candidate. */
  method JoinFirst(app: AppState, file: string, eventId: RefID, first: RefID, second: RefID,
                   secondKind: GeomKind, dist: RefGeometry -> real, otherIndex: nat) returns (r: Status)
    requires app.Valid() && file in app.files
    modifies app.FileRepr(file)
    ensures app.Valid() && app.files == old(app.files) && app.scheduler.jobs == old(app.scheduler.jobs)
    ensures r.Ok? ==> r == Success
  {
    app.Apart(file);
    var again := GetClosestResult(app, file, second, secondKind, dist);
    if again.Err? {
      return Err(again.error);
    }
    r := Success;
    if again.value.Some? {
      r := PointRef(app, file, eventId, first, otherIndex, again.value.value.result, again.value.value.which);
    }
  }

  /**
   * One set_ref of join_at: only the file's objects change. A success found
   * the object and stores it as its own set_ref leaves it, updated; a failure
   * leaves the stored objects as they were.
   */
  method PointRef(app: AppState, file: string, eventId: RefID, id: RefID, index: nat, result: RefGeometry, other: GeometryId) returns (r: Status)
    requires app.Valid() && file in app.files
    modifies app.FileRepr(file)
    ensures app.Valid() && app.files == old(app.files) && app.scheduler.jobs == old(app.scheduler.jobs)
    ensures r.Ok? ==> r == Success
    ensures r.Ok? ==>
      id != NIL && id in old(app.files[file].data.db.db) &&
      app.files[file].data.db.db == old(app.files[file].data.db.db)[id := Update(SetRef(old(app.files[file].data.db.db)[id], index, result, other)).0]
    ensures r.Err? ==> app.files[file].data.db.db == old(app.files[file].data.db.db)
  {
    app.Apart(file);
    ghost var db0 := app.files[file].data.db.db;
    r := app.SetRef(file, eventId, id, index, result, other);
    if r.Ok? {
      var u: () := r.value;
      assert u == ();
      ModifyStores(db0, app.files[file].data.db.db, id, SetRefEdit(index, result, other), r);
    }
  }
}
