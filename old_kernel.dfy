/**
 * The older kernel (operations-kernel/data-model): a wall joined to other
 * objects' points through point references, a stub linear dimension, and
 * the store's get_ref_point, which resolves a point reference and forgets
 * it when it dangles.
 *
 * Entities are values, as in the newer kernel; a method taking `&mut self`
 * is a function returning the entity as the call leaves it.
 */
module OldKernel {
  import opened Base
  import opened GeometryKernel
  import opened DataModel
  import opened Objects

  /** The older Wall: two endpoints, each joined (or not, through a nil reference) to a point of another object. */
  datatype OldWall = OldWall(firstPt: Point3, secondPt: Point3, width: real, height: real,
                             joinedFirst: PointRef, joinedSecond: PointRef, id: RefID)

  /** The older LinearDimension: two point references and an offset. */
  datatype OldDimension = OldDimension(first: PointRef, second: PointRef, offset: real, id: RefID)

  /** What the older store holds. Only the wall answers RefPoint. */
  datatype OldObj = OldWallObj(wall: OldWall) | OldDimObj(dim: OldDimension)

  const NilRef := PointRef(NIL, 0)

  /** Wall::new: both endpoints unjoined. */
  function NewOldWall(id: RefID, first: Point3, second: Point3, width: real, height: real): (w: OldWall)
    ensures w.firstPt == first && w.secondPt == second && w.width == width && w.height == height && w.id == id
    ensures w.joinedFirst.id == NIL && w.joinedSecond.id == NIL
  {
    OldWall(first, second, width, height, NilRef, NilRef, id)
  }

  /** RefPoint::get_point: 0 is the first endpoint, 1 the second, anything else has no point. */
  function OldGetPoint(w: OldWall, which: nat): (r: Option<Point3>)
    ensures which == 0 ==> r == Some(w.firstPt)
    ensures which == 1 ==> r == Some(w.secondPt)
    ensures r.Some? <==> which < 2
  {
    if which == 0 then Some(w.firstPt) else if which == 1 then Some(w.secondPt) else None
  }

  /** RefPoint::set_point: endpoint `which` moves to pt and is joined to other; any other index changes nothing. */
  function OldSetPoint(w: OldWall, which: nat, pt: Point3, other: PointRef): (r: OldWall)
    ensures which == 0 ==> r == w.(firstPt := pt, joinedFirst := other)
    ensures which == 1 ==> r == w.(secondPt := pt, joinedSecond := other)
    ensures which >= 2 ==> r == w
  {
    if which == 0 then w.(firstPt := pt, joinedFirst := other)
    else if which == 1 then w.(secondPt := pt, joinedSecond := other)
    else w
  }

  /** set_point then get_point at an endpoint gives back the point set, and the other endpoint is untouched. */
  lemma SetThenGetPoint(w: OldWall, which: nat, pt: Point3, other: PointRef)
    requires which < 2
    ensures OldGetPoint(OldSetPoint(w, which, pt, other), which) == Some(pt)
    ensures OldGetPoint(OldSetPoint(w, which, pt, other), 1 - which) == OldGetPoint(w, 1 - which)
    ensures OldSetPoint(w, which, pt, other).id == w.id
  {
  }

  /** Setting an endpoint back to the point and join it had restores the wall. */
  lemma SetPointOwnValue(w: OldWall, which: nat)
    requires which < 2
    ensures OldSetPoint(w, which, OldGetPoint(w, which).value, if which == 0 then w.joinedFirst else w.joinedSecond) == w
  {
  }

  /**
   * How the older store answers get_obj for an id: the object, or NotFound.
   * The store's implementation is not part of this model; a nil id is taken
   * to be absent, as in the newer store.
   */
  function OldLookup(store: map<RefID, OldObj>, id: RefID): (r: Result<OldObj>)
    ensures r.Ok? <==> id != NIL && id in store
    ensures r.Ok? ==> r.value == store[id]
    ensures r.Err? ==> r.error == NotFound
  {
    if id != NIL && id in store then Ok(store[id]) else Err(NotFound)
  }

  /**
   * The older get_ref_point: the referenced wall's point, ObjLacksTrait for a
   * dimension, NotFound for a missing object or point. The reference's id,
   * and only its id, is reset to nil on NotFound.
   */
  function OldGetRefPoint(store: map<RefID, OldObj>, refer: PointRef): (r: RefPointAnswer)
    ensures r.result.Ok? <==>
      OldLookup(store, refer.id).Ok? && store[refer.id].OldWallObj? && refer.whichPt < 2
    ensures r.result.Ok? ==> Some(r.result.value) == OldGetPoint(store[refer.id].wall, refer.whichPt)
    ensures r.result.Err? && r.result.error != NotFound ==> r.result.error == ObjLacksTrait && refer.id in store && store[refer.id].OldDimObj?
    ensures r.refer == (if r.result == Err(NotFound) then refer.(id := NIL) else refer)
    ensures r.refer.whichPt == refer.whichPt
  {
    var answer: Result<Point3> :=
      match OldLookup(store, refer.id)
      case Err(e) => Err(e)
      case Ok(obj) =>
        if obj.OldWallObj? then
          var p := OldGetPoint(obj.wall, refer.whichPt);
          if p.Some? then Ok(p.value) else Err(NotFound)
        else Err(ObjLacksTrait);
    if answer == Err(NotFound) then RefPointAnswer(answer, refer.(id := NIL)) else RefPointAnswer(answer, refer)
  }

  /** Looking a reference up again after the first lookup gives the same answer and leaves the reference alone. */
  lemma OldGetRefPointSettles(store: map<RefID, OldObj>, refer: PointRef)
    ensures OldGetRefPoint(store, OldGetRefPoint(store, refer).refer).result == OldGetRefPoint(store, refer).result
    ensures OldGetRefPoint(store, OldGetRefPoint(store, refer).refer).refer == OldGetRefPoint(store, refer).refer
  {
  }

  /** Update::init for a wall: the register_sub calls it makes, as (publisher, subscriber) pairs, in order. */
  function OldWallInit(w: OldWall): (calls: seq<(RefID, RefID)>)
    ensures |calls| == 2
    ensures calls[0] == (w.joinedFirst.id, w.id) && calls[1] == (w.joinedSecond.id, w.id)
  {
    [(w.joinedFirst.id, w.id), (w.joinedSecond.id, w.id)]
  }

  /** The triangle indices of the wall's box, as the older update lists them. */
  const WallIndices: seq<nat> := [0, 1, 2, 1, 2, 3, 0, 1, 5, 0, 5, 4, 4, 5, 7, 4, 7, 6,
                                  1, 3, 7, 1, 7, 5, 2, 3, 7, 2, 7, 6, 2, 0, 4, 2, 4, 6]

  /** Data::update for the older wall: a mesh under the wall's id (its vertex positions are not modelled). */
  function OldWallUpdate(w: OldWall): (r: Result<UpdateMsg>)
    ensures r.Ok? && r.value.Mesh? && r.value.mesh.id == w.id && |r.value.mesh.indices| == 36
  {
    Ok(Mesh(MeshData(w.id, [], WallIndices, None)))
  }

  /**
   * Update::update_from_refs for the older wall: each endpoint takes the
   * point its join resolves to, and keeps its place otherwise; a join that
   * dangles (NotFound) is reset to nil. The answer is the wall's update.
   */
  function OldWallUpdateFromRefs(w: OldWall, store: map<RefID, OldObj>): (r: (OldWall, Result<UpdateMsg>))
    ensures r.1 == OldWallUpdate(r.0)
    ensures r.0.id == w.id && r.0.width == w.width && r.0.height == w.height
  {
    var a1 := OldGetRefPoint(store, w.joinedFirst);
    var w1 := if a1.result.Ok? then w.(firstPt := a1.result.value, joinedFirst := a1.refer) else w.(joinedFirst := a1.refer);
    var a2 := OldGetRefPoint(store, w1.joinedSecond);
    var w2 := if a2.result.Ok? then w1.(secondPt := a2.result.value, joinedSecond := a2.refer) else w1.(joinedSecond := a2.refer);
    (w2, OldWallUpdate(w2))
  }

  /** An endpoint is replaced exactly when its join resolves, and then by the resolved point. */
  lemma OldUpdateFromRefsReplaces(w: OldWall, store: map<RefID, OldObj>)
    ensures var r := OldWallUpdateFromRefs(w, store).0;
      var a1 := OldGetRefPoint(store, w.joinedFirst);
      var a2 := OldGetRefPoint(store, w.joinedSecond);
      r.firstPt == (if a1.result.Ok? then a1.result.value else w.firstPt) &&
      r.secondPt == (if a2.result.Ok? then a2.result.value else w.secondPt) &&
      r.joinedFirst == a1.refer && r.joinedSecond == a2.refer
  {
  }

  /** A second refresh against the same store changes nothing more. */
  lemma OldUpdateFromRefsIdempotent(w: OldWall, store: map<RefID, OldObj>)
    ensures OldWallUpdateFromRefs(OldWallUpdateFromRefs(w, store).0, store).0 == OldWallUpdateFromRefs(w, store).0
  {
    OldGetRefPointSettles(store, w.joinedFirst);
    OldGetRefPointSettles(store, w.joinedSecond);
  }

  /** Position::move_obj for the older wall: both endpoints translated, joins untouched. */
  function OldWallMove(w: OldWall, delta: Vector3): (r: OldWall)
    ensures r.firstPt == Translate(w.firstPt, delta) && r.secondPt == Translate(w.secondPt, delta)
    ensures r.joinedFirst == w.joinedFirst && r.joinedSecond == w.joinedSecond
    ensures r.id == w.id && r.width == w.width && r.height == w.height
  {
    w.(firstPt := Translate(w.firstPt, delta), secondPt := Translate(w.secondPt, delta))
  }

  /** Moving by delta and then by its negation restores the wall. */
  lemma OldWallMoveBack(w: OldWall, delta: Vector3)
    ensures OldWallMove(OldWallMove(w, delta), Negate(delta)) == w
  {
    TranslateBack(w.firstPt, delta);
    TranslateBack(w.secondPt, delta);
  }

  /** Data::update for the stub dimension: always NotFound. */
  function OldDimensionUpdate(d: OldDimension): (r: Result<UpdateMsg>)
    ensures r == Err(NotFound)
  {
    Err(NotFound)
  }

  /** Update::update_from_refs for the stub dimension: NotFound, the dimension untouched. */
  function OldDimensionUpdateFromRefs(d: OldDimension, store: map<RefID, OldObj>): (r: (OldDimension, Result<UpdateMsg>))
    ensures r.0 == d && r.1 == Err(NotFound)
  {
    (d, Err(NotFound))
  }

  /** Update::init for the stub dimension: it subscribes to both referenced ids. */
  function OldDimensionInit(d: OldDimension): (calls: seq<(RefID, RefID)>)
    ensures |calls| == 2
    ensures calls[0] == (d.first.id, d.id) && calls[1] == (d.second.id, d.id)
  {
    [(d.first.id, d.id), (d.second.id, d.id)]
  }

  /** Position::move_obj for the stub dimension does nothing. */
  function OldDimensionMove(d: OldDimension, delta: Vector3): (r: OldDimension)
    ensures r == d
  {
    d
  }
}
