/**
 * The boxed data objects the kernel stores (`Box<dyn Data>`), as a union of
 * the four entity kinds, with the trait queries (`query_ref::<T>()`) and the
 * trait methods dispatched per kind; and the point lookup that the object
 * store offers its entities (data-model/src/lib.rs).
 */
module Objects {
  import opened Base
  import opened GeometryKernel
  import opened DataModel
  import WallEntity
  import DoorEntity
  import DimensionEntity
  import SlabEntity

  datatype Obj =
    | WallObj(wall: WallEntity.Wall)
    | DoorObj(door: DoorEntity.Door)
    | DimObj(dim: DimensionEntity.Dimension)
    | SlabObj(slab: SlabEntity.Slab)

  function Id(o: Obj): RefID {
    match o
    case WallObj(w) => w.id
    case DoorObj(d) => d.id
    case DimObj(d) => d.id
    case SlabObj(s) => s.id
  }

  /** set_id, which the kernel uses only to give a duplicate its own id. */
  function SetId(o: Obj, id: RefID): (r: Obj)
    ensures Id(r) == id
  {
    match o
    case WallObj(w) => WallObj(w.(id := id))
    case DoorObj(d) => DoorObj(d.(id := id))
    case DimObj(d) => DimObj(d.(id := id))
    case SlabObj(s) => SlabObj(s.(id := id))
  }

  /** Which kinds answer query_ref::<ReferTo>(): all but the dimension. */
  predicate HasReferTo(o: Obj) {
    !o.DimObj?
  }

  /** Every kind implements Position and UpdateFromRefs. */
  predicate HasPosition(o: Obj) {
    true
  }

  predicate HasUpdateFromRefs(o: Obj) {
    true
  }

  /** The id an update message is about, when the message names one directly. */
  function MsgKey(m: UpdateMsg): Option<RefID> {
    match m
    case Delete(k) => Some(k)
    case Mesh(data) => Some(data.id)
    case OtherMsg(_) => None
  }

  /** update: the message describing the object, and the object as update leaves it (walls drop unreferenced openings). */
  function Update(o: Obj): (r: (Obj, UpdateMsg))
    ensures Id(r.0) == Id(o) && r.0.WallObj? == o.WallObj?
    ensures !o.WallObj? ==> r.0 == o
    ensures !o.DimObj? ==> MsgKey(r.1) == Some(Id(o)) && r.1.Mesh?
    ensures o.DimObj? ==> r.1 == OtherMsg(DimensionEntity.Describe(o.dim))
  {
    match o
    case WallObj(w) => var (w1, m) := WallEntity.Update(w); (WallObj(w1), m)
    case DoorObj(d) => (o, DoorEntity.Update(d))
    case DimObj(d) => (o, DimensionEntity.Update(d))
    case SlabObj(s) => (o, SlabEntity.Update(s))
  }

  function TempRepr(o: Obj): (m: UpdateMsg)
    ensures o.DimObj? <==> m.OtherMsg?
    ensures !o.DimObj? ==> m.Mesh? && m.mesh.id == Id(o)
  {
    match o
    case WallObj(w) => WallEntity.TempRepr(w)
    case DoorObj(d) => DoorEntity.TempRepr(d)
    case DimObj(d) => DimensionEntity.TempRepr(d)
    case SlabObj(s) => SlabEntity.TempRepr(s)
  }

  function GetData(o: Obj, prop: string): (r: Result<Json>)
    ensures r.Err? ==> r.error == PropertyNotFound
  {
    match o
    case WallObj(w) => WallEntity.GetData(w, prop)
    case DoorObj(d) => DoorEntity.GetData(d, prop)
    case DimObj(d) => DimensionEntity.GetData(d, prop)
    case SlabObj(s) => SlabEntity.GetData(s, prop)
  }

  function SetData(o: Obj, data: Json): (r: (Obj, Status))
    ensures Id(r.0) == Id(o)
    ensures r.1.Err? ==> r.1.error == PropertyNotFound && r.0 == o
  {
    match o
    case WallObj(w) => var (w1, st) := WallEntity.SetData(w, data); (WallObj(w1), st)
    case DoorObj(d) => var (d1, st) := DoorEntity.SetData(d, data); (DoorObj(d1), st)
    case DimObj(d) => var (d1, st) := DimensionEntity.SetData(d, data); (DimObj(d1), st)
    case SlabObj(s) => var (s1, st) := SlabEntity.SetData(s, data); (SlabObj(s1), st)
  }

  /**
   * ReferTo::get_result. The wall's ReferTo is written in terms of points
   * (get_point), so its results are point geometries; a dimension offers none.
   */
  function GetResult(o: Obj, index: nat): (r: Option<RefGeometry>)
    ensures o.DimObj? || o.SlabObj? ==> r.None?
    ensures r.Some? <==> index < |AllResults(o)|
    ensures r.Some? ==> r.value == AllResults(o)[index]
  {
    match o
    case WallObj(w) =>
      WallEntity.AllPointsIndexed(w);
      var p := WallEntity.GetPoint(w, index);
      if p.Some? then Some(GPoint(p.value)) else None
    case DoorObj(d) => DoorEntity.AllResultsIndexed(d); DoorEntity.GetResult(d, index)
    case DimObj(_) => None
    case SlabObj(s) => SlabEntity.GetResult(s, index)
  }

  function AllResults(o: Obj): seq<RefGeometry> {
    match o
    case WallObj(w) =>
      var pts := WallEntity.AllPoints(w);
      seq(|pts|, i requires 0 <= i < |pts| => GPoint(pts[i]))
    case DoorObj(d) => DoorEntity.AllResults(d)
    case DimObj(_) => []
    case SlabObj(s) => SlabEntity.AllResults(s)
  }

  function ClearRefs(o: Obj): (r: Obj)
    ensures Id(r) == Id(o)
    ensures forall k :: 0 <= k < |Refs(r)| && Refs(r)[k].Some? ==> Refs(r)[k].value.other.obj == Id(o)
  {
    match o
    case WallObj(w) => WallEntity.ClearedForgetsReferences(w); WallObj(WallEntity.Cleared(w))
    case DoorObj(d) => DoorEntity.ClearedRefsAreInternal(d); DoorObj(DoorEntity.ClearRefs(d))
    case DimObj(d) => DimensionEntity.ClearedForgetsReferences(d); DimObj(DimensionEntity.ClearRefs(d))
    case SlabObj(_) => o
  }

  function Refs(o: Obj): (r: seq<Option<GeomReference>>)
    ensures forall k :: 0 <= k < |r| && r[k].Some? ==> r[k].value.owner.obj == Id(o)
  {
    match o
    case WallObj(w) => WallEntity.RefsOwned(w); WallEntity.Refs(w)
    case DoorObj(d) => DoorEntity.Refs(d)
    case DimObj(d) => DimensionEntity.Refs(d)
    case SlabObj(s) => SlabEntity.Refs(s)
  }

  /**
   * UpdateFromRefs::set_ref. The wall's set_ref takes a point, so a wall is
   * given the point of a point geometry and ignores any other geometry.
   */
  function SetRef(o: Obj, index: nat, result: RefGeometry, other: GeometryId): (r: Obj)
    ensures Id(r) == Id(o)
  {
    match o
    case WallObj(w) => if result.GPoint? then WallObj(WallEntity.SetRef(w, index, result.pt, other)) else o
    case DoorObj(d) => DoorObj(DoorEntity.SetRef(d, index, result, other))
    case DimObj(d) => DimObj(DimensionEntity.SetRef(d, index, result, other))
    case SlabObj(_) => o
  }

  function SetAssociatedGeom(o: Obj, index: nat, geom: Option<RefGeometry>): (r: Obj)
    ensures Id(r) == Id(o)
  {
    match o
    case WallObj(w) =>
      if geom.None? then WallObj(WallEntity.SetAssociatedPoint(w, index, None))
      else if geom.value.GPoint? then WallObj(WallEntity.SetAssociatedPoint(w, index, Some(geom.value.pt)))
      else o
    case DoorObj(d) => DoorObj(DoorEntity.SetAssociatedGeom(d, index, geom))
    case DimObj(d) => DimObj(DimensionEntity.SetAssociatedGeom(d, index, geom))
    case SlabObj(_) => o
  }

  function MoveObj(o: Obj, delta: Vector3): (r: Obj)
    ensures Id(r) == Id(o)
  {
    match o
    case WallObj(w) => WallObj(WallEntity.MoveObj(w, delta))
    case DoorObj(d) => DoorObj(DoorEntity.MoveObj(d, delta))
    case DimObj(d) => DimObj(DimensionEntity.MoveObj(d, delta))
    case SlabObj(_) => o
  }

  // ---- ObjStore::get_ref_point ----

  /** The reference get_ref_point reads: an object id and the index of one of its points. */
  datatype PointRef = PointRef(id: RefID, whichPt: nat)

  /** The answer of get_ref_point, together with the reference as the call leaves it. */
  datatype RefPointAnswer = RefPointAnswer(result: Result<Point3>, refer: PointRef)

  /** How the store looks an id up: the nil id and an absent id are both NotFound. */
  function Lookup(store: map<RefID, Obj>, id: RefID): (r: Result<Obj>)
    ensures r.Ok? <==> id != NIL && id in store
    ensures r.Ok? ==> r.value == store[id]
    ensures r.Err? ==> r.error == NotFound
  {
    if id != NIL && id in store then Ok(store[id]) else Err(NotFound)
  }

  /**
   * get_ref_point: the indexed point of the referenced object, for an object
   * that offers the RefPoint interface. None of the entities lists RefPoint
   * among the interfaces it registers (wall.rs:17, door.rs:24-31,
   * slab.rs:9-16, dimension.rs:24-30), so query_ref::<RefPoint> finds nothing
   * and every object found answers ObjLacksTrait. A NotFound answer resets the
   * reference's id to nil; ObjLacksTrait leaves the reference as it was.
   */
  function GetRefPoint(store: map<RefID, Obj>, refer: PointRef): (r: RefPointAnswer)
    ensures r.result.Err?
    ensures r.result.error == ObjLacksTrait <==> refer.id != NIL && refer.id in store
    ensures r.result.error == NotFound <==> refer.id == NIL || refer.id !in store
    ensures r.refer == (if r.result.error == NotFound then refer.(id := NIL) else refer)
  {
    match Lookup(store, refer.id)
    case Err(e) => RefPointAnswer(Err(e), refer.(id := NIL))
    case Ok(_) => RefPointAnswer(Err(ObjLacksTrait), refer)
  }

  /** Looking up again through the reference a lookup leaves gives the same answer and changes the reference no further. */
  lemma GetRefPointSettles(store: map<RefID, Obj>, refer: PointRef)
    ensures GetRefPoint(store, GetRefPoint(store, refer).refer) == GetRefPoint(store, refer)
  {
  }
}
