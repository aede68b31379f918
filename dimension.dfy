/**
 * The linear dimension entity (data-model/src/entities/dimension.rs): two
 * updatable points and an offset. A dimension can follow other objects but
 * offers no geometry of its own (it does not implement ReferTo).
 */
module DimensionEntity {
  import opened Base
  import opened GeometryKernel
  import opened DataModel

  datatype Dimension = Dimension(id: RefID, first: UpdatablePoint, second: UpdatablePoint, offset: real)

  function NewDimension(first: Point3, second: Point3, offset: real, id: RefID): (d: Dimension)
    ensures d.first == UpdatablePoint(RefPoint(first), None) && d.second == UpdatablePoint(RefPoint(second), None)
    ensures d.offset == offset && d.id == id
  {
    Dimension(id, UpdatablePoint(RefPoint(first), None), UpdatablePoint(RefPoint(second), None), offset)
  }

  function GetData(d: Dimension, prop: string): (r: Result<Json>)
    ensures r.Ok? <==> prop in {"Offset", "First", "Second"}
    ensures r.Err? ==> r.error == PropertyNotFound
    ensures prop == "Offset" ==> r == Ok(JNum(d.offset))
    ensures prop == "First" ==> r == Ok(PointJson(d.first.geom.pt))
    ensures prop == "Second" ==> r == Ok(PointJson(d.second.geom.pt))
  {
    match prop
    case "Offset" => Ok(JNum(d.offset))
    case "First" => Ok(PointJson(d.first.geom.pt))
    case "Second" => Ok(PointJson(d.second.geom.pt))
    case _ => Err(PropertyNotFound)
  }

  /** Only the offset can be set. */
  function SetData(d: Dimension, data: Json): (r: (Dimension, Status))
    ensures r.1.Ok? <==> Index(data, "Offset").JNum?
    ensures r.1.Ok? ==> r.0 == d.(offset := Index(data, "Offset").n)
    ensures r.1.Err? ==> r.1.error == PropertyNotFound && r.0 == d
  {
    if Index(data, "Offset").JNum? then (d.(offset := Index(data, "Offset").n), Success) else (d, Err(PropertyNotFound))
  }

  /** Writing back the offset just read is a successful no-op. */
  lemma SetDataOfGetData(d: Dimension)
    ensures SetData(d, JObj(map["Offset" := GetData(d, "Offset").value])) == (d, Success)
  {
    assert Index(JObj(map["Offset" := GetData(d, "Offset").value]), "Offset") == JNum(d.offset);
  }

  /**
   * update and get_temp_repr both describe the dimension as a JSON object
   * (not a mesh) whose metadata names the type "Dimension". The computed
   * positions of the offset lines and of the label are not modelled.
   */
  function Describe(d: Dimension): (j: Json)
    ensures Index(j, "id") == JStr(NatToDecimal(d.id))
    ensures Index(Index(j, "metadata"), "type") == JStr("Dimension")
    ensures Index(Index(j, "metadata"), "Offset") == JNum(d.offset)
  {
    JObj(map["id" := JStr(NatToDecimal(d.id)), "offset" := JNum(d.offset),
             "metadata" := JObj(map["type" := JStr("Dimension"), "Offset" := JNum(d.offset)])])
  }

  function Update(d: Dimension): (m: UpdateMsg)
    ensures m == OtherMsg(Describe(d))
  {
    OtherMsg(Describe(d))
  }

  function TempRepr(d: Dimension): (m: UpdateMsg)
    ensures m == Update(d)
  {
    OtherMsg(Describe(d))
  }

  function ClearRefs(d: Dimension): (r: Dimension)
    ensures r == d.(first := d.first.(refer := None), second := d.second.(refer := None))
  {
    d.(first := d.first.(refer := None), second := d.second.(refer := None))
  }

  function Refs(d: Dimension): (r: seq<Option<GeomReference>>)
    ensures |r| == 2
    ensures r[0].Some? <==> d.first.refer.Some?
    ensures r[1].Some? <==> d.second.refer.Some?
    ensures r[0].Some? ==> r[0].value == GeomReference(GeometryId(d.id, 0), d.first.refer.value)
    ensures r[1].Some? ==> r[1].value == GeomReference(GeometryId(d.id, 1), d.second.refer.value)
  {
    [if d.first.refer.Some? then Some(GeomReference(GeometryId(d.id, 0), d.first.refer.value)) else None,
     if d.second.refer.Some? then Some(GeomReference(GeometryId(d.id, 1), d.second.refer.value)) else None]
  }

  function AvailableRefs(d: Dimension): (r: seq<nat>)
    ensures forall k :: k in r <==> (k == 0 && d.first.refer.None?) || (k == 1 && d.second.refer.None?)
  {
    (if d.first.refer.None? then [0] else []) + (if d.second.refer.None? then [1] else [])
  }

  function NumRefs(d: Dimension): nat {
    2
  }

  /** A cleared dimension follows nothing and offers both slots again. */
  lemma ClearedForgetsReferences(d: Dimension)
    ensures Refs(ClearRefs(d)) == [None, None]
    ensures AvailableRefs(ClearRefs(d)) == [0, 1]
  {
  }

  function SetRef(d: Dimension, index: nat, result: RefGeometry, other: GeometryId): (r: Dimension)
    ensures index == 0 ==> r == d.(first := SetPointReference(d.first, result, other))
    ensures index == 1 ==> r == d.(second := SetPointReference(d.second, result, other))
    ensures index >= 2 ==> r == d
  {
    if index == 0 then d.(first := SetPointReference(d.first, result, other))
    else if index == 1 then d.(second := SetPointReference(d.second, result, other))
    else d
  }

  /** Setting a slot's reference makes that slot no longer available. */
  lemma SetRefTakesSlot(d: Dimension, index: nat, result: RefGeometry, other: GeometryId)
    requires index < NumRefs(d)
    ensures index !in AvailableRefs(SetRef(d, index, result, other))
    ensures Refs(SetRef(d, index, result, other))[index] == Some(GeomReference(GeometryId(d.id, index), other))
  {
  }

  function AddRef(d: Dimension): (r: (Dimension, bool))
    ensures r == (d, false)
  {
    (d, false)
  }

  function DeleteRef(d: Dimension, index: nat): (r: Dimension)
    ensures index == 0 ==> r == d.(first := d.first.(refer := None))
    ensures index == 1 ==> r == d.(second := d.second.(refer := None))
    ensures index >= 2 ==> r == d
  {
    if index == 0 then d.(first := d.first.(refer := None))
    else if index == 1 then d.(second := d.second.(refer := None))
    else d
  }

  function AssociatedGeom(d: Dimension, index: nat): (r: Option<RefGeometry>)
    ensures index == 0 ==> r == Some(GPoint(d.first.geom.pt))
    ensures index == 1 ==> r == Some(GPoint(d.second.geom.pt))
    ensures index >= 2 ==> r == None
  {
    if index == 0 then Some(GPoint(d.first.geom.pt))
    else if index == 1 then Some(GPoint(d.second.geom.pt))
    else None
  }

  function SetAssociatedGeom(d: Dimension, index: nat, geom: Option<RefGeometry>): (r: Dimension)
    ensures index == 0 ==> r == d.(first := UpdateRefPoint(d.first, geom))
    ensures index == 1 ==> r == d.(second := UpdateRefPoint(d.second, geom))
    ensures index >= 2 ==> r == d
  {
    if index == 0 then d.(first := UpdateRefPoint(d.first, geom))
    else if index == 1 then d.(second := UpdateRefPoint(d.second, geom))
    else d
  }

  /** Reading a slot's geometry and writing it back changes nothing. */
  lemma SetAssociatedOfAssociated(d: Dimension, index: nat)
    requires index < NumRefs(d)
    ensures SetAssociatedGeom(d, index, AssociatedGeom(d, index)) == d
  {
  }

  /**
   * move_obj changes only the offset, to the length of the move projected on
   * the dimension's perpendicular; that length is not modelled, so the move
   * leaves the dimension as it is.
   */
  function MoveObj(d: Dimension, delta: Vector3): (r: Dimension)
    ensures r.first == d.first && r.second == d.second && r.id == d.id
  {
    d
  }
}
