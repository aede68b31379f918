/**
 * The door entity (data-model/src/entities/door.rs): an updatable line segment
 * giving its position and direction, a width and a height.
 */
module DoorEntity {
  import opened Base
  import opened GeometryKernel
  import opened DataModel

  datatype Door = Door(id: RefID, dir: UpdatableLine, width: real, height: real)

  function NewDoor(first: Point3, second: Point3, length: real, width: real, height: real, id: RefID): (d: Door)
    ensures d.dir.geom.pt1 == first && d.dir.geom.pt2 == second && d.dir.refer.None?
    ensures d.width == width && d.height == height && d.id == id
  {
    Door(id, UpdatableLine(RefLineSeg(first, second, length), None), width, height)
  }

  // ---- Data ----

  function GetData(d: Door, prop: string): (r: Result<Json>)
    ensures r.Ok? <==> prop in {"Width", "Height", "Length", "First", "Second"}
    ensures r.Err? ==> r.error == PropertyNotFound
    ensures prop == "Length" ==> r == Ok(JNum(d.dir.geom.length))
    ensures prop in {"Width", "Height", "First", "Second"} ==> r == Ok(Properties(d)[prop])
  {
    match prop
    case "Width" => Ok(JNum(d.width))
    case "Height" => Ok(JNum(d.height))
    case "Length" => Ok(JNum(d.dir.geom.length))
    case "First" => Ok(PointJson(d.dir.geom.pt1))
    case "Second" => Ok(PointJson(d.dir.geom.pt2))
    case _ => Err(PropertyNotFound)
  }

  /** The property bag of the door's mesh metadata; it does not list Length. */
  function Properties(d: Door): map<string, Json> {
    map["Width" := JNum(d.width), "Height" := JNum(d.height),
        "First" := PointJson(d.dir.geom.pt1), "Second" := PointJson(d.dir.geom.pt2)]
  }

  /** set_data takes a numeric Width, Height and Length; without any of them it fails and changes nothing. */
  function SetData(d: Door, data: Json): (r: (Door, Status))
    ensures r.1.Ok? <==> Index(data, "Width").JNum? || Index(data, "Height").JNum? || Index(data, "Length").JNum?
    ensures r.1.Err? ==> r.1.error == PropertyNotFound && r.0 == d
    ensures r.0.width == (if Index(data, "Width").JNum? then Index(data, "Width").n else d.width)
    ensures r.0.height == (if Index(data, "Height").JNum? then Index(data, "Height").n else d.height)
    ensures r.0.dir.geom.length == (if Index(data, "Length").JNum? then Index(data, "Length").n else d.dir.geom.length)
    ensures r.0.id == d.id && r.0.dir.refer == d.dir.refer
    ensures r.0.dir.geom.pt1 == d.dir.geom.pt1 && r.0.dir.geom.pt2 == d.dir.geom.pt2
  {
    var w := Index(data, "Width");
    var h := Index(data, "Height");
    var l := Index(data, "Length");
    var d1 := if w.JNum? then d.(width := w.n) else d;
    var d2 := if h.JNum? then d1.(height := h.n) else d1;
    var d3 := if l.JNum? then d2.(dir := d2.dir.(geom := d2.dir.geom.(length := l.n))) else d2;
    if w.JNum? || h.JNum? || l.JNum? then (d3, Success) else (d, Err(PropertyNotFound))
  }

  /** A length written is the length read back, and nothing else moves. */
  lemma GetDataOfSetLength(d: Door, n: real)
    ensures GetData(SetData(d, JObj(map["Length" := JNum(n)])).0, "Length") == Ok(JNum(n))
    ensures SetData(d, JObj(map["Length" := JNum(n)])).0 == d.(dir := d.dir.(geom := d.dir.geom.(length := n)))
  {
    var data := JObj(map["Length" := JNum(n)]);
    assert Index(data, "Length") == JNum(n);
    assert Index(data, "Width") == JNull && Index(data, "Height") == JNull;
  }

  function Update(d: Door): (m: UpdateMsg)
    ensures m.Mesh? && m.mesh.id == d.id && m.mesh.metadata.Some?
    ensures Index(m.mesh.metadata.value, "type") == JStr("Door")
    ensures Index(m.mesh.metadata.value, "obj") == JObj(Properties(d))
  {
    Mesh(MeshData(d.id, [], [], Some(Metadata("Door", ["ReferTo", "Position", "UpdateFromRefs"], Properties(d)))))
  }

  function TempRepr(d: Door): (m: UpdateMsg)
    ensures m.Mesh? && m.mesh.id == d.id && m.mesh.metadata.None?
  {
    Mesh(MeshData(d.id, [], [], None))
  }

  // ---- ReferTo ----

  /** The corner above the second end, at the door's height. */
  function Third(d: Door): Point3 {
    Point3(d.dir.geom.pt2.x, d.dir.geom.pt2.y, d.dir.geom.pt2.z + d.height)
  }

  function GetResult(d: Door, index: nat): (r: Option<RefGeometry>)
    ensures r.Some? <==> index < NumResults(d)
    ensures index == 0 ==> r == Some(GPoint(d.dir.geom.pt1))
    ensures index == 1 ==> r == Some(GPoint(d.dir.geom.pt2))
    ensures index == 2 ==> r.Some? && r.value.GRect? && r.value.pt3.z == d.dir.geom.pt2.z + d.height
  {
    if index == 0 then Some(GPoint(d.dir.geom.pt1))
    else if index == 1 then Some(GPoint(d.dir.geom.pt2))
    else if index == 2 then Some(GRect(d.dir.geom.pt1, d.dir.geom.pt2, Third(d)))
    else None
  }

  function AllResults(d: Door): seq<RefGeometry> {
    [GPoint(d.dir.geom.pt1), GPoint(d.dir.geom.pt2), GRect(d.dir.geom.pt1, d.dir.geom.pt2, Third(d))]
  }

  function NumResults(d: Door): nat {
    3
  }

  /** get_all_results lists exactly what get_result answers, index by index. */
  lemma AllResultsIndexed(d: Door)
    ensures |AllResults(d)| == NumResults(d)
    ensures forall i :: 0 <= i < NumResults(d) ==> GetResult(d, i) == Some(AllResults(d)[i])
  {
  }

  // ---- UpdateFromRefs ----

  function ClearRefs(d: Door): (r: Door)
    ensures r == d.(dir := d.dir.(refer := None))
  {
    d.(dir := d.dir.(refer := None))
  }

  /**
   * get_refs: the segment's own reference (owner slot 0) when it has one, and
   * always the two internal references of the third geometry on the first two.
   */
  function Refs(d: Door): (r: seq<Option<GeomReference>>)
    ensures |r| == 3 && r[1].Some? && r[2].Some?
    ensures r[0].Some? <==> d.dir.refer.Some?
    ensures r[0].Some? ==> r[0].value == GeomReference(GeometryId(d.id, 0), d.dir.refer.value)
    ensures r[1].value == GeomReference(GeometryId(d.id, 2), GeometryId(d.id, 0))
    ensures r[2].value == GeomReference(GeometryId(d.id, 2), GeometryId(d.id, 1))
  {
    var first := if d.dir.refer.Some? then Some(GeomReference(GeometryId(d.id, 0), d.dir.refer.value)) else None;
    [first, Some(GeomReference(GeometryId(d.id, 2), GeometryId(d.id, 0))),
     Some(GeomReference(GeometryId(d.id, 2), GeometryId(d.id, 1)))]
  }

  /** After clearing, only the door's references to itself remain. */
  lemma ClearedRefsAreInternal(d: Door)
    ensures Refs(ClearRefs(d))[0].None?
    ensures forall k :: 0 <= k < 3 && Refs(ClearRefs(d))[k].Some? ==> Refs(ClearRefs(d))[k].value.other.obj == d.id
    ensures AvailableRefs(ClearRefs(d)) == [0]
  {
  }

  function AvailableRefs(d: Door): (r: seq<nat>)
    ensures r == [] || r == [0]
    ensures r == [0] <==> d.dir.refer.None?
  {
    if d.dir.refer.None? then [0] else []
  }

  function NumRefs(d: Door): nat {
    1
  }

  function SetRef(d: Door, index: nat, result: RefGeometry, other: GeometryId): (r: Door)
    ensures index == 0 ==> r.dir.refer == Some(other) && Refs(r)[0] == Some(GeomReference(GeometryId(d.id, 0), other))
    ensures index != 0 ==> r == d
    ensures r.id == d.id && r.dir.geom == d.dir.geom
  {
    if index == 0 then d.(dir := SetLineReference(d.dir, other)) else d
  }

  /** A door takes no extra references. */
  function AddRef(d: Door): (r: (Door, bool))
    ensures r == (d, false)
  {
    (d, false)
  }

  function DeleteRef(d: Door, index: nat): (r: Door)
    ensures index == 0 ==> r == ClearRefs(d)
    ensures index != 0 ==> r == d
  {
    if index == 0 then d.(dir := d.dir.(refer := None)) else d
  }

  function AssociatedGeom(d: Door, index: nat): (r: Option<RefGeometry>)
    ensures r.Some? <==> index == 0
    ensures index == 0 ==> r.value == GLine(d.dir.geom.pt1, d.dir.geom.pt2)
  {
    if index == 0 then Some(LineGeom(d.dir.geom)) else None
  }

  function SetAssociatedGeom(d: Door, index: nat, geom: Option<RefGeometry>): (r: Door)
    ensures r.id == d.id && r.dir.geom == d.dir.geom
    ensures index == 0 && geom.None? ==> r.dir.refer.None?
    ensures index != 0 ==> r == d
  {
    if index == 0 then d.(dir := UpdateLine(d.dir, geom)) else d
  }

  // ---- Position ----

  function MoveObj(d: Door, delta: Vector3): (r: Door)
    ensures r.dir.geom.pt1 == Translate(d.dir.geom.pt1, delta) && r.dir.geom.pt2 == Translate(d.dir.geom.pt2, delta)
    ensures r.id == d.id && r.width == d.width && r.height == d.height
    ensures r.dir.refer == d.dir.refer && r.dir.geom.length == d.dir.geom.length
  {
    d.(dir := d.dir.(geom := d.dir.geom.(pt1 := Translate(d.dir.geom.pt1, delta), pt2 := Translate(d.dir.geom.pt2, delta))))
  }
}
