/**
 * The geometry vocabulary of the data model (data-model/src/geometry_kernel/mod.rs):
 * points and vectors, the mesh payload with its baked-in change of axes, the
 * reference types, and the clamped interpolation value. The second half holds
 * the vocabulary the entities use to refer to each other's geometry
 * (GeometryId, the owner/other reference pair, RefGeometry and the updatable
 * geometry wrappers); those types are defined outside the modelled crates,
 * so their update rules are stated here as the entities use them.
 */
module GeometryKernel {
  import opened Base

  /** Coordinates are f64 in the kernel; they are exact reals here. */
  datatype Point3 = Point3(x: real, y: real, z: real)
  datatype Vector3 = Vector3(x: real, y: real, z: real)

  const ORIGIN: Point3 := Point3(0.0, 0.0, 0.0)

  /** serde's rendering of a point: an object with fields x, y and z. */
  function PointJson(p: Point3): (j: Json)
    ensures j.JObj? && j.fields.Keys == {"x", "y", "z"}
    ensures j.fields["x"] == JNum(p.x) && j.fields["y"] == JNum(p.y) && j.fields["z"] == JNum(p.z)
  {
    JObj(map["x" := JNum(p.x), "y" := JNum(p.y), "z" := JNum(p.z)])
  }

  function Translate(p: Point3, d: Vector3): (r: Point3)
    ensures r.x - p.x == d.x && r.y - p.y == d.y && r.z - p.z == d.z
  {
    Point3(p.x + d.x, p.y + d.y, p.z + d.z)
  }

  function Negate(d: Vector3): Vector3 {
    Vector3(-d.x, -d.y, -d.z)
  }

  /** Moving by a vector and then by its negation is no move at all. */
  lemma TranslateBack(p: Point3, d: Vector3)
    ensures Translate(Translate(p, d), Negate(d)) == p
  {
  }

  datatype Rect = Rect(a: Point3, b: Point3, c: Point3, d: Point3)

  /** The mesh payload sent to the client. Triangulation is not modelled: positions and indices are carried, never computed. */
  datatype MeshData = MeshData(id: RefID, positions: seq<real>, indices: seq<nat>, metadata: Option<Json>)

  /**
   * push_pt appends one vertex, already changed to graphic axes: the model's
   * z becomes the graphic y (up) and the model's y becomes the negated graphic z.
   */
  function PushPt(m: MeshData, pt: Point3): (r: MeshData)
    ensures r.id == m.id && r.indices == m.indices && r.metadata == m.metadata
    ensures |r.positions| == |m.positions| + 3 && r.positions[..|m.positions|] == m.positions
    ensures Point3(r.positions[|m.positions|], -r.positions[|m.positions| + 2], r.positions[|m.positions| + 1]) == pt
  {
    m.(positions := m.positions + [pt.x, pt.z, -pt.y])
  }

  /** A value between 0 and 1. */
  datatype Interp = Interp(val: real)

  /** Interp::new clamps its argument into [0, 1]. */
  function InterpNew(v: real): (r: Interp)
    ensures 0.0 <= r.val <= 1.0
    ensures 0.0 <= v <= 1.0 ==> r.val == v
    ensures v > 1.0 ==> r.val == 1.0
    ensures v < 0.0 ==> r.val == 0.0
  {
    var high := if v > 1.0 then 1.0 else v;
    var low := if high < 0.0 then 0.0 else high;
    Interp(low)
  }

  datatype RefType =
    | PointType(whichPt: nat)
    | LineType(interp: Interp, pts: (nat, nat))
    | OpeningType(which: nat)

  datatype RefResult =
    | PointResult(pt: Point3)
    | LineResult(pt: Point3, dir: Vector3)
    | OpeningResult(interp: Interp, height: real, length: real)

  datatype Reference = Reference(id: RefID, refType: RefType)

  // ---- entity-side reference vocabulary ----

  /** One piece of geometry of one object: the object and the index of the geometry within it. */
  datatype GeometryId = GeometryId(obj: RefID, index: nat)

  /** "owner's geometry follows other's geometry". */
  datatype GeomReference = GeomReference(owner: GeometryId, other: GeometryId)

  /** The geometry an object exposes to the objects that refer to it. */
  datatype RefGeometry =
    | GPoint(pt: Point3)
    | GLine(pt1: Point3, pt2: Point3)
    | GRect(pt1: Point3, pt2: Point3, pt3: Point3)

  /** A point that may follow another object's geometry. */
  datatype ParametricPoint = ParametricPoint(pt: Point3, refer: Option<GeometryId>)

  function NewParametricPoint(p: Point3): (r: ParametricPoint)
    ensures r.pt == p && r.refer == None
  {
    ParametricPoint(p, None)
  }

  /** set_reference: take the referenced point and remember whom it follows. */
  function SetReference(p: ParametricPoint, result: Point3, other: GeometryId): (r: ParametricPoint)
    ensures r.pt == result && r.refer == Some(other)
  {
    ParametricPoint(result, Some(other))
  }

  /** update: a present geometry moves the point; an absent one (the referenced object is gone) drops the reference. */
  function UpdatePoint(p: ParametricPoint, geom: Option<Point3>): (r: ParametricPoint)
    ensures geom.Some? ==> r == p.(pt := geom.value)
    ensures geom.None? ==> r == p.(refer := None)
  {
    match geom
    case Some(q) => p.(pt := q)
    case None => p.(refer := None)
  }

  /** The point geometry a dimension end exposes. */
  datatype RefPoint = RefPoint(pt: Point3)

  /** An updatable point: the geometry and the reference it follows. */
  datatype UpdatablePoint = UpdatablePoint(geom: RefPoint, refer: Option<GeometryId>)

  /** Setting a reference on a point takes the result when it is a point. */
  function SetPointReference(g: UpdatablePoint, result: RefGeometry, other: GeometryId): (r: UpdatablePoint)
    ensures r.refer == Some(other)
    ensures result.GPoint? ==> r.geom.pt == result.pt
    ensures !result.GPoint? ==> r.geom == g.geom
  {
    UpdatablePoint(if result.GPoint? then RefPoint(result.pt) else g.geom, Some(other))
  }

  function UpdateRefPoint(g: UpdatablePoint, geom: Option<RefGeometry>): (r: UpdatablePoint)
    ensures geom.None? ==> r == g.(refer := None)
    ensures geom.Some? && geom.value.GPoint? ==> r == g.(geom := RefPoint(geom.value.pt))
    ensures geom.Some? && !geom.value.GPoint? ==> r == g
  {
    match geom
    case None => g.(refer := None)
    case Some(GPoint(q)) => g.(geom := RefPoint(q))
    case Some(_) => g
  }

  /** The door's line segment: its two ends and its length property. */
  datatype RefLineSeg = RefLineSeg(pt1: Point3, pt2: Point3, length: real)

  datatype UpdatableLine = UpdatableLine(geom: RefLineSeg, refer: Option<GeometryId>)

  function LineGeom(l: RefLineSeg): (r: RefGeometry)
    ensures r.GLine? && r.pt1 == l.pt1 && r.pt2 == l.pt2
  {
    GLine(l.pt1, l.pt2)
  }

  /**
   * set_reference and update of an updatable segment are defined outside the
   * modelled crates: the segment keeps its shape, and only its reference is
   * recorded or, for an absent geometry, dropped.
   */
  function SetLineReference(g: UpdatableLine, other: GeometryId): (r: UpdatableLine)
    ensures r.geom == g.geom && r.refer == Some(other)
  {
    g.(refer := Some(other))
  }

  function UpdateLine(g: UpdatableLine, geom: Option<RefGeometry>): (r: UpdatableLine)
    ensures r.geom == g.geom
    ensures geom.None? ==> r.refer == None
    ensures geom.Some? ==> r.refer == g.refer
  {
    if geom.None? then g.(refer := None) else g
  }
}
