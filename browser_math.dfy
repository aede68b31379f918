/**
 * The browser build's copy of the coordinate helpers. Here Point3d and
 * Vector3d are mutable classes of the client's own, and the transforms
 * allocate a new Point3d; the mappings are the ones of UiMath.
 */
module BrowserMath {
  import opened UiMath

  class Point3d {
    var x: real
    var y: real
    var z: real

    /** The constructor stores the coordinates unchanged. */
    constructor (x: real, y: real, z: real)
      ensures this.x == x && this.y == y && this.z == z
    {
      this.x := x;
      this.y := y;
      this.z := z;
    }

    /** The point as a CoordTriple value, as a caller reads it now. */
    function AsTriple(): (t: Triple)
      reads this
      ensures t.x == x && t.y == y && t.z == z
    {
      Triple(x, y, z)
    }
  }

  class Vector3d {
    var x: real
    var y: real
    var z: real

    /** The constructor stores the components unchanged. */
    constructor (x: real, y: real, z: real)
      ensures this.x == x && this.y == y && this.z == z
    {
      this.x := x;
      this.y := y;
      this.z := z;
    }
  }

  /** transformModelToGraphicCoords: a new point at the model-to-graphic image of p. */
  method TransformModelToGraphic(p: Triple) returns (r: Point3d)
    ensures fresh(r)
    ensures r.AsTriple() == ModelToGraphic(p)
  {
    r := new Point3d(p.x, p.z, -p.y);
  }

  /** transformGraphicToModelCoords: a new point at the graphic-to-model image of a Babylon vector. */
  method TransformGraphicToModel(p: BabylonVector3) returns (r: Point3d)
    ensures fresh(r)
    ensures r.AsTriple() == GraphicToModel(Triple(p.x, p.y, p.z))
  {
    r := new Point3d(p.x, -p.z, p.y);
  }

  /** toBabylonVector3 on a point object: the graphic-to-model mapping of its current coordinates. */
  function PointToBabylonVector3(p: Point3d): (r: BabylonVector3)
    reads p
    ensures Triple(r.x, r.y, r.z) == GraphicToModel(p.AsTriple())
  {
    BabylonVector3(p.x, -p.z, p.y)
  }

  /**
   * Taking a point to the graphics frame and reading the new point back
   * through Babylon's vector and the graphic-to-model transform restores
   * the coordinates.
   */
  method GraphicRoundTrip(p: Triple) returns (back: Point3d)
    ensures fresh(back)
    ensures back.AsTriple() == p
  {
    var g := TransformModelToGraphic(p);
    back := TransformGraphicToModel(BabylonVector3(g.x, g.y, g.z));
    GraphicAfterModel(p);
  }
}
