/**
 * The client's coordinate-frame transforms. The model keeps z up; the
 * graphics scene keeps y up, so a model point (x, y, z) is drawn at
 * (x, z, -y). The kernel's wasm Point3d is a plain triple here.
 */
module UiMath {

  /** Any value with x, y and z (CoordTriple; the kernel's Point3d). */
  datatype Triple = Triple(x: real, y: real, z: real)

  /** Babylon's Vector3, a triple in the graphics library's own type. */
  datatype BabylonVector3 = BabylonVector3(x: real, y: real, z: real)

  /** transformModelToGraphicCoords: (x, y, z) becomes (x, z, -y). */
  function ModelToGraphic(p: Triple): (r: Triple)
    ensures r.x == p.x && r.y == p.z && r.z == -p.y
  {
    Triple(p.x, p.z, -p.y)
  }

  /** transformGraphicToModelCoords: (x, y, z) becomes (x, -z, y). */
  function GraphicToModel(p: Triple): (r: Triple)
    ensures r.x == p.x && r.y == -p.z && r.z == p.y
  {
    Triple(p.x, -p.z, p.y)
  }

  /** toBabylonVector3 applies the graphic-to-model mapping, not the model-to-graphic one. */
  function ToBabylonVector3(p: Triple): (r: BabylonVector3)
    ensures Triple(r.x, r.y, r.z) == GraphicToModel(p)
  {
    BabylonVector3(p.x, -p.z, p.y)
  }

  /** Back to the model frame after going to the graphics frame: the identity. */
  lemma GraphicAfterModel(p: Triple)
    ensures GraphicToModel(ModelToGraphic(p)) == p
  {
  }

  /** And the other way round. */
  lemma ModelAfterGraphic(p: Triple)
    ensures ModelToGraphic(GraphicToModel(p)) == p
  {
  }

  function SquaredLength(p: Triple): real {
    p.x * p.x + p.y * p.y + p.z * p.z
  }

  /** The transform is a rotation about the x axis: lengths are kept. */
  lemma ModelToGraphicKeepsLength(p: Triple)
    ensures SquaredLength(ModelToGraphic(p)) == SquaredLength(p)
  {
  }

  /** toBabylonVector3 differs from model-to-graphic except on the x axis. */
  lemma ToBabylonIsNotModelToGraphic(p: Triple)
    requires p.y != 0.0 || p.z != 0.0
    ensures var b := ToBabylonVector3(p); Triple(b.x, b.y, b.z) != ModelToGraphic(p)
  {
  }
}
