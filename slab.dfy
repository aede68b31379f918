/**
 * The slab entity (data-model/src/entities/slab.rs): a placeholder that has
 * only an id. Every trait it implements answers with nothing.
 */
module SlabEntity {
  import opened Base
  import opened GeometryKernel
  import opened DataModel

  datatype Slab = Slab(id: RefID)

  /** update: an empty mesh whose metadata calls the slab a "Wall" and carries no properties. */
  function Update(s: Slab): (m: UpdateMsg)
    ensures m.Mesh? && m.mesh.id == s.id && m.mesh.positions == [] && m.mesh.indices == []
    ensures m.mesh.metadata.Some? && Index(m.mesh.metadata.value, "type") == JStr("Wall")
    ensures Index(m.mesh.metadata.value, "obj") == JObj(map[])
  {
    Mesh(MeshData(s.id, [], [], Some(Metadata("Wall", ["ReferTo", "Position", "UpdateFromRefs"], map[]))))
  }

  function TempRepr(s: Slab): (m: UpdateMsg)
    ensures m.Mesh? && m.mesh.id == s.id && m.mesh.metadata.None?
  {
    Mesh(MeshData(s.id, [], [], None))
  }

  function GetData(s: Slab, prop: string): (r: Result<Json>)
    ensures r == Err(PropertyNotFound)
  {
    Err(PropertyNotFound)
  }

  /** set_data never finds anything to change. */
  function SetData(s: Slab, data: Json): (r: (Slab, Status))
    ensures r == (s, Err(PropertyNotFound))
  {
    (s, Err(PropertyNotFound))
  }

  function GetResult(s: Slab, index: nat): (r: Option<RefGeometry>)
    ensures r.None?
  {
    None
  }

  function AllResults(s: Slab): (r: seq<RefGeometry>)
    ensures r == []
  {
    []
  }

  function Refs(s: Slab): (r: seq<Option<GeomReference>>)
    ensures r == []
  {
    []
  }
}
