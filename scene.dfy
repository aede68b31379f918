/**
 * The renderer's scene, seen as a map from names to nodes (the rendering
 * itself is the graphics library's). A node remembers the payload it was
 * drawn from, the metadata copied onto it, and whether it was created with
 * the drag behaviour.
 */
module Scene {
  import opened Base

  datatype Entry = Entry(metadata: Json, payload: Json, draggable: bool)

  type SceneMap = map<string, Entry>

  /**
   * Renderer.renderMesh: create the node if the name is new (draggable
   * unless it is a temporary preview), then replace its metadata and
   * vertex data. An existing node keeps the drag behaviour it was made with.
   */
  function RenderMesh(s: SceneMap, triangles: Json, id: string, temp: bool): (r: SceneMap)
    ensures r.Keys == s.Keys + {id}
    ensures r[id].metadata == Index(triangles, "metadata") && r[id].payload == triangles
    ensures r[id].draggable == (if id in s then s[id].draggable else !temp)
    ensures forall k :: k in s && k != id ==> r[k] == s[k]
  {
    s[id := Entry(Index(triangles, "metadata"), triangles, if id in s then s[id].draggable else !temp)]
  }

  /** The type name a rendered object carries in its metadata. */
  function TypeOf(json: Json): Json {
    Index(Index(json, "metadata"), "type")
  }

  /**
   * Renderer.renderObject: only a Dimension is drawn (a text node, never
   * draggable when new, and its two lines); any other type leaves the scene
   * as it was. The temp flag plays no part.
   */
  function RenderObject(s: SceneMap, json: Json, id: string, temp: bool): (r: SceneMap)
    ensures TypeOf(json) != JStr("Dimension") ==> r == s
    ensures TypeOf(json) == JStr("Dimension") ==>
      r.Keys == s.Keys + {id} &&
      r[id] == Entry(Index(json, "metadata"), json, id in s && s[id].draggable) &&
      forall k :: k in s && k != id ==> r[k] == s[k]
  {
    if TypeOf(json) == JStr("Dimension") then
      s[id := Entry(Index(json, "metadata"), json, if id in s then s[id].draggable else false)]
    else s
  }

  /** Renderer.deleteMesh: remove the node if there is one. */
  function DeleteMesh(s: SceneMap, id: string): (r: SceneMap)
    ensures r.Keys == s.Keys - {id}
    ensures forall k :: k in r ==> r[k] == s[k]
  {
    s - {id}
  }

  /** Renderer.getMesh: the node of that name, or null. */
  function GetMesh(s: SceneMap, id: string): (r: Option<Entry>)
    ensures r.Some? <==> id in s
    ensures r.Some? ==> r.value == s[id]
  {
    if id in s then Some(s[id]) else None
  }

  /** Rendering the same mesh again changes nothing: renderMesh is an upsert. */
  lemma RenderMeshIdempotent(s: SceneMap, triangles: Json, id: string, temp: bool, temp2: bool)
    ensures RenderMesh(RenderMesh(s, triangles, id, temp), triangles, id, temp2) == RenderMesh(s, triangles, id, temp)
  {
  }

  /** Deleting a node just rendered is the same as deleting it from the scene as it was. */
  lemma DeleteAfterRender(s: SceneMap, triangles: Json, id: string, temp: bool)
    ensures DeleteMesh(RenderMesh(s, triangles, id, temp), id) == DeleteMesh(s, id)
  {
  }

  /** After a render the node is found under its name, with the new payload. */
  lemma GetAfterRender(s: SceneMap, triangles: Json, id: string, temp: bool)
    ensures GetMesh(RenderMesh(s, triangles, id, temp), id).Some?
    ensures GetMesh(RenderMesh(s, triangles, id, temp), id).value.payload == triangles
  {
  }

  /** Deleting twice is deleting once, and a deleted node is not found. */
  lemma DeleteIdempotent(s: SceneMap, id: string)
    ensures DeleteMesh(DeleteMesh(s, id), id) == DeleteMesh(s, id)
    ensures GetMesh(DeleteMesh(s, id), id) == None
  {
  }
}
