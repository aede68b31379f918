/**
 * The error and message types of the data model (data-model/src/lib.rs).
 */
module DataModel {
  import opened Base
  import opened GeometryKernel

  /**
   * The kernel's error kinds. PropertyNotFound is returned by every entity's
   * property accessors although the enum as declared in lib.rs does not list it.
   */
  datatype DBError =
    | NotFound
    | Locked
    | Overwrite
    | NoUndoEvent
    | ObjLacksTrait
    | TimedOut
    | PropertyNotFound
    | Other(msg: string)

  datatype Result<T> = Ok(value: T) | Err(error: DBError)

  /** `Result<(), DBError>`. */
  type Status = Result<()>

  const Success: Status := Ok(())

  /** error_other wraps the debug rendering of a foreign error, which is given here as text. */
  function ErrorOther(debugText: string): (e: DBError)
    ensures e.Other? && e.msg == debugText
    ensures e != NotFound && e != ObjLacksTrait
  {
    Other(debugText)
  }

  /** The metadata an entity attaches to its mesh: its type name, the traits it offers and its property bag. */
  function Metadata(typeName: string, traits: seq<string>, obj: map<string, Json>): (j: Json)
    ensures j.JObj? && Index(j, "type") == JStr(typeName) && Index(j, "obj") == JObj(obj)
  {
    JObj(map["type" := JStr(typeName), "traits" := JArr(seq(|traits|, i requires 0 <= i < |traits| => JStr(traits[i]))), "obj" := JObj(obj)])
  }

  /** What the kernel sends to the client about one object. */
  datatype UpdateMsg =
    | Delete(key: RefID)
    | Mesh(mesh: MeshData)
    | OtherMsg(json: Json)
}
