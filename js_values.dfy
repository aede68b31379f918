/**
 * How the client reads the JSON values the kernel sends it: JavaScript's
 * truthiness, and the string a value names when it is used as a key.
 */
module JsValues {
  import opened Base

  /** JavaScript truthiness. A field that is absent reads as null (Base.Index), so it is falsy too. */
  predicate Truthy(j: Json) {
    match j
    case JNull => false
    case JBool(b) => b
    case JNum(n) => n != 0.0
    case JStr(s) => s != ""
    case JArr(_) => true
    case JObj(_) => true
  }

  /** A value used as a registry key or a scene name. Ids travel as strings; any other value is read as the empty string. */
  function KeyText(j: Json): (k: string)
    ensures j.JStr? ==> k == j.s
    ensures !j.JStr? ==> k == ""
  {
    if j.JStr? then j.s else ""
  }

  /** A truthy id always names itself: the empty string is falsy. */
  lemma TruthyStringKey(j: Json)
    requires j.JStr? && Truthy(j)
    ensures KeyText(j) != ""
  {
  }
}
