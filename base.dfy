/**
 * Vocabulary shared by every module: optional values, the identifiers the
 * kernel hands out, and the JSON values that travel in property bags and in
 * update messages.
 */
module Base {

  datatype Option<T> = None | Some(value: T)

  /**
   * Object, user and undo-event ids are version-4 UUIDs in the kernel; they are
   * naturals here, and the nil UUID is 0. Minting a fresh UUID is random, so an
   * operation that mints one takes the new id as a parameter.
   */
  type RefID = nat
  const NIL: RefID := 0

  /** The serde_json value shapes the kernel produces and reads. */
  datatype Json =
    | JNull
    | JBool(b: bool)
    | JNum(n: real)
    | JStr(s: string)
    | JArr(items: seq<Json>)
    | JObj(fields: map<string, Json>)

  /** `value[key]` in serde_json: a key that is absent, or a value that is not an object, reads as Null. */
  function Index(v: Json, key: string): (r: Json)
    ensures v.JObj? && key in v.fields ==> r == v.fields[key]
    ensures !(v.JObj? && key in v.fields) ==> r == JNull
  {
    if v.JObj? && key in v.fields then v.fields[key] else JNull
  }

  function DigitChar(d: nat): (c: char)
    requires d < 10
    ensures '0' <= c <= '9'
  {
    "0123456789"[d]
  }

  /** The decimal text of a natural number, as JavaScript's `toString` and Rust's `to_string` write it. */
  function NatToDecimal(n: nat): (s: string)
    ensures 0 < |s|
    ensures forall i :: 0 <= i < |s| ==> '0' <= s[i] <= '9'
    ensures n < 10 ==> |s| == 1
    decreases n
  {
    if n < 10 then [DigitChar(n)] else NatToDecimal(n / 10) + [DigitChar(n % 10)]
  }

  function DigitValue(c: char): nat
    requires '0' <= c <= '9'
  {
    (c as int - '0' as int) as nat
  }

  /** Reads back a string of decimal digits. */
  function DecimalValue(s: string): nat
    requires forall i :: 0 <= i < |s| ==> '0' <= s[i] <= '9'
  {
    if s == [] then 0 else DecimalValue(s[..|s| - 1]) * 10 + DigitValue(s[|s| - 1])
  }

  /** The decimal text reads back as the number it was written from. */
  lemma {:induction false} DecimalRoundTrip(n: nat)
    ensures DecimalValue(NatToDecimal(n)) == n
    decreases n
  {
    if n >= 10 {
      DecimalRoundTrip(n / 10);
      var s := NatToDecimal(n);
      assert s[..|s| - 1] == NatToDecimal(n / 10);
    }
  }
}
