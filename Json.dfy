/**
 * JSON values as org.json hands them to the bridge, and the one coercion
 * the bridge relies on: `JSONObject.getBoolean`.
 */
module Json {
  import opened Wrappers

  /** A JSON value. `JNull` is org.json's `JSONObject.NULL`; numbers are integers. */
  datatype Json =
    | JNull
    | JBool(b: bool)
    | JNumber(n: int)
    | JString(s: string)
    | JArray(items: seq<Json>)
    | JObject(fields: map<string, Json>)

  /** The outcome of `new JSONObject(text)`: an object, or a `JSONException`. */
  datatype ObjectText = Parsed(fields: map<string, Json>) | Malformed

  /**
   * Whether `c` equals the lower-case ASCII letter `lower` ignoring case, as
   * `String.equalsIgnoreCase` decides it: the letter itself, its upper case,
   * and for 's' also U+017F (long s), whose upper case is 'S'.
   */
  predicate SameLetterIgnoringCase(c: char, lower: char)
    requires 'a' <= lower <= 'z'
  {
    c == lower || c as int == lower as int - 32 || (lower == 's' && c == 'ſ')
  }

  /** `word.equalsIgnoreCase(s)` for a lower-case ASCII `word`. */
  predicate EqualsIgnoreCase(s: string, word: string)
    requires forall i :: 0 <= i < |word| ==> 'a' <= word[i] <= 'z'
  {
    |s| == |word| && forall i :: 0 <= i < |s| ==> SameLetterIgnoringCase(s[i], word[i])
  }

  /**
   * `JSONObject.getBoolean` on a value already looked up: a boolean is itself,
   * a string reading "true" or "false" in any case is coerced, and every other
   * value makes org.json throw `JSONException` (`None`).
   */
  function GetBoolean(v: Json): (r: Option<bool>)
    ensures v.JBool? ==> r == Some(v.b)
    ensures v.JString? && EqualsIgnoreCase(v.s, "true") ==> r == Some(true)
    ensures v.JString? && EqualsIgnoreCase(v.s, "false") ==> r == Some(false)
    ensures v.JString? && !EqualsIgnoreCase(v.s, "true") && !EqualsIgnoreCase(v.s, "false") ==> r == None
    ensures r.Some? ==> v.JBool? || v.JString?
    ensures v == JNull ==> r == None
  {
    match v
    case JBool(b) => Some(b)
    case JString(s) =>
      if EqualsIgnoreCase(s, "true") then Some(true)
      else if EqualsIgnoreCase(s, "false") then Some(false)
      else None
    case _ => None
  }
}
