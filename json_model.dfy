/** JSON values as the jansson library represents them, and the three jansson
    accessors the token check relies on. A `json_t *` that may be NULL is an
    `Option<Json>`; a `const char *` that may be NULL is an `Option<string>`. */
module JsonModel {
  import opened Wrappers

  datatype Json =
    | JNull
    | JBool(b: bool)
    | JInteger(i: int)
    | JString(s: string)
    | JArray(items: seq<Json>)
    | JObject(members: map<string, Json>)

  /** `json_object_get`: the member `key` of an object, NULL for anything else. */
  function Get(j: Option<Json>, key: string): (r: Option<Json>)
  {
    if j.Some? && j.value.JObject? && key in j.value.members then Some(j.value.members[key]) else None
  }

  /** `json_string_value`: the text of a string, NULL for anything else. */
  function StringValue(j: Option<Json>): (r: Option<string>)
  {
    if j.Some? && j.value.JString? then Some(j.value.s) else None
  }

  /** `json_integer_value`: the value of an integer, 0 for anything else. */
  function IntegerValue(j: Option<Json>): (r: int)
  {
    if j.Some? && j.value.JInteger? then j.value.i else 0
  }

  /** A JSON array of strings, one per element of `xs`, in order. */
  function Strings(xs: seq<string>): (r: seq<Json>)
  {
    seq(|xs|, i requires 0 <= i < |xs| => JString(xs[i]))
  }
}
