/** Shapes of what the handlers receive and send back: optional body and query
    fields, body values that may be a list or a single value, and redirects. */
module Http {

  datatype Option<T> = None | Some(value: T)

  /** A `Date.now()` timestamp; the clock itself is a parameter of every operation that reads it. */
  type Time = int

  /** A string field that is present and non-empty. This is both JavaScript's
      truthiness of a string (`!email`, `mode || 'signin'`) and what Mongoose's
      `required: true` demands of a String path. */
  predicate Filled(f: Option<string>) {
    f.Some? && f.value != ""
  }

  /** `f || fallback` for an optional string field. */
  function Or(f: Option<string>, fallback: string): (r: string)
    ensures Filled(f) ==> r == f.value
    ensures !Filled(f) ==> r == fallback
  {
    if Filled(f) then f.value else fallback
  }

  /** A body field that the client may send as an array, as a single value
      (an HTML multi-select with one option chosen) or not at all. */
  datatype FormValue = Absent | Scalar(text: string) | List(items: seq<string>)

  /** The redirects the server issues; `query` is the text after `?`. */
  datatype Redirect =
    | ToHome(query: string)
    | ToDashboard(query: string)
    | ToCompleteProfile(email: string, name: string)
}
