/**
 * System.Text.Json, seen only through what the services rely on: serializing a
 * value and reading it back is the identity, and reading may yield null (the
 * text `null`) or fail (text that is not JSON of the expected shape).
 */
module Json {
  import opened Wrappers
  import opened Errors

  /** A JSON text, classified by what deserializing it as a `T` yields. */
  datatype Json<T> = Null | Value(value: T) | Malformed

  function Serialize<T>(x: T): (j: Json<T>)
    ensures Deserialize(j) == Ok(Some(x))
  {
    Value(x)
  }

  /** `Ok(None)` is the null that `JsonSerializer.Deserialize` returns for `null`. */
  function Deserialize<T>(j: Json<T>): (r: Result<Option<T>, Error>)
    ensures r.Err? <==> j.Malformed?
    ensures r.Err? ==> r.error == MalformedJson
    ensures r == Ok(None) <==> j.Null?
    ensures r.Ok? && r.value.Some? ==> j == Value(r.value.value)
  {
    match j
    case Null => Ok(None)
    case Value(x) => Ok(Some(x))
    case Malformed => Err(MalformedJson)
  }
}
