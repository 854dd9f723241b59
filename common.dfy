/** Small shared vocabulary: optional values, results, and string prefixes. */
module Common {

  datatype Option<+T> = None | Some(value: T)

  datatype Result<+T, +E> = Ok(value: T) | Err(error: E)

  /** JavaScript's `s.startsWith(p)`. */
  predicate StartsWith(s: string, p: string)
  {
    |p| <= |s| && s[..|p|] == p
  }

  /** A JavaScript string is falsy exactly when it is empty; a missing property is undefined. */
  predicate Truthy(s: Option<string>)
  {
    s.Some? && s.value != ""
  }
}
