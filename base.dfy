/** The nullable values of the C# source (`string?`, `long?`) as an Option. */
module Wrappers {

  datatype Option<+T> = None | Some(value: T)

  /** `!string.IsNullOrEmpty(s)` for a nullable string. */
  predicate NonEmpty(s: Option<string>)
  {
    s.Some? && s.value != ""
  }
}
