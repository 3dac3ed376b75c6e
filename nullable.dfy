/** Values that the TypeScript source types as `T | null`, and the truthiness
    test its guards apply to them. */
module Nullable {

  /** `None` stands for JavaScript's `null`. */
  datatype Option<+T> = None | Some(value: T)

  /** The test `if (s)` on a `string | null`: false for `null` and for the
      empty string, true for every other string. */
  predicate IsTruthy(s: Option<string>)
  {
    s.Some? && s.value != ""
  }
}
