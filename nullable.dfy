/** Values that the editor's state may leave unset (`string | null`), and the
    JavaScript notion of a "truthy" string that its guards test. */
module Nullable {

  /** `Some(v)` for a present value, `None` for `null`. */
  datatype Option<+T> = None | Some(value: T)

  /** `if (p)` on a `string | null`: false for `null` and for the empty string. */
  predicate Truthy(p: Option<string>)
  {
    p.Some? && p.value != ""
  }
}
