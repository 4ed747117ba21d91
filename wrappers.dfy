/** Python's `None`-or-value, as used for nullable columns and optional arguments. */
module Wrappers {

  datatype Option<T> = None | Some(value: T)

  /**
   * An optional string or list in a Python `if`: true when present and not
   * empty, so `None`, `""` and `[]` all count as missing.
   */
  predicate Truthy<T>(o: Option<seq<T>>)
  {
    o.Some? && o.value != []
  }

}
