/** Optional values: a column that may be SQL NULL or a JSON field that may be absent. */
module Wrappers {

  datatype Option<+T> = None | Some(value: T) {

    /** Returns the value held in Some, or `default` for None. */
    function GetOr(default: T): T {
      match this
      case Some(v) => v
      case None => default
    }
  }

  /** JavaScript truthiness of an optional scalar: absent (null/undefined) and
      the type's falsy value (`0`, `""`) both read as false. */
  predicate Truthy<T(==)>(o: Option<T>, falsy: T) {
    o.Some? && o.value != falsy
  }
}
