/** Small general-purpose helpers shared by the rest of the model. */
module Basics {

  /** An optional value: a preference that may or may not have been stored. */
  datatype Option<+T> = None | Some(value: T) {

    /** The stored value, or `default` when nothing was stored. */
    function GetOr(default: T): T {
      match this
      case Some(v) => v
      case None => default
    }
  }

  /** True iff no element occurs twice in `xs`. */
  predicate Distinct<T(==)>(xs: seq<T>) {
    forall i, j :: 0 <= i < j < |xs| ==> xs[i] != xs[j]
  }
}
