/** Optional values: `None` stands for a missing cell (pandas NaN/NaT) or a
    failed conversion, `Some(v)` for a present value. */
module Wrappers {

  datatype Option<+T> = None | Some(value: T) {

    /** The value, or `default` when it is missing. */
    function GetOr(default: T): T {
      match this
      case Some(v) => v
      case None => default
    }

    /** The value as a sequence of zero or one element. */
    function ToSeq(): (s: seq<T>)
      ensures |s| <= 1 && (s == [] <==> None?)
      ensures Some? ==> s == [value]
    {
      match this
      case Some(v) => [v]
      case None => []
    }
  }
}
