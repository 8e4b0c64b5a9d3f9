/** The usual optional value: `None` stands for JavaScript's null/undefined
    (or Python's None) wherever the source returns "no value". */
module Wrappers {

  datatype Option<+T> = None | Some(value: T) {

    /** The value, or `default` when there is none (JavaScript's `x ?? d`). */
    function GetOr(default: T): T
    {
      match this
      case Some(v) => v
      case None => default
    }
  }

  /** The outcome of an operation that can throw: the value, or the message
      of the error thrown. */
  datatype Result<+T> = Success(value: T) | Failure(error: string)

  /** `s.map(f)` where `f` may throw: the mapped list, or `None` as soon as
      one element throws. */
  function MapAll<T, U>(s: seq<T>, f: T -> Option<U>): (r: Option<seq<U>>)
    ensures r.Some? ==> |r.value| == |s| && forall i :: 0 <= i < |s| ==> f(s[i]) == Some(r.value[i])
    ensures r.None? ==> exists i :: 0 <= i < |s| && f(s[i]).None?
    decreases |s|
  {
    if s == [] then Some([])
    else
      var init := MapAll(s[..|s| - 1], f);
      var last := f(s[|s| - 1]);
      if init.None? then None
      else if last.None? then None
      else Some(init.value + [last.value])
  }
}
