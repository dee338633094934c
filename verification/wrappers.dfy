/** Small datatypes shared by the job and story models. */
module Wrappers {

  /** A value that may be absent: the model of a nullable column or `None`. */
  datatype Option<+T> = None | Some(value: T)

  /** A value or the error that was raised instead. */
  datatype Result<+T, +E> = Ok(value: T) | Err(error: E)

  /** A point in time, as returned by `datetime.now()` or stored in a
      timestamp column. */
  type Timestamp = int

  /** Index of the first element of `s` satisfying `p`, if any: the model of
      `query(...).first()` and of `next((x for x in s if p(x)), None)`. */
  function FirstMatch<T>(s: seq<T>, p: T -> bool): (r: Option<nat>)
    ensures r.Some? ==> r.value < |s| && p(s[r.value])
    ensures r.Some? ==> forall j :: 0 <= j < r.value ==> !p(s[j])
    ensures r.None? <==> forall j :: 0 <= j < |s| ==> !p(s[j])
    decreases |s|
  {
    if |s| == 0 then None
    else if p(s[0]) then Some(0)
    else
      match FirstMatch(s[1..], p)
      case None => None
      case Some(i) => Some(i + 1)
  }
}
