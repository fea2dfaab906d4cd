/** A value that may be absent: a null pointer, a failed cast or a missing match. */
module Optional {

  datatype Option<+T> = None | Some(value: T)

  /** The zero- or one-element sequence holding the value, if any. */
  function ToSeq<T>(o: Option<T>): (s: seq<T>)
    ensures |s| <= 1
    ensures o.Some? <==> |s| == 1
    ensures o.Some? ==> s[0] == o.value
  {
    match o
    case None => []
    case Some(v) => [v]
  }
}
