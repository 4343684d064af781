/** Slice helpers and the lenient float parser of the metrics package. */
module Util {
  import opened Wrappers

  /**
   * The platform float parser, supplied by the caller: None stands for a parse
   * error. Its own behaviour is not part of this model.
   */
  type ParseFn = string -> Option<real>

  /** The first n elements, in order. Go panics when n is out of range. */
  function GetTopElements<T>(s: seq<T>, n: int): (r: seq<T>)
    requires 0 <= n <= |s|
    ensures |r| == n
    ensures r + s[n..] == s
  {
    s[..n]
  }

  /** The last n elements, in their original order (not reversed). */
  function GetBottomElements<T>(s: seq<T>, n: int): (r: seq<T>)
    requires 0 <= n <= |s|
    ensures |r| == n
    ensures s[..|s| - n] + r == s
    ensures forall i :: 0 <= i < n ==> r[i] == s[|s| - n + i]
  {
    s[|s| - n..]
  }

  /** The parsed value, or 0 when the text does not parse. */
  function ParseStringToFloat(str: string, parseFloat: ParseFn): (v: real)
    ensures parseFloat(str).None? ==> v == 0.0
    ensures parseFloat(str).Some? ==> v == parseFloat(str).value
  {
    match parseFloat(str)
    case None => 0.0
    case Some(x) => x
  }

  /** Taking all elements from either end gives the whole sequence; taking none gives nothing. */
  lemma SliceExtremes<T>(s: seq<T>)
    ensures GetTopElements(s, |s|) == s && GetBottomElements(s, |s|) == s
    ensures GetTopElements(s, 0) == [] && GetBottomElements(s, 0) == []
  {
  }

  /** Top and bottom slices that together cover the sequence split it without overlap. */
  lemma TopAndBottomCover<T>(s: seq<T>, n: int)
    requires 0 <= n <= |s|
    ensures GetTopElements(s, n) + GetBottomElements(s, |s| - n) == s
  {
  }
}
