/** Explicit stack helpers on sequences whose top is the LAST element.
    They replace the source's global `Array.prototype.top` extension and
    JavaScript's forgiving `pop` on an empty array. */
module Stacks {

  /** A value that may be absent: the JavaScript `null`/`undefined` a peek
      or pop yields on an empty array. */
  datatype Option<+T> = None | Some(value: T)

  /** Peek: the last element, or None on an empty sequence. */
  function Top<T>(s: seq<T>): (r: Option<T>)
    ensures r.Some? <==> |s| > 0
    ensures r.Some? ==> r.value == s[|s| - 1]
  {
    if |s| == 0 then None else Some(s[|s| - 1])
  }

  /** Pop: drops the last element; popping an empty sequence changes nothing. */
  function Pop<T>(s: seq<T>): (r: seq<T>)
    ensures |s| > 0 ==> |r| == |s| - 1 && r == s[..|s| - 1]
    ensures |s| == 0 ==> r == []
  {
    if |s| == 0 then [] else s[..|s| - 1]
  }

  /** Removes the first element (`splice(0, 1)`); a no-op on an empty sequence. */
  function Behead<T>(s: seq<T>): (r: seq<T>)
    ensures |s| > 0 ==> |r| == |s| - 1 && r == s[1..]
    ensures |s| == 0 ==> r == []
  {
    if |s| == 0 then [] else s[1..]
  }
}
