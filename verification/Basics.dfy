/** Vocabulary shared by every module. */
module Basics {

  datatype Option<+T> = None | Some(value: T)

  /** Users, auctions and subscriptions are only ever compared for equality. */
  type UserId = int

  /** Milliseconds in one second; every stored window is in seconds. */
  const SECOND := 1000

  function Last<T>(s: seq<T>): T
    requires s != []
  {
    s[|s| - 1]
  }

  function Init<T>(s: seq<T>): seq<T>
    requires s != []
  {
    s[..|s| - 1]
  }

  function Max(a: int, b: int): int {
    if a < b then b else a
  }

  function Reverse<T>(s: seq<T>): (r: seq<T>)
    ensures |r| == |s|
    ensures forall i :: 0 <= i < |s| ==> r[i] == s[|s| - 1 - i]
  {
    if s == [] then [] else [Last(s)] + Reverse(Init(s))
  }
}
