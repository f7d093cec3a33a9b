/** Shared helper types and functions. */
module Wrappers {

  datatype Option<+T> = None | Some(value: T)

  /** Largest value of the 32-bit signed `int` and SQL INT columns of the server. */
  const INT_MAX: int := 0x7FFF_FFFF

  /** Two's-complement reading of an integer in 32 bits. */
  function Wrap32(n: int): int {
    (n + 0x8000_0000) % 0x1_0000_0000 - 0x8000_0000
  }

  /** Counting up wraps once, however often the count has wrapped before. */
  lemma Wrap32Successor(n: int)
    ensures Wrap32(Wrap32(n) + 1) == Wrap32(n + 1)
  {
  }

  function Min(a: nat, b: nat): nat { if a <= b then a else b }

  function Repeat<T>(x: T, times: nat): seq<T> { seq(times, i => x) }

  ghost predicate Distinct<T>(s: seq<T>) {
    forall i, j :: 0 <= i < j < |s| ==> s[i] != s[j]
  }

  lemma Pick<T>(s: set<T>) returns (x: T)
    requires |s| > 0
    ensures x in s
  {
    x :| x in s;
  }
}
