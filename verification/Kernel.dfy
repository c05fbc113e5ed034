/**
 * What the driver borrows from its surroundings: fixed-width unsigned integers, the values
 * of the error numbers it tests, and an option type standing for a pointer that may be NULL.
 */
module Kernel {

  type byte = x: int | 0 <= x < 0x100
  type u16 = x: int | 0 <= x < 0x1_0000
  type u32 = x: int | 0 <= x < 0x1_0000_0000

  datatype Option<+T> = None | Some(value: T)

  const ENOENT := 2
  const ENOMEM := 12
  const EINVAL := 22
  const EPIPE := 32
  const EPROTO := 71
  const ENOBUFS := 105
  const ESHUTDOWN := 108
  const ETIMEDOUT := 110

  /** A sequence without repetition. */
  ghost predicate Distinct<T>(s: seq<T>) {
    forall i, j :: 0 <= i < j < |s| ==> s[i] != s[j]
  }

  /** The sequence without its k-th element. */
  function Without<T>(s: seq<T>, k: nat): (r: seq<T>)
    requires k < |s|
    ensures |r| == |s| - 1
    ensures forall i :: 0 <= i < |r| ==> r[i] == s[if i < k then i else i + 1]
  {
    s[..k] + s[k + 1..]
  }

  /** Pigeonhole: distinct numbers below n are at most n in number. */
  lemma {:induction false} DistinctBound(s: seq<nat>, n: nat)
    requires Distinct(s)
    requires forall i :: 0 <= i < |s| ==> s[i] < n
    ensures |s| <= n
  {
    if s == [] {
      return;
    }
    assert s[0] < n;
    if k :| 0 <= k < |s| && s[k] == n - 1 {
      DistinctBound(s[..k] + s[k + 1..], n - 1);
    } else {
      DistinctBound(s, n - 1);
    }
  }
}
