/** Python's sequence slicing, for indices that may fall outside the sequence, and zero padding. */
module Python {
  /** A slice bound, counted from the end when negative, clamped to the sequence. */
  function Bound(n: nat, i: int): (b: nat)
    ensures b <= n
  {
    if i < 0 then (if n + i < 0 then 0 else n + i)
    else if i > n then n
    else i
  }

  /** `s[i:j]` */
  function Slice<T>(s: seq<T>, i: int, j: int): seq<T> {
    var lo, hi := Bound(|s|, i), Bound(|s|, j);
    if lo <= hi then s[lo..hi] else []
  }

  lemma SliceMiddle<T>(a: seq<T>, b: seq<T>, c: seq<T>)
    ensures Slice(a + b + c, |a|, |a| + |b|) == b
    ensures Slice(a + (b + c), |a|, |a| + |b|) == b
  {
    assert a + (b + c) == a + b + c;
  }

  /** `s[:n]` */
  function Take<T>(s: seq<T>, n: nat): seq<T> {
    if n <= |s| then s[..n] else s
  }

  function Zeros(n: nat): (s: string)
    ensures |s| == n
  {
    seq(n, _ => '0')
  }

  /** `s.zfill(width)`: zeros on the left, after a sign. */
  function ZFill(s: string, width: nat): (r: string)
    ensures |r| == if |s| < width then width else |s|
  {
    if |s| >= width then s
    else if s != "" && (s[0] == '+' || s[0] == '-') then [s[0]] + Zeros(width - |s|) + s[1..]
    else Zeros(width - |s|) + s
  }
}
