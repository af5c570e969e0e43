/** The FixedLengthUnit as its constructor documents it: a flat sequence is
    padded with `pad_value` or truncated so that exactly `target_length`
    values remain. Padding goes before (`pre`) or after (`post`) the values;
    truncation removes values from the beginning (`pre`) or the end (`post`). */
module FixedLength {

  datatype Mode = Pre | Post

  /** `k` copies of the pad value. */
  function Padding(v: int, k: nat): (r: seq<int>)
    ensures |r| == k
    ensures forall i :: 0 <= i < k ==> r[i] == v
  {
    seq(k, _ => v)
  }

  /** The fixed-length view of `s`. Values of `s` that survive keep their
      order; every other position holds `pad`. */
  function FixLength(s: seq<int>, n: nat, pad: int, padMode: Mode, truncateMode: Mode): (r: seq<int>)
    ensures |r| == n
    // too long: a window of n consecutive values of s survives
    ensures |s| >= n && truncateMode == Pre ==> r == s[|s| - n..]
    ensures |s| >= n && truncateMode == Post ==> r == s[..n]
    // too short: s survives whole, the rest is padding on the chosen side
    ensures |s| <= n && padMode == Pre ==>
              r[n - |s|..] == s && forall i :: 0 <= i < n - |s| ==> r[i] == pad
    ensures |s| <= n && padMode == Post ==>
              r[..|s|] == s && forall i :: |s| <= i < n ==> r[i] == pad
  {
    if |s| > n then
      match truncateMode
      case Pre => s[|s| - n..]
      case Post => s[..n]
    else if |s| < n then
      match padMode
      case Pre => Padding(pad, n - |s|) + s
      case Post => s + Padding(pad, n - |s|)
    else
      s
  }

  function Min(a: int, b: int): int
  {
    if a < b then a else b
  }

  /** Number of values of `s` that survive in FixLength(s, n, ...). */
  function ContentCount(s: seq<int>, n: nat): nat
  {
    Min(|s|, n)
  }

  /** The position in FixLength(s, n, ...) where the surviving values of
      `s` begin. */
  function ContentStart(s: seq<int>, n: nat, padMode: Mode): nat
  {
    if |s| < n && padMode == Pre then n - |s| else 0
  }

  /** The output holds the surviving values of `s` at exactly ContentCount
      consecutive positions starting at ContentStart, in their order in `s`
      (the last ones for `pre` truncation, the first ones otherwise), and
      the pad value at every other position. */
  lemma FixLengthContent(s: seq<int>, n: nat, pad: int, padMode: Mode, truncateMode: Mode)
    ensures var r := FixLength(s, n, pad, padMode, truncateMode);
            var c, o := ContentCount(s, n), ContentStart(s, n, padMode);
            && o + c <= n
            && r[o..o + c] == (if truncateMode == Pre then s[|s| - c..] else s[..c])
            && forall i :: 0 <= i < n && !(o <= i < o + c) ==> r[i] == pad
  {
  }

  /** A sequence that already has the target length passes unchanged, so
      applying the unit twice is the same as applying it once. */
  lemma FixLengthIdempotent(s: seq<int>, n: nat, pad: int, padMode: Mode, truncateMode: Mode)
    ensures FixLength(FixLength(s, n, pad, padMode, truncateMode), n, pad, padMode, truncateMode)
            == FixLength(s, n, pad, padMode, truncateMode)
  {
  }
}
