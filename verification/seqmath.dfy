/** The list statistics the sensor model relies on: Python's `max`, `min` and
    `list.index`, numpy's `mean`, pandas' sample variance, `del lst[i]`, and
    the `(lst.index(max(lst)) + 1, max(lst))` idiom that every aggregate
    getter uses.
 */
module SeqMath {

  /** Largest element, `max(s)`. */
  function Max(s: seq<real>): (m: real)
    requires |s| > 0
    ensures m in s
    ensures forall i :: 0 <= i < |s| ==> s[i] <= m
  {
    if |s| == 1 then s[0]
    else
      var rest := Max(s[1..]);
      if s[0] >= rest then s[0] else rest
  }

  /** Smallest element, `min(s)`. */
  function Min(s: seq<real>): (m: real)
    requires |s| > 0
    ensures m in s
    ensures forall i :: 0 <= i < |s| ==> m <= s[i]
  {
    if |s| == 1 then s[0]
    else
      var rest := Min(s[1..]);
      if s[0] <= rest then s[0] else rest
  }

  /** `s.index(x)`: the position of the first occurrence of `x`. */
  function FirstIndex<T(==)>(s: seq<T>, x: T): (i: nat)
    requires x in s
    ensures i < |s| && s[i] == x
    ensures forall j :: 0 <= j < i ==> s[j] != x
  {
    if s[0] == x then 0 else 1 + FirstIndex(s[1..], x)
  }

  function Sum(s: seq<real>): real
  {
    if |s| == 0 then 0.0 else s[0] + Sum(s[1..])
  }

  lemma {:induction false} SumBounds(s: seq<real>, lo: real, hi: real)
    requires forall i :: 0 <= i < |s| ==> lo <= s[i] <= hi
    ensures (|s| as real) * lo <= Sum(s) <= (|s| as real) * hi
  {
    if |s| > 0 {
      SumBounds(s[1..], lo, hi);
    }
  }

  /** Arithmetic mean, `np.mean(s)`. */
  function Mean(s: seq<real>): real
    requires |s| > 0
  {
    Sum(s) / (|s| as real)
  }

  /** The mean lies within any bounds of the elements. */
  lemma MeanWithin(s: seq<real>, lo: real, hi: real)
    requires |s| > 0 && forall i :: 0 <= i < |s| ==> lo <= s[i] <= hi
    ensures lo <= Mean(s) <= hi
  {
    SumBounds(s, lo, hi);
    QuotientBounds(Sum(s), |s| as real, lo, hi);
  }

  /** The mean lies between the extremes. */
  lemma MeanBounds(s: seq<real>)
    requires |s| > 0
    ensures Min(s) <= Mean(s) <= Max(s)
  {
    MeanWithin(s, Min(s), Max(s));
  }

  lemma QuotientBounds(a: real, n: real, lo: real, hi: real)
    requires n > 0.0 && n * lo <= a <= n * hi
    ensures lo <= a / n <= hi
  {
    var q := a / n;
    assert q * n == a;
  }

  lemma SquareNonNegative(x: real)
    ensures x * x >= 0.0
  {
    if x < 0.0 {
      assert x * x == (-x) * (-x);
    }
  }

  /** Sum of squared deviations from `c`. */
  function SquaredDeviation(s: seq<real>, c: real): (d: real)
    ensures d >= 0.0
  {
    if |s| == 0 then 0.0
    else
      SquareNonNegative(s[0] - c);
      (s[0] - c) * (s[0] - c) + SquaredDeviation(s[1..], c)
  }

  /** pandas' `Series.var()`: the sample variance with `ddof = 1`. */
  function SampleVar(s: seq<real>): (v: real)
    requires |s| >= 2
    ensures v >= 0.0
    ensures (forall i :: 0 <= i < |s| ==> s[i] == s[0]) ==> v == 0.0
  {
    var m := Mean(s);
    ConstantDeviation(s, m);
    SquaredDeviation(s, m) / ((|s| - 1) as real)
  }

  lemma ConstantDeviation(s: seq<real>, c: real)
    requires |s| > 0
    requires c == Mean(s)
    ensures (forall i :: 0 <= i < |s| ==> s[i] == s[0]) ==> SquaredDeviation(s, c) == 0.0
  {
    if forall i :: 0 <= i < |s| ==> s[i] == s[0] {
      MeanBounds(s);
      ZeroDeviation(s, c);
    }
  }

  lemma {:induction false} ZeroDeviation(s: seq<real>, c: real)
    requires forall i :: 0 <= i < |s| ==> s[i] == c
    ensures SquaredDeviation(s, c) == 0.0
  {
    if |s| > 0 {
      ZeroDeviation(s[1..], c);
    }
  }

  /** `del s[i]`. */
  function RemoveAt<T>(s: seq<T>, i: nat): (r: seq<T>)
    requires i < |s|
    ensures |r| == |s| - 1
    ensures forall j :: 0 <= j < i ==> r[j] == s[j]
    ensures forall j :: i <= j < |r| ==> r[j] == s[j + 1]
  {
    assert s == s[..i] + [s[i]] + s[i + 1..];
    s[..i] + s[i + 1..]
  }

  /** A 1-based position paired with the value found there: the shape of
      every `(lst.index(max(lst)) + 1, max(lst))` result. */
  datatype Ranked = Ranked(position: nat, value: real)

  /** `(s.index(max(s)) + 1, max(s))`: the first position holding the largest
      value. */
  function FirstMax(s: seq<real>): (r: Ranked)
    requires |s| > 0
    ensures 1 <= r.position <= |s| && s[r.position - 1] == r.value
    ensures forall j :: 0 <= j < |s| ==> s[j] <= r.value
    ensures forall j :: 0 <= j < r.position - 1 ==> s[j] < r.value
  {
    var m := Max(s);
    Ranked(FirstIndex(s, m) + 1, m)
  }

  /** `(s.index(min(s)) + 1, min(s))`: the first position holding the smallest
      value. */
  function FirstMin(s: seq<real>): (r: Ranked)
    requires |s| > 0
    ensures 1 <= r.position <= |s| && s[r.position - 1] == r.value
    ensures forall j :: 0 <= j < |s| ==> r.value <= s[j]
    ensures forall j :: 0 <= j < r.position - 1 ==> r.value < s[j]
  {
    var m := Min(s);
    Ranked(FirstIndex(s, m) + 1, m)
  }

  /** One normalised sample, `(x - lo) / (hi - lo)`. */
  function Unit(x: real, lo: real, hi: real): (u: real)
    requires hi != lo
    ensures lo + u * (hi - lo) == x
  {
    (x - lo) / (hi - lo)
  }

  lemma UnitFacts(x: real, lo: real, hi: real)
    requires hi != lo
    ensures x == lo ==> Unit(x, lo, hi) == 0.0
    ensures x == hi ==> Unit(x, lo, hi) == 1.0
    ensures lo < hi && lo <= x ==> 0.0 <= Unit(x, lo, hi)
    ensures lo < hi && x <= hi ==> Unit(x, lo, hi) <= 1.0
  {
    if lo < hi && lo <= x {
      QuotientMonotone(0.0, x - lo, hi - lo);
    }
    if lo < hi && x <= hi {
      QuotientMonotone(x - lo, hi - lo, hi - lo);
    }
  }

  /** `(data - lo) / (hi - lo)` elementwise: maps `lo` to 0 and `hi` to 1, and
      `lo + r[i] * (hi - lo)` gives each sample back. */
  function Normalize(data: seq<real>, lo: real, hi: real): (r: seq<real>)
    requires hi != lo
    ensures |r| == |data|
    ensures forall i :: 0 <= i < |data| ==> lo + r[i] * (hi - lo) == data[i]
    ensures forall i :: 0 <= i < |data| && data[i] == lo ==> r[i] == 0.0
    ensures forall i :: 0 <= i < |data| && data[i] == hi ==> r[i] == 1.0
    ensures lo < hi ==> forall i :: 0 <= i < |data| && lo <= data[i] <= hi ==> 0.0 <= r[i] <= 1.0
  {
    var r := seq(|data|, i requires 0 <= i < |data| => Unit(data[i], lo, hi));
    forall i | 0 <= i < |data| {
      UnitFacts(data[i], lo, hi);
    }
    r
  }

  /** Normalisation keeps the order of the samples when `lo < hi`. */
  lemma NormalizeMonotone(data: seq<real>, lo: real, hi: real, i: nat, j: nat)
    requires lo < hi && i < |data| && j < |data| && data[i] <= data[j]
    ensures Normalize(data, lo, hi)[i] <= Normalize(data, lo, hi)[j]
  {
    var r := Normalize(data, lo, hi);
    assert r[i] == (data[i] - lo) / (hi - lo);
    assert r[j] == (data[j] - lo) / (hi - lo);
    QuotientMonotone(data[i] - lo, data[j] - lo, hi - lo);
  }

  lemma QuotientMonotone(p: real, q: real, d: real)
    requires d > 0.0 && p <= q
    ensures p / d <= q / d
  {
    assert q / d - p / d == (q - p) / d;
  }
}
