/** The timestamp pipeline of a column (WTDtools/SensorColumn.py):
    finding and dropping repeated timestamps, finding gaps, and the uniform
    grid `resample` puts in place of the time index. Only the timestamp
    sequence is modelled; what pandas does to the channel values when the
    frame is reindexed is not.
 */
module Timestamps {
  import opened Common

  /** Two neighbours at `i` and `i + 1` carry the same timestamp. */
  predicate Repeated(t: seq<real>, i: int) {
    0 <= i < |t| - 1 && t[i] == t[i + 1]
  }

  predicate Increasing(s: seq<nat>) {
    forall i, j :: 0 <= i < j < |s| ==> s[i] < s[j]
  }

  /** The positions `off + i` of the suffix `t` (which starts at position
      `off` of the full sequence) whose timestamp repeats at the next one. */
  function RepeatsFrom(t: seq<real>, off: nat): (r: seq<nat>)
    ensures forall i :: i in r <==> off <= i && Repeated(t, i - off)
    ensures Increasing(r)
    ensures forall k :: 0 <= k < |r| ==> off <= r[k]
    ensures |r| < |t| || |t| == 0
    decreases |t|
  {
    if |t| < 2 then []
    else
      var rest := RepeatsFrom(t[1..], off + 1);
      var r := (if t[0] == t[1] then [off] else []) + rest;
      assert forall i :: i in r <==> off <= i && Repeated(t, i - off) by {
        forall i ensures i in r <==> off <= i && Repeated(t, i - off) {
          if off < i {
            RepeatedShift(t, i - off - 1);
          }
        }
      }
      r
  }

  /** Dropping the first timestamp shifts every repeat one place down. */
  lemma RepeatedShift(t: seq<real>, j: nat)
    requires |t| > 0
    ensures Repeated(t[1..], j) <==> Repeated(t, j + 1)
  {
  }

  /** `np.where(time[1:] == time[:-1])[0]`: the ascending positions whose
      timestamp equals the next one. */
  function Repeats(t: seq<real>): (r: seq<nat>)
    ensures forall i :: i in r <==> Repeated(t, i)
    ensures Increasing(r)
    ensures |r| == 0 <==> Distinct(t)
  {
    var r := RepeatsFrom(t, 0);
    assert forall i :: 0 <= i < |t| - 1 && t[i] == t[i + 1] ==> Repeated(t, i) && i in r;
    assert |r| > 0 ==> r[0] in r && Repeated(t, r[0]);
    r
  }

  /** `find_duplicates` on the column's `_Time`. The `hasattr` guard
      always passes, since the base initialiser sets `_Data`; an unset
      `_Time` is `None`, and slicing it raises `TypeError`. Otherwise the
      result is `None` when no timestamp repeats, else the positions of the
      repeats. */
  function FindDuplicates(time: Option<seq<real>>): (r: Result<Option<seq<nat>>>)
    ensures time.None? <==> r == Err(NotSubscriptable)
    ensures r.Ok? ==> (r.value.None? <==> Distinct(time.value))
    ensures r.Ok? && r.value.Some? ==>
              |r.value.value| > 0 && Increasing(r.value.value)
              && forall i :: i in r.value.value <==> Repeated(time.value, i)
  {
    if time.None? then Err(NotSubscriptable)
    else
      var idx := Repeats(time.value);
      if |idx| == 0 then Ok(None) else Ok(Some(idx))
  }

  /** `np.delete(t, idx)` on the suffix `t` starting at position `off`:
      every position listed in `idx` goes, the rest stays in order. */
  function DeleteFrom(t: seq<real>, idx: seq<nat>, off: nat): (r: seq<real>)
    ensures |r| <= |t|
    ensures forall x :: x in r ==> x in t
    decreases |t|
  {
    if |t| == 0 then []
    else (if off in idx then [] else [t[0]]) + DeleteFrom(t[1..], idx, off + 1)
  }

  /** `np.delete(t, idx)`. */
  function Delete(t: seq<real>, idx: seq<nat>): (r: seq<real>)
    ensures |r| <= |t|
  {
    DeleteFrom(t, idx, 0)
  }

  /** The effect of `drop_duplicates` on the time index: unchanged when
      `find_duplicates` finds nothing, otherwise the repeats deleted. */
  function DropDuplicates(t: seq<real>): (r: seq<real>)
    ensures |r| <= |t|
  {
    var idx := Repeats(t);
    if |idx| == 0 then t else Delete(t, idx)
  }

  /** A reference definition: of each run of equal timestamps keep the
      last one. */
  function KeepLast(t: seq<real>): (r: seq<real>)
    decreases |t|
  {
    if |t| < 2 then t
    else if t[0] == t[1] then KeepLast(t[1..])
    else [t[0]] + KeepLast(t[1..])
  }

  predicate Distinct(t: seq<real>) {
    forall i :: 0 <= i < |t| - 1 ==> !Repeated(t, i)
  }

  /** Every stamp is later than the one before it. */
  predicate Ascending(t: seq<real>) {
    forall i :: 0 < i < |t| ==> t[i - 1] < t[i]
  }

  /** Deleting exactly the repeat positions keeps the last of each run. */
  lemma {:induction false} DeleteRepeats(t: seq<real>, idx: seq<nat>, off: nat)
    requires forall j :: off <= j < off + |t| ==> (j in idx <==> Repeated(t, j - off))
    ensures DeleteFrom(t, idx, off) == KeepLast(t)
    decreases |t|
  {
    if |t| == 0 {
    } else if |t| == 1 {
      assert off !in idx;
      assert DeleteFrom(t[1..], idx, off + 1) == [];
    } else {
      forall j | off + 1 <= j < off + 1 + |t[1..]|
        ensures j in idx <==> Repeated(t[1..], j - (off + 1))
      {
        assert Repeated(t[1..], j - (off + 1)) <==> Repeated(t, j - off);
      }
      DeleteRepeats(t[1..], idx, off + 1);
      assert off in idx <==> t[0] == t[1];
    }
  }

  /** `drop_duplicates` agrees with the reference definition. */
  lemma DropIsKeepLast(t: seq<real>)
    ensures DropDuplicates(t) == KeepLast(t)
  {
    var idx := Repeats(t);
    if |idx| == 0 {
      NoRepeatsKept(t);
    } else {
      DeleteRepeats(t, idx, 0);
    }
  }

  /** Without repeats there is nothing to drop. */
  lemma {:induction false} NoRepeatsKept(t: seq<real>)
    requires Distinct(t)
    ensures KeepLast(t) == t
    decreases |t|
  {
    if |t| >= 2 {
      assert Distinct(t[1..]) by {
        forall i | 0 <= i < |t| - 2 ensures !Repeated(t[1..], i) {
          RepeatedShift(t, i);
          assert !Repeated(t, i + 1);
        }
      }
      assert !Repeated(t, 0);
      NoRepeatsKept(t[1..]);
    }
  }

  /** Keeping the last of each run starts with the first timestamp and
      keeps every value that occurs. */
  lemma {:induction false} KeepLastValues(t: seq<real>)
    ensures |t| > 0 ==> |KeepLast(t)| > 0 && KeepLast(t)[0] == t[0]
    ensures forall x :: x in KeepLast(t) <==> x in t
    decreases |t|
  {
    if |t| >= 2 {
      KeepLastValues(t[1..]);
      assert t == [t[0]] + t[1..];
    }
  }

  /** After keeping the last of each run no timestamp repeats. */
  lemma {:induction false} KeepLastDistinct(t: seq<real>)
    ensures Distinct(KeepLast(t))
    decreases |t|
  {
    if |t| >= 2 {
      KeepLastDistinct(t[1..]);
      if t[0] != t[1] {
        var rest := KeepLast(t[1..]);
        KeepLastValues(t[1..]);
        var r := [t[0]] + rest;
        forall i | 0 <= i < |r| - 1 ensures !Repeated(r, i) {
          if 1 <= i {
            assert !Repeated(rest, i - 1);
            assert r[i] == rest[i - 1] && r[i + 1] == rest[i];
          }
        }
      }
    }
  }

  /** Each dropped timestamp is one reported repeat. */
  lemma {:induction false} KeepLastLength(t: seq<real>, off: nat)
    ensures |KeepLast(t)| == |t| - |RepeatsFrom(t, off)|
    decreases |t|
  {
    if |t| >= 2 {
      KeepLastLength(t[1..], off + 1);
    }
  }

  /** `drop_duplicates` leaves no repeat behind, keeps every timestamp
      value, shortens the index by the number of repeats
      `find_duplicates` reports, and a second call changes nothing. */
  lemma DropDuplicatesSpec(t: seq<real>)
    ensures Distinct(DropDuplicates(t))
    ensures forall x :: x in DropDuplicates(t) <==> x in t
    ensures |DropDuplicates(t)| == |t| - |Repeats(t)|
    ensures FindDuplicates(Some(DropDuplicates(t))) == Ok(None)
    ensures DropDuplicates(DropDuplicates(t)) == DropDuplicates(t)
  {
    DropIsKeepLast(t);
    KeepLastDistinct(t);
    KeepLastValues(t);
    KeepLastLength(t, 0);
    var d := DropDuplicates(t);
    DropIsKeepLast(d);
    NoRepeatsKept(d);
  }

  /** The gaps `find_gaps(thresh)` reports: for each position `i` where
      the next timestamp is more than `thresh` later, `i` with the two
      timestamps around the gap. */
  datatype Gap = Gap(index: nat, start: real, stop: real)

  /** The next timestamp after position `i` is more than `thresh` later. */
  predicate IsGap(t: seq<real>, thresh: real, i: int) {
    0 <= i < |t| - 1 && t[i + 1] - t[i] > thresh
  }

  /** The gap after position `i`, with the timestamps around it. */
  function GapAt(t: seq<real>, i: nat): Gap
    requires i < |t| - 1
  {
    Gap(i, t[i], t[i + 1])
  }

  /** The gaps from position `k` on. */
  function GapsFrom(t: seq<real>, thresh: real, k: nat): (r: seq<Gap>)
    requires k <= |t|
    ensures forall g :: g in r ==> k <= g.index && IsGap(t, thresh, g.index) && g == GapAt(t, g.index)
    ensures forall i :: k <= i && IsGap(t, thresh, i) ==> GapAt(t, i) in r
    ensures forall a, b :: 0 <= a < b < |r| ==> r[a].index < r[b].index
    decreases |t| - k
  {
    if k + 1 >= |t| then []
    else
      var rest := GapsFrom(t, thresh, k + 1);
      if IsGap(t, thresh, k) then [GapAt(t, k)] + rest else rest
  }

  /** `find_gaps(thresh)`: both assertions pass (`_Time` always exists and
      the threshold is a number), so an unset `_Time` fails only when it is
      sliced, with `TypeError`; otherwise the gaps in ascending order. */
  function FindGaps(time: Option<seq<real>>, thresh: real): (r: Result<seq<Gap>>)
    ensures time.None? <==> r == Err(NotSubscriptable)
    ensures r.Ok? ==> forall g :: g in r.value <==> IsGap(time.value, thresh, g.index) && g == GapAt(time.value, g.index)
    ensures r.Ok? ==> forall k, l :: 0 <= k < l < |r.value| ==> r.value[k].index < r.value[l].index
  {
    if time.None? then Err(NotSubscriptable)
    else
      Ok(GapsFrom(time.value, thresh, 0))
  }

  /** The span of the uniform grid, in milliseconds. */
  const Span: nat := 260000

  /** The number of points `np.arange(step, 260000 + step, step)` yields
      for `step = rate / 10`: the ceiling of `2600000 / rate`. */
  function GridSize(rate: nat): (n: nat)
    requires rate > 0
    ensures n * rate >= 10 * Span
    ensures (n - 1) * rate < 10 * Span
  {
    (10 * Span + rate - 1) / rate
  }

  /** The grid of `resample(rate)`: `step = rate / 10` and point `k` is
      `(k + 1) * step`. A zero rate divides by zero in `np.arange`; a
      negative one gives an empty range. */
  function Grid(rate: int): (r: Result<seq<real>>)
    ensures rate == 0 <==> r == Err(DivisionByZero)
    ensures rate < 0 ==> r == Ok([])
    ensures rate > 0 ==> r.Ok? && |r.value| == GridSize(rate)
    ensures rate > 0 ==> forall k :: 0 <= k < |r.value| ==> r.value[k] == (k + 1) as real * (rate as real / 10.0)
  {
    if rate == 0 then Err(DivisionByZero)
    else if rate < 0 then Ok([])
    else
      var step := rate as real / 10.0;
      Ok(seq(GridSize(rate), k requires 0 <= k => (k + 1) as real * step))
  }

  /** `k` steps of `rate / 10` compared with the span, in integers. */
  lemma StepsReach(k: nat, rate: nat)
    ensures k as real * (rate as real / 10.0) == (k * rate) as real / 10.0
    ensures k * rate >= 10 * Span ==> k as real * (rate as real / 10.0) >= Span as real
    ensures k * rate < 10 * Span ==> k as real * (rate as real / 10.0) < Span as real
  {
  }

  /** The grid is uniform with spacing `rate / 10`, starts one step in
      and is strictly increasing. */
  lemma GridUniform(rate: nat)
    requires rate > 0
    ensures var g := Grid(rate).value;
            |g| > 0 && g[0] == rate as real / 10.0
            && (forall k :: 0 <= k < |g| - 1 ==> g[k + 1] - g[k] == rate as real / 10.0)
            && (forall k, l :: 0 <= k < l < |g| ==> g[k] < g[l])
  {
    var g := Grid(rate).value;
    var step := rate as real / 10.0;
    assert GridSize(rate) > 0;
    forall k, l | 0 <= k < l < |g| ensures g[k] < g[l] {
      assert g[l] - g[k] == (l - k) as real * step;
    }
  }

  /** The last grid point is the first one to reach 260000 ms. */
  lemma GridCovers(rate: nat)
    requires rate > 0
    ensures var g := Grid(rate).value;
            |g| > 0 && g[|g| - 1] >= Span as real && g[|g| - 1] - rate as real / 10.0 < Span as real
  {
    var n := GridSize(rate);
    var step := rate as real / 10.0;
    assert n > 0;
    StepsReach(n, rate);
    StepsReach(n - 1, rate);
    assert Grid(rate).value[n - 1] == n as real * step;
    assert n as real * step - step == (n - 1) as real * step;
  }
}
