/** Board outlier validation (WTDtools/SensorBoard.py, `validate`).

    Two working copies of the eight sensor minima shrink together: each round
    removes the largest value from one copy and the smallest from the other,
    then compares each removed value with the mean of what remains in its
    copy. A round flags at most one sensor, and it names that sensor by the
    removed value's 1-based position in the copy as it was at the start of
    the round, which after the first round is no longer the sensor number.
 */
module Validation {
  import opened Common
  import opened SeqMath

  /** The two tests of a round, once the largest value `high` has been
      taken from position `highAt` of one copy (leaving `upRest`) and the
      smallest value `low` from position `lowAt` of the other (leaving
      `loRest`). The high test is tried first. */
  function Verdict(high: real, highAt: nat, upRest: seq<real>,
                   low: real, lowAt: nat, loRest: seq<real>): Option<nat>
    requires |upRest| > 0 && |loRest| > 0
  {
    if high >= 3.0 * Mean(upRest) then Some(highAt + 1)
    else if low <= Mean(loRest) / 3.0 then Some(lowAt + 1)
    else None
  }

  /** What one round decides: `Some(p)` flags the sensor called `Sensor<p>`,
      `None` flags nothing. */
  function Decide(up: seq<real>, lo: seq<real>): (d: Option<nat>)
    requires |up| == |lo| >= 2
    ensures d.Some? ==> 1 <= d.value <= |up|
  {
    var maxIdx := ArgMax(up);
    var minIdx := ArgMin(lo);
    Verdict(up[maxIdx], maxIdx, RemoveAt(up, maxIdx), lo[minIdx], minIdx, RemoveAt(lo, minIdx))
  }

  /** `del up_mins[up_mins.index(max(up_mins))]`. */
  function DropLargest(up: seq<real>): (r: seq<real>)
    requires |up| > 0
    ensures |r| == |up| - 1
  {
    RemoveAt(up, ArgMax(up))
  }

  /** `del lo_mins[lo_mins.index(min(lo_mins))]`. */
  function DropSmallest(lo: seq<real>): (r: seq<real>)
    requires |lo| > 0
    ensures |r| == |lo| - 1
  {
    RemoveAt(lo, ArgMin(lo))
  }

  /** `s.index(max(s))`, found in one pass. */
  function ArgMax(s: seq<real>): (i: nat)
    requires |s| > 0
    ensures FirstLargest(s, i)
  {
    if |s| == 1 then 0
    else
      var j := ArgMax(s[1..]);
      if s[0] >= s[1 + j] then 0 else 1 + j
  }

  /** `s.index(min(s))`, found in one pass. */
  function ArgMin(s: seq<real>): (i: nat)
    requires |s| > 0
    ensures FirstSmallest(s, i)
  {
    if |s| == 1 then 0
    else
      var j := ArgMin(s[1..]);
      if s[0] <= s[1 + j] then 0 else 1 + j
  }

  /** The one-pass positions are the ones Python's `max`, `min` and
      `list.index` find, and the values there are `max(s)` and `min(s)`. */
  lemma ArgExtremesArePython(s: seq<real>)
    requires |s| > 0
    ensures ArgMax(s) == FirstIndex(s, Max(s)) && s[ArgMax(s)] == Max(s)
    ensures ArgMin(s) == FirstIndex(s, Min(s)) && s[ArgMin(s)] == Min(s)
  {
    FirstLargestIsIndex(s, ArgMax(s));
    FirstSmallestIsIndex(s, ArgMin(s));
  }

  /** `i` is where `s.index(max(s))` lands: a largest element with nothing
      as large before it. */
  predicate FirstLargest(s: seq<real>, i: nat) {
    i < |s| && (forall j :: 0 <= j < |s| ==> s[j] <= s[i]) && (forall j :: 0 <= j < i ==> s[j] < s[i])
  }

  /** `i` is where `s.index(min(s))` lands. */
  predicate FirstSmallest(s: seq<real>, i: nat) {
    i < |s| && (forall j :: 0 <= j < |s| ==> s[i] <= s[j]) && (forall j :: 0 <= j < i ==> s[i] < s[j])
  }

  lemma FirstLargestIsIndex(s: seq<real>, i: nat)
    requires FirstLargest(s, i)
    ensures Max(s) == s[i] && FirstIndex(s, Max(s)) == i
  {
    var k := FirstIndex(s, Max(s));
    assert s[k] == Max(s);
  }

  lemma FirstSmallestIsIndex(s: seq<real>, i: nat)
    requires FirstSmallest(s, i)
    ensures Min(s) == s[i] && FirstIndex(s, Min(s)) == i
  {
    var k := FirstIndex(s, Min(s));
    assert s[k] == Min(s);
  }

  /** The round decision in terms of the positions it picks: the high test
      comes first, and the low test is only reached when the high test
      fails. */
  lemma DecideSpec(up: seq<real>, lo: seq<real>, i: nat, k: nat)
    requires |up| == |lo| >= 2
    requires FirstLargest(up, i) && FirstSmallest(lo, k)
    ensures up[i] >= 3.0 * Mean(RemoveAt(up, i)) ==> Decide(up, lo) == Some(i + 1)
    ensures up[i] < 3.0 * Mean(RemoveAt(up, i)) && lo[k] <= Mean(RemoveAt(lo, k)) / 3.0 ==>
              Decide(up, lo) == Some(k + 1)
    ensures up[i] < 3.0 * Mean(RemoveAt(up, i)) && lo[k] > Mean(RemoveAt(lo, k)) / 3.0 ==>
              Decide(up, lo) == None
    ensures Decide(up, lo) == Verdict(up[i], i, RemoveAt(up, i), lo[k], k, RemoveAt(lo, k))
  {
    FirstLargestUnique(up, ArgMax(up), i);
    FirstSmallestUnique(lo, ArgMin(lo), k);
  }

  lemma FirstLargestUnique(s: seq<real>, i: nat, j: nat)
    requires FirstLargest(s, i) && FirstLargest(s, j)
    ensures i == j
  {
    assert s[i] == s[j];
  }

  lemma FirstSmallestUnique(s: seq<real>, i: nat, j: nat)
    requires FirstSmallest(s, i) && FirstSmallest(s, j)
    ensures i == j
  {
    assert s[i] == s[j];
  }

  /** The decision of every round of `while len(up_mins) > 1`, in order. The
      copies lose one element per round, so there are `n - 1` rounds for
      `n` sensors and round `k` (from 0) names a position in `1..n - k`. */
  function Rounds(up: seq<real>, lo: seq<real>): (ds: seq<Option<nat>>)
    requires |up| == |lo|
    ensures |ds| == if |up| <= 1 then 0 else |up| - 1
    ensures forall k :: 0 <= k < |ds| && ds[k].Some? ==> 1 <= ds[k].value <= |up| - k
    decreases |up|
  {
    if |up| <= 1 then []
    else
      [Decide(up, lo)] + Rounds(DropLargest(up), DropSmallest(lo))
  }

  /** The sensor numbers some round flags. */
  function Flagged(ds: seq<Option<nat>>): (f: set<nat>)
    ensures forall p :: p in f <==> exists k :: 0 <= k < |ds| && ds[k] == Some(p)
  {
    if |ds| == 0 then {}
    else
      var rest := Flagged(ds[1..]);
      assert forall k :: 1 <= k < |ds| ==> ds[1..][k - 1] == ds[k];
      (if ds[0].Some? then {ds[0].value} else {}) + rest
  }

  /** A round flags at most one sensor, so there are no more distinct flags
      than rounds. */
  lemma {:induction false} FlaggedBound(ds: seq<Option<nat>>)
    ensures |Flagged(ds)| <= |ds|
  {
    if |ds| > 0 {
      FlaggedBound(ds[1..]);
      var rest := Flagged(ds[1..]);
      var head: set<nat> := if ds[0].Some? then {ds[0].value} else {};
      assert Flagged(ds) == head + rest;
      assert |head + rest| <= |head| + |rest|;
    }
  }

  /** Clears the flag of every named sensor in turn, as `set_valid(False)`
      on `Sensor<p>` does; `valid[p - 1]` is the flag of `Sensor<p>`. */
  function Apply(valid: seq<bool>, ds: seq<Option<nat>>): (r: seq<bool>)
    requires forall k :: 0 <= k < |ds| && ds[k].Some? ==> 1 <= ds[k].value <= |valid|
    ensures |r| == |valid|
    ensures forall i :: 0 <= i < |valid| ==> (r[i] <==> valid[i] && i + 1 !in Flagged(ds))
    decreases |ds|
  {
    if |ds| == 0 then valid
    else
      var next := if ds[0].Some? then valid[ds[0].value - 1 := false] else valid;
      assert forall k :: 1 <= k < |ds| ==> ds[1..][k - 1] == ds[k];
      Apply(next, ds[1..])
  }

  /** The flags of a freshly built board of `n` sensors. */
  function AllValid(n: nat): (r: seq<bool>)
    ensures |r| == n && forall i :: 0 <= i < n ==> r[i]
  {
    seq(n, _ => true)
  }

  /** `validate`: the new validity flags of the sensors, computed from their
      minima alone. */
  function Validate(valid: seq<bool>, mins: seq<real>): (r: seq<bool>)
    requires |valid| == |mins|
    ensures |r| == |valid|
    ensures forall i :: 0 <= i < |valid| && r[i] ==> valid[i]
    ensures forall i :: 0 <= i < |valid| ==> (r[i] <==> valid[i] && i + 1 !in Flagged(Rounds(mins, mins)))
  {
    Apply(valid, Rounds(mins, mins))
  }

  /** A board of `n` sensors gets at most `n - 1` flags, so when its sensors
      all start valid at least one of them stays valid. */
  lemma SomeSensorSurvives(mins: seq<real>)
    requires |mins| >= 1
    ensures exists i :: 0 <= i < |mins| && Validate(AllValid(|mins|), mins)[i]
  {
    var ds := Rounds(mins, mins);
    FlaggedBound(ds);
    var p := Unused(Flagged(ds), |mins|);
    var v := Validate(AllValid(|mins|), mins);
    assert v[p - 1];
  }

  /** Pigeonhole: fewer than `n` numbers leave one of `1..n` out. */
  lemma {:induction false} Unused(f: set<nat>, n: nat) returns (p: nat)
    requires |f| < n
    ensures 1 <= p <= n && p !in f
  {
    if n !in f {
      p := n;
    } else {
      p := Unused(f - {n}, n - 1);
    }
  }

  /** One round of `validate` at the positions `i` and `k` that `max` and
      `min` pick, leaving `up'` and `lo'` for the next round. */
  predicate RoundStep(up: seq<real>, lo: seq<real>, i: nat, k: nat,
                      up': seq<real>, lo': seq<real>, d: Option<nat>) {
    |up| == |lo| >= 2 && FirstLargest(up, i) && FirstSmallest(lo, k)
    && up' == RemoveAt(up, i) && lo' == RemoveAt(lo, k)
    && d == Verdict(up[i], i, up', lo[k], k, lo')
  }

  /** A run of the loop written out: the copies at the start of each round,
      the positions removed and the decisions, ending with copies of length
      at most one. */
  predicate Traced(ups: seq<seq<real>>, los: seq<seq<real>>, hs: seq<nat>, ls: seq<nat>,
                   ds: seq<Option<nat>>) {
    |ups| == |los| == |ds| + 1 && |hs| == |ls| == |ds|
    && |ups[|ds|]| == |los[|ds|]| <= 1
    && forall r :: 0 <= r < |ds| ==> RoundStep(ups[r], los[r], hs[r], ls[r], ups[r + 1], los[r + 1], ds[r])
  }

  /** `Rounds` returns the decisions of any written-out run that starts from
      its arguments. */
  lemma {:induction false} RoundsTrace(ups: seq<seq<real>>, los: seq<seq<real>>, hs: seq<nat>,
                                       ls: seq<nat>, ds: seq<Option<nat>>)
    requires Traced(ups, los, hs, ls, ds)
    ensures |ups[0]| == |los[0]| && Rounds(ups[0], los[0]) == ds
    decreases |ds|
  {
    if |ds| > 0 {
      assert RoundStep(ups[0], los[0], hs[0], ls[0], ups[1], los[1], ds[0]);
      forall r | 0 <= r < |ds| - 1
        ensures RoundStep(ups[1..][r], los[1..][r], hs[1..][r], ls[1..][r],
                          ups[1..][r + 1], los[1..][r + 1], ds[1..][r])
      {
        assert RoundStep(ups[r + 1], los[r + 1], hs[r + 1], ls[r + 1], ups[r + 2], los[r + 2], ds[r + 1]);
      }
      RoundsTrace(ups[1..], los[1..], hs[1..], ls[1..], ds[1..]);
      Step(ups[0], los[0], hs[0], ls[0], ups[1], los[1], ds[0]);
      assert ds == [ds[0]] + ds[1..];
    }
  }

  /** `s` holds the values listed in `t`. */
  predicate Holds(s: seq<real>, t: seq<real>) {
    |s| == |t| && forall i :: 0 <= i < |s| ==> s[i] == t[i]
  }

  /** The upper copies of the run on the minima of `RoundsExample`. */
  const ExampleUps: seq<seq<real>> :=
           [[10.0, 11.0, 9.0, 12.0, 10.0, 11.0, 9.0, 100.0],
             [10.0, 11.0, 9.0, 12.0, 10.0, 11.0, 9.0],
             [10.0, 11.0, 9.0, 10.0, 11.0, 9.0],
             [10.0, 9.0, 10.0, 11.0, 9.0],
             [10.0, 9.0, 10.0, 9.0],
             [9.0, 10.0, 9.0],
             [9.0, 9.0],
             [9.0]]

  /** The lower copies of the same run. */
  const ExampleLos: seq<seq<real>> :=
           [[10.0, 11.0, 9.0, 12.0, 10.0, 11.0, 9.0, 100.0],
             [10.0, 11.0, 12.0, 10.0, 11.0, 9.0, 100.0],
             [10.0, 11.0, 12.0, 10.0, 11.0, 100.0],
             [11.0, 12.0, 10.0, 11.0, 100.0],
             [11.0, 12.0, 11.0, 100.0],
             [12.0, 11.0, 100.0],
             [12.0, 100.0],
             [100.0]]

  /** The positions the same run drops from the upper and the lower copy,
      and its decisions. */
  const ExampleHs: seq<nat> := [7, 3, 1, 3, 0, 1, 0]
  const ExampleLs: seq<nat> := [2, 5, 0, 2, 0, 1, 0]
  const ExampleDs: seq<Option<nat>> := [Some(8), None, None, Some(3), Some(1), Some(2), Some(1)]

  lemma ExampleTrace()
    ensures Traced(ExampleUps, ExampleLos, ExampleHs, ExampleLs, ExampleDs)
  {
    forall r | 0 <= r < 7
      ensures RoundStep(ExampleUps[r], ExampleLos[r], ExampleHs[r], ExampleLs[r], ExampleUps[r + 1], ExampleLos[r + 1],
                        ExampleDs[r])
    {
      if r == 0 { Round1(); }
      else if r == 1 { Round2(); }
      else if r == 2 { Round3(); }
      else if r == 3 { Round4(); }
      else if r == 4 { Round5(); }
      else if r == 5 { Round6(); }
      else { Round7(); }
    }
  }

  lemma Round1()
    ensures RoundStep(ExampleUps[0], ExampleLos[0], ExampleHs[0], ExampleLs[0], ExampleUps[1], ExampleLos[1], ExampleDs[0])
  {
    assert FirstLargest(ExampleUps[0], 7);
    assert FirstSmallest(ExampleLos[0], 2);
    assert RemoveAt(ExampleUps[0], 7) == ExampleUps[1];
    assert RemoveAt(ExampleLos[0], 2) == ExampleLos[1];
    assert Sum(ExampleUps[1]) == 72.0;
  }

  lemma Round2()
    ensures RoundStep(ExampleUps[1], ExampleLos[1], ExampleHs[1], ExampleLs[1], ExampleUps[2], ExampleLos[2], ExampleDs[1])
  {
    assert FirstLargest(ExampleUps[1], 3);
    assert FirstSmallest(ExampleLos[1], 5);
    assert RemoveAt(ExampleUps[1], 3) == ExampleUps[2];
    assert RemoveAt(ExampleLos[1], 5) == ExampleLos[2];
    assert Sum(ExampleUps[2]) == 60.0;
    assert Sum(ExampleLos[2]) == 154.0;
  }

  lemma Round3()
    ensures RoundStep(ExampleUps[2], ExampleLos[2], ExampleHs[2], ExampleLs[2], ExampleUps[3], ExampleLos[3], ExampleDs[2])
  {
    assert FirstLargest(ExampleUps[2], 1);
    assert FirstSmallest(ExampleLos[2], 0);
    assert RemoveAt(ExampleUps[2], 1) == ExampleUps[3];
    assert RemoveAt(ExampleLos[2], 0) == ExampleLos[3];
    assert Sum(ExampleUps[3]) == 49.0;
    assert Sum(ExampleLos[3]) == 144.0;
  }

  lemma Round4()
    ensures RoundStep(ExampleUps[3], ExampleLos[3], ExampleHs[3], ExampleLs[3], ExampleUps[4], ExampleLos[4], ExampleDs[3])
  {
    assert FirstLargest(ExampleUps[3], 3);
    assert FirstSmallest(ExampleLos[3], 2);
    assert RemoveAt(ExampleUps[3], 3) == ExampleUps[4];
    assert RemoveAt(ExampleLos[3], 2) == ExampleLos[4];
    assert Sum(ExampleUps[4]) == 38.0;
    assert Sum(ExampleLos[4]) == 134.0;
  }

  lemma Round5()
    ensures RoundStep(ExampleUps[4], ExampleLos[4], ExampleHs[4], ExampleLs[4], ExampleUps[5], ExampleLos[5], ExampleDs[4])
  {
    assert FirstLargest(ExampleUps[4], 0);
    assert FirstSmallest(ExampleLos[4], 0);
    assert RemoveAt(ExampleUps[4], 0) == ExampleUps[5];
    assert RemoveAt(ExampleLos[4], 0) == ExampleLos[5];
    assert Sum(ExampleUps[5]) == 28.0;
    assert Sum(ExampleLos[5]) == 123.0;
  }

  lemma Round6()
    ensures RoundStep(ExampleUps[5], ExampleLos[5], ExampleHs[5], ExampleLs[5], ExampleUps[6], ExampleLos[6], ExampleDs[5])
  {
    assert FirstLargest(ExampleUps[5], 1);
    assert FirstSmallest(ExampleLos[5], 1);
    assert RemoveAt(ExampleUps[5], 1) == ExampleUps[6];
    assert RemoveAt(ExampleLos[5], 1) == ExampleLos[6];
    assert Sum(ExampleUps[6]) == 18.0;
    assert Sum(ExampleLos[6]) == 112.0;
  }

  lemma Round7()
    ensures RoundStep(ExampleUps[6], ExampleLos[6], ExampleHs[6], ExampleLs[6], ExampleUps[7], ExampleLos[7], ExampleDs[6])
  {
    assert FirstLargest(ExampleUps[6], 0);
    assert FirstSmallest(ExampleLos[6], 0);
    assert RemoveAt(ExampleUps[6], 0) == ExampleUps[7];
    assert RemoveAt(ExampleLos[6], 0) == ExampleLos[7];
    assert Sum(ExampleUps[7]) == 9.0;
    assert Sum(ExampleLos[7]) == 100.0;
  }

  /** The flagging is positional in the shrinking copies: on these minima
      the first round flags sensor 8, whose 100 is more than three times the
      rest, and later rounds flag positions 3, 1, 2 and 1 of the shortened
      copies. */
  lemma RoundsExample(m: seq<real>)
    requires Holds(m, [10.0, 11.0, 9.0, 12.0, 10.0, 11.0, 9.0, 100.0])
    ensures Rounds(m, m) == [Some(8), None, None, Some(3), Some(1), Some(2), Some(1)]
  {
    ExampleTrace();
    RoundsTraceFrom(m, m, ExampleUps, ExampleLos, ExampleHs, ExampleLs, ExampleDs);
  }

  /** `RoundsTrace` for arguments holding the values the run starts from. */
  lemma RoundsTraceFrom(up: seq<real>, lo: seq<real>, ups: seq<seq<real>>, los: seq<seq<real>>,
                        hs: seq<nat>, ls: seq<nat>, ds: seq<Option<nat>>)
    requires Traced(ups, los, hs, ls, ds)
    requires Holds(up, ups[0]) && Holds(lo, los[0])
    ensures |up| == |lo| && Rounds(up, lo) == ds
  {
    assert up == ups[0] && lo == los[0];
    RoundsTrace(ups, los, hs, ls, ds);
  }

  /** Hence sensors 1, 2, 3 and 8 end up invalid, not only the sensor whose
      minimum is 100, and sensors 4 to 7 keep their flags. */
  lemma ValidateExample(m: seq<real>)
    requires Holds(m, [10.0, 11.0, 9.0, 12.0, 10.0, 11.0, 9.0, 100.0])
    ensures Flagged(Rounds(m, m)) == {1, 2, 3, 8}
  {
    RoundsExample(m);
    FlaggedExample();
  }

  lemma FlaggedExample()
    ensures Flagged([Some(8), None, None, Some(3), Some(1), Some(2), Some(1)]) == {1, 2, 3, 8}
  {
  }

  /** One unfolding of `Rounds` at known positions. */
  lemma Step(up: seq<real>, lo: seq<real>, i: nat, k: nat, up': seq<real>, lo': seq<real>, d: Option<nat>)
    requires |up| == |lo| >= 2
    requires FirstLargest(up, i) && FirstSmallest(lo, k)
    requires up' == RemoveAt(up, i) && lo' == RemoveAt(lo, k)
    requires d == Verdict(up[i], i, up', lo[k], k, lo')
    ensures Rounds(up, lo) == [d] + Rounds(up', lo')
  {
    DecideSpec(up, lo, i, k);
    FirstLargestUnique(up, ArgMax(up), i);
    FirstSmallestUnique(lo, ArgMin(lo), k);
  }
}
