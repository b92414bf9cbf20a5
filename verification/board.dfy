/** A board of eight sensors (WTDtools/SensorBoard.py).

    The board keeps the readout of its channels, a baseline window, the
    `(min, max)` extremum of each of the first eight channels, its filter
    and the eight `Sensor` objects built from them. Attribute `SensorK` is
    `sensors[K - 1]`, and entry `K` of the `_Extrema` dictionary is
    `extrema[K - 1]`: the dictionary is built with keys 1 to 8 in order, so
    its `values()` come in that order.
 */
module Boards {
  import opened Common
  import opened SeqMath
  import opened Strings
  import opened Base
  import Sensors
  import Validation

  const SensorCount: nat := 8

  datatype Board = Board(
    base: Fields<seq<seq<real>>>,
    baseline: Option<Baseline>,       // `_Baseline`
    extrema: seq<Sensors.Extremum>,   // `_Extrema`, empty until `set_baseline`
    sensors: seq<Sensors.Sensor>,     // `Sensor1` .. `Sensor8`, empty until `update`
    init: bool)                       // `_init`

  /** The readout has enough samples in each of the channels the board reads
      for every statistic to be a number: pandas gives NaN for the variance
      of fewer than two samples. */
  predicate Channels(data: seq<seq<real>>) {
    forall i :: 0 <= i < |data| && i < SensorCount ==> |data[i]| >= 2
  }

  /** `get_extrema`: the smallest and largest sample of each of the first
      eight channels; a readout with fewer channels raises `IndexError`. */
  function Extrema(data: seq<seq<real>>): (r: Result<seq<Sensors.Extremum>>)
    requires Channels(data)
    ensures r.Ok? <==> |data| >= SensorCount
    ensures r.Ok? ==> |r.value| == SensorCount
    ensures r.Ok? ==> forall i :: 0 <= i < SensorCount ==>
              r.value[i].lo in data[i] && r.value[i].hi in data[i]
    ensures r.Ok? ==> forall i, j :: 0 <= i < SensorCount && 0 <= j < |data[i]| ==>
              r.value[i].lo <= data[i][j] <= r.value[i].hi
  {
    if |data| < SensorCount then Err(IndexOutOfRange)
    else Ok(seq(SensorCount, i requires 0 <= i < SensorCount => Sensors.Extremum(Min(data[i]), Max(data[i]))))
  }

  /** The name `update` gives the sensor in position `k` (from 1). */
  function SensorName(k: nat): string
  {
    "Sensor " + NatToString(k)
  }

  /** What `update` needs: a readout of at least eight channels, a time
      index and the eight extrema. */
  predicate Ready(b: Board) {
    b.base.data.Some? && |b.base.data.value| >= SensorCount && Channels(b.base.data.value)
    && b.base.time.Some? && |b.extrema| == SensorCount
  }

  /** A constructed board: `_init` set, everything `update` needs in
      place, and the eight sensors built. */
  predicate Built(b: Board) {
    b.init && Ready(b) && |b.sensors| == SensorCount
  }

  /** The sensor `update` builds in position `i` (from 0). */
  function Fresh(b: Board, i: nat): (r: Result<Sensors.Sensor>)
    requires Ready(b) && i < SensorCount
  {
    Sensors.New(b.base.meta, SensorName(i + 1), b.base.time.value, b.base.data.value[i], b.extrema[i], b.base.filter)
  }

  /** The filter a sensor built by `update` ends up with. The board hands
      over its own `_Filter`; a sensor keeps only a list, so a designed
      filter is replaced by the default design of the sensor's time. */
  function SensorFilter(b: Board): Filter
    requires b.base.time.Some?
    requires b.base.filter.Listed? || DefaultFilter(b.base.time.value).Ok?
  {
    if b.base.filter.Listed? then b.base.filter else DefaultFilter(b.base.time.value).value
  }

  /** Sensor `i` (from 0) holds what `update` gives it: its name, channel
      `i` of the board's readout, the board's time, extremum `i`, the mean
      and sample variance of that channel, the sensor filter and no
      baseline. The flag is not part of it. */
  predicate HoldsAt(b: Board, i: nat)
    requires Ready(b) && |b.sensors| == SensorCount && i < SensorCount
  {
    var s := b.sensors[i];
    var channel := b.base.data.value[i];
    s.base.name == Some(SensorName(i + 1)) && s.base.data == Some(channel) && s.base.time == b.base.time
    && s.min == b.extrema[i].lo && s.max == b.extrema[i].hi
    && s.mean == Mean(channel) && s.variance == SampleVar(channel)
    && (b.base.filter.Listed? || DefaultFilter(b.base.time.value).Ok?) && s.base.filter == SensorFilter(b)
    && s.baseline.None?
  }

  /** Every sensor holds its channel, extremum, statistics and filter. */
  predicate Holds(b: Board)
    requires Ready(b) && |b.sensors| == SensorCount
  {
    forall i :: 0 <= i < SensorCount ==> HoldsAt(b, i)
  }

  /** `update`: replaces all eight sensors by new ones built from the
      board's channels, extrema, time and filter. Every sensor gets the same
      time and filter, so either all of them are built or the first one
      already fails. */
  function Update(b: Board): (r: Result<Board>)
    requires Ready(b)
    ensures r.Ok? <==> b.base.filter.Listed? || DefaultFilter(b.base.time.value).Ok?
    ensures r.Ok? ==> r.value.(sensors := b.sensors) == b
    ensures r.Ok? ==> |r.value.sensors| == SensorCount
    ensures r.Ok? ==> Holds(r.value)
    ensures r.Ok? ==> forall i :: 0 <= i < SensorCount ==> r.value.sensors[i].valid
  {
    var time := b.base.time.value;
    if !(b.base.filter.Listed? || DefaultFilter(time).Ok?) then Err(DefaultFilter(time).error)
    else Ok(b.(sensors := seq(SensorCount, i requires 0 <= i < SensorCount => Fresh(b, i).value)))
  }

  /** `get_valid`: the eight validity flags in sensor order. */
  function GetValid(b: Board): (r: seq<bool>)
    requires |b.sensors| == SensorCount
    ensures |r| == SensorCount && forall i :: 0 <= i < SensorCount ==> r[i] == b.sensors[i].valid
  {
    seq(SensorCount, i requires 0 <= i < SensorCount => b.sensors[i].valid)
  }

  /** The sensor minima, `[ex[0] for ex in _Extrema.values()]`. */
  function Minima(b: Board): (r: seq<real>)
    requires |b.extrema| == SensorCount
    ensures |r| == SensorCount && forall i :: 0 <= i < SensorCount ==> r[i] == b.extrema[i].lo
  {
    seq(SensorCount, i requires 0 <= i < SensorCount => b.extrema[i].lo)
  }

  /** `validate`: clears the flag of each sensor a round of the outlier
      search names; nothing else about the board changes. */
  function Validate(b: Board): (r: Board)
    requires |b.sensors| == SensorCount && |b.extrema| == SensorCount
    ensures r.(sensors := b.sensors) == b
    ensures |r.sensors| == SensorCount
    ensures forall i :: 0 <= i < SensorCount ==> r.sensors[i].(valid := b.sensors[i].valid) == b.sensors[i]
    ensures GetValid(r) == Validation.Validate(GetValid(b), Minima(b))
  {
    var flags := Validation.Validate(GetValid(b), Minima(b));
    b.(sensors := seq(SensorCount, i requires 0 <= i < SensorCount => Sensors.SetValid(b.sensors[i], flags[i])))
  }

  /** Validation only ever clears flags. */
  lemma ValidateOnlyClears(b: Board, i: nat)
    requires |b.sensors| == SensorCount && |b.extrema| == SensorCount && i < SensorCount
    ensures Validate(b).sensors[i].valid ==> b.sensors[i].valid
  {
  }

  /** Validation reads the minima alone: two boards whose extrema differ
      only in their maxima get the same flags. */
  lemma ValidityIgnoresMaxima(b: Board, c: Board)
    requires |b.sensors| == SensorCount && |b.extrema| == SensorCount
    requires c.sensors == b.sensors && |c.extrema| == SensorCount
    requires forall i :: 0 <= i < SensorCount ==> c.extrema[i].lo == b.extrema[i].lo
    ensures GetValid(Validate(c)) == GetValid(Validate(b))
  {
    assert Minima(c) == Minima(b);
  }

  /** The first half of the constructor, while `_init` is still false:
      name, base initialiser, `set_data`, `set_time`, `set_baseline` and
      `set_filter(data=filt)`, none of which builds sensors yet. */
  function Configure(meta: Meta, name: string, time: seq<real>, readout: seq<seq<real>>,
                     baseline: seq<int>, filt: Filter): (r: Result<Board>)
    requires Channels(readout)
    ensures r.Ok? <==> |baseline| == 2 && |readout| >= SensorCount
                        && (filt.Listed? || DefaultFilter(time).Ok?)
    ensures r.Ok? ==> Ready(r.value) && !r.value.init && r.value.sensors == []
    ensures r.Ok? ==> r.value.base.name == Some(name) && r.value.base.meta == meta
    ensures r.Ok? ==> r.value.base.data == Some(readout) && r.value.base.time == Some(time)
    ensures r.Ok? ==> r.value.base.filter == (if filt.Listed? then filt else DefaultFilter(time).value)
    ensures r.Ok? ==> r.value.baseline == Some(Baseline(baseline[0], baseline[1]))
    ensures r.Ok? ==> Extrema(readout).Ok? && r.value.extrema == Extrema(readout).value
  {
    var cleared: Fields<seq<seq<real>>> :=
      Init(Some(name), meta.gas, meta.location, meta.voltage, meta.speed, meta.trial, meta.args);
    var b0 := Board(SetTime(cleared.(data := Some(readout)), time), None, [], [], false);
    var b1 :- SetBaseline(b0, baseline);
    SetFilter(b1, 2, NoCutoff, "low", filt)
  }

  /** The constructor: `Configure`, then `update` and `validate`, and only
      then `_init` becomes true, so none of the setters rebuilds the sensors
      on the way. */
  function New(meta: Meta, name: string, time: seq<real>, readout: seq<seq<real>>,
               baseline: seq<int>, filt: Filter): (r: Result<Board>)
    requires Channels(readout)
    ensures r.Ok? <==> |baseline| == 2 && |readout| >= SensorCount
                        && (filt.Listed? || DefaultFilter(time).Ok?)
    ensures r.Ok? ==> Built(r.value) && r.value.base.name == Some(name) && r.value.base.meta == meta
    ensures r.Ok? ==> r.value.base.data == Some(readout) && r.value.base.time == Some(time)
    ensures r.Ok? ==> r.value.baseline == Some(Baseline(baseline[0], baseline[1]))
    ensures r.Ok? ==> r.value.extrema == Extrema(readout).value
    ensures r.Ok? ==> r.value.base.filter == (if filt.Listed? then filt else DefaultFilter(time).value)
    ensures r.Ok? ==> |r.value.sensors| == SensorCount && Holds(r.value)
    ensures r.Ok? ==> GetValid(r.value) == Validation.Validate(Validation.AllValid(SensorCount), Minima(r.value))
  {
    match Configure(meta, name, time, readout, baseline, filt)
    case Err(e) => Err(e)
    case Ok(b2) =>
      var b3 := Update(b2).value;
      assert GetValid(b3) == Validation.AllValid(SensorCount);
      ValidateKeepsHolds(b3);
      Ok(Validate(b3).(init := true))
  }

  /** Validation touches only the flags, so what the sensors hold stays. */
  lemma ValidateKeepsHolds(b: Board)
    requires Ready(b) && |b.sensors| == SensorCount && Holds(b)
    ensures Ready(Validate(b)) && Holds(Validate(b))
    ensures Ready(Validate(b).(init := true)) && Holds(Validate(b).(init := true))
  {
    var v := Validate(b);
    var w := v.(init := true);
    forall i | 0 <= i < SensorCount
      ensures HoldsAt(v, i) && HoldsAt(w, i)
    {
      assert HoldsAt(b, i);
      assert v.sensors[i].(valid := b.sensors[i].valid) == b.sensors[i];
    }
  }

  /** `set_data`: stores the readout and, once the board is built, rebuilds
      the sensors. The extrema are not recomputed, so the rebuilt sensors
      get the extrema of the readout last passed to `set_baseline`. */
  function SetData(b: Board, data: seq<seq<real>>): (r: Result<Board>)
    requires Channels(data)
    requires b.init ==> b.base.time.Some? && |b.extrema| == SensorCount
    ensures !b.init ==> r == Ok(b.(base := b.base.(data := Some(data))))
    ensures b.init ==> (r.Ok? <==> |data| >= SensorCount
                                   && (b.base.filter.Listed? || DefaultFilter(b.base.time.value).Ok?))
    ensures b.init && |data| == 0 ==> r == Err(IndexOutOfRange)
    ensures b.init && |data| > 0 && !b.base.filter.Listed? && DefaultFilter(b.base.time.value).Err? ==>
              r == Err(DefaultFilter(b.base.time.value).error)
    ensures b.init && |data| < SensorCount && (b.base.filter.Listed? || DefaultFilter(b.base.time.value).Ok?) ==>
              r == Err(IndexOutOfRange)
    ensures r.Ok? ==> r.value.base.data == Some(data) && r.value.extrema == b.extrema
    ensures r.Ok? && b.init ==> Built(r.value) && r.value.base == b.base.(data := Some(data))
    ensures r.Ok? && b.init ==> Holds(r.value) && forall i :: 0 <= i < SensorCount ==> r.value.sensors[i].valid
  {
    var stored := b.(base := b.base.(data := Some(data)));
    if !b.init then Ok(stored)
    else if |data| == 0 then Err(IndexOutOfRange)
    else if !(b.base.filter.Listed? || DefaultFilter(b.base.time.value).Ok?) then Err(DefaultFilter(b.base.time.value).error)
    else if |data| < SensorCount then Err(IndexOutOfRange)
    else Update(stored)
  }

  /** `set_baseline`: stores the pair, recomputes the extrema from the
      current readout and, once the board is built, rebuilds the sensors. */
  function SetBaseline(b: Board, baseline: seq<int>): (r: Result<Board>)
    requires b.base.data.Some? ==> Channels(b.base.data.value)
    requires b.init ==> b.base.time.Some?
    ensures r.Ok? ==> |baseline| == 2 && r.value.baseline == Some(Baseline(baseline[0], baseline[1]))
    ensures |baseline| != 2 ==> r == Err(AssertionFailed)
    ensures |baseline| == 2 && b.base.data.None? ==> r == Err(NotSubscriptable)
    ensures r.Ok? ==> b.base.data.Some? && Extrema(b.base.data.value).Ok?
                      && r.value.extrema == Extrema(b.base.data.value).value
    ensures r.Ok? ==> r.value.base == b.base && r.value.init == b.init
    ensures r.Ok? && !b.init ==> r.value.sensors == b.sensors
    ensures !b.init ==> (r.Ok? <==> |baseline| == 2 && b.base.data.Some? && |b.base.data.value| >= SensorCount)
    ensures b.init ==> (r.Ok? <==> |baseline| == 2 && b.base.data.Some? && |b.base.data.value| >= SensorCount
                                   && (b.base.filter.Listed? || DefaultFilter(b.base.time.value).Ok?))
    ensures r.Ok? && b.init ==> Built(r.value) && Holds(r.value)
    ensures r.Ok? && b.init ==> forall i :: 0 <= i < SensorCount ==> r.value.sensors[i].valid
  {
    if |baseline| != 2 then Err(AssertionFailed)
    else if b.base.data.None? then Err(NotSubscriptable)
    else
      var ex :- Extrema(b.base.data.value);
      var stored := b.(baseline := Some(Baseline(baseline[0], baseline[1])), extrema := ex);
      if b.init then Update(stored) else Ok(stored)
  }

  /** Applies a sensor's `set_filter(order, cutoff, btype)` to each sensor in
      turn; the first failure is the result. */
  function FilterEach(ss: seq<Sensors.Sensor>, order: int, cutoff: Cutoff, btype: string): (r: Result<seq<Sensors.Sensor>>)
    ensures r.Ok? <==> forall i :: 0 <= i < |ss| ==> Sensors.SetFilter(ss[i], order, cutoff, btype, NoFilter).Ok?
    ensures r.Ok? ==> |r.value| == |ss|
    ensures r.Ok? ==> forall i :: 0 <= i < |ss| ==>
              r.value[i] == Sensors.SetFilter(ss[i], order, cutoff, btype, NoFilter).value
  {
    if |ss| == 0 then Ok([])
    else
      var head :- Sensors.SetFilter(ss[0], order, cutoff, btype, NoFilter);
      var tail :- FilterEach(ss[1..], order, cutoff, btype);
      assert forall i :: 1 <= i < |ss| ==> ss[1..][i - 1] == ss[i];
      Ok([head] + tail)
  }

  /** `set_filter`. A list passed as `data` becomes the board's filter and,
      once the board is built, goes to `Sensor1` .. `Sensor7` (`Sensor1`
      twice) but not to `Sensor8`. Anything else recomputes the board's own
      design and, once built, asks all eight sensors to recompute theirs. */
  function SetFilter(b: Board, order: int, cutoff: Cutoff, btype: string, data: Filter): (r: Result<Board>)
    requires b.init ==> |b.sensors| == SensorCount
    ensures data.Listed? ==> r.Ok? && r.value.base == b.base.(filter := data)
    ensures data.Listed? && !b.init ==> r == Ok(b.(base := b.base.(filter := data)))
    ensures data.Listed? && b.init ==>
              |r.value.sensors| == SensorCount
              && (forall i :: 0 <= i < SensorCount - 1 ==>
                    r.value.sensors[i] == b.sensors[i].(base := b.sensors[i].base.(filter := data)))
              && r.value.sensors[SensorCount - 1] == b.sensors[SensorCount - 1]
    ensures !data.Listed? && r.Ok? ==>
              DesignFilter(b.base.time, order, cutoff, btype).Ok?
              && r.value.base == b.base.(filter := DesignFilter(b.base.time, order, cutoff, btype).value)
    ensures !data.Listed? && !b.init ==> (r.Ok? <==> DesignFilter(b.base.time, order, cutoff, btype).Ok?)
    ensures !data.Listed? && b.init ==>
              (r.Ok? <==> DesignFilter(b.base.time, order, cutoff, btype).Ok?
                          && forall i :: 0 <= i < SensorCount ==>
                               Sensors.SetFilter(b.sensors[i], order, cutoff, btype, NoFilter).Ok?)
    ensures !data.Listed? && r.Ok? && b.init ==>
              |r.value.sensors| == SensorCount
              && forall i :: 0 <= i < SensorCount ==>
                   Sensors.SetFilter(b.sensors[i], order, cutoff, btype, NoFilter).Ok?
                   && r.value.sensors[i] == Sensors.SetFilter(b.sensors[i], order, cutoff, btype, NoFilter).value
    ensures r.Ok? ==> r.value.init == b.init && r.value.extrema == b.extrema && r.value.baseline == b.baseline
    ensures r.Ok? && !b.init ==> r.value.sensors == b.sensors
    ensures r.Ok? && Built(b) ==> Built(r.value)
  {
    if data.Listed? then
      var stored := b.(base := b.base.(filter := data));
      if !b.init then Ok(stored)
      else
        var ss := b.sensors;
        var forward := (s: Sensors.Sensor) => Sensors.SetFilter(s, 2, NoCutoff, "low", data).value;
        var ss := ss[0 := forward(ss[0])][1 := forward(ss[1])][2 := forward(ss[2])][3 := forward(ss[3])];
        var ss := ss[4 := forward(ss[4])][5 := forward(ss[5])][6 := forward(ss[6])][0 := forward(ss[0])];
        Ok(stored.(sensors := ss))
    else
      var base :- Base.SetFilter(b.base, order, cutoff, btype);
      if !b.init then Ok(b.(base := base))
      else
        var ss :- FilterEach(b.sensors, order, cutoff, btype);
        Ok(b.(base := base, sensors := ss))
  }

  /** The entries of `values` whose flag is set, in order. */
  function Kept(values: seq<real>, valid: seq<bool>): (r: seq<real>)
    requires |values| == |valid|
    ensures |r| == CountValid(valid)
    ensures forall x :: x in r <==> exists i :: 0 <= i < |values| && valid[i] && values[i] == x
    ensures |r| > 0 <==> exists i :: 0 <= i < |valid| && valid[i]
  {
    if |values| == 0 then []
    else
      var rest := Kept(values[1..], valid[1..]);
      assert forall i :: 1 <= i < |values| ==> values[1..][i - 1] == values[i] && valid[1..][i - 1] == valid[i];
      (if valid[0] then [values[0]] else []) + rest
  }

  function CountValid(valid: seq<bool>): nat
  {
    if |valid| == 0 then 0 else (if valid[0] then 1 else 0) + CountValid(valid[1..])
  }

  /** Entry `CountValid(valid[..i])` of the kept list is entry `i` of the
      original list, for every flagged `i`. */
  lemma {:induction false} KeptAt(values: seq<real>, valid: seq<bool>, i: nat)
    requires |values| == |valid| && i < |values| && valid[i]
    ensures CountValid(valid[..i]) < |Kept(values, valid)|
    ensures Kept(values, valid)[CountValid(valid[..i])] == values[i]
    decreases i
  {
    assert valid[..i + 1][1..] == valid[1..][..i];
    if i > 0 {
      assert valid[..i][1..] == valid[1..][..i - 1];
      KeptAt(values[1..], valid[1..], i - 1);
    }
    CountPrefix(valid, i);
  }

  lemma {:induction false} CountPrefix(valid: seq<bool>, i: nat)
    requires i < |valid|
    ensures CountValid(valid[..i + 1]) == CountValid(valid[..i]) + (if valid[i] then 1 else 0)
    ensures CountValid(valid[..i]) + (if valid[i] then 1 else 0) <= CountValid(valid)
    decreases i
  {
    if i > 0 {
      assert valid[..i + 1][1..] == valid[1..][..i];
      assert valid[..i][1..] == valid[1..][..i - 1];
      CountPrefix(valid[1..], i - 1);
    }
  }

  /** `get_max`: the largest maximum among the valid sensors, with its
      1-based position in the list of valid sensors (not the sensor
      number). With no valid sensor, `max` of the empty list raises. */
  function GetMax(b: Board): (r: Result<Ranked>)
    requires |b.sensors| == SensorCount && |b.extrema| == SensorCount
    ensures r.Err? ==> r.error == EmptySequence
    ensures r.Ok? <==> exists i :: 0 <= i < SensorCount && b.sensors[i].valid
    ensures r.Ok? ==> forall i :: 0 <= i < SensorCount && b.sensors[i].valid ==> b.extrema[i].hi <= r.value.value
    ensures r.Ok? ==> exists i :: 0 <= i < SensorCount && b.sensors[i].valid && b.extrema[i].hi == r.value.value
    ensures r.Ok? ==> 1 <= r.value.position <= CountValid(GetValid(b))
  {
    var maxs := Kept(Maxima(b), GetValid(b));
    if |maxs| == 0 then Err(EmptySequence)
    else
      var m := FirstMax(maxs);
      assert m.value in maxs;
      forall i | 0 <= i < SensorCount && b.sensors[i].valid
        ensures b.extrema[i].hi <= m.value
      {
        assert Maxima(b)[i] in maxs;
      }
      Ok(m)
  }

  /** `get_min`: the smallest minimum among the valid sensors, with its
      1-based position in the list of valid sensors. */
  function GetMin(b: Board): (r: Result<Ranked>)
    requires |b.sensors| == SensorCount && |b.extrema| == SensorCount
    ensures r.Err? ==> r.error == EmptySequence
    ensures r.Ok? <==> exists i :: 0 <= i < SensorCount && b.sensors[i].valid
    ensures r.Ok? ==> forall i :: 0 <= i < SensorCount && b.sensors[i].valid ==> r.value.value <= b.extrema[i].lo
    ensures r.Ok? ==> exists i :: 0 <= i < SensorCount && b.sensors[i].valid && b.extrema[i].lo == r.value.value
    ensures r.Ok? ==> 1 <= r.value.position <= CountValid(GetValid(b))
  {
    var mins := Kept(Minima(b), GetValid(b));
    if |mins| == 0 then Err(EmptySequence)
    else
      var m := FirstMin(mins);
      assert m.value in mins;
      forall i | 0 <= i < SensorCount && b.sensors[i].valid
        ensures m.value <= b.extrema[i].lo
      {
        assert Minima(b)[i] in mins;
      }
      Ok(m)
  }

  /** The sensor maxima, `[ex[1] for ex in _Extrema.values()]`. */
  function Maxima(b: Board): (r: seq<real>)
    requires |b.extrema| == SensorCount
    ensures |r| == SensorCount && forall i :: 0 <= i < SensorCount ==> r[i] == b.extrema[i].hi
  {
    seq(SensorCount, i requires 0 <= i < SensorCount => b.extrema[i].hi)
  }

  /** The position `get_max` reports counts valid sensors only: when the
      first valid sensor holding the largest value is sensor `i + 1`, the
      position is the number of valid sensors up to and including it. */
  lemma MaxPosition(b: Board, i: nat)
    requires |b.sensors| == SensorCount && |b.extrema| == SensorCount && i < SensorCount
    requires b.sensors[i].valid
    requires forall j :: 0 <= j < SensorCount && b.sensors[j].valid ==> b.extrema[j].hi <= b.extrema[i].hi
    requires forall j :: 0 <= j < i && b.sensors[j].valid ==> b.extrema[j].hi < b.extrema[i].hi
    ensures GetMax(b) == Ok(Ranked(CountValid(GetValid(b)[..i]) + 1, b.extrema[i].hi))
  {
    var valid := GetValid(b);
    var maxs := Kept(Maxima(b), valid);
    var p := CountValid(valid[..i]);
    KeptAt(Maxima(b), valid, i);
    forall q | 0 <= q < p
      ensures maxs[q] < b.extrema[i].hi
    {
      KeptBefore(Maxima(b), valid, i, q);
    }
    var m := FirstMax(maxs);
    assert m.position - 1 == p;
  }

  /** The position `get_min` reports counts valid sensors in the same way:
      when the first valid sensor holding the smallest minimum is sensor
      `i + 1`, the position is the number of valid sensors up to it. */
  lemma MinPosition(b: Board, i: nat)
    requires |b.sensors| == SensorCount && |b.extrema| == SensorCount && i < SensorCount
    requires b.sensors[i].valid
    requires forall j :: 0 <= j < SensorCount && b.sensors[j].valid ==> b.extrema[i].lo <= b.extrema[j].lo
    requires forall j :: 0 <= j < i && b.sensors[j].valid ==> b.extrema[i].lo < b.extrema[j].lo
    ensures GetMin(b) == Ok(Ranked(CountValid(GetValid(b)[..i]) + 1, b.extrema[i].lo))
  {
    var valid := GetValid(b);
    var mins := Kept(Minima(b), valid);
    var p := CountValid(valid[..i]);
    KeptAt(Minima(b), valid, i);
    forall q | 0 <= q < p
      ensures b.extrema[i].lo < mins[q]
    {
      KeptBefore(Minima(b), valid, i, q);
    }
    var m := FirstMin(mins);
    assert m.position - 1 == p;
  }

  /** Entries of the kept list before position `CountValid(valid[..i])`
      come from flagged positions before `i`. */
  lemma {:induction false} KeptBefore(values: seq<real>, valid: seq<bool>, i: nat, q: nat)
    requires |values| == |valid| && i < |values| && q < CountValid(valid[..i])
    ensures q < |Kept(values, valid)|
    ensures exists j :: 0 <= j < i && valid[j] && Kept(values, valid)[q] == values[j]
    decreases i
  {
    CountPrefix(valid, i);
    assert valid[..i][1..] == valid[1..][..i - 1];
    var rest := Kept(values[1..], valid[1..]);
    if valid[0] && q == 0 {
      assert Kept(values, valid)[0] == values[0];
    } else {
      var q' := if valid[0] then q - 1 else q;
      KeptBefore(values[1..], valid[1..], i - 1, q');
      var j :| 0 <= j < i - 1 && valid[1..][j] && rest[q'] == values[1..][j];
      assert Kept(values, valid)[q] == rest[q'];
      assert valid[j + 1] && values[j + 1] == rest[q'];
    }
  }

  /** The per-sensor statistic `stat` of each sensor, in order. */
  function Stats(b: Board, stat: Sensors.Sensor -> real): (r: seq<real>)
    requires |b.sensors| == SensorCount
    ensures |r| == SensorCount && forall i :: 0 <= i < SensorCount ==> r[i] == stat(b.sensors[i])
  {
    seq(SensorCount, i requires 0 <= i < SensorCount => stat(b.sensors[i]))
  }

  /** `get_var`: the largest sensor variance over all eight sensors, valid
      or not, with the first sensor number holding it. */
  function GetVar(b: Board): (r: Ranked)
    requires |b.sensors| == SensorCount
    ensures 1 <= r.position <= SensorCount && b.sensors[r.position - 1].variance == r.value
    ensures forall i :: 0 <= i < SensorCount ==> b.sensors[i].variance <= r.value
    ensures forall i :: 0 <= i < r.position - 1 ==> b.sensors[i].variance < r.value
  {
    FirstMax(Stats(b, (s: Sensors.Sensor) => s.variance))
  }

  /** `get_mean`: the largest sensor mean and the first sensor number
      holding it. */
  function GetMean(b: Board): (r: Ranked)
    requires |b.sensors| == SensorCount
    ensures 1 <= r.position <= SensorCount && b.sensors[r.position - 1].mean == r.value
    ensures forall i :: 0 <= i < SensorCount ==> b.sensors[i].mean <= r.value
    ensures forall i :: 0 <= i < r.position - 1 ==> b.sensors[i].mean < r.value
  {
    FirstMax(Stats(b, (s: Sensors.Sensor) => s.mean))
  }

  /** Every sensor mean is non-zero, so every Fano factor is a number. */
  predicate NonZeroMeans(b: Board)
    requires |b.sensors| == SensorCount
  {
    forall i :: 0 <= i < SensorCount ==> b.sensors[i].mean != 0.0
  }

  /** `get_fano`: the largest Fano factor and the first sensor number
      holding it. */
  function GetFano(b: Board): (r: Ranked)
    requires |b.sensors| == SensorCount && NonZeroMeans(b)
    ensures 1 <= r.position <= SensorCount
    ensures r.value == Sensors.Fano(b.sensors[r.position - 1])
    ensures forall i :: 0 <= i < SensorCount ==> Sensors.Fano(b.sensors[i]) <= r.value
    ensures forall i :: 0 <= i < r.position - 1 ==> Sensors.Fano(b.sensors[i]) < r.value
  {
    var fanos := seq(SensorCount, i requires 0 <= i < SensorCount => Sensors.Fano(b.sensors[i]));
    assert forall i :: 0 <= i < SensorCount ==> fanos[i] == Sensors.Fano(b.sensors[i]);
    FirstMax(fanos)
  }

  /** `normalize(data, _min, _max)` applied to a board's channels: each
      sample scaled so that `lo` maps to 0 and `hi` to 1. */
  function NormalizeChannels(data: seq<seq<real>>, lo: real, hi: real): (r: seq<seq<real>>)
    requires hi != lo
    ensures |r| == |data|
    ensures forall i :: 0 <= i < |data| ==> |r[i]| == |data[i]|
    ensures forall i, j :: 0 <= i < |data| && 0 <= j < |data[i]| ==> lo + r[i][j] * (hi - lo) == data[i][j]
    ensures lo < hi ==> forall i, j :: 0 <= i < |data| && 0 <= j < |data[i]| && lo <= data[i][j] <= hi ==>
              0.0 <= r[i][j] <= 1.0
  {
    seq(|data|, i requires 0 <= i < |data| => Normalize(data[i], lo, hi))
  }

  /** A freshly built board always has a valid sensor, so `get_max` and
      `get_min` succeed on it. */
  lemma NewHasValidSensor(meta: Meta, name: string, time: seq<real>, readout: seq<seq<real>>,
                          baseline: seq<int>, filt: Filter)
    requires Channels(readout) && New(meta, name, time, readout, baseline, filt).Ok?
    ensures GetMax(New(meta, name, time, readout, baseline, filt).value).Ok?
    ensures GetMin(New(meta, name, time, readout, baseline, filt).value).Ok?
  {
    var b := New(meta, name, time, readout, baseline, filt).value;
    Validation.SomeSensorSurvives(Minima(b));
    var i :| 0 <= i < SensorCount && Validation.Validate(Validation.AllValid(SensorCount), Minima(b))[i];
    assert GetValid(b)[i];
  }

  /** Rebuilding after construction forgets validation: once `set_data`
      succeeds on a built board, every sensor is valid again. */
  lemma SetDataResetsValidity(b: Board, data: seq<seq<real>>)
    requires Channels(data) && b.init && b.base.time.Some? && |b.extrema| == SensorCount
    requires SetData(b, data).Ok?
    ensures GetValid(SetData(b, data).value) == Validation.AllValid(SensorCount)
  {
  }

  /** The same holds for `set_baseline`. */
  lemma SetBaselineResetsValidity(b: Board, baseline: seq<int>)
    requires b.base.data.Some? ==> Channels(b.base.data.value)
    requires b.init && b.base.time.Some?
    requires SetBaseline(b, baseline).Ok?
    ensures GetValid(SetBaseline(b, baseline).value) == Validation.AllValid(SensorCount)
  {
  }

  /** The extrema depend on the readout alone: whatever baseline is set,
      they come out the same. */
  lemma ExtremaIgnoreBaseline(b: Board, x: seq<int>, y: seq<int>)
    requires b.base.data.Some? ==> Channels(b.base.data.value)
    requires b.init ==> b.base.time.Some?
    requires SetBaseline(b, x).Ok? && SetBaseline(b, y).Ok?
    ensures SetBaseline(b, x).value.extrema == SetBaseline(b, y).value.extrema
  {
  }
}
