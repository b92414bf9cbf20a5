/** A single metal-oxide sensor (WTDtools/Sensor.py): one channel of readings,
    its extremum and statistics computed once at construction, a filter and
    the validity flag that board validation clears.
 */
module Sensors {
  import opened Common
  import opened SeqMath
  import opened Base

  /** A channel's `(min, max)` pair as the board computes it. */
  datatype Extremum = Extremum(lo: real, hi: real)

  datatype Sensor = Sensor(
    base: Fields<seq<real>>,
    baseline: Option<Baseline>,  // `_Baseline`, absent until `set_baseline`
    min: real,                   // `get_min`
    max: real,                   // `get_max`
    mean: real,                  // `get_mean`
    variance: real,              // `get_var`
    valid: bool)                 // `is_valid`

  /** `Sensor.set_filter`: a list passed as `data` is adopted verbatim;
      anything else recomputes the design from the sensor's own time. */
  function SetFilter(s: Sensor, order: int, cutoff: Cutoff, btype: string, data: Filter): (r: Result<Sensor>)
    ensures data.Listed? ==> r == Ok(s.(base := s.base.(filter := data)))
    ensures !data.Listed? ==> (r.Ok? <==> DesignFilter(s.base.time, order, cutoff, btype).Ok?)
    ensures !data.Listed? && r.Ok? ==>
              r.value == s.(base := s.base.(filter := DesignFilter(s.base.time, order, cutoff, btype).value))
  {
    if data.Listed? then Ok(s.(base := s.base.(filter := data)))
    else
      match Base.SetFilter(s.base, order, cutoff, btype)
      case Err(e) => Err(e)
      case Ok(b) => Ok(s.(base := b))
  }

  /** The constructor. Statistics are taken from the readout before the base
      initialiser clears `_Data` and `_Time`; both are then set again, so the
      finished sensor holds the given readout and time. The constructor also
      takes a baseline but never stores it, so it is not a parameter here;
      the sensor starts valid. */
  function New(meta: Meta, name: string, time: seq<real>, readout: seq<real>,
               extremum: Extremum, filt: Filter): (r: Result<Sensor>)
    requires |readout| >= 2
    ensures r.Ok? <==> filt.Listed? || DefaultFilter(time).Ok?
    ensures r.Ok? ==> r.value.valid
    ensures r.Ok? ==> r.value.base.data == Some(readout) && r.value.base.time == Some(time)
    ensures r.Ok? ==> r.value.base.name == Some(name) && r.value.base.meta == meta
    ensures r.Ok? ==> r.value.min == extremum.lo && r.value.max == extremum.hi
    ensures r.Ok? ==> r.value.mean == Mean(readout) && r.value.variance == SampleVar(readout)
    ensures r.Ok? ==> r.value.baseline.None?
    ensures r.Ok? && filt.Listed? ==> r.value.base.filter == filt
    ensures r.Ok? && !filt.Listed? ==> r.value.base.filter == DefaultFilter(time).value
  {
    var mean := Mean(readout);
    var variance := SampleVar(readout);
    var cleared: Fields<seq<real>> :=
      Init(Some(name), meta.gas, meta.location, meta.voltage, meta.speed, meta.trial, meta.args);
    var b := SetTime(cleared.(data := Some(readout)), time);
    SetFilter(Sensor(b, None, extremum.lo, extremum.hi, mean, variance, true), 2, NoCutoff, "low", filt)
  }

  /** `set_valid(status)`: sets the flag to exactly `status`. */
  function SetValid(s: Sensor, status: bool): (r: Sensor)
    ensures r.valid == status
    ensures r.(valid := s.valid) == s
  {
    s.(valid := status)
  }

  /** `set_baseline`: a two-element sequence is stored as a pair; any other
      length fails the assertion. */
  function SetBaseline(s: Sensor, baseline: seq<int>): (r: Result<Sensor>)
    ensures r.Ok? <==> |baseline| == 2
    ensures r.Ok? ==> r.value.baseline == Some(Baseline(baseline[0], baseline[1]))
    ensures r.Ok? ==> r.value.(baseline := s.baseline) == s
  {
    if |baseline| != 2 then Err(AssertionFailed)
    else Ok(s.(baseline := Some(Baseline(baseline[0], baseline[1]))))
  }

  /** `get_fano`: variance over mean. */
  function Fano(s: Sensor): real
    requires s.mean != 0.0
  {
    s.variance / s.mean
  }

  /** The Fano factor of a freshly built sensor is the sample variance of
      its readout over the readout's mean: never negative when the mean is
      positive, and zero for a constant readout. */
  lemma FanoOfReadout(meta: Meta, name: string, time: seq<real>, readout: seq<real>,
                      extremum: Extremum, filt: Filter)
    requires |readout| >= 2 && Mean(readout) != 0.0
    requires New(meta, name, time, readout, extremum, filt).Ok?
    ensures Fano(New(meta, name, time, readout, extremum, filt).value) * Mean(readout) == SampleVar(readout)
    ensures Mean(readout) > 0.0 ==> Fano(New(meta, name, time, readout, extremum, filt).value) >= 0.0
    ensures (forall i :: 0 <= i < |readout| ==> readout[i] == readout[0]) ==>
              Fano(New(meta, name, time, readout, extremum, filt).value) == 0.0
  {
    var s := New(meta, name, time, readout, extremum, filt).value;
    var v := SampleVar(readout);
    var m := Mean(readout);
    assert Fano(s) == v / m;
    if m > 0.0 {
      assert v / m >= 0.0;
    }
  }

  /** `get_normal`: the readout scaled so that the sensor's minimum maps to 0
      and its maximum to 1. */
  function Normal(s: Sensor): (r: Result<seq<real>>)
    requires s.max != s.min
    ensures r.Ok? <==> s.base.data.Some?
    ensures r.Ok? ==> |r.value| == |s.base.data.value|
    ensures r.Ok? ==> forall i :: 0 <= i < |r.value| ==> s.min + r.value[i] * (s.max - s.min) == s.base.data.value[i]
    ensures r.Ok? ==> forall i :: 0 <= i < |r.value| && s.base.data.value[i] == s.min ==> r.value[i] == 0.0
    ensures r.Ok? ==> forall i :: 0 <= i < |r.value| && s.base.data.value[i] == s.max ==> r.value[i] == 1.0
  {
    if s.base.data.None? then Err(MissingAttribute)
    else Ok(Normalize(s.base.data.value, s.min, s.max))
  }

  /** The statistics and extremum never change after construction: neither
      a filter, a flag nor a baseline update touches them. */
  lemma StatisticsFixed(s: Sensor, status: bool, baseline: seq<int>, order: int,
                        cutoff: Cutoff, btype: string, data: Filter)
    ensures SetValid(s, status).mean == s.mean && SetValid(s, status).variance == s.variance
    ensures SetBaseline(s, baseline).Ok? ==>
              SetBaseline(s, baseline).value.mean == s.mean && SetBaseline(s, baseline).value.min == s.min
    ensures SetFilter(s, order, cutoff, btype, data).Ok? ==>
              var t := SetFilter(s, order, cutoff, btype, data).value;
              t.mean == s.mean && t.variance == s.variance && t.min == s.min && t.max == s.max && t.valid == s.valid
  {
  }
}
