/** The fields and setters that column, board and sensor inherit from the
    common base class (WTDtools/base.py).

    Python attributes that may hold `None` are `Option`s here. The Butterworth
    design `sp.butter(order, cutoff, btype)` is a foreign call: its result is
    represented by its three arguments, `Butter(order, cutoff, btype)`.
 */
module Base {
  import opened Common

  /** The `_args` dictionary handed down from the selector. */
  datatype Args = Args(
    verbose: bool,
    dropDuplicates: bool,
    resample: bool,
    fillGaps: bool,
    useCache: bool,
    cacheLocation: Option<string>)

  /** The experiment key recorded by the base constructor. */
  datatype Meta = Meta(
    gas: string,
    location: string,
    voltage: string,
    speed: string,
    trial: int,
    args: Args)

  /** A `_Filter` value: `None`, the (opaque) coefficient tuple returned by
      the Butterworth design, or a plain Python list set through `data=`. */
  datatype Filter =
    | NoFilter
    | Butter(order: int, cutoff: real, btype: string)
    | Listed(coeffs: seq<real>)

  /** The `cutoff` argument of `set_filter`: absent (`None`), a float, or an
      int. */
  datatype Cutoff = NoCutoff | FloatCutoff(f: real) | IntCutoff(i: int)

  /** Python truthiness of a cutoff argument. */
  predicate Falsy(c: Cutoff) {
    c.NoCutoff? || c == FloatCutoff(0.0) || c == IntCutoff(0)
  }

  const FilterTypes: set<string> := {"low", "high", "band"}

  /** A baseline window `(start, stop)` of time indices. */
  datatype Baseline = Baseline(start: int, stop: int)

  /** The inherited attributes; `D` is the level's data (a channel, a list of
      channels, or the column's table). */
  datatype Fields<D> = Fields(
    meta: Meta,
    name: Option<string>,
    time: Option<seq<real>>,
    data: Option<D>,
    filter: Filter)

  /** `base.__init__`: records the key and resets `_Time`, `_Data` and
      `_Filter` to `None`; a name set before the call survives it. */
  function Init<D>(name: Option<string>, gas: string, location: string, voltage: string,
                   speed: string, trial: int, args: Args): (b: Fields<D>)
    ensures b.meta.gas == gas && b.meta.location == location && b.meta.voltage == voltage
    ensures b.meta.speed == speed && b.meta.trial == trial && b.meta.args == args
    ensures b.time.None? && b.data.None? && b.filter.NoFilter?
    ensures b.name == name
  {
    Fields(Meta(gas, location, voltage, speed, trial, args), name, None, None, NoFilter)
  }

  /** `get_name`: `None` until a name is set. */
  function GetName<D>(b: Fields<D>): Option<string>
  {
    b.name
  }

  /** `set_name`. */
  function SetName<D>(b: Fields<D>, name: string): (r: Fields<D>)
    ensures GetName(r) == Some(name)
    ensures r.meta == b.meta && r.time == b.time && r.data == b.data && r.filter == b.filter
  {
    b.(name := Some(name))
  }

  /** `set_time`: stores `_Time` and nothing else. */
  function SetTime<D>(b: Fields<D>, time: seq<real>): (r: Fields<D>)
    ensures r.time == Some(time)
    ensures r.meta == b.meta && r.name == b.name && r.data == b.data && r.filter == b.filter
  {
    b.(time := Some(time))
  }

  /** `get_time`: the index of `_Data`, not `_Time`. `index` extracts the
      time index of a data value. */
  function GetTime<D>(b: Fields<D>, index: D -> seq<real>): (r: Result<seq<real>>)
    ensures r.Err? <==> b.data.None?
    ensures r.Ok? ==> r.value == index(b.data.value)
  {
    if b.data.None? then Err(MissingAttribute) else Ok(index(b.data.value))
  }

  /** Setting the time does not change what `get_time` reports. */
  lemma SetTimeInvisible<D>(b: Fields<D>, time: seq<real>, index: D -> seq<real>)
    ensures GetTime(SetTime(b, time), index) == GetTime(b, index)
  {
  }

  /** `sample_rate`: samples per second, `len(_Time) / _Time[-1] * 1000`. */
  function SampleRate(time: Option<seq<real>>): (r: Result<real>)
    ensures time.None? ==> r == Err(MissingAttribute)
    ensures time.Some? && |time.value| == 0 ==> r == Err(IndexOutOfRange)
    ensures time.Some? && |time.value| > 0 && time.value[|time.value| - 1] == 0.0 ==> r == Err(DivisionByZero)
    ensures r.Ok? ==> r.value != 0.0
    ensures r.Ok? ==> r.value * time.value[|time.value| - 1] == (|time.value| as real) * 1000.0
  {
    if time.None? then Err(MissingAttribute)
    else if |time.value| == 0 then Err(IndexOutOfRange)
    else
      var last := time.value[|time.value| - 1];
      if last == 0.0 then Err(DivisionByZero)
      else Ok((|time.value| as real) / last * 1000.0)
  }

  /** The argument checks `scipy.signal.butter` makes before it designs a
      digital filter: a non-negative order, a critical frequency strictly
      between 0 and 1 (a fraction of the Nyquist rate), and a single
      frequency for a single-edge type. `set_filter` always passes one
      number, so the band-pass type `"band"` is always refused. */
  predicate ButterAccepts(order: int, cutoff: real, btype: string) {
    0 <= order && 0.0 < cutoff < 1.0 && btype != "band"
  }

  /** `sp.butter(order, cutoff, btype=btype)`: the design, or the ValueError
      its argument checks raise. */
  function Butterworth(order: int, cutoff: real, btype: string): (r: Result<Filter>)
    ensures r.Ok? <==> ButterAccepts(order, cutoff, btype)
    ensures r.Ok? ==> r.value == Butter(order, cutoff, btype)
    ensures r.Err? ==> r.error == InvalidFilter
  {
    if ButterAccepts(order, cutoff, btype) then Ok(Butter(order, cutoff, btype)) else Err(InvalidFilter)
  }

  /** The argument checks and default cutoff of `base.set_filter`, applied
      to a time index: a float or falsy cutoff and a known band type are
      required, and a falsy cutoff becomes `1 / (sample_rate / 2)`, which
      the design accepts only above 2 samples per second. */
  function DesignFilter(time: Option<seq<real>>, order: int, cutoff: Cutoff, btype: string): (r: Result<Filter>)
    ensures !(cutoff.FloatCutoff? || Falsy(cutoff)) ==> r == Err(AssertionFailed)
    ensures btype !in FilterTypes ==> r == Err(AssertionFailed)
    ensures r.Ok? ==> r.value.Butter? && r.value.order == order && r.value.btype == btype
    ensures r.Ok? ==> ButterAccepts(order, r.value.cutoff, btype)
    ensures r.Ok? && !Falsy(cutoff) ==> r.value.cutoff == cutoff.f
    ensures !Falsy(cutoff) && cutoff.FloatCutoff? && btype in FilterTypes ==>
              (r.Ok? <==> ButterAccepts(order, cutoff.f, btype))
    ensures Falsy(cutoff) && btype in FilterTypes ==>
              (r.Ok? <==> SampleRate(time).Ok? && 0 <= order && btype != "band" && SampleRate(time).value > 2.0)
    ensures r.Ok? && Falsy(cutoff) ==> r.value.cutoff * SampleRate(time).value == 2.0
  {
    if !(cutoff.FloatCutoff? || Falsy(cutoff)) then Err(AssertionFailed)
    else if btype !in FilterTypes then Err(AssertionFailed)
    else if !Falsy(cutoff) then Butterworth(order, cutoff.f, btype)
    else
      match SampleRate(time)
      case Err(e) => Err(e)
      case Ok(rate) =>
        var wn := 1.0 / (rate / 2.0);
        assert wn * rate == 2.0;
        assert 0.0 < wn < 1.0 <==> rate > 2.0 by {
          if rate > 2.0 { assert wn == 2.0 / rate; }
          if 0.0 < wn < 1.0 { assert rate == 2.0 / wn; }
        }
        Butterworth(order, wn, btype)
  }

  /** `base.set_filter(order, cutoff, btype)`: replaces `_Filter` with the
      design computed from this object's own `_Time`. */
  function SetFilter<D>(b: Fields<D>, order: int, cutoff: Cutoff, btype: string): (r: Result<Fields<D>>)
    ensures r.Ok? <==> DesignFilter(b.time, order, cutoff, btype).Ok?
    ensures r.Ok? ==> r.value == b.(filter := DesignFilter(b.time, order, cutoff, btype).value)
  {
    match DesignFilter(b.time, order, cutoff, btype)
    case Err(e) => Err(e)
    case Ok(f) => Ok(b.(filter := f))
  }

  /** The filter every constructor installs: `set_filter()` with its
      defaults (order 2, no cutoff, low-pass). It exists exactly when the
      last timestamp is positive and below 500 ms times the number of
      samples, that is, when the sample rate exceeds 2 per second. */
  function DefaultFilter(time: seq<real>): (r: Result<Filter>)
    ensures r.Ok? <==> |time| > 0 && 0.0 < time[|time| - 1] < (|time| as real) * 500.0
    ensures r.Ok? ==> r.value.Butter? && r.value.order == 2 && r.value.btype == "low"
    ensures r.Ok? ==> r.value.cutoff * SampleRate(Some(time)).value == 2.0
  {
    assert SampleRate(Some(time)).Ok? ==>
             (SampleRate(Some(time)).value > 2.0 <==> 0.0 < time[|time| - 1] < (|time| as real) * 500.0) by {
      if SampleRate(Some(time)).Ok? {
        RateAboveTwo(|time|, time[|time| - 1]);
      }
    }
    DesignFilter(Some(time), 2, NoCutoff, "low")
  }

  /** The rate `n / last * 1000` exceeds 2 exactly when `0 < last < 500 n`. */
  lemma RateAboveTwo(n: nat, last: real)
    requires n > 0 && last != 0.0
    ensures (n as real) / last * 1000.0 > 2.0 <==> 0.0 < last < (n as real) * 500.0
  {
    var rate := (n as real) / last * 1000.0;
    assert rate * last == (n as real) * 1000.0;
    if last < 0.0 {
      assert rate < 0.0;
    } else {
      assert rate > 2.0 <==> rate * last > 2.0 * last;
    }
  }
}
