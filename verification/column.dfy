/** A column of nine boards (WTDtools/SensorColumn.py): the constructor's
    order of steps, the baseline taken from the mass-flow controllers, the
    setters that reach the boards only once the column is built, and the
    column-wide aggregates.

    What pandas and scipy do to the channel values (parsing, reindexing
    after dropping duplicates, spline resampling) is supplied as a
    `Library` of functions the model never looks into.
 */
module Columns {
  import opened Common
  import opened SeqMath
  import opened Strings
  import opened Base
  import Boards
  import Timestamps
  import Ingest

  const BoardCount: nat := 9

  /** `_Data`: the table `load` produced, or the nested lists `set_data`
      stores in its place. */
  datatype ColumnData = Frame(table: Ingest.Table) | Nested(boards: seq<seq<seq<real>>>)

  datatype Column = Column(
    base: Fields<ColumnData>,
    cache: Option<string>,            // `HDFcache`
    baseline: Option<Baseline>,       // `_Baseline`
    boards: seq<Boards.Board>,        // `Board1` .. `Board9`, empty until built
    init: bool)                       // `_init`

  /** The library calls the constructor makes on the data. */
  datatype Library = Library(
    parse: string -> Ingest.Table,                            // `pd.read_table`
    reindex: (Ingest.Table, seq<real>) -> Ingest.Table,       // `DataFrame.reindex`
    resample: (Ingest.Table, seq<real>) -> Ingest.Table)      // reindex plus spline evaluation

  /** Every board of the list is built. */
  predicate AllBuilt(bs: seq<Boards.Board>) {
    forall k :: 0 <= k < |bs| ==> Boards.Built(bs[k])
  }

  /** The column's nine boards are all built. */
  predicate Assembled(c: Column) {
    |c.boards| == BoardCount && AllBuilt(c.boards)
  }

  /** The channel name of sensor `s` on board `b` (both from 1). */
  function ChannelName(b: nat, s: nat): string
  {
    "B" + NatToString(b) + "S" + NatToString(s)
  }

  /** The readout handed to board `k` (from 1): channels `BkS1` .. `BkS8`.
      A missing channel is an `AttributeError`; fewer than two samples would
      make the board's statistics NaN and is refused here. */
  function Readout(t: Ingest.Table, k: nat): (r: Result<seq<seq<real>>>)
    ensures r.Ok? <==> forall s :: 1 <= s <= Boards.SensorCount ==>
                         ChannelName(k, s) in t.channels && |t.channels[ChannelName(k, s)]| >= 2
    ensures r.Ok? ==> |r.value| == Boards.SensorCount && Boards.Channels(r.value)
    ensures r.Ok? ==> forall s :: 0 <= s < Boards.SensorCount ==> r.value[s] == t.channels[ChannelName(k, s + 1)]
  {
    if exists s :: 1 <= s <= Boards.SensorCount && ChannelName(k, s) !in t.channels then Err(MissingColumns)
    else if exists s :: 1 <= s <= Boards.SensorCount && |t.channels[ChannelName(k, s)]| < 2 then Err(TooFewRows)
    else Ok(seq(Boards.SensorCount, s requires 0 <= s < Boards.SensorCount => t.channels[ChannelName(k, s + 1)]))
  }

  /** `np.where(read > read.max() / 2)[0][0]`: the first sample above half
      the largest one; `None` where the bare `except` swallows the error
      (an empty channel, or no such sample). */
  function FirstAbove(read: seq<real>): (r: Option<nat>)
    ensures r.Some? ==> r.value < |read| && read[r.value] > Max(read) / 2.0
    ensures r.Some? ==> forall j :: 0 <= j < r.value ==> read[j] <= Max(read) / 2.0
    ensures r.None? && |read| > 0 ==> forall j :: 0 <= j < |read| ==> read[j] <= Max(read) / 2.0
  {
    if |read| == 0 then None else Above(read, Max(read) / 2.0, 0)
  }

  function Above(read: seq<real>, half: real, k: nat): (r: Option<nat>)
    requires k <= |read|
    ensures r.Some? ==> k <= r.value < |read| && read[r.value] > half
    ensures r.Some? ==> forall j :: k <= j < r.value ==> read[j] <= half
    ensures r.None? ==> forall j :: k <= j < |read| ==> read[j] <= half
    decreases |read| - k
  {
    if k == |read| then None
    else if read[k] > half then Some(k)
    else Above(read, half, k + 1)
  }

  /** A non-empty channel has a sample above half its largest exactly when
      that largest sample is positive. */
  lemma FirstAboveExists(read: seq<real>)
    requires |read| > 0
    ensures FirstAbove(read).Some? <==> Max(read) > 0.0
  {
    var m := Max(read);
    if m > 0.0 {
      var i :| 0 <= i < |read| && read[i] == m;
      assert read[i] > m / 2.0;
    }
  }

  const MfcChannels: seq<string> := ["Mfc1_Read", "Mfc2_Read", "Mfc3_Read"]

  /** The first rise of each mass-flow channel that has one, in channel
      order. */
  function Rises(t: Ingest.Table, names: seq<string>): (r: seq<nat>)
    ensures forall i :: 0 <= i < |r| ==> exists n :: n in names && n in t.channels
                                          && FirstAbove(t.channels[n]) == Some(r[i])
    ensures forall n :: n in names && n in t.channels && FirstAbove(t.channels[n]).Some? ==>
              FirstAbove(t.channels[n]).value in r
  {
    if |names| == 0 then []
    else
      var rest := Rises(t, names[1..]);
      var n := names[0];
      if n in t.channels && FirstAbove(t.channels[n]).Some? then [FirstAbove(t.channels[n]).value] + rest
      else rest
  }

  /** The smallest of a non-empty list of indices. */
  function Least(s: seq<nat>): (m: nat)
    requires |s| > 0
    ensures m in s && forall i :: 0 <= i < |s| ==> m <= s[i]
  {
    if |s| == 1 then s[0]
    else
      var rest := Least(s[1..]);
      if s[0] <= rest then s[0] else rest
  }

  /** `get_baseline`: `(0, m)` for the earliest first rise `m` among the
      mass-flow channels, `None` when no channel rises. */
  function GetBaseline(t: Ingest.Table): (r: Option<Baseline>)
    ensures r.Some? ==> r.value.start == 0 && r.value.stop >= 0
  {
    var ends := Rises(t, MfcChannels);
    if |ends| == 0 then None else Some(Baseline(0, Least(ends)))
  }

  /** The baseline ends where the first mass-flow controller rises: some
      channel is above half its maximum at the end index, and no channel
      gets there earlier. With no rise at all, every present channel is
      empty or never positive. */
  lemma BaselineIsFirstRise(t: Ingest.Table)
    ensures GetBaseline(t).Some? ==>
              var m := GetBaseline(t).value.stop;
              (exists n :: n in MfcChannels && n in t.channels && m < |t.channels[n]|
                 && t.channels[n][m] > Max(t.channels[n]) / 2.0)
              && (forall n, j :: n in MfcChannels && n in t.channels && 0 <= j < m && j < |t.channels[n]| ==>
                    t.channels[n][j] <= Max(t.channels[n]) / 2.0)
    ensures GetBaseline(t).None? ==>
              forall n :: n in MfcChannels && n in t.channels && |t.channels[n]| > 0 ==> Max(t.channels[n]) <= 0.0
  {
    var ends := Rises(t, MfcChannels);
    if |ends| > 0 {
      var m := Least(ends);
      forall n, j | n in MfcChannels && n in t.channels && 0 <= j < m && j < |t.channels[n]|
        ensures t.channels[n][j] <= Max(t.channels[n]) / 2.0
      {
        var read := t.channels[n];
        if FirstAbove(read).Some? {
          assert FirstAbove(read).value in ends;
        } else {
          assert |read| > 0;
        }
      }
    } else {
      forall n | n in MfcChannels && n in t.channels && |t.channels[n]| > 0
        ensures Max(t.channels[n]) <= 0.0
      {
        FirstAboveExists(t.channels[n]);
      }
    }
  }

  /** The baseline the constructor installs: the detected one, else
      `(0, 1000)`. */
  function ConstructorBaseline(t: Ingest.Table): (r: Baseline)
    ensures GetBaseline(t).Some? ==> r == GetBaseline(t).value
    ensures GetBaseline(t).None? ==> r == Baseline(0, 1000)
  {
    match GetBaseline(t)
    case Some(b) => b
    case None => Baseline(0, 1000)
  }

  /** `HDFcache`: the configured location when the cache is requested; a
      request without a location raises. */
  function CacheLocation(args: Args): (r: Result<Option<string>>)
    ensures !args.useCache ==> r == Ok(None)
    ensures args.useCache ==> (r.Ok? <==> args.cacheLocation.Some?)
    ensures args.useCache && r.Ok? ==> r.value == args.cacheLocation
  {
    if !args.useCache then Ok(None)
    else if args.cacheLocation.None? then Err(NoCacheLocation)
    else Ok(args.cacheLocation)
  }

  /** The table and time index after the optional clean-up steps:
      `drop_duplicates` (which leaves both alone when nothing repeats) and
      then `resample(rate=100)`. */
  datatype Cleaned = Cleaned(table: Ingest.Table, time: seq<real>)

  /** The table and time after the optional `drop_duplicates`. */
  function Deduped(t: Ingest.Table, args: Args, lib: Library): (r: Cleaned)
    ensures !args.dropDuplicates ==> r == Cleaned(t, t.index)
    ensures args.dropDuplicates ==> r.time == Timestamps.DropDuplicates(t.index)
  {
    if args.dropDuplicates && |Timestamps.Repeats(t.index)| > 0 then
      var time := Timestamps.DropDuplicates(t.index);
      Cleaned(lib.reindex(t, time), time)
    else Cleaned(t, t.index)
  }

  /** Both clean-up steps. `resample` reindexes the table on the 100 Hz
      grid, which pandas refuses for an index with a repeated stamp, and
      fits a spline with `s=0` through the old stamps, which scipy refuses
      unless they strictly increase: it fails exactly when the stamps left
      after `drop_duplicates` do not strictly increase. */
  function Clean(t: Ingest.Table, args: Args, lib: Library): (r: Result<Cleaned>)
    ensures r.Ok? <==> !args.resample || Timestamps.Ascending(Deduped(t, args, lib).time)
    ensures r.Err? ==> r.error == NotAscending
    ensures !args.resample ==> r == Ok(Deduped(t, args, lib))
    ensures !args.dropDuplicates && !args.resample ==> r == Ok(Cleaned(t, t.index))
    ensures r.Ok? && args.resample ==> r.value.time == Timestamps.Grid(100).value
    ensures args.dropDuplicates && !args.resample ==> r.Ok? && r.value.time == Timestamps.DropDuplicates(t.index)
  {
    var deduped := Deduped(t, args, lib);
    if !args.resample then Ok(deduped)
    else if !Timestamps.Ascending(deduped.time) then Err(NotAscending)
    else
      var grid := Timestamps.Grid(100).value;
      Ok(Cleaned(lib.resample(deduped.table, grid), grid))
  }

  /** A strictly increasing index always survives the clean-up, and
      without resampling it is left exactly as loaded. */
  lemma AscendingCleans(t: Ingest.Table, args: Args, lib: Library)
    requires Timestamps.Ascending(t.index)
    ensures Clean(t, args, lib).Ok?
    ensures !args.resample ==> Clean(t, args, lib).value == Cleaned(t, t.index)
  {
    assert Timestamps.Distinct(t.index) by {
      forall i | 0 <= i < |t.index| - 1
        ensures !Timestamps.Repeated(t.index, i)
      {
        assert t.index[(i + 1) - 1] < t.index[i + 1];
      }
    }
  }

  /** A stamp repeated out of order is not caught by `drop_duplicates`,
      which only compares neighbours, and then stops `resample`. */
  lemma DistantRepeatStopsResample(t: Ingest.Table, args: Args, lib: Library)
    requires t.index == [1.0, 2.0, 1.0] && args.resample
    ensures Clean(t, args, lib) == Err(NotAscending)
  {
    assert Timestamps.Distinct(t.index) by {
      assert !Timestamps.Repeated(t.index, 0) && !Timestamps.Repeated(t.index, 1);
    }
    assert !Timestamps.Ascending(t.index) by {
      assert t.index[1] > t.index[2];
    }
  }

  /** The name of board `k` (from 1). */
  function BoardName(k: nat): string
  {
    "Board " + NatToString(k)
  }

  /** Board `k` (from 1) as the constructor builds it: its readout, the
      column's time, baseline and filter. */
  function MakeBoard(m: Meta, t: Ingest.Table, time: seq<real>, baseline: Baseline, filt: Filter, k: nat):
    (r: Result<Boards.Board>)
    ensures r.Ok? <==> Readout(t, k).Ok? && (filt.Listed? || DefaultFilter(time).Ok?)
    ensures r.Ok? ==> Boards.Built(r.value) && r.value.base.name == Some(BoardName(k))
                      && r.value.base.time == Some(time) && r.value.base.data == Some(Readout(t, k).value)
                      && r.value.baseline == Some(baseline)
  {
    var readout :- Readout(t, k);
    Boards.New(m, BoardName(k), time, readout, [baseline.start, baseline.stop], filt)
  }

  /** The attempts to build boards 1 .. 9, in order. */
  function Attempts(m: Meta, t: Ingest.Table, time: seq<real>, baseline: Baseline, filt: Filter):
    (r: seq<Result<Boards.Board>>)
    ensures |r| == BoardCount
    ensures forall j :: 0 <= j < BoardCount ==> r[j] == MakeBoard(m, t, time, baseline, filt, j + 1)
  {
    seq(BoardCount, j requires 0 <= j < BoardCount => MakeBoard(m, t, time, baseline, filt, j + 1))
  }

  /** The nine boards, built in order; the first board that fails to build
      decides the error. */
  function BuildBoards(m: Meta, t: Ingest.Table, time: seq<real>, baseline: Baseline, filt: Filter):
    (r: Result<seq<Boards.Board>>)
    ensures var tries := Attempts(m, t, time, baseline, filt);
      r.Ok? <==> forall j :: 0 <= j < BoardCount ==> tries[j].Ok?
    ensures var tries := Attempts(m, t, time, baseline, filt);
      r.Ok? ==> |r.value| == BoardCount && forall j :: 0 <= j < BoardCount ==> tries[j] == Ok(r.value[j])
    ensures r.Ok? ==> AllBuilt(r.value)
    ensures var tries := Attempts(m, t, time, baseline, filt);
      r.Err? ==> exists j :: 0 <= j < BoardCount && tries[j] == Err(r.error) && forall i :: 0 <= i < j ==> tries[i].Ok?
  {
    var r := Collect(Attempts(m, t, time, baseline, filt));
    assert r.Ok? ==> AllBuilt(r.value) by {
      if r.Ok? {
        forall k | 0 <= k < |r.value|
          ensures Boards.Built(r.value[k])
        {
          assert Attempts(m, t, time, baseline, filt)[k] == Ok(r.value[k]);
        }
      }
    }
    r
  }

  /** The constructed column and the disk after loading and caching. */
  datatype Built = Built(column: Column, disk: Ingest.Disk)

  /** The nine boards the constructor builds from a loaded table: the
      cleaned table and time, the detected or default baseline, and the
      default filter of the loaded index. */
  function LoadedBoards(m: Meta, t: Ingest.Table, lib: Library): (r: Result<seq<Boards.Board>>)
    requires DefaultFilter(t.index).Ok? && Clean(t, m.args, lib).Ok?
    ensures var cleaned := Clean(t, m.args, lib).value;
      r == BuildBoards(m, cleaned.table, cleaned.time, ConstructorBaseline(t), DefaultFilter(t.index).value)
  {
    var cleaned := Clean(t, m.args, lib).value;
    BuildBoards(m, cleaned.table, cleaned.time, ConstructorBaseline(t), DefaultFilter(t.index).value)
  }

  /** The constructor after `load`: name, time from the table's index,
      default filter, baseline, the optional clean-up, the nine boards, and
      `_init`. */
  function Assemble(m: Meta, cache: Option<string>, t: Ingest.Table, lib: Library): (r: Result<Column>)
    ensures r.Ok? <==> DefaultFilter(t.index).Ok? && Clean(t, m.args, lib).Ok? && LoadedBoards(m, t, lib).Ok?
    ensures DefaultFilter(t.index).Ok? && Clean(t, m.args, lib).Err? ==> r == Err(NotAscending)
    ensures r.Ok? ==> var c := r.value;
              c.init && Assembled(c) && c.base.meta == m && c.cache == cache
              && c.base.name == Some("Column " + m.location)
              && c.boards == LoadedBoards(m, t, lib).value
              && c.baseline == Some(ConstructorBaseline(t))
              && c.base.filter == DefaultFilter(t.index).value
              && var cleaned := Clean(t, m.args, lib).value;
                 c.base.data == Some(Frame(cleaned.table)) && c.base.time == Some(cleaned.time)
  {
    var filt :- DefaultFilter(t.index);
    var cleaned :- Clean(t, m.args, lib);
    var boards :- LoadedBoards(m, t, lib);
    var fields := Fields(m, Some("Column " + m.location), Some(cleaned.time), Some(Frame(cleaned.table)), filt);
    Ok(Column(fields, cache, Some(ConstructorBaseline(t)), boards, true))
  }

  /** The constructor: cache location, `load`, then `Assemble`. It
      succeeds exactly when the cache request is well formed, the load
      succeeds, the loaded index admits the default filter and all nine
      boards build; the boards are those of the cleaned table. */
  function New(locator: string, m: Meta, disk: Ingest.Disk, lib: Library): (r: Result<Built>)
    ensures CacheLocation(m.args).Err? ==> r == Err(NoCacheLocation)
    ensures r.Ok? <==> CacheLocation(m.args).Ok?
                       && var loaded := Ingest.Load(None, disk, CacheLocation(m.args).value, locator, m, lib.parse);
                       loaded.Ok? && DefaultFilter(loaded.value.table.index).Ok?
                       && Clean(loaded.value.table, m.args, lib).Ok?
                       && LoadedBoards(m, loaded.value.table, lib).Ok?
    ensures r.Ok? ==> var c := r.value.column;
              var loaded := Ingest.Load(None, disk, CacheLocation(m.args).value, locator, m, lib.parse).value;
              c.init && Assembled(c) && c.base.meta == m
              && c.base.name == Some("Column " + m.location)
              && c.cache == CacheLocation(m.args).value
              && c.boards == LoadedBoards(m, loaded.table, lib).value
              && c.baseline == Some(ConstructorBaseline(loaded.table))
              && c.base.filter == DefaultFilter(loaded.table.index).value
              && var cleaned := Clean(loaded.table, m.args, lib).value;
                 c.base.data == Some(Frame(cleaned.table)) && c.base.time == Some(cleaned.time)
    ensures r.Ok? && CacheLocation(m.args).value.Some? ==>
              var path := CacheLocation(m.args).value.value;
              path in r.value.disk.stores && Ingest.DataName(m) in r.value.disk.stores[path]
    ensures r.Ok? && !m.args.useCache ==> r.value.disk == disk
  {
    var cache :- CacheLocation(m.args);
    var loaded :- Ingest.Load(None, disk, cache, locator, m, lib.parse);
    var column :- Assemble(m, cache, loaded.table, lib);
    if cache.None? then Ok(Built(column, loaded.disk))
    else
      var saved := Ingest.SaveHdf5(Some(Clean(loaded.table, m.args, lib).value.table), loaded.disk, cache.value, m, false);
      Ok(Built(column, saved.value))
  }

  /** A column the constructor returns is finished: `_init` set, nine
      built boards, and the experiment key it was given. */
  lemma NewFinished(locator: string, m: Meta, disk: Ingest.Disk, lib: Library)
    requires New(locator, m, disk, lib).Ok?
    ensures var c := New(locator, m, disk, lib).value.column;
            c.init && Assembled(c) && c.base.meta == m
  {
  }

  /** What `BoardK.set_data(data[K - 1])` gives, in board order: an
      `IndexError` once `data` has no entry for the board. */
  function DataAttempts(bs: seq<Boards.Board>, data: seq<seq<seq<real>>>): (r: seq<Result<Boards.Board>>)
    requires AllBuilt(bs) && forall k :: 0 <= k < |data| && k < |bs| ==> Boards.Channels(data[k])
    ensures |r| == |bs|
    ensures forall k :: 0 <= k < |bs| && k < |data| ==> r[k] == Boards.SetData(bs[k], data[k])
    ensures forall k :: |data| <= k < |bs| ==> r[k] == Err(IndexOutOfRange)
  {
    seq(|bs|, k requires 0 <= k < |bs| => if k < |data| then Boards.SetData(bs[k], data[k]) else Err(IndexOutOfRange))
  }

  /** The boards' `set_data` calls, in order; the first failure, or the
      first board without an entry, decides the error. */
  function DataEach(bs: seq<Boards.Board>, data: seq<seq<seq<real>>>): (r: Result<seq<Boards.Board>>)
    requires AllBuilt(bs) && forall k :: 0 <= k < |data| && k < |bs| ==> Boards.Channels(data[k])
    ensures r.Ok? <==> |data| >= |bs| && forall k :: 0 <= k < |bs| ==> Boards.SetData(bs[k], data[k]).Ok?
    ensures r.Ok? ==> |r.value| == |bs| && AllBuilt(r.value)
    ensures r.Ok? ==> forall k :: 0 <= k < |bs| ==>
              Boards.SetData(bs[k], data[k]).Ok? && r.value[k] == Boards.SetData(bs[k], data[k]).value
    ensures var tries := DataAttempts(bs, data);
      r.Err? ==> exists j :: 0 <= j < |bs| && tries[j] == Err(r.error) && forall i :: 0 <= i < j ==> tries[i].Ok?
  {
    var tries := DataAttempts(bs, data);
    var r := Collect(tries);
    assert r.Ok? ==> |data| >= |bs| by {
      if |data| < |bs| {
        assert tries[|data|].Err?;
      }
    }
    assert r.Ok? ==> AllBuilt(r.value) by {
      if r.Ok? {
        forall k | 0 <= k < |bs|
          ensures Boards.Built(r.value[k])
        {
          assert tries[k] == Ok(r.value[k]);
        }
      }
    }
    r
  }

  /** `set_data`: stores the nested lists and, once built, sends `data[k]`
      to board `k + 1`, one board after the other; the first board without
      an entry raises `IndexError`, unless an earlier board failed first. */
  function SetData(c: Column, data: seq<seq<seq<real>>>): (r: Result<Column>)
    requires c.init ==> Assembled(c)
    requires forall k :: 0 <= k < |data| && k < BoardCount ==> Boards.Channels(data[k])
    ensures !c.init ==> r == Ok(c.(base := c.base.(data := Some(Nested(data)))))
    ensures c.init ==> (r.Ok? <==> |data| >= BoardCount
                                   && forall k :: 0 <= k < BoardCount ==> Boards.SetData(c.boards[k], data[k]).Ok?)
    ensures c.init && |data| == 0 ==> r == Err(IndexOutOfRange)
    ensures c.init && |data| < BoardCount && (forall k :: 0 <= k < |data| ==> Boards.SetData(c.boards[k], data[k]).Ok?) ==>
              r == Err(IndexOutOfRange)
    ensures c.init && r.Err? ==> var tries := DataAttempts(c.boards, data);
              exists j :: 0 <= j < BoardCount && tries[j] == Err(r.error) && forall i :: 0 <= i < j ==> tries[i].Ok?
    ensures r.Ok? ==> r.value.base == c.base.(data := Some(Nested(data)))
    ensures r.Ok? ==> r.value.init == c.init && r.value.baseline == c.baseline && r.value.cache == c.cache
    ensures r.Ok? && c.init ==> Assembled(r.value)
    ensures r.Ok? && c.init ==>
              forall k :: 0 <= k < BoardCount ==>
                   Boards.SetData(c.boards[k], data[k]).Ok?
                   && r.value.boards[k] == Boards.SetData(c.boards[k], data[k]).value
  {
    var stored := c.(base := c.base.(data := Some(Nested(data))));
    if !c.init then Ok(stored)
    else
      var bs :- DataEach(c.boards, data);
      Ok(stored.(boards := bs))
  }

  /** Each built board's `set_filter(order, cutoff, btype)`. */
  function FilterEach(bs: seq<Boards.Board>, order: int, cutoff: Cutoff, btype: string): (r: Result<seq<Boards.Board>>)
    requires AllBuilt(bs)
    ensures r.Ok? <==> forall k :: 0 <= k < |bs| ==> Boards.SetFilter(bs[k], order, cutoff, btype, NoFilter).Ok?
    ensures r.Ok? ==> |r.value| == |bs| && AllBuilt(r.value)
    ensures r.Ok? ==> forall k :: 0 <= k < |bs| ==>
              Boards.SetFilter(bs[k], order, cutoff, btype, NoFilter).Ok?
              && r.value[k] == Boards.SetFilter(bs[k], order, cutoff, btype, NoFilter).value
  {
    if |bs| == 0 then Ok([])
    else
      var head :- Boards.SetFilter(bs[0], order, cutoff, btype, NoFilter);
      var rest :- FilterEach(bs[1..], order, cutoff, btype);
      assert forall k :: 1 <= k < |bs| ==> bs[1..][k - 1] == bs[k];
      Ok([head] + rest)
  }

  /** `set_filter`: the column's own design first, then, once built, the
      same arguments to every board. */
  function SetFilter(c: Column, order: int, cutoff: Cutoff, btype: string): (r: Result<Column>)
    requires c.init ==> Assembled(c)
    ensures r.Ok? ==> Base.SetFilter(c.base, order, cutoff, btype).Ok?
                      && r.value.base == Base.SetFilter(c.base, order, cutoff, btype).value
    ensures !c.init ==> (r.Ok? <==> Base.SetFilter(c.base, order, cutoff, btype).Ok?)
    ensures c.init ==> (r.Ok? <==> Base.SetFilter(c.base, order, cutoff, btype).Ok?
                                   && forall k :: 0 <= k < BoardCount ==>
                                        Boards.SetFilter(c.boards[k], order, cutoff, btype, NoFilter).Ok?)
    ensures r.Ok? && !c.init ==> r.value.boards == c.boards
    ensures r.Ok? ==> r.value.init == c.init && r.value.baseline == c.baseline && r.value.cache == c.cache
    ensures r.Ok? && c.init ==> Assembled(r.value)
    ensures r.Ok? && c.init ==>
              forall k :: 0 <= k < BoardCount ==>
                   Boards.SetFilter(c.boards[k], order, cutoff, btype, NoFilter).Ok?
                   && r.value.boards[k] == Boards.SetFilter(c.boards[k], order, cutoff, btype, NoFilter).value
  {
    var base :- Base.SetFilter(c.base, order, cutoff, btype);
    if !c.init then Ok(c.(base := base))
    else
      var bs :- FilterEach(c.boards, order, cutoff, btype);
      Ok(c.(base := base, boards := bs))
  }

  /** Each built board's `set_baseline(baseline)`. */
  function BaselineEach(bs: seq<Boards.Board>, baseline: seq<int>): (r: Result<seq<Boards.Board>>)
    requires AllBuilt(bs)
    ensures |bs| > 0 && |baseline| != 2 ==> r == Err(AssertionFailed)
    ensures r.Ok? <==> forall k :: 0 <= k < |bs| ==> Boards.SetBaseline(bs[k], baseline).Ok?
    ensures r.Ok? ==> |r.value| == |bs| && AllBuilt(r.value)
    ensures r.Ok? ==> forall k :: 0 <= k < |bs| ==>
              Boards.SetBaseline(bs[k], baseline).Ok?
              && r.value[k] == Boards.SetBaseline(bs[k], baseline).value
  {
    if |bs| == 0 then Ok([])
    else
      var head :- Boards.SetBaseline(bs[0], baseline);
      var rest :- BaselineEach(bs[1..], baseline);
      assert forall k :: 1 <= k < |bs| ==> bs[1..][k - 1] == bs[k];
      Ok([head] + rest)
  }

  /** `set_baseline`: keeps the first two entries as the column's pair
      (fewer raise `IndexError`) and, once built, passes the whole list to
      every board, whose assertion wants exactly two. */
  function SetBaseline(c: Column, baseline: seq<int>): (r: Result<Column>)
    requires c.init ==> Assembled(c)
    ensures |baseline| < 2 ==> r == Err(IndexOutOfRange)
    ensures !c.init && |baseline| >= 2 ==> r == Ok(c.(baseline := Some(Baseline(baseline[0], baseline[1]))))
    ensures c.init && |baseline| > 2 ==> r == Err(AssertionFailed)
    ensures r.Ok? ==> r.value.baseline == Some(Baseline(baseline[0], baseline[1]))
                      && r.value.base == c.base && r.value.init == c.init
    ensures r.Ok? && c.init ==> Assembled(r.value)
    ensures r.Ok? && c.init ==>
              forall k :: 0 <= k < BoardCount ==>
                   Boards.SetBaseline(c.boards[k], baseline).Ok?
                   && r.value.boards[k] == Boards.SetBaseline(c.boards[k], baseline).value
  {
    if |baseline| < 2 then Err(IndexOutOfRange)
    else
      var stored := c.(baseline := Some(Baseline(baseline[0], baseline[1])));
      if !c.init then Ok(stored)
      else
        var bs :- BaselineEach(c.boards, baseline);
        Ok(stored.(boards := bs))
  }

  /** A column-wide extreme: the board (from 1), the position the board
      reported, and the value. */
  datatype Located = Located(board: nat, sensor: nat, value: real)

  /** `(idx + 1, lst[idx][0], best)` over the boards' results, where `best`
      is the smallest (`lowest`) or largest value and `idx` its first
      position. */
  function Locate(rs: seq<Ranked>, lowest: bool): (r: Located)
    requires |rs| > 0
    ensures 1 <= r.board <= |rs|
  {
    var i := Best(rs, lowest);
    Located(i + 1, rs[i].position, rs[i].value)
  }

  /** The first index of the smallest (`lowest`) or largest value. */
  function Best(rs: seq<Ranked>, lowest: bool): (i: nat)
    requires |rs| > 0
    ensures i < |rs|
    ensures lowest ==> forall k :: 0 <= k < |rs| ==> rs[i].value <= rs[k].value
    ensures !lowest ==> forall k :: 0 <= k < |rs| ==> rs[k].value <= rs[i].value
    ensures forall k :: 0 <= k < i ==> rs[k].value != rs[i].value
  {
    var vals := seq(|rs|, i requires 0 <= i < |rs| => rs[i].value);
    assert forall i :: 0 <= i < |rs| ==> vals[i] == rs[i].value;
    var best := if lowest then FirstMin(vals) else FirstMax(vals);
    best.position - 1
  }

  /** The entry `Locate` picks for the smallest value repeats the result of
      the board it names, no board is below it, and no earlier board ties it. */
  lemma LowestAt(rs: seq<Ranked>, r: Located)
    requires |rs| > 0 && r == Locate(rs, true)
    ensures 1 <= r.board <= |rs| && rs[r.board - 1] == Ranked(r.sensor, r.value)
    ensures forall k :: 0 <= k < |rs| ==> r.value <= rs[k].value
    ensures forall k :: 0 <= k < r.board - 1 ==> rs[k].value != r.value
  {
  }

  /** The entry `Locate` picks for the largest value repeats the result of
      the board it names, no board is above it, and no earlier board ties it. */
  lemma HighestAt(rs: seq<Ranked>, r: Located)
    requires |rs| > 0 && r == Locate(rs, false)
    ensures 1 <= r.board <= |rs| && rs[r.board - 1] == Ranked(r.sensor, r.value)
    ensures forall k :: 0 <= k < |rs| ==> rs[k].value <= r.value
    ensures forall k :: 0 <= k < r.board - 1 ==> rs[k].value != r.value
  {
  }

  /** Every board of the list has its eight sensors and eight extrema:
      all the board-level statistics need. */
  predicate Sized(bs: seq<Boards.Board>) {
    forall k :: 0 <= k < |bs| ==> Fits(bs[k])
  }

  predicate Fits(b: Boards.Board) {
    |b.sensors| == Boards.SensorCount && |b.extrema| == Boards.SensorCount
  }

  /** A built column has what the aggregates need. */
  lemma AssembledSized(c: Column)
    requires Assembled(c)
    ensures |c.boards| == BoardCount && Sized(c.boards)
  {
  }

  /** The boards' `get_min` in order; a board without a valid sensor makes
      the list comprehension raise its error. */
  function BoardMins(bs: seq<Boards.Board>): (r: Result<seq<Ranked>>)
    requires Sized(bs)
    ensures r.Ok? <==> forall k :: 0 <= k < |bs| ==> Boards.GetMin(bs[k]).Ok?
    ensures r.Ok? ==> |r.value| == |bs| && forall k :: 0 <= k < |bs| ==> Boards.GetMin(bs[k]) == Ok(r.value[k])
    ensures r.Err? ==> exists k :: 0 <= k < |bs| && Boards.GetMin(bs[k]) == Err(r.error)
  {
    if forall k :: 0 <= k < |bs| ==> Boards.GetMin(bs[k]).Ok? then
      Ok(MinsValues(bs))
    else
      Err(EmptySequence)
  }

  /** The boards' `get_min` results, all of which succeed. */
  function MinsValues(bs: seq<Boards.Board>): (r: seq<Ranked>)
    requires Sized(bs) && forall k :: 0 <= k < |bs| ==> Boards.GetMin(bs[k]).Ok?
    ensures |r| == |bs| && forall k :: 0 <= k < |bs| ==> Boards.GetMin(bs[k]) == Ok(r[k])
  {
    if |bs| == 0 then [] else [Boards.GetMin(bs[0]).value] + MinsValues(bs[1..])
  }

  /** The boards' `get_max` in order. */
  function BoardMaxs(bs: seq<Boards.Board>): (r: Result<seq<Ranked>>)
    requires Sized(bs)
    ensures r.Ok? <==> forall k :: 0 <= k < |bs| ==> Boards.GetMax(bs[k]).Ok?
    ensures r.Ok? ==> |r.value| == |bs| && forall k :: 0 <= k < |bs| ==> Boards.GetMax(bs[k]) == Ok(r.value[k])
    ensures r.Err? ==> exists k :: 0 <= k < |bs| && Boards.GetMax(bs[k]) == Err(r.error)
  {
    if forall k :: 0 <= k < |bs| ==> Boards.GetMax(bs[k]).Ok? then
      Ok(MaxsValues(bs))
    else
      Err(EmptySequence)
  }

  /** The boards' `get_max` results, all of which succeed. */
  function MaxsValues(bs: seq<Boards.Board>): (r: seq<Ranked>)
    requires Sized(bs) && forall k :: 0 <= k < |bs| ==> Boards.GetMax(bs[k]).Ok?
    ensures |r| == |bs| && forall k :: 0 <= k < |bs| ==> Boards.GetMax(bs[k]) == Ok(r[k])
  {
    if |bs| == 0 then [] else [Boards.GetMax(bs[0]).value] + MaxsValues(bs[1..])
  }

  /** `get_min` over the column's nine boards: the board with the smallest
      board minimum; a board without a valid sensor makes it fail. */
  function GetMin(bs: seq<Boards.Board>): (r: Result<Located>)
    requires |bs| == BoardCount && Sized(bs)
    ensures r.Ok? <==> forall k :: 0 <= k < BoardCount ==> Boards.GetMin(bs[k]).Ok?
    ensures r.Ok? ==> 1 <= r.value.board <= BoardCount
  {
    var rs := BoardMins(bs);
    if rs.Err? then Err(rs.error) else Ok(Locate(rs.value, true))
  }

  /** The entry `Locate` picks from the boards' minimums is the minimum
      of the board it names, no board minimum is beyond it, and no earlier
      board reaches it. */
  lemma MinsLocate(bs: seq<Boards.Board>, rs: seq<Ranked>, r: Located)
    requires |bs| == BoardCount && Sized(bs) && BoardMins(bs) == Ok(rs) && r == Locate(rs, true)
    ensures Boards.GetMin(bs[r.board - 1]) == Ok(Ranked(r.sensor, r.value))
    ensures forall k :: 0 <= k < BoardCount ==> r.value <= Boards.GetMin(bs[k]).value.value
    ensures forall k :: 0 <= k < r.board - 1 ==> Boards.GetMin(bs[k]).value.value != r.value
  {
    LowestAt(rs, r);
  }

  /** The column minimum is the board minimum of the board it names, no
      board minimum is smaller, and no earlier board reaches it. */
  lemma GetMinIsSmallest(bs: seq<Boards.Board>, r: Located)
    requires |bs| == BoardCount && Sized(bs) && GetMin(bs) == Ok(r)
    ensures Boards.GetMin(bs[r.board - 1]) == Ok(Ranked(r.sensor, r.value))
    ensures forall k :: 0 <= k < BoardCount ==> r.value <= Boards.GetMin(bs[k]).value.value
    ensures forall k :: 0 <= k < r.board - 1 ==> Boards.GetMin(bs[k]).value.value != r.value
  {
    var rs := BoardMins(bs).value;
    assert r == Locate(rs, true);
    MinsLocate(bs, rs, r);
  }

  /** The column minimum bounds every valid sensor of every board, and some
      valid sensor reaches it. */
  lemma ColumnMinBoundsSensors(bs: seq<Boards.Board>, r: Located)
    requires |bs| == BoardCount && Sized(bs) && GetMin(bs) == Ok(r)
    ensures forall k, i :: 0 <= k < BoardCount && 0 <= i < Boards.SensorCount && bs[k].sensors[i].valid ==>
              r.value <= bs[k].extrema[i].lo
    ensures exists k, i :: 0 <= k < BoardCount && 0 <= i < Boards.SensorCount && bs[k].sensors[i].valid
              && bs[k].extrema[i].lo == r.value
  {
    GetMinIsSmallest(bs, r);
    forall k, i | 0 <= k < BoardCount && 0 <= i < Boards.SensorCount && bs[k].sensors[i].valid
      ensures r.value <= bs[k].extrema[i].lo
    {
      assert r.value <= Boards.GetMin(bs[k]).value.value;
    }
    var b := bs[r.board - 1];
    var i :| 0 <= i < Boards.SensorCount && b.sensors[i].valid && b.extrema[i].lo == r.value;
  }

  /** `get_max` over the column's nine boards: the board with the largest
      board maximum; a board without a valid sensor makes it fail. */
  function GetMax(bs: seq<Boards.Board>): (r: Result<Located>)
    requires |bs| == BoardCount && Sized(bs)
    ensures r.Ok? <==> forall k :: 0 <= k < BoardCount ==> Boards.GetMax(bs[k]).Ok?
    ensures r.Ok? ==> 1 <= r.value.board <= BoardCount
  {
    var rs := BoardMaxs(bs);
    if rs.Err? then Err(rs.error) else Ok(Locate(rs.value, false))
  }

  /** The entry `Locate` picks from the boards' maximums is the maximum
      of the board it names, no board maximum is beyond it, and no earlier
      board reaches it. */
  lemma MaxsLocate(bs: seq<Boards.Board>, rs: seq<Ranked>, r: Located)
    requires |bs| == BoardCount && Sized(bs) && BoardMaxs(bs) == Ok(rs) && r == Locate(rs, false)
    ensures Boards.GetMax(bs[r.board - 1]) == Ok(Ranked(r.sensor, r.value))
    ensures forall k :: 0 <= k < BoardCount ==> Boards.GetMax(bs[k]).value.value <= r.value
    ensures forall k :: 0 <= k < r.board - 1 ==> Boards.GetMax(bs[k]).value.value != r.value
  {
    HighestAt(rs, r);
  }

  /** The column maximum is the board maximum of the board it names, no
      board maximum is larger, and no earlier board reaches it. */
  lemma GetMaxIsLargest(bs: seq<Boards.Board>, r: Located)
    requires |bs| == BoardCount && Sized(bs) && GetMax(bs) == Ok(r)
    ensures Boards.GetMax(bs[r.board - 1]) == Ok(Ranked(r.sensor, r.value))
    ensures forall k :: 0 <= k < BoardCount ==> Boards.GetMax(bs[k]).value.value <= r.value
    ensures forall k :: 0 <= k < r.board - 1 ==> Boards.GetMax(bs[k]).value.value != r.value
  {
    var rs := BoardMaxs(bs).value;
    assert r == Locate(rs, false);
    MaxsLocate(bs, rs, r);
  }

  /** The column maximum bounds every valid sensor of every board, and some
      valid sensor reaches it. */
  lemma ColumnMaxBoundsSensors(bs: seq<Boards.Board>, r: Located)
    requires |bs| == BoardCount && Sized(bs) && GetMax(bs) == Ok(r)
    ensures forall k, i :: 0 <= k < BoardCount && 0 <= i < Boards.SensorCount && bs[k].sensors[i].valid ==>
              bs[k].extrema[i].hi <= r.value
    ensures exists k, i :: 0 <= k < BoardCount && 0 <= i < Boards.SensorCount && bs[k].sensors[i].valid
              && bs[k].extrema[i].hi == r.value
  {
    GetMaxIsLargest(bs, r);
    forall k, i | 0 <= k < BoardCount && 0 <= i < Boards.SensorCount && bs[k].sensors[i].valid
      ensures bs[k].extrema[i].hi <= r.value
    {
      assert Boards.GetMax(bs[k]).value.value <= r.value;
    }
    var b := bs[r.board - 1];
    var i :| 0 <= i < Boards.SensorCount && b.sensors[i].valid && b.extrema[i].hi == r.value;
  }

  /** The boards' `get_var` in order. */
  function VarRanks(bs: seq<Boards.Board>): (r: seq<Ranked>)
    requires Sized(bs)
    ensures |r| == |bs| && forall k :: 0 <= k < |bs| ==> r[k] == Boards.GetVar(bs[k])
  {
    if |bs| == 0 then [] else [Boards.GetVar(bs[0])] + VarRanks(bs[1..])
  }

  /** `get_var` over the column's nine boards: the board whose largest
      sensor variance is largest. */
  function GetVar(bs: seq<Boards.Board>): (r: Located)
    requires |bs| == BoardCount && Sized(bs)
    ensures 1 <= r.board <= BoardCount
  {
    Locate(VarRanks(bs), false)
  }

  /** The column's sensor variance is the largest sensor variance of the board it names,
      no board has a larger one, and no earlier board reaches it. */
  lemma GetVarIsLargest(bs: seq<Boards.Board>, r: Located)
    requires |bs| == BoardCount && Sized(bs) && r == GetVar(bs)
    ensures Boards.GetVar(bs[r.board - 1]) == Ranked(r.sensor, r.value)
    ensures forall k :: 0 <= k < BoardCount ==> Boards.GetVar(bs[k]).value <= r.value
    ensures forall k :: 0 <= k < r.board - 1 ==> Boards.GetVar(bs[k]).value != r.value
  {
    HighestAt(VarRanks(bs), r);
  }

  /** The column's variance is the largest variance of any sensor, valid or
      not, and some sensor has it. */
  lemma ColumnVarBoundsSensors(bs: seq<Boards.Board>)
    requires |bs| == BoardCount && Sized(bs)
    ensures forall k, i :: 0 <= k < BoardCount && 0 <= i < Boards.SensorCount ==>
              bs[k].sensors[i].variance <= GetVar(bs).value
    ensures exists k, i :: 0 <= k < BoardCount && 0 <= i < Boards.SensorCount
              && bs[k].sensors[i].variance == GetVar(bs).value
  {
    var top := GetVar(bs);
    GetVarIsLargest(bs, top);
    forall k, i | 0 <= k < BoardCount && 0 <= i < Boards.SensorCount
      ensures bs[k].sensors[i].variance <= top.value
    {
      assert bs[k].sensors[i].variance <= Boards.GetVar(bs[k]).value;
    }
    var b := bs[top.board - 1];
    assert b.sensors[top.sensor - 1].variance == top.value;
  }

  /** The boards' `get_mean` in order. */
  function MeanRanks(bs: seq<Boards.Board>): (r: seq<Ranked>)
    requires Sized(bs)
    ensures |r| == |bs| && forall k :: 0 <= k < |bs| ==> r[k] == Boards.GetMean(bs[k])
  {
    if |bs| == 0 then [] else [Boards.GetMean(bs[0])] + MeanRanks(bs[1..])
  }

  /** `get_mean` over the column's nine boards: the board whose largest
      sensor mean is largest. */
  function GetMean(bs: seq<Boards.Board>): (r: Located)
    requires |bs| == BoardCount && Sized(bs)
    ensures 1 <= r.board <= BoardCount
  {
    Locate(MeanRanks(bs), false)
  }

  /** The column's sensor mean is the largest sensor mean of the board it names,
      no board has a larger one, and no earlier board reaches it. */
  lemma GetMeanIsLargest(bs: seq<Boards.Board>, r: Located)
    requires |bs| == BoardCount && Sized(bs) && r == GetMean(bs)
    ensures Boards.GetMean(bs[r.board - 1]) == Ranked(r.sensor, r.value)
    ensures forall k :: 0 <= k < BoardCount ==> Boards.GetMean(bs[k]).value <= r.value
    ensures forall k :: 0 <= k < r.board - 1 ==> Boards.GetMean(bs[k]).value != r.value
  {
    HighestAt(MeanRanks(bs), r);
  }

  /** The column's mean is the largest mean of any sensor, valid or
      not, and some sensor has it. */
  lemma ColumnMeanBoundsSensors(bs: seq<Boards.Board>)
    requires |bs| == BoardCount && Sized(bs)
    ensures forall k, i :: 0 <= k < BoardCount && 0 <= i < Boards.SensorCount ==>
              bs[k].sensors[i].mean <= GetMean(bs).value
    ensures exists k, i :: 0 <= k < BoardCount && 0 <= i < Boards.SensorCount
              && bs[k].sensors[i].mean == GetMean(bs).value
  {
    var top := GetMean(bs);
    GetMeanIsLargest(bs, top);
    forall k, i | 0 <= k < BoardCount && 0 <= i < Boards.SensorCount
      ensures bs[k].sensors[i].mean <= top.value
    {
      assert bs[k].sensors[i].mean <= Boards.GetMean(bs[k]).value;
    }
    var b := bs[top.board - 1];
    assert b.sensors[top.sensor - 1].mean == top.value;
  }

  /** Every sensor mean of every board is non-zero. */
  predicate NonZeroMeans(bs: seq<Boards.Board>)
    requires Sized(bs)
  {
    forall k :: 0 <= k < |bs| ==> Boards.NonZeroMeans(bs[k])
  }

  /** The boards' `get_fano` in order. */
  function FanoRanks(bs: seq<Boards.Board>): (r: seq<Ranked>)
    requires Sized(bs) && NonZeroMeans(bs)
    ensures |r| == |bs| && forall k :: 0 <= k < |bs| ==> r[k] == Boards.GetFano(bs[k])
  {
    if |bs| == 0 then [] else [Boards.GetFano(bs[0])] + FanoRanks(bs[1..])
  }

  /** `get_fano` over the column's nine boards: the board whose largest
      Fano factor is largest. */
  function GetFano(bs: seq<Boards.Board>): (r: Located)
    requires |bs| == BoardCount && Sized(bs) && NonZeroMeans(bs)
    ensures 1 <= r.board <= BoardCount
  {
    Locate(FanoRanks(bs), false)
  }

  /** The column's Fano factor is the largest Fano factor of the board it names,
      no board has a larger one, and no earlier board reaches it. */
  lemma GetFanoIsLargest(bs: seq<Boards.Board>, r: Located)
    requires |bs| == BoardCount && Sized(bs) && NonZeroMeans(bs) && r == GetFano(bs)
    ensures Boards.GetFano(bs[r.board - 1]) == Ranked(r.sensor, r.value)
    ensures forall k :: 0 <= k < BoardCount ==> Boards.GetFano(bs[k]).value <= r.value
    ensures forall k :: 0 <= k < r.board - 1 ==> Boards.GetFano(bs[k]).value != r.value
  {
    HighestAt(FanoRanks(bs), r);
  }
}
