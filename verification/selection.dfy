/** Experiment selection (WTDtools/utils.py): the lookup tables, the three
    selectors (a directory tree, a zip archive, the HDF cache), the argument
    checks of `select`, the file-name suffix, trial numbering over a sorted
    listing, and the cartesian product of the HDF selector.

    Directory listings and zip name lists are inputs (`Listing`); what
    `select` hands to the column constructor is modelled as a `Request`
    (locator and experiment key).
 */
module Selection {
  import opened Common
  import opened Strings
  import opened Base
  import Sorting
  import Ingest

  /** `GasNames`: gas name and concentration in ppm. */
  const GasNames: map<int, string> := map[
    1 := "Acetaldehyde_500", 2 := "Acetone_2500", 3 := "Ammonia_10000", 4 := "Benzene_200",
    5 := "Butanol_100", 6 := "CO_1000", 7 := "CO_4000", 8 := "Ethylene_500",
    9 := "Methane_1000", 10 := "Methanol_200", 11 := "Toluene_200"]

  /** `Locs`: the board location of the column. */
  const Locs: map<int, string> := map[1 := "L1", 2 := "L2", 3 := "L3", 4 := "L4", 5 := "L5", 6 := "L6"]

  /** `AltLocs`: the same location as the file names spell it. */
  const AltLocs: map<int, string> := map[1 := "1", 2 := "3", 3 := "5", 4 := "7", 5 := "9", 6 := "11"]

  /** `SensorVoltages`: heater voltage, in tenths of a volt. */
  const SensorVoltages: map<int, string> := map[1 := "400V", 2 := "450V", 3 := "500V", 4 := "550V", 5 := "600V"]

  /** `FanSpeeds`: the fan set point as the file names spell it. */
  const FanSpeeds: map<int, string> := map[1 := "000", 2 := "060", 3 := "100"]

  /** `AltFanSpeeds`: the fan speed recorded in the column's key. */
  const AltFanSpeeds: map<int, string> := map[1 := "1500rpm", 2 := "3900rpm", 3 := "5500rpm"]

  /** Every table is keyed by `1 .. n`. */
  ghost predicate KeyedUpTo(table: map<int, string>, n: int) {
    forall x :: x in table <==> 1 <= x <= n
  }

  lemma GasesKeyed()
    ensures KeyedUpTo(GasNames, 11)
  {
  }

  lemma LocsKeyed()
    ensures KeyedUpTo(Locs, 6) && KeyedUpTo(AltLocs, 6)
  {
  }

  lemma SettingsKeyed()
    ensures KeyedUpTo(SensorVoltages, 5) && KeyedUpTo(FanSpeeds, 3) && KeyedUpTo(AltFanSpeeds, 3)
  {
  }

  // ---------------------------------------------------------------------
  // Selectors
  // ---------------------------------------------------------------------

  /** Where a selector reads from. */
  datatype Source =
    | Directory(location: string)   // `DataSelector`: the unpacked tree
    | Zip(archive: string)          // `ZipFileDataSelector`
    | Hdf(path: string)             // `HDFDataSelector`

  datatype Selector = Selector(source: Source, args: Args)

  /** `dataloc_prefix`. */
  function Prefix(src: Source): string
  {
    match src
    case Directory(_) => "file://"
    case Zip(_) => "zip://"
    case Hdf(_) => "hdf://"
  }

  /** `DataSelector(data_location, ...)`: refuses a location that does not
      exist; a requested cache lives in `.HDFcache` inside the location. */
  function NewDirectory(location: string, present: bool, dropDuplicates: bool := true, fillGaps: bool := true,
                        resample: bool := true, verbose: bool := false, useCache: bool := false): (r: Result<Selector>)
    ensures r.Ok? <==> present
    ensures r.Ok? ==> r.value.source == Directory(location) && r.value.args.useCache == useCache
    ensures r.Ok? ==> r.value.args.dropDuplicates == dropDuplicates && r.value.args.resample == resample
                      && r.value.args.fillGaps == fillGaps && r.value.args.verbose == verbose
    ensures r.Ok? ==> (r.value.args.cacheLocation.Some? <==> useCache)
    ensures r.Ok? && useCache ==> r.value.args.cacheLocation == Some(PathJoin(location, ".HDFcache"))
  {
    if !present then Err(MissingFile)
    else
      var cache := if useCache then Some(PathJoin(location, ".HDFcache")) else None;
      Ok(Selector(Directory(location), Args(verbose, dropDuplicates, resample, fillGaps, useCache, cache)))
  }

  /** `ZipFileDataSelector(path_to_zipfile, ...)`: refuses a missing archive;
      a requested cache is `<name>_HDFcache` next to the archive. */
  function NewZip(archive: string, present: bool, dropDuplicates: bool := true, fillGaps: bool := true,
                  resample: bool := true, verbose: bool := false, useCache: bool := false): (r: Result<Selector>)
    ensures r.Ok? <==> present
    ensures r.Ok? ==> r.value.source == Zip(archive) && r.value.args.useCache == useCache
    ensures r.Ok? ==> r.value.args.dropDuplicates == dropDuplicates && r.value.args.resample == resample
                      && r.value.args.fillGaps == fillGaps && r.value.args.verbose == verbose
    ensures r.Ok? ==> (r.value.args.cacheLocation.Some? <==> useCache)
    ensures r.Ok? && useCache ==>
              r.value.args.cacheLocation == Some(PathJoin(DirName(archive), BaseName(archive) + "_HDFcache"))
  {
    if !present then Err(MissingFile)
    else
      var cache := if useCache then Some(PathJoin(DirName(archive), BaseName(archive) + "_HDFcache")) else None;
      Ok(Selector(Zip(archive), Args(verbose, dropDuplicates, resample, fillGaps, useCache, cache)))
  }

  /** `HDFDataSelector(path_to_HDF, ...)`: reads from the cache itself, so a
      requested caching is ignored. */
  function NewHdf(path: string, dropDuplicates: bool := false, fillGaps: bool := false, resample: bool := false,
                  verbose: bool := false, useCache: bool := false): (r: Selector)
    ensures r.source == Hdf(path)
    ensures !r.args.useCache && r.args.cacheLocation.None?
    ensures r.args.dropDuplicates == dropDuplicates && r.args.resample == resample
            && r.args.fillGaps == fillGaps && r.args.verbose == verbose
  {
    Selector(Hdf(path), Args(verbose, dropDuplicates, resample, fillGaps, false, None))
  }

  /** With their default arguments the directory and zip selectors clean
      up (duplicates, gaps, resampling) without caching, and the HDF
      selector does none of it. */
  lemma SelectorDefaults(location: string, archive: string, path: string)
    ensures var d := NewDirectory(location, true).value.args;
            d.dropDuplicates && d.fillGaps && d.resample && !d.verbose && !d.useCache && d.cacheLocation.None?
    ensures var z := NewZip(archive, true).value.args;
            z.dropDuplicates && z.fillGaps && z.resample && !z.verbose && !z.useCache && z.cacheLocation.None?
    ensures var h := NewHdf(path).args;
            !h.dropDuplicates && !h.fillGaps && !h.resample && !h.verbose && !h.useCache
  {
  }

  // ---------------------------------------------------------------------
  // Arguments of `select`
  // ---------------------------------------------------------------------

  /** An argument of `select`: a single `int` or a list of them. */
  datatype Arg = One(n: int) | Many(ns: seq<int>)

  /** The `isinstance(x, int)` normalisation. */
  function AsList(a: Arg): (r: seq<int>)
    ensures a.One? ==> r == [a.n]
    ensures a.Many? ==> r == a.ns
  {
    match a
    case One(n) => [n]
    case Many(ns) => ns
  }

  /** `min(xs)` over a non-empty list. */
  function Least(xs: seq<int>): (m: int)
    requires |xs| > 0
    ensures m in xs && forall i :: 0 <= i < |xs| ==> m <= xs[i]
  {
    if |xs| == 1 then xs[0]
    else
      var rest := Least(xs[1..]);
      assert forall i :: 1 <= i < |xs| ==> xs[i] == xs[1..][i - 1];
      if xs[0] <= rest then xs[0] else rest
  }

  /** `max(xs)` over a non-empty list. */
  function Most(xs: seq<int>): (m: int)
    requires |xs| > 0
    ensures m in xs && forall i :: 0 <= i < |xs| ==> xs[i] <= m
  {
    if |xs| == 1 then xs[0]
    else
      var rest := Most(xs[1..]);
      assert forall i :: 1 <= i < |xs| ==> xs[i] == xs[1..][i - 1];
      if xs[0] >= rest then xs[0] else rest
  }

  /** One of the `assert min(xs) > 0 and max(xs) in keys` checks: `min` of an
      empty list raises first; otherwise the assertion decides. */
  function Admit(xs: seq<int>, keys: set<int>): (r: Result<seq<int>>)
    ensures |xs| == 0 ==> r == Err(EmptySequence)
    ensures |xs| > 0 ==> (r.Ok? <==> Least(xs) > 0 && Most(xs) in keys)
    ensures r.Err? && |xs| > 0 ==> r.error == AssertionFailed
    ensures r.Ok? ==> r.value == xs
  {
    if |xs| == 0 then Err(EmptySequence)
    else if Least(xs) > 0 && Most(xs) in keys then Ok(xs)
    else Err(AssertionFailed)
  }

  /** Python's `range(lo, hi)`, as a set. */
  function Range(lo: int, hi: int): (r: set<int>)
    ensures forall x :: x in r <==> lo <= x < hi
    decreases hi - lo
  {
    if lo >= hi then {} else {lo} + Range(lo + 1, hi)
  }

  /** `range(1, 21)`, the accepted trial numbers. */
  function TrialNumbers(): set<int> {
    Range(1, 21)
  }

  /** Every entry of `xs` lies in `1 .. n`. */
  predicate Within(xs: seq<int>, n: int) {
    forall i :: 0 <= i < |xs| ==> 1 <= xs[i] <= n
  }

  /** Checking the two ends is enough: for a table keyed `1 .. n`, an
      admitted list holds only keys, so the lookups that follow cannot
      fail. */
  lemma AdmitWithin(xs: seq<int>, keys: set<int>, n: int)
    requires forall x :: x in keys <==> 1 <= x <= n
    ensures Admit(xs, keys).Ok? <==> |xs| > 0 && Within(xs, n)
  {
    if |xs| > 0 && Within(xs, n) {
      var lo := Least(xs);
      var hi := Most(xs);
      var i :| 0 <= i < |xs| && xs[i] == lo;
      var j :| 0 <= j < |xs| && xs[j] == hi;
    }
  }

  // ---------------------------------------------------------------------
  // Listing a column's files
  // ---------------------------------------------------------------------

  /** What the selectors can see: `os.listdir` by directory path (a path
      that is absent raises OSError), and the archive's `namelist()`. */
  datatype Listing = Listing(dirs: map<string, seq<string>>, names: seq<string>)

  /** A column's directory, relative to the data location, and its sorted
      file names. */
  datatype ColumnFiles = ColumnFiles(sub: string, files: seq<string>)

  /** `data_location` (`path_to_HDF` for the HDF selector). */
  function Location(src: Source): string
  {
    match src
    case Directory(location) => location
    case Zip(archive) => archive
    case Hdf(path) => path
  }

  /** `p.split("/")[-1]`. */
  function LastPart(p: string): (r: string)
    ensures r == BaseName(p)
  {
    LastSplitIsBaseName(p);
    var parts := Split(p, "/");
    parts[|parts| - 1]
  }

  /** An archive entry strictly longer than, and starting with, `sub`. */
  predicate Inside(p: string, sub: string) {
    StartsWith(p, sub) && |p| > |sub|
  }

  /** The zip selector's listing: the last path part of every entry the
      `filter` keeps, in archive order. */
  function ZipEntries(names: seq<string>, sub: string): (r: seq<string>)
    ensures |r| <= |names|
    ensures forall i :: 0 <= i < |r| ==> '/' !in r[i]
    ensures forall f :: f in r <==> exists j :: 0 <= j < |names| && Inside(names[j], sub) && f == BaseName(names[j])
  {
    if |names| == 0 then []
    else
      var rest := ZipEntries(names[1..], sub);
      assert forall j :: 1 <= j < |names| ==> names[j] == names[1..][j - 1];
      if Inside(names[0], sub) then [LastPart(names[0])] + rest else rest
  }

  /** The directory entry of the column itself (`sub/`) is listed as an
      empty file name. */
  lemma ZipDirectoryEntry(sub: string)
    requires |sub| > 0
    ensures ZipEntries([sub + "/"], sub) == [""]
  {
    var p := sub + "/";
    assert p[..|sub|] == sub;
    BaseNameUnique(p, "");
  }

  /** `_get_sensor_col_files`: the column directory under the data location
      (under `WTD_upload` in an archive) and its entries, sorted. A
      directory that cannot be listed is reported as `None`; the archive is
      always listed. */
  function ColFiles(sel: Selector, fs: Listing, g: int, l: int): (r: Option<ColumnFiles>)
    requires !sel.source.Hdf?
    requires g in GasNames && l in Locs
    ensures sel.source.Directory? ==>
              var sub := PathJoin(GasNames[g], Locs[l]);
              var dir := PathJoin(Location(sel.source), sub);
              (r.Some? <==> dir in fs.dirs)
              && (r.Some? ==> r.value.sub == sub && multiset(r.value.files) == multiset(fs.dirs[dir]))
    ensures sel.source.Zip? ==>
              var sub := PathJoin(PathJoin("WTD_upload", GasNames[g]), Locs[l]);
              r.Some? && r.value.sub == sub
              && multiset(r.value.files) == multiset(ZipEntries(fs.names, sub))
    ensures r.Some? ==> Sorting.Sorted(r.value.files)
  {
    match sel.source
    case Directory(location) =>
      var sub := PathJoin(GasNames[g], Locs[l]);
      var dir := PathJoin(location, sub);
      if dir in fs.dirs then Some(ColumnFiles(sub, Sorting.Sort(fs.dirs[dir]))) else None
    case Zip(_) =>
      var sub := PathJoin(PathJoin("WTD_upload", GasNames[g]), Locs[l]);
      Some(ColumnFiles(sub, Sorting.Sort(ZipEntries(fs.names, sub))))
  }

  // ---------------------------------------------------------------------
  // File names and trials
  // ---------------------------------------------------------------------

  /** The file-name suffix of one voltage, fan speed, gas and location. */
  function Suffix(g: int, l: int, v: int, s: int): string
    requires g in GasNames && l in AltLocs && v in SensorVoltages && s in FanSpeeds
  {
    "_board_setPoint_" + SensorVoltages[v] + "_fan_setPoint_" + FanSpeeds[s]
    + "_mfc_setPoint_" + GasNames[g] + "ppm_p" + AltLocs[l]
  }

  /** `[f for f in files if f.endswith(end)]`. */
  function Matching(files: seq<string>, end: string): (r: seq<string>)
    ensures forall f :: multiset(r)[f] == if EndsWith(f, end) then multiset(files)[f] else 0
    ensures forall f :: f in r <==> f in files && EndsWith(f, end)
  {
    if |files| == 0 then []
    else
      var rest := Matching(files[1..], end);
      assert files == [files[0]] + files[1..];
      if EndsWith(files[0], end) then [files[0]] + rest else rest
  }

  /** The filter keeps the listing's order, so a sorted listing gives a
      sorted list of matches. */
  lemma {:induction false} MatchingSorted(files: seq<string>, end: string)
    requires Sorting.Sorted(files)
    ensures Sorting.Sorted(Matching(files, end))
  {
    if |files| > 0 {
      var rest := files[1..];
      assert files == [files[0]] + rest;
      MatchingSorted(rest, end);
      var m := Matching(rest, end);
      forall k | 0 <= k < |m|
        ensures Sorting.Below(files[0], m[k])
      {
        assert multiset(m)[m[k]] > 0;
        assert m[k] in rest;
        var i :| 0 <= i < |rest| && rest[i] == m[k];
        assert files[i + 1] == m[k];
      }
      if EndsWith(files[0], end) {
        Sorting.SortedCons(files[0], m);
      }
    }
  }

  /** The time stamp of a file name: `f.split('_', 1)[0]`. */
  function Stamp(f: string): string
  {
    Split(f, "_")[0]
  }

  /** A trial: its number (position in the matching files, from 1) and file. */
  datatype Trial = Trial(n: int, file: string)

  /** `for i, filt in enumerate(filtered)` from position `k`, keeping the
      positions `j = i + 1` that are `in trial`. */
  function Numbered(files: seq<string>, trials: seq<int>, k: nat): (r: seq<Trial>)
    requires k <= |files|
    ensures forall i :: 0 <= i < |r| ==> r[i].n in trials && k < r[i].n <= |files| && r[i].file == files[r[i].n - 1]
    ensures forall i, j :: 0 <= i < j < |r| ==> r[i].n < r[j].n
    decreases |files| - k
  {
    if k == |files| then []
    else
      var rest := Numbered(files, trials, k + 1);
      if k + 1 in trials then
        [Trial(k + 1, files[k])] + rest
      else rest
  }

  /** Every requested trial that has a file is numbered. */
  lemma {:induction false} NumberedComplete(files: seq<string>, trials: seq<int>, k: nat, n: int) returns (i: nat)
    requires k < n <= |files| && n in trials
    ensures i < |Numbered(files, trials, k)| && Numbered(files, trials, k)[i].n == n
    decreases |files| - k
  {
    var r := Numbered(files, trials, k);
    var rest := Numbered(files, trials, k + 1);
    if n == k + 1 {
      i := 0;
    } else {
      var j := NumberedComplete(files, trials, k + 1, n);
      if k + 1 in trials {
        i := j + 1;
        assert r[i] == rest[j];
      } else {
        i := j;
      }
    }
  }

  // ---------------------------------------------------------------------
  // Requests
  // ---------------------------------------------------------------------

  /** What `select` hands to one `SensorColumn` constructor: the data
      locator and the experiment key. */
  datatype Request = Request(locator: string, meta: Meta)

  /** Every table lookup of one voltage, fan speed, gas and location
      succeeds. */
  predicate Keyed(g: int, l: int, v: int, s: int) {
    g in GasNames && l in Locs && l in AltLocs && v in SensorVoltages && s in FanSpeeds && s in AltFanSpeeds
  }

  /** The experiment key of one column. */
  function Key(g: int, l: int, v: int, s: int, t: int, args: Args): (m: Meta)
    requires Keyed(g, l, v, s)
  {
    Meta(GasNames[g], Locs[l], SensorVoltages[v], AltFanSpeeds[s], t, args)
  }

  /** `os.path.sep.join([dataloc_prefix, data_location, filt])`. */
  function FileLocator(src: Source, file: string): (r: string)
    ensures r == Prefix(src) + "/" + Location(src) + "/" + file
  {
    var parts := [Prefix(src), Location(src), file];
    assert parts[1..] == [Location(src), file] && parts[1..][1..] == [file];
    assert Join(parts[1..], "/") == Location(src) + "/" + file;
    Join(parts, "/")
  }

  /** `q` is the request for trial `q.meta.trial` among the files of `cf`
      that end with the suffix of `g`, `l`, `v`, `s`. */
  predicate NamesTrial(sel: Selector, cf: ColumnFiles, g: int, l: int, v: int, s: int, ts: seq<int>, q: Request)
    requires Keyed(g, l, v, s)
  {
    var end := Suffix(g, l, v, s);
    var m := Matching(cf.files, end);
    var n := q.meta.trial;
    n in ts && 1 <= n <= |m| && m[n - 1] in cf.files && EndsWith(m[n - 1], end)
    && q == Expected(sel, cf, g, l, v, s, n)
  }

  /** Every file of `cf` that ends with `end` has a time stamp `strptime`
      accepts. */
  predicate StampsParse(files: seq<string>, end: string, parses: string -> bool) {
    forall i :: 0 <= i < |files| && EndsWith(files[i], end) ==> parses(Stamp(files[i]))
  }

  /** The innermost loop body of `_get_data`: the matching files, each time
      stamp parsed (a bad one raises), and one request per matching file
      whose position is a requested trial. `parses` stands for whether
      `time.strptime(ts, '%Y%m%d%H%M')` accepts a stamp. */
  function FileRequests(sel: Selector, cf: ColumnFiles, g: int, l: int, v: int, s: int, ts: seq<int>,
                        parses: string -> bool): (r: Result<seq<Request>>)
    requires !sel.source.Hdf? && Keyed(g, l, v, s)
    ensures r.Err? ==> r.error == BadTimestamp
    ensures r.Ok? <==> StampsParse(cf.files, Suffix(g, l, v, s), parses)
    ensures r.Ok? ==> forall k :: 0 <= k < |r.value| ==> NamesTrial(sel, cf, g, l, v, s, ts, r.value[k])
    ensures r.Ok? ==> forall i, j :: 0 <= i < j < |r.value| ==> r.value[i].meta.trial < r.value[j].meta.trial
  {
    var m := Matching(cf.files, Suffix(g, l, v, s));
    MatchingParses(cf.files, Suffix(g, l, v, s), parses);
    if !AllParse(m, parses) then Err(BadTimestamp)
    else Ok(FileTrials(sel, cf, g, l, v, s, ts))
  }

  /** Every file of `m` has a time stamp `strptime` accepts. */
  predicate AllParse(m: seq<string>, parses: string -> bool) {
    forall i :: 0 <= i < |m| ==> parses(Stamp(m[i]))
  }

  /** Every matching file parses exactly when every file with the suffix
      does. */
  lemma MatchingParses(files: seq<string>, end: string, parses: string -> bool)
    ensures StampsParse(files, end, parses) <==> AllParse(Matching(files, end), parses)
  {
    var m := Matching(files, end);
    if StampsParse(files, end, parses) {
      forall i | 0 <= i < |m|
        ensures parses(Stamp(m[i]))
      {
        assert m[i] in files;
        var j :| 0 <= j < |files| && files[j] == m[i];
      }
    } else {
      var i :| 0 <= i < |files| && EndsWith(files[i], end) && !parses(Stamp(files[i]));
      assert files[i] in m;
      var k :| 0 <= k < |m| && m[k] == files[i];
      assert !parses(Stamp(m[k]));
    }
  }

  /** The requests of the requested trials among the matching files, in
      trial order. */
  function FileTrials(sel: Selector, cf: ColumnFiles, g: int, l: int, v: int, s: int, ts: seq<int>): (r: seq<Request>)
    requires Keyed(g, l, v, s)
    ensures forall k :: 0 <= k < |r| ==> NamesTrial(sel, cf, g, l, v, s, ts, r[k])
    ensures forall i, j :: 0 <= i < j < |r| ==> r[i].meta.trial < r[j].meta.trial
  {
    TrialRequests(sel, cf, g, l, v, s, Numbered(Matching(cf.files, Suffix(g, l, v, s)), ts, 0))
  }

  /** One request per numbered trial, in order. */
  function TrialRequests(sel: Selector, cf: ColumnFiles, g: int, l: int, v: int, s: int, tr: seq<Trial>): (r: seq<Request>)
    requires Keyed(g, l, v, s)
    requires forall i :: 0 <= i < |tr| ==> 1 <= tr[i].n <= |Matching(cf.files, Suffix(g, l, v, s))|
    ensures |r| == |tr| && forall k :: 0 <= k < |tr| ==> r[k] == Expected(sel, cf, g, l, v, s, tr[k].n)
  {
    if |tr| == 0 then []
    else [Expected(sel, cf, g, l, v, s, tr[0].n)] + TrialRequests(sel, cf, g, l, v, s, tr[1..])
  }

  /** Every requested trial that has a matching file is requested, unless a
      time stamp fails to parse. */
  lemma FileRequestsComplete(sel: Selector, cf: ColumnFiles, g: int, l: int, v: int, s: int, ts: seq<int>,
                             parses: string -> bool, n: int)
    requires !sel.source.Hdf? && Keyed(g, l, v, s)
    requires StampsParse(cf.files, Suffix(g, l, v, s), parses)
    requires n in ts && 1 <= n <= |Matching(cf.files, Suffix(g, l, v, s))|
    ensures var r := FileRequests(sel, cf, g, l, v, s, ts, parses).value;
            exists k :: 0 <= k < |r| && r[k].meta.trial == n
  {
    var m := Matching(cf.files, Suffix(g, l, v, s));
    var tr := Numbered(m, ts, 0);
    var i := NumberedComplete(m, ts, 0, n);
    MatchingParses(cf.files, Suffix(g, l, v, s), parses);
    var r := FileRequests(sel, cf, g, l, v, s, ts, parses).value;
    assert r == TrialRequests(sel, cf, g, l, v, s, tr);
    assert r[i].meta.trial == n;
  }

  // ---------------------------------------------------------------------
  // The loops of `_get_data`
  // ---------------------------------------------------------------------

  /** `xs` selects the entry of `table` named `name`. */
  predicate Names(table: map<int, string>, xs: seq<int>, name: string) {
    exists i :: 0 <= i < |xs| && xs[i] in table && table[xs[i]] == name
  }

  /** Where a request of the selector points: into the data location for
      the directory and archive selectors, at the store itself for the HDF
      selector. */
  predicate LocatedIn(locator: string, src: Source) {
    if src.Hdf? then locator == Prefix(src) + Location(src)
    else StartsWith(locator, Prefix(src) + "/" + Location(src) + "/")
  }

  /** `q` was asked for: each part of its key comes from one of the
      requested values, it carries the selector's arguments, and its
      locator points where the selector reads. */
  predicate Sound(q: Request, sel: Selector, gs: seq<int>, ls: seq<int>, vs: seq<int>, ss: seq<int>, ts: seq<int>) {
    Names(GasNames, gs, q.meta.gas) && Names(Locs, ls, q.meta.location)
    && Names(SensorVoltages, vs, q.meta.voltage) && Names(AltFanSpeeds, ss, q.meta.speed)
    && q.meta.trial in ts && q.meta.args == sel.args && LocatedIn(q.locator, sel.source)
  }

  /** A name one value selects is selected by any list holding that value. */
  lemma NamesOne(table: map<int, string>, x: int, xs: seq<int>, name: string)
    requires Names(table, [x], name) && x in xs
    ensures Names(table, xs, name)
  {
    var j :| 0 <= j < |xs| && xs[j] == x;
  }

  /** Soundness for one gas carries over to a list holding it; likewise for
      one location, voltage or fan speed below. */
  lemma WidenGas(q: Request, sel: Selector, g: int, gs: seq<int>, ls: seq<int>, vs: seq<int>, ss: seq<int>, ts: seq<int>)
    requires Sound(q, sel, [g], ls, vs, ss, ts) && g in gs
    ensures Sound(q, sel, gs, ls, vs, ss, ts)
  {
    NamesOne(GasNames, g, gs, q.meta.gas);
  }

  lemma WidenLocation(q: Request, sel: Selector, gs: seq<int>, l: int, ls: seq<int>, vs: seq<int>, ss: seq<int>,
                      ts: seq<int>)
    requires Sound(q, sel, gs, [l], vs, ss, ts) && l in ls
    ensures Sound(q, sel, gs, ls, vs, ss, ts)
  {
    NamesOne(Locs, l, ls, q.meta.location);
  }

  lemma WidenVoltage(q: Request, sel: Selector, gs: seq<int>, ls: seq<int>, v: int, vs: seq<int>, ss: seq<int>,
                     ts: seq<int>)
    requires Sound(q, sel, gs, ls, [v], ss, ts) && v in vs
    ensures Sound(q, sel, gs, ls, vs, ss, ts)
  {
    NamesOne(SensorVoltages, v, vs, q.meta.voltage);
  }

  lemma WidenSpeed(q: Request, sel: Selector, gs: seq<int>, ls: seq<int>, vs: seq<int>, s: int, ss: seq<int>,
                   ts: seq<int>)
    requires Sound(q, sel, gs, ls, vs, [s], ts) && s in ss
    ensures Sound(q, sel, gs, ls, vs, ss, ts)
  {
    NamesOne(AltFanSpeeds, s, ss, q.meta.speed);
  }

  /** Every request of one file-name suffix was asked for. */
  lemma FileRequestsSound(sel: Selector, cf: ColumnFiles, g: int, l: int, v: int, s: int, ts: seq<int>,
                          parses: string -> bool)
    requires !sel.source.Hdf? && Keyed(g, l, v, s)
    ensures var r := FileRequests(sel, cf, g, l, v, s, ts, parses);
            r.Ok? ==> forall k :: 0 <= k < |r.value| ==> Sound(r.value[k], sel, [g], [l], [v], [s], ts)
  {
    var r := FileRequests(sel, cf, g, l, v, s, ts, parses);
    if r.Ok? {
      forall k | 0 <= k < |r.value|
        ensures Sound(r.value[k], sel, [g], [l], [v], [s], ts)
      {
        var q := r.value[k];
        assert NamesTrial(sel, cf, g, l, v, s, ts, q);
        assert [g][0] == g && [l][0] == l && [v][0] == v && [s][0] == s;
      }
    }
  }

  /** Every entry of `xs` is a key of `table`. */
  predicate AllIn(xs: seq<int>, table: map<int, string>) {
    forall i :: 0 <= i < |xs| ==> xs[i] in table
  }

  /** Every voltage and fan speed of one column is looked up. */
  predicate Settings(g: int, l: int, vs: seq<int>, ss: seq<int>) {
    g in GasNames && l in Locs && l in AltLocs && AllIn(vs, SensorVoltages)
    && AllIn(ss, FanSpeeds) && AllIn(ss, AltFanSpeeds)
  }

  /** One attempt per fan speed, for one voltage. */
  function SpeedAttempts(sel: Selector, cf: ColumnFiles, g: int, l: int, v: int, ss: seq<int>, ts: seq<int>,
                         parses: string -> bool): (r: seq<Result<seq<Request>>>)
    requires !sel.source.Hdf? && g in GasNames && l in Locs && l in AltLocs && v in SensorVoltages
    requires AllIn(ss, FanSpeeds) && AllIn(ss, AltFanSpeeds)
    ensures |r| == |ss| && forall b :: 0 <= b < |ss| ==> r[b] == FileRequests(sel, cf, g, l, v, ss[b], ts, parses)
  {
    if |ss| == 0 then []
    else [FileRequests(sel, cf, g, l, v, ss[0], ts, parses)] + SpeedAttempts(sel, cf, g, l, v, ss[1..], ts, parses)
  }

  /** The loop over fan speeds, for one voltage. */
  function SpeedRequests(sel: Selector, cf: ColumnFiles, g: int, l: int, v: int, ss: seq<int>, ts: seq<int>,
                         parses: string -> bool): (r: Result<seq<Request>>)
    requires !sel.source.Hdf? && g in GasNames && l in Locs && l in AltLocs && v in SensorVoltages
    requires AllIn(ss, FanSpeeds) && AllIn(ss, AltFanSpeeds)
    ensures r.Err? ==> r.error == BadTimestamp
    ensures r.Ok? <==> forall b :: 0 <= b < |ss| ==> StampsParse(cf.files, Suffix(g, l, v, ss[b]), parses)
  {
    var rs := SpeedAttempts(sel, cf, g, l, v, ss, ts, parses);
    assert forall b :: 0 <= b < |ss| ==> (rs[b].Ok? <==> StampsParse(cf.files, Suffix(g, l, v, ss[b]), parses));
    Gather(rs)
  }

  /** The stamps of every file one column's voltages and fan speeds match
      parse, or the column's directory cannot be listed at all. */
  predicate ColumnParses(sel: Selector, fs: Listing, g: int, l: int, vs: seq<int>, ss: seq<int>,
                         parses: string -> bool)
    requires !sel.source.Hdf? && Settings(g, l, vs, ss)
  {
    var cf := ColFiles(sel, fs, g, l);
    cf.Some? ==>
      forall a, b :: 0 <= a < |vs| && 0 <= b < |ss| ==> StampsParse(cf.value.files, Suffix(g, l, vs[a], ss[b]), parses)
  }

  /** One attempt per voltage, for one column. */
  function VoltageAttempts(sel: Selector, cf: ColumnFiles, g: int, l: int, vs: seq<int>, ss: seq<int>, ts: seq<int>,
                           parses: string -> bool): (r: seq<Result<seq<Request>>>)
    requires !sel.source.Hdf? && Settings(g, l, vs, ss)
    ensures |r| == |vs| && forall a :: 0 <= a < |vs| ==> r[a] == SpeedRequests(sel, cf, g, l, vs[a], ss, ts, parses)
    ensures forall a :: 0 <= a < |vs| ==> r[a].Err? ==> r[a].error == BadTimestamp
    ensures forall a :: 0 <= a < |vs| ==>
              (r[a].Ok? <==> forall b :: 0 <= b < |ss| ==> StampsParse(cf.files, Suffix(g, l, vs[a], ss[b]), parses))
  {
    seq(|vs|, a requires 0 <= a < |vs| => SpeedRequests(sel, cf, g, l, vs[a], ss, ts, parses))
  }

  /** The body of the loop over locations: list the column's files (a
      directory that cannot be listed is skipped), then loop over voltages
      and fan speeds. */
  function ColumnRequests(sel: Selector, fs: Listing, g: int, l: int, vs: seq<int>, ss: seq<int>, ts: seq<int>,
                          parses: string -> bool): (r: Result<seq<Request>>)
    requires !sel.source.Hdf? && Settings(g, l, vs, ss)
    ensures r.Err? ==> r.error == BadTimestamp
    ensures r.Ok? <==> ColumnParses(sel, fs, g, l, vs, ss, parses)
    ensures ColFiles(sel, fs, g, l).None? ==> r == Ok([])
  {
    match ColFiles(sel, fs, g, l)
    case None => Ok([])
    case Some(cf) =>
      Gather(VoltageAttempts(sel, cf, g, l, vs, ss, ts, parses))
  }

  /** Every gas, location, voltage and fan speed requested is looked up. */
  predicate Grid(gs: seq<int>, ls: seq<int>, vs: seq<int>, ss: seq<int>) {
    AllIn(gs, GasNames) && AllIn(ls, Locs) && AllIn(ls, AltLocs) && AllIn(vs, SensorVoltages)
    && AllIn(ss, FanSpeeds) && AllIn(ss, AltFanSpeeds)
  }

  /** One attempt per location, for one gas. */
  function LocationAttempts(sel: Selector, fs: Listing, g: int, ls: seq<int>, vs: seq<int>, ss: seq<int>, ts: seq<int>,
                            parses: string -> bool): (r: seq<Result<seq<Request>>>)
    requires !sel.source.Hdf? && g in GasNames && AllIn(ls, Locs) && AllIn(ls, AltLocs)
    requires AllIn(vs, SensorVoltages) && AllIn(ss, FanSpeeds) && AllIn(ss, AltFanSpeeds)
    ensures |r| == |ls| && forall j :: 0 <= j < |ls| ==> r[j] == ColumnRequests(sel, fs, g, ls[j], vs, ss, ts, parses)
    ensures forall j :: 0 <= j < |ls| ==> r[j].Err? ==> r[j].error == BadTimestamp
    ensures forall j :: 0 <= j < |ls| ==> (r[j].Ok? <==> ColumnParses(sel, fs, g, ls[j], vs, ss, parses))
  {
    seq(|ls|, j requires 0 <= j < |ls| => ColumnRequests(sel, fs, g, ls[j], vs, ss, ts, parses))
  }

  /** The loop over locations, for one gas. */
  function GasRequests(sel: Selector, fs: Listing, g: int, ls: seq<int>, vs: seq<int>, ss: seq<int>, ts: seq<int>,
                       parses: string -> bool): (r: Result<seq<Request>>)
    requires !sel.source.Hdf? && g in GasNames && AllIn(ls, Locs) && AllIn(ls, AltLocs)
    requires AllIn(vs, SensorVoltages) && AllIn(ss, FanSpeeds) && AllIn(ss, AltFanSpeeds)
    ensures r.Err? ==> r.error == BadTimestamp
    ensures r.Ok? <==> forall j :: 0 <= j < |ls| ==> ColumnParses(sel, fs, g, ls[j], vs, ss, parses)
  {
    Gather(LocationAttempts(sel, fs, g, ls, vs, ss, ts, parses))
  }

  /** One attempt per gas. */
  function GasAttempts(sel: Selector, fs: Listing, gs: seq<int>, ls: seq<int>, vs: seq<int>, ss: seq<int>,
                       ts: seq<int>, parses: string -> bool): (r: seq<Result<seq<Request>>>)
    requires !sel.source.Hdf? && Grid(gs, ls, vs, ss)
    ensures |r| == |gs| && forall i :: 0 <= i < |gs| ==> r[i] == GasRequests(sel, fs, gs[i], ls, vs, ss, ts, parses)
    ensures forall i :: 0 <= i < |gs| ==> r[i].Err? ==> r[i].error == BadTimestamp
    ensures forall i :: 0 <= i < |gs| ==>
              (r[i].Ok? <==> forall j :: 0 <= j < |ls| ==> ColumnParses(sel, fs, gs[i], ls[j], vs, ss, parses))
  {
    seq(|gs|, i requires 0 <= i < |gs| => GasRequests(sel, fs, gs[i], ls, vs, ss, ts, parses))
  }

  /** `DataSelector._get_data`: the requests of every gas, location,
      voltage, fan speed and trial, in loop order. The first time stamp that
      does not parse ends the selection. */
  function ListedData(sel: Selector, fs: Listing, gs: seq<int>, ls: seq<int>, vs: seq<int>, ss: seq<int>,
                      ts: seq<int>, parses: string -> bool): (r: Result<seq<Request>>)
    requires !sel.source.Hdf? && Grid(gs, ls, vs, ss)
    ensures r.Err? ==> r.error == BadTimestamp
    ensures r.Ok? <==> forall i, j :: 0 <= i < |gs| && 0 <= j < |ls| ==> ColumnParses(sel, fs, gs[i], ls[j], vs, ss, parses)
  {
    Gather(GasAttempts(sel, fs, gs, ls, vs, ss, ts, parses))
  }

  /** Every request of one voltage was asked for. */
  lemma SpeedRequestsSound(sel: Selector, cf: ColumnFiles, g: int, l: int, v: int, ss: seq<int>, ts: seq<int>,
                           parses: string -> bool, q: Request)
    requires !sel.source.Hdf? && g in GasNames && l in Locs && l in AltLocs && v in SensorVoltages
    requires AllIn(ss, FanSpeeds) && AllIn(ss, AltFanSpeeds)
    requires SpeedRequests(sel, cf, g, l, v, ss, ts, parses).Ok?
    requires q in SpeedRequests(sel, cf, g, l, v, ss, ts, parses).value
    ensures Sound(q, sel, [g], [l], [v], ss, ts)
  {
    var rs := SpeedAttempts(sel, cf, g, l, v, ss, ts, parses);
    var b := GatherIn(rs, q);
    assert Sound(q, sel, [g], [l], [v], [ss[b]], ts) by {
      var r := FileRequests(sel, cf, g, l, v, ss[b], ts, parses).value;
      var k :| 0 <= k < |r| && r[k] == q;
      FileRequestsSound(sel, cf, g, l, v, ss[b], ts, parses);
    }
    WidenSpeed(q, sel, [g], [l], [v], ss[b], ss, ts);
  }

  /** Every request of one column was asked for. */
  lemma ColumnRequestsSound(sel: Selector, fs: Listing, g: int, l: int, vs: seq<int>, ss: seq<int>, ts: seq<int>,
                            parses: string -> bool, q: Request)
    requires !sel.source.Hdf? && Settings(g, l, vs, ss)
    requires ColumnRequests(sel, fs, g, l, vs, ss, ts, parses).Ok?
    requires q in ColumnRequests(sel, fs, g, l, vs, ss, ts, parses).value
    ensures Sound(q, sel, [g], [l], vs, ss, ts)
  {
    var cf := ColFiles(sel, fs, g, l).value;
    var rs := VoltageAttempts(sel, cf, g, l, vs, ss, ts, parses);
    var a := GatherIn(rs, q);
    SpeedRequestsSound(sel, cf, g, l, vs[a], ss, ts, parses, q);
    WidenVoltage(q, sel, [g], [l], vs[a], vs, ss, ts);
  }

  /** Every request of one gas was asked for. */
  lemma GasRequestsSound(sel: Selector, fs: Listing, g: int, ls: seq<int>, vs: seq<int>, ss: seq<int>, ts: seq<int>,
                         parses: string -> bool, q: Request)
    requires !sel.source.Hdf? && g in GasNames && AllIn(ls, Locs) && AllIn(ls, AltLocs)
    requires AllIn(vs, SensorVoltages) && AllIn(ss, FanSpeeds) && AllIn(ss, AltFanSpeeds)
    requires GasRequests(sel, fs, g, ls, vs, ss, ts, parses).Ok?
    requires q in GasRequests(sel, fs, g, ls, vs, ss, ts, parses).value
    ensures Sound(q, sel, [g], ls, vs, ss, ts)
  {
    var rs := LocationAttempts(sel, fs, g, ls, vs, ss, ts, parses);
    var j := GatherIn(rs, q);
    ColumnRequestsSound(sel, fs, g, ls[j], vs, ss, ts, parses, q);
    WidenLocation(q, sel, [g], ls[j], ls, vs, ss, ts);
  }

  /** Everything the directory and archive selectors request was asked
      for. */
  lemma ListedDataSound(sel: Selector, fs: Listing, gs: seq<int>, ls: seq<int>, vs: seq<int>, ss: seq<int>,
                        ts: seq<int>, parses: string -> bool)
    requires !sel.source.Hdf? && Grid(gs, ls, vs, ss)
    ensures var r := ListedData(sel, fs, gs, ls, vs, ss, ts, parses);
            r.Ok? ==> forall k :: 0 <= k < |r.value| ==> Sound(r.value[k], sel, gs, ls, vs, ss, ts)
  {
    var rs := GasAttempts(sel, fs, gs, ls, vs, ss, ts, parses);
    var r := Gather(rs);
    if r.Ok? {
      forall k | 0 <= k < |r.value|
        ensures Sound(r.value[k], sel, gs, ls, vs, ss, ts)
      {
        var q := r.value[k];
        var i := GatherIn(rs, q);
        GasRequestsSound(sel, fs, gs[i], ls, vs, ss, ts, parses, q);
        WidenGas(q, sel, gs[i], gs, ls, vs, ss, ts);
      }
    }
  }

  // ---------------------------------------------------------------------
  // The HDF selector
  // ---------------------------------------------------------------------

  /** One column of the HDF selector: every column reads the store itself. */
  function HdfRequest(sel: Selector, g: int, l: int, v: int, s: int, t: int): (q: Request)
    requires Keyed(g, l, v, s)
  {
    Request(Prefix(sel.source) + Location(sel.source), Key(g, l, v, s, t, sel.args))
  }

  /** The loop over trials. */
  function HdfTrials(sel: Selector, g: int, l: int, v: int, s: int, ts: seq<int>): (r: seq<Request>)
    requires Keyed(g, l, v, s)
    ensures |r| == |ts| && forall c :: 0 <= c < |ts| ==> r[c] == HdfRequest(sel, g, l, v, s, ts[c])
  {
    seq(|ts|, c requires 0 <= c < |ts| => HdfRequest(sel, g, l, v, s, ts[c]))
  }

  /** The loop over fan speeds. */
  function HdfSpeeds(sel: Selector, g: int, l: int, v: int, ss: seq<int>, ts: seq<int>): (r: seq<Request>)
    requires g in GasNames && l in Locs && l in AltLocs && v in SensorVoltages
    requires AllIn(ss, FanSpeeds) && AllIn(ss, AltFanSpeeds)
    ensures |r| == |ss| * |ts|
    ensures forall b, c :: 0 <= b < |ss| && 0 <= c < |ts| ==>
              0 <= Pos(b, |ts|, c) < |r| && r[Pos(b, |ts|, c)] == HdfRequest(sel, g, l, v, ss[b], ts[c])
  {
    var xss := seq(|ss|, b requires 0 <= b < |ss| => HdfTrials(sel, g, l, v, ss[b], ts));
    ConcatUniform(xss, |ts|);
    Concat(xss)
  }

  /** The loop over voltages. */
  function HdfVoltages(sel: Selector, g: int, l: int, vs: seq<int>, ss: seq<int>, ts: seq<int>): (r: seq<Request>)
    requires Settings(g, l, vs, ss)
    ensures |r| == |vs| * (|ss| * |ts|)
  {
    var xss := seq(|vs|, a requires 0 <= a < |vs| => HdfSpeeds(sel, g, l, vs[a], ss, ts));
    ConcatLength(xss, |ss| * |ts|);
    Concat(xss)
  }

  /** The loop over locations. */
  function HdfLocations(sel: Selector, g: int, ls: seq<int>, vs: seq<int>, ss: seq<int>, ts: seq<int>): (r: seq<Request>)
    requires g in GasNames && AllIn(ls, Locs) && AllIn(ls, AltLocs)
    requires AllIn(vs, SensorVoltages) && AllIn(ss, FanSpeeds) && AllIn(ss, AltFanSpeeds)
    ensures |r| == |ls| * (|vs| * (|ss| * |ts|))
  {
    var xss := seq(|ls|, j requires 0 <= j < |ls| => HdfVoltages(sel, g, ls[j], vs, ss, ts));
    ConcatLength(xss, |vs| * (|ss| * |ts|));
    Concat(xss)
  }

  /** `HDFDataSelector._get_data`: one request per combination of gas,
      location, voltage, fan speed and trial, in loop order, with no look
      at the store. */
  function HdfData(sel: Selector, gs: seq<int>, ls: seq<int>, vs: seq<int>, ss: seq<int>, ts: seq<int>): (r: seq<Request>)
    requires Grid(gs, ls, vs, ss)
    ensures |r| == |gs| * (|ls| * (|vs| * (|ss| * |ts|)))
  {
    var xss := seq(|gs|, i requires 0 <= i < |gs| => HdfLocations(sel, gs[i], ls, vs, ss, ts));
    ConcatLength(xss, |ls| * (|vs| * (|ss| * |ts|)));
    Concat(xss)
  }

  lemma HdfVoltagesAt(sel: Selector, g: int, l: int, vs: seq<int>, ss: seq<int>, ts: seq<int>, a: int, b: int, c: int)
    requires Settings(g, l, vs, ss)
    requires 0 <= a < |vs| && 0 <= b < |ss| && 0 <= c < |ts|
    ensures var r := HdfVoltages(sel, g, l, vs, ss, ts);
            var k := Pos(a, |ss| * |ts|, Pos(b, |ts|, c));
            0 <= k < |r| && r[k] == HdfRequest(sel, g, l, vs[a], ss[b], ts[c])
  {
    var xss := seq(|vs|, a requires 0 <= a < |vs| => HdfSpeeds(sel, g, l, vs[a], ss, ts));
    assert xss[a] == HdfSpeeds(sel, g, l, vs[a], ss, ts);
    ConcatAt(xss, |ss| * |ts|, a, Pos(b, |ts|, c));
  }

  lemma HdfLocationsAt(sel: Selector, g: int, ls: seq<int>, vs: seq<int>, ss: seq<int>, ts: seq<int>,
                       j: int, a: int, b: int, c: int)
    requires g in GasNames && AllIn(ls, Locs) && AllIn(ls, AltLocs)
    requires AllIn(vs, SensorVoltages) && AllIn(ss, FanSpeeds) && AllIn(ss, AltFanSpeeds)
    requires 0 <= j < |ls| && 0 <= a < |vs| && 0 <= b < |ss| && 0 <= c < |ts|
    ensures var r := HdfLocations(sel, g, ls, vs, ss, ts);
            var k := Pos(j, |vs| * (|ss| * |ts|), Pos(a, |ss| * |ts|, Pos(b, |ts|, c)));
            0 <= k < |r| && r[k] == HdfRequest(sel, g, ls[j], vs[a], ss[b], ts[c])
  {
    var xss := seq(|ls|, j requires 0 <= j < |ls| => HdfVoltages(sel, g, ls[j], vs, ss, ts));
    assert xss[j] == HdfVoltages(sel, g, ls[j], vs, ss, ts);
    HdfVoltagesAt(sel, g, ls[j], vs, ss, ts, a, b, c);
    ConcatAt(xss, |vs| * (|ss| * |ts|), j, Pos(a, |ss| * |ts|, Pos(b, |ts|, c)));
  }

  /** The HDF selector's requests come in loop order: the one for the
      `i`-th gas, `j`-th location, `a`-th voltage, `b`-th fan speed and
      `c`-th trial sits at the mixed-radix position of `(i, j, a, b, c)`. */
  lemma HdfDataAt(sel: Selector, gs: seq<int>, ls: seq<int>, vs: seq<int>, ss: seq<int>, ts: seq<int>,
                  i: int, j: int, a: int, b: int, c: int)
    requires Grid(gs, ls, vs, ss)
    requires 0 <= i < |gs| && 0 <= j < |ls| && 0 <= a < |vs| && 0 <= b < |ss| && 0 <= c < |ts|
    ensures var r := HdfData(sel, gs, ls, vs, ss, ts);
            var k := Pos(i, |ls| * (|vs| * (|ss| * |ts|)), Pos(j, |vs| * (|ss| * |ts|), Pos(a, |ss| * |ts|, Pos(b, |ts|, c))));
            0 <= k < |r| && r[k] == HdfRequest(sel, gs[i], ls[j], vs[a], ss[b], ts[c])
  {
    var xss := seq(|gs|, i requires 0 <= i < |gs| => HdfLocations(sel, gs[i], ls, vs, ss, ts));
    assert xss[i] == HdfLocations(sel, gs[i], ls, vs, ss, ts);
    HdfLocationsAt(sel, gs[i], ls, vs, ss, ts, j, a, b, c);
    ConcatAt(xss, |ls| * (|vs| * (|ss| * |ts|)), i, Pos(j, |vs| * (|ss| * |ts|), Pos(a, |ss| * |ts|, Pos(b, |ts|, c))));
  }

  // ---------------------------------------------------------------------
  // `select`
  // ---------------------------------------------------------------------

  /** The lists the assertions of `select` accept: each non-empty and within
      its table (trials within `1 .. 20`). */
  predicate Valid(gas: Arg, loc: Arg, voltage: Arg, speed: Arg, trial: Arg) {
    |AsList(gas)| > 0 && Within(AsList(gas), 11) && |AsList(loc)| > 0 && Within(AsList(loc), 6)
    && |AsList(voltage)| > 0 && Within(AsList(voltage), 5) && |AsList(speed)| > 0 && Within(AsList(speed), 3)
    && |AsList(trial)| > 0 && Within(AsList(trial), 20)
  }

  lemma WithinIn(xs: seq<int>, table: map<int, string>, n: int)
    requires KeyedUpTo(table, n) && Within(xs, n)
    ensures AllIn(xs, table)
  {
  }

  /** Accepted lists look up every table entry they need. */
  lemma ValidGrid(gas: Arg, loc: Arg, voltage: Arg, speed: Arg, trial: Arg)
    requires Valid(gas, loc, voltage, speed, trial)
    ensures Grid(AsList(gas), AsList(loc), AsList(voltage), AsList(speed))
  {
    GasesKeyed();
    LocsKeyed();
    SettingsKeyed();
    WithinIn(AsList(gas), GasNames, 11);
    WithinIn(AsList(loc), Locs, 6);
    WithinIn(AsList(loc), AltLocs, 6);
    WithinIn(AsList(voltage), SensorVoltages, 5);
    WithinIn(AsList(speed), FanSpeeds, 3);
    WithinIn(AsList(speed), AltFanSpeeds, 3);
  }

  /** The five assertions pass exactly for the accepted lists. */
  lemma AdmitAll(gas: Arg, loc: Arg, voltage: Arg, speed: Arg, trial: Arg)
    ensures Valid(gas, loc, voltage, speed, trial) <==>
              Admit(AsList(gas), GasNames.Keys).Ok? && Admit(AsList(loc), Locs.Keys).Ok?
              && Admit(AsList(voltage), SensorVoltages.Keys).Ok? && Admit(AsList(speed), FanSpeeds.Keys).Ok?
              && Admit(AsList(trial), TrialNumbers()).Ok?
  {
    GasesKeyed();
    LocsKeyed();
    SettingsKeyed();
    AdmitWithin(AsList(gas), GasNames.Keys, 11);
    AdmitWithin(AsList(loc), Locs.Keys, 6);
    AdmitWithin(AsList(voltage), SensorVoltages.Keys, 5);
    AdmitWithin(AsList(speed), FanSpeeds.Keys, 3);
    AdmitWithin(AsList(trial), TrialNumbers(), 20);
  }

  /** `list(range(lo, hi))`. */
  function RangeList(lo: int, hi: int): (r: seq<int>)
    ensures |r| == if lo < hi then hi - lo else 0
    ensures forall i :: 0 <= i < |r| ==> r[i] == lo + i
    decreases hi - lo
  {
    if lo >= hi then [] else [lo] + RangeList(lo + 1, hi)
  }

  /** `DataSelector.select` (and the HDF selector's, which shares it): the
      `int` arguments become lists, the five assertions run in order, and
      the selector's own `_get_data` builds the requests. */
  function Select(sel: Selector, fs: Listing, gas: Arg, loc: Arg, voltage: Arg, speed: Arg, trial: Arg,
                  parses: string -> bool): (r: Result<seq<Request>>)
    ensures !Valid(gas, loc, voltage, speed, trial) ==>
              r.Err? && (r.error == EmptySequence || r.error == AssertionFailed)
    ensures Valid(gas, loc, voltage, speed, trial) ==> Grid(AsList(gas), AsList(loc), AsList(voltage), AsList(speed))
    ensures Valid(gas, loc, voltage, speed, trial) && sel.source.Hdf? ==>
              r == Ok(HdfData(sel, AsList(gas), AsList(loc), AsList(voltage), AsList(speed), AsList(trial)))
    ensures Valid(gas, loc, voltage, speed, trial) && !sel.source.Hdf? ==>
              r == ListedData(sel, fs, AsList(gas), AsList(loc), AsList(voltage), AsList(speed), AsList(trial), parses)
  {
    AdmitAll(gas, loc, voltage, speed, trial);
    var gs :- Admit(AsList(gas), GasNames.Keys);
    var ls :- Admit(AsList(loc), Locs.Keys);
    var vs :- Admit(AsList(voltage), SensorVoltages.Keys);
    var ss :- Admit(AsList(speed), FanSpeeds.Keys);
    var ts :- Admit(AsList(trial), TrialNumbers());
    ValidGrid(gas, loc, voltage, speed, trial);
    if sel.source.Hdf? then Ok(HdfData(sel, gs, ls, vs, ss, ts))
    else ListedData(sel, fs, gs, ls, vs, ss, ts, parses)
  }

  // ---------------------------------------------------------------------
  // Completeness of the listed selectors
  // ---------------------------------------------------------------------

  /** The request for trial `n` of the files of `cf` that end with the
      suffix of `g`, `l`, `v`, `s`. */
  function Expected(sel: Selector, cf: ColumnFiles, g: int, l: int, v: int, s: int, n: int): Request
    requires Keyed(g, l, v, s)
    requires 1 <= n <= |Matching(cf.files, Suffix(g, l, v, s))|
  {
    var m := Matching(cf.files, Suffix(g, l, v, s));
    Request(FileLocator(sel.source, PathJoin(cf.sub, m[n - 1])), Key(g, l, v, s, n, sel.args))
  }

  lemma FileRequestsHas(sel: Selector, cf: ColumnFiles, g: int, l: int, v: int, s: int, ts: seq<int>,
                        parses: string -> bool, n: int)
    requires !sel.source.Hdf? && Keyed(g, l, v, s)
    requires FileRequests(sel, cf, g, l, v, s, ts, parses).Ok?
    requires n in ts && 1 <= n <= |Matching(cf.files, Suffix(g, l, v, s))|
    ensures Expected(sel, cf, g, l, v, s, n) in FileRequests(sel, cf, g, l, v, s, ts, parses).value
  {
    FileRequestsComplete(sel, cf, g, l, v, s, ts, parses, n);
    var r := FileRequests(sel, cf, g, l, v, s, ts, parses).value;
    var k :| 0 <= k < |r| && r[k].meta.trial == n;
    assert NamesTrial(sel, cf, g, l, v, s, ts, r[k]);
  }

  lemma SpeedRequestsHas(sel: Selector, cf: ColumnFiles, g: int, l: int, v: int, ss: seq<int>, ts: seq<int>,
                         parses: string -> bool, b: int, n: int)
    requires !sel.source.Hdf? && g in GasNames && l in Locs && l in AltLocs && v in SensorVoltages
    requires AllIn(ss, FanSpeeds) && AllIn(ss, AltFanSpeeds)
    requires SpeedRequests(sel, cf, g, l, v, ss, ts, parses).Ok?
    requires 0 <= b < |ss| && n in ts && 1 <= n <= |Matching(cf.files, Suffix(g, l, v, ss[b]))|
    ensures Expected(sel, cf, g, l, v, ss[b], n) in SpeedRequests(sel, cf, g, l, v, ss, ts, parses).value
  {
    var rs := SpeedAttempts(sel, cf, g, l, v, ss, ts, parses);
    assert rs[b] == FileRequests(sel, cf, g, l, v, ss[b], ts, parses);
    FileRequestsHas(sel, cf, g, l, v, ss[b], ts, parses, n);
    GatherHas(rs, b, Expected(sel, cf, g, l, v, ss[b], n));
  }

  lemma ColumnRequestsHas(sel: Selector, fs: Listing, g: int, l: int, vs: seq<int>, ss: seq<int>, ts: seq<int>,
                          parses: string -> bool, a: int, b: int, n: int)
    requires !sel.source.Hdf? && Settings(g, l, vs, ss)
    requires ColumnRequests(sel, fs, g, l, vs, ss, ts, parses).Ok? && ColFiles(sel, fs, g, l).Some?
    requires 0 <= a < |vs| && 0 <= b < |ss| && n in ts
    requires 1 <= n <= |Matching(ColFiles(sel, fs, g, l).value.files, Suffix(g, l, vs[a], ss[b]))|
    ensures Expected(sel, ColFiles(sel, fs, g, l).value, g, l, vs[a], ss[b], n)
            in ColumnRequests(sel, fs, g, l, vs, ss, ts, parses).value
  {
    var cf := ColFiles(sel, fs, g, l).value;
    var rs := VoltageAttempts(sel, cf, g, l, vs, ss, ts, parses);
    assert rs[a] == SpeedRequests(sel, cf, g, l, vs[a], ss, ts, parses);
    SpeedRequestsHas(sel, cf, g, l, vs[a], ss, ts, parses, b, n);
    GatherHas(rs, a, Expected(sel, cf, g, l, vs[a], ss[b], n));
  }

  lemma GasRequestsHas(sel: Selector, fs: Listing, g: int, ls: seq<int>, vs: seq<int>, ss: seq<int>, ts: seq<int>,
                       parses: string -> bool, j: int, a: int, b: int, n: int)
    requires !sel.source.Hdf? && g in GasNames && AllIn(ls, Locs) && AllIn(ls, AltLocs)
    requires AllIn(vs, SensorVoltages) && AllIn(ss, FanSpeeds) && AllIn(ss, AltFanSpeeds)
    requires GasRequests(sel, fs, g, ls, vs, ss, ts, parses).Ok?
    requires 0 <= j < |ls| && ColFiles(sel, fs, g, ls[j]).Some?
    requires 0 <= a < |vs| && 0 <= b < |ss| && n in ts
    requires 1 <= n <= |Matching(ColFiles(sel, fs, g, ls[j]).value.files, Suffix(g, ls[j], vs[a], ss[b]))|
    ensures Expected(sel, ColFiles(sel, fs, g, ls[j]).value, g, ls[j], vs[a], ss[b], n)
            in GasRequests(sel, fs, g, ls, vs, ss, ts, parses).value
  {
    var rs := LocationAttempts(sel, fs, g, ls, vs, ss, ts, parses);
    assert rs[j] == ColumnRequests(sel, fs, g, ls[j], vs, ss, ts, parses);
    ColumnRequestsHas(sel, fs, g, ls[j], vs, ss, ts, parses, a, b, n);
    GatherHas(rs, j, Expected(sel, ColFiles(sel, fs, g, ls[j]).value, g, ls[j], vs[a], ss[b], n));
  }

  /** Nothing is lost: for every requested gas, location, voltage and fan
      speed whose directory can be listed, and every requested trial
      number up to the count of matching files, the request for that file
      is among those of a successful selection. */
  lemma ListedDataComplete(sel: Selector, fs: Listing, gs: seq<int>, ls: seq<int>, vs: seq<int>, ss: seq<int>,
                           ts: seq<int>, parses: string -> bool, i: int, j: int, a: int, b: int, n: int)
    requires !sel.source.Hdf? && Grid(gs, ls, vs, ss)
    requires ListedData(sel, fs, gs, ls, vs, ss, ts, parses).Ok?
    requires 0 <= i < |gs| && 0 <= j < |ls| && ColFiles(sel, fs, gs[i], ls[j]).Some?
    requires 0 <= a < |vs| && 0 <= b < |ss| && n in ts
    requires 1 <= n <= |Matching(ColFiles(sel, fs, gs[i], ls[j]).value.files, Suffix(gs[i], ls[j], vs[a], ss[b]))|
    ensures Expected(sel, ColFiles(sel, fs, gs[i], ls[j]).value, gs[i], ls[j], vs[a], ss[b], n)
            in ListedData(sel, fs, gs, ls, vs, ss, ts, parses).value
  {
    var rs := GasAttempts(sel, fs, gs, ls, vs, ss, ts, parses);
    assert rs[i] == GasRequests(sel, fs, gs[i], ls, vs, ss, ts, parses);
    GasRequestsHas(sel, fs, gs[i], ls, vs, ss, ts, parses, j, a, b, n);
    GatherHas(rs, i, Expected(sel, ColFiles(sel, fs, gs[i], ls[j]).value, gs[i], ls[j], vs[a], ss[b], n));
  }

  /** `select()` with its default arguments asks the HDF selector for every
      gas, location, voltage, fan speed and trial: 11 * 6 * 5 * 3 * 20
      columns. */
  lemma SelectDefaultsHdf(sel: Selector, fs: Listing, parses: string -> bool)
    requires sel.source.Hdf?
    ensures var r := Select(sel, fs, Many(RangeList(1, 12)), Many(RangeList(1, 7)), Many(RangeList(1, 6)),
                            Many(RangeList(1, 4)), Many(RangeList(1, 21)), parses);
            r.Ok? && |r.value| == 19800
  {
    assert Valid(Many(RangeList(1, 12)), Many(RangeList(1, 7)), Many(RangeList(1, 6)),
                 Many(RangeList(1, 4)), Many(RangeList(1, 21)));
  }
}
