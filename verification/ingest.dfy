/** How a column gets its table (WTDtools/SensorColumn.py `load`,
    `load_hdf5`, `save_hdf5`, `_get_hd5_dataname`).

    Everything the loader reads lives in a `Disk`: the HDF stores (a map
    from store path to a map from key to table), the plain files and the
    zip archives (maps from path to text). Parsing a text into a table is
    the pandas call `read_table` with the fixed column list; it is a
    parameter of the loader and is never looked into.
 */
module Ingest {
  import opened Common
  import opened Strings
  import opened Base

  /** A parsed column table: its time index and its named channels. */
  datatype Table = Table(index: seq<real>, channels: map<string, seq<real>>)

  /** An HDF store: key to table. */
  type Store = map<string, Table>

  datatype Disk = Disk(
    stores: map<string, Store>,
    files: map<string, string>,
    archives: map<string, map<string, string>>)

  /** `_get_hd5_dataname`: `Gas/Location/Fan{speed}_{voltage}_trial{n}`. */
  function DataName(m: Meta): (r: string)
    ensures StartsWith(r, m.gas + "/" + m.location + "/Fan" + m.speed + "_" + m.voltage + "_trial")
  {
    var head := m.gas + "/" + m.location + "/Fan" + m.speed + "_" + m.voltage + "_trial";
    assert (head + IntToString(m.trial))[..|head|] == head;
    head + IntToString(m.trial)
  }

  /** The part of the key after the location. */
  function KeyTail(m: Meta): string
  {
    "Fan" + m.speed + "_" + m.voltage + "_trial" + IntToString(m.trial)
  }

  lemma KeyShape(m: Meta)
    ensures DataName(m) == m.gas + ['/'] + (m.location + ['/'] + KeyTail(m))
  {
  }

  lemma KeyTailNoSlash(m: Meta)
    requires '/' !in m.speed && '/' !in m.voltage
    ensures '/' !in KeyTail(m)
  {
    IntToStringDigits(m.trial);
  }

  /** The key splits back at its slashes into gas, location and the rest,
      as long as none of the parts holds a slash. */
  lemma DataNameParts(m: Meta)
    requires '/' !in m.gas && '/' !in m.location
    requires '/' !in m.speed && '/' !in m.voltage
    ensures Split(DataName(m), "/") == [m.gas, m.location, KeyTail(m)]
  {
    var tail := KeyTail(m);
    KeyTailNoSlash(m);
    KeyShape(m);
    SplitCharHead(m.gas, '/', m.location + ['/'] + tail);
    SplitCharHead(m.location, '/', tail);
    SplitCharNone(tail, '/');
  }

  /** `str(i)` holds no slash: only digits and possibly a minus sign. */
  lemma IntToStringDigits(i: int)
    ensures '/' !in IntToString(i)
  {
    var s := IntToString(i);
    if i >= 0 {
      assert AllDigits(NatToString(i));
    } else {
      assert AllDigits(NatToString(-i));
    }
    forall k | 0 <= k < |s| ensures s[k] != '/' {
      if i >= 0 {
        assert IsDigit(NatToString(i)[k]);
      } else if k > 0 {
        assert IsDigit(NatToString(-i)[k - 1]);
      }
    }
  }

  /** `pd.read_hdf(path, key)`: `IOError` without a store at `path`,
      `KeyError` without `key` in it. */
  function ReadHdf(disk: Disk, path: string, key: string): (r: Result<Table>)
    ensures path !in disk.stores <==> r == Err(MissingFile)
    ensures path in disk.stores && key !in disk.stores[path] <==> r == Err(MissingKey)
    ensures r.Ok? ==> path in disk.stores && key in disk.stores[path] && r.value == disk.stores[path][key]
  {
    if path !in disk.stores then Err(MissingFile)
    else if key !in disk.stores[path] then Err(MissingKey)
    else Ok(disk.stores[path][key])
  }

  /** `load_hdf5(storepath)`: refuses when the column already has data,
      otherwise reads the column's key from the store. */
  function LoadHdf5(data: Option<Table>, disk: Disk, path: string, m: Meta): (r: Result<Table>)
    ensures data.Some? ==> r == Err(AlreadyHasData)
    ensures data.None? ==> r == ReadHdf(disk, path, DataName(m))
  {
    if data.Some? then Err(AlreadyHasData) else ReadHdf(disk, path, DataName(m))
  }

  /** `save_hdf5(storepath, overwrite)`: raises without data; opening the
      store creates it when missing; with `overwrite` false an existing key
      is left alone, otherwise the key is set to the data. */
  function SaveHdf5(data: Option<Table>, disk: Disk, path: string, m: Meta, overwrite: bool): (r: Result<Disk>)
    ensures data.None? <==> r == Err(NoData)
    ensures r.Ok? ==> r.value.files == disk.files && r.value.archives == disk.archives
    ensures r.Ok? ==> path in r.value.stores && DataName(m) in r.value.stores[path]
    ensures r.Ok? ==> forall p :: p != path ==> (p in r.value.stores <==> p in disk.stores)
    ensures r.Ok? ==> forall p :: p != path && p in disk.stores ==> r.value.stores[p] == disk.stores[p]
    ensures r.Ok? ==> forall k :: k != DataName(m) ==>
              (k in r.value.stores[path] <==> path in disk.stores && k in disk.stores[path])
    ensures r.Ok? ==> forall k :: k != DataName(m) && k in r.value.stores[path] ==>
              r.value.stores[path][k] == disk.stores[path][k]
    ensures r.Ok? && (overwrite || path !in disk.stores || DataName(m) !in disk.stores[path]) ==>
              r.value.stores[path][DataName(m)] == data.value
    ensures r.Ok? && !overwrite && path in disk.stores && DataName(m) in disk.stores[path] ==>
              r.value == disk
  {
    if data.None? then Err(NoData)
    else
      var name := DataName(m);
      var store: Store := if path in disk.stores then disk.stores[path] else map[];
      if !overwrite && name in store then Ok(disk)
      else Ok(disk.(stores := disk.stores[path := store[name := data.value]]))
  }

  /** What is saved can be loaded back: after a save that writes, a column
      without data reads the saved table from the same store. */
  lemma SaveThenLoad(data: Table, disk: Disk, path: string, m: Meta, overwrite: bool)
    requires overwrite || path !in disk.stores || DataName(m) !in disk.stores[path]
    ensures SaveHdf5(Some(data), disk, path, m, overwrite).Ok?
    ensures LoadHdf5(None, SaveHdf5(Some(data), disk, path, m, overwrite).value, path, m) == Ok(data)
  {
  }

  /** Saving twice with `overwrite` false changes nothing the second time. */
  lemma SaveIdempotent(data: Table, disk: Disk, path: string, m: Meta)
    ensures var once := SaveHdf5(Some(data), disk, path, m, false).value;
            SaveHdf5(Some(data), once, path, m, false) == Ok(once)
  {
  }

  /** The two halves of a `zip://` locator. */
  datatype ZipPath = ZipPath(archive: string, entry: string)

  /** The locator after `zip://`, split on `.zip`: exactly two parts are
      required (otherwise a `Warning` is raised); the archive is the first
      part with `.zip` put back, the entry the second with every leading
      `/` removed. */
  function SplitZip(rest: string): (r: Result<ZipPath>)
    ensures r.Ok? <==> |Split(rest, ".zip")| == 2
    ensures r.Ok? ==> r.value.archive == Split(rest, ".zip")[0] + ".zip"
    ensures r.Ok? ==> |r.value.entry| == 0 || r.value.entry[0] != '/'
    ensures r.Ok? ==> exists n :: 0 <= n <= |Split(rest, ".zip")[1]|
                        && Split(rest, ".zip")[1] == Repeat('/', n) + r.value.entry
  {
    var parts := Split(rest, ".zip");
    if |parts| != 2 then Err(AmbiguousZipPath)
    else
      var entry := StripLeading(parts[1], '/');
      var n := |parts[1]| - |entry|;
      assert parts[1] == Repeat('/', n) + entry;
      Ok(ZipPath(parts[0] + ".zip", entry))
  }

  function Repeat(c: char, n: nat): (r: string)
    ensures |r| == n && forall k :: 0 <= k < n ==> r[k] == c
  {
    seq(n, _ => c)
  }

  /** No `.zip` starts inside an archive path without a dot. */
  lemma NoZipInArchive(archive: string, rest: string)
    requires '.' !in archive
    ensures forall j :: 0 <= j < |archive| ==> !OccursAt(archive + ".zip" + rest, ".zip", j)
  {
    var s := archive + ".zip" + rest;
    forall j | 0 <= j < |archive| ensures !OccursAt(s, ".zip", j) {
      assert s[j] == archive[j] != '.';
      assert j + 4 <= |s| ==> s[j..j + 4][0] == s[j];
    }
  }

  /** No `.zip` occurs in `/` followed by an entry without one. */
  lemma NoZipAfterSlash(entry: string)
    requires forall j :: !OccursAt(entry, ".zip", j)
    ensures forall j :: !OccursAt("/" + entry, ".zip", j)
  {
    var rest := "/" + entry;
    forall j ensures !OccursAt(rest, ".zip", j) {
      if j == 0 && 4 <= |rest| {
        assert rest[0..4][0] == '/';
      } else if 1 <= j && j + 4 <= |rest| {
        assert rest[j..j + 4] == entry[j - 1..j + 3];
        assert !OccursAt(entry, ".zip", j - 1);
      }
    }
  }

  /** A locator built from an archive path without a dot and an entry
      without `.zip` splits back into the two. */
  lemma SplitZipRoundTrip(archive: string, entry: string)
    requires '.' !in archive
    requires forall j :: !OccursAt(entry, ".zip", j)
    requires |entry| == 0 || entry[0] != '/'
    ensures SplitZip(archive + ".zip/" + entry) == Ok(ZipPath(archive + ".zip", entry))
  {
    var rest := "/" + entry;
    assert archive + ".zip/" + entry == archive + ".zip" + rest;
    NoZipInArchive(archive, rest);
    SplitAtFirst(archive, ".zip", rest);
    NoZipAfterSlash(entry);
    SplitWithout(rest, ".zip");
    assert rest[1..] == entry;
  }

  /** Parsing a locator that the cache did not satisfy: `zip://` reads an
      archive entry, `file://` a plain file (a missing one fails the
      existence assertion), anything else is unknown. */
  function ParseLocator(disk: Disk, locator: string, parse: string -> Table): (r: Result<Table>)
    ensures !StartsWith(locator, "zip://") && !StartsWith(locator, "file://") ==> r == Err(UnknownLocator)
    ensures StartsWith(locator, "file://") && !StartsWith(locator, "zip://") ==>
              (r.Ok? <==> locator[7..] in disk.files)
              && (r.Ok? ==> r.value == parse(disk.files[locator[7..]]))
    ensures StartsWith(locator, "zip://") && r.Ok? ==>
              SplitZip(locator[6..]).Ok?
              && var z := SplitZip(locator[6..]).value;
                 z.archive in disk.archives && z.entry in disk.archives[z.archive]
                 && r.value == parse(disk.archives[z.archive][z.entry])
  {
    if StartsWith(locator, "zip://") then
      var z :- SplitZip(locator[6..]);
      if z.archive !in disk.archives then Err(MissingFile)
      else if z.entry !in disk.archives[z.archive] then Err(MissingKey)
      else Ok(parse(disk.archives[z.archive][z.entry]))
    else if StartsWith(locator, "file://") then
      var path := locator[7..];
      if path !in disk.files then Err(AssertionFailed)
      else Ok(parse(disk.files[path]))
    else Err(UnknownLocator)
  }

  /** The table `load` produced and the disk after it. */
  datatype Loaded = Loaded(table: Table, disk: Disk)

  /** `load(data_location)`. An `hdf://` locator reads the store named by
      the rest of the locator and nothing else. Otherwise, with a cache
      store configured, a cache hit ends the load; a missing store is
      created empty and a missing key ignored, and the locator is then
      parsed. */
  function Load(data: Option<Table>, disk: Disk, cache: Option<string>, locator: string, m: Meta,
                parse: string -> Table): (r: Result<Loaded>)
    ensures StartsWith(locator, "hdf://") ==>
              r == (match LoadHdf5(data, disk, locator[6..], m)
                    case Ok(t) => Ok(Loaded(t, disk))
                    case Err(e) => Err(e))
    ensures !StartsWith(locator, "hdf://") && cache.None? ==>
              r == (match ParseLocator(disk, locator, parse)
                    case Ok(t) => Ok(Loaded(t, disk))
                    case Err(e) => Err(e))
    ensures !StartsWith(locator, "hdf://") && cache.Some? && LoadHdf5(data, disk, cache.value, m).Ok? ==>
              r == Ok(Loaded(LoadHdf5(data, disk, cache.value, m).value, disk))
    ensures !StartsWith(locator, "hdf://") && cache.Some? && LoadHdf5(data, disk, cache.value, m) == Err(MissingFile) ==>
              r == (match ParseLocator(disk, locator, parse)
                    case Ok(t) => Ok(Loaded(t, disk.(stores := disk.stores[cache.value := map[]])))
                    case Err(e) => Err(e))
    ensures !StartsWith(locator, "hdf://") && cache.Some? && LoadHdf5(data, disk, cache.value, m) == Err(MissingKey) ==>
              r == (match ParseLocator(disk, locator, parse)
                    case Ok(t) => Ok(Loaded(t, disk))
                    case Err(e) => Err(e))
    ensures data.Some? && (StartsWith(locator, "hdf://") || cache.Some?) ==> r == Err(AlreadyHasData)
    ensures r.Ok? && cache.None? ==> r.value.disk == disk
  {
    if StartsWith(locator, "hdf://") then
      var t :- LoadHdf5(data, disk, locator[6..], m);
      Ok(Loaded(t, disk))
    else Fetch(data, disk, cache, locator, m, parse)
  }

  /** The branch of `load` for any other locator: the cache first, then
      the locator itself. */
  function Fetch(data: Option<Table>, disk: Disk, cache: Option<string>, locator: string, m: Meta,
                 parse: string -> Table): (r: Result<Loaded>)
    ensures cache.None? ==>
              r == (match ParseLocator(disk, locator, parse)
                    case Ok(t) => Ok(Loaded(t, disk))
                    case Err(e) => Err(e))
    ensures cache.Some? && LoadHdf5(data, disk, cache.value, m).Ok? ==>
              r == Ok(Loaded(LoadHdf5(data, disk, cache.value, m).value, disk))
    ensures cache.Some? && LoadHdf5(data, disk, cache.value, m) == Err(MissingFile) ==>
              r == (match ParseLocator(disk, locator, parse)
                    case Ok(t) => Ok(Loaded(t, disk.(stores := disk.stores[cache.value := map[]])))
                    case Err(e) => Err(e))
    ensures cache.Some? && LoadHdf5(data, disk, cache.value, m) == Err(MissingKey) ==>
              r == (match ParseLocator(disk, locator, parse)
                    case Ok(t) => Ok(Loaded(t, disk))
                    case Err(e) => Err(e))
    ensures data.Some? && cache.Some? ==> r == Err(AlreadyHasData)
    ensures r.Ok? && cache.None? ==> r.value.disk == disk
  {
    var probed :- Probe(data, disk, cache, m);
    if probed.table.Some? then Ok(Loaded(probed.table.value, probed.disk))
    else
      var t :- ParseLocator(probed.disk, locator, parse);
      Ok(Loaded(t, probed.disk))
  }

  /** What the cache lookup leaves behind: the table if it was found, and
      the disk (with an empty store created when none existed). */
  datatype Probed = Probed(table: Option<Table>, disk: Disk)

  /** The `try` around `load_hdf5(HDFcache)`: `IOError` and `KeyError` are
      caught, anything else propagates. */
  function Probe(data: Option<Table>, disk: Disk, cache: Option<string>, m: Meta): (r: Result<Probed>)
    ensures cache.None? ==> r == Ok(Probed(None, disk))
    ensures cache.Some? ==>
              r == (match LoadHdf5(data, disk, cache.value, m)
                    case Ok(t) => Ok(Probed(Some(t), disk))
                    case Err(MissingFile) => Ok(Probed(None, disk.(stores := disk.stores[cache.value := map[]])))
                    case Err(MissingKey) => Ok(Probed(None, disk))
                    case Err(e) => Err(e))
  {
    if cache.None? then Ok(Probed(None, disk))
    else
      match LoadHdf5(data, disk, cache.value, m)
      case Ok(t) => Ok(Probed(Some(t), disk))
      case Err(MissingFile) => Ok(Probed(None, disk.(stores := disk.stores[cache.value := map[]])))
      case Err(MissingKey) => Ok(Probed(None, disk))
      case Err(e) => Err(e)
  }

  /** A cache hit decides the load whatever the locator says, as long as
      it is not `hdf://`: even an unknown prefix then loads. */
  lemma CacheHitIgnoresLocator(disk: Disk, cache: string, m: Meta, locator: string, other: string,
                               parse: string -> Table)
    requires !StartsWith(locator, "hdf://") && !StartsWith(other, "hdf://")
    requires ReadHdf(disk, cache, DataName(m)).Ok?
    ensures Load(None, disk, Some(cache), locator, m, parse) == Load(None, disk, Some(cache), other, m, parse)
    ensures Load(None, disk, Some(cache), locator, m, parse).Ok?
  {
  }

  /** After a cache miss on a missing store, the store exists and is
      empty, and a later save fills it. */
  lemma MissCreatesStore(disk: Disk, cache: string, m: Meta, locator: string, parse: string -> Table)
    requires !StartsWith(locator, "hdf://") && cache !in disk.stores
    requires Load(None, disk, Some(cache), locator, m, parse).Ok?
    ensures var d := Load(None, disk, Some(cache), locator, m, parse).value.disk;
            cache in d.stores && d.stores[cache] == map[]
  {
  }
}
