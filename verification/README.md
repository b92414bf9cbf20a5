# WTDtools core in Dafny

A model of the data core of WTDtools, a Python package for the wind-tunnel
gas-sensor data set. A sensor column holds nine sensor boards, and each
board holds eight metal-oxide sensors. The model covers:

- the three-level object model (`Sensor`, `SensorBoard`, `SensorColumn` on
  top of `base`);
- the board's outlier validation and the board and column aggregates;
- the timestamp clean-up (`find_duplicates`, `drop_duplicates`,
  `find_gaps`) and the uniform grid of `resample`;
- the loader with its HDF cache;
- the experiment selectors of `utils.py`.

Modules follow the source files:

| module | file | what it holds |
|---|---|---|
| `Common` | (shared) | `Option`, `Result`, the error kinds, and helpers for building lists step by step |
| `SeqMath` | (shared) | `max`, `min`, `list.index`, mean, sample variance, `del xs[i]`, normalisation |
| `Strings` | (shared) | prefix and suffix tests, `str.split`, decimal text, POSIX `os.path.join`, `basename`, `dirname` |
| `Sorting` | (shared) | Python's string order and `list.sort()` on file names |
| `Base` | `base.py` | key fields, name, time, sample rate, the filter setter |
| `Sensors` | `Sensor.py` | the sensor record, its setters and its statistics |
| `Validation` | `SensorBoard.py` `validate` | the outlier search on the sensor minima |
| `Boards` | `SensorBoard.py` | extrema, `update`, the setters, the board aggregates |
| `Timestamps` | `SensorColumn.py` | repeated timestamps, gaps, the resampling grid |
| `Ingest` | `SensorColumn.py` | `load`, `load_hdf5`, `save_hdf5`, the cache key, `zip://` locators |
| `Columns` | `SensorColumn.py` | the constructor, the baseline from the mass-flow controllers, the setters, the column aggregates |
| `Selection` | `utils.py` | the lookup tables, the three selectors, `select` and `_get_data` |
| `Construction` | `utils.py` `_get_data` | the `SensorColumn` calls of the selectors: one constructed column per request |

Conventions:

- Every Python exception becomes an `Err` of a `Result`, with a kind that
  names it. A failed `assert` becomes `AssertionFailed`, `IndexError` becomes
  `IndexOutOfRange`, a missing HDF store becomes `MissingFile`, and so on.
- Objects are immutable records. A setter returns the updated record.
- Attributes that may be unset are `Option`s.
- `_init` is a field of the column, and boards and sensors carry their own
  construction state, so a setter forwards to its children only once the
  parent is built, as in the source.
- Timestamps and readings are mathematical reals.

Whatever a library computes is a parameter the model never looks into:

- A Butterworth design stands for `scipy.signal.butter`'s output. The
  argument checks `butter` makes before designing (order, critical
  frequency, single or paired edge) are modelled, as the `InvalidFilter`
  error.
- The pandas parsers, `DataFrame.reindex` and the spline evaluation of
  `resample` are the functions of `Columns.Library`.
- `time.strptime`'s acceptance of a time stamp is the `parses` predicate.
- The file system is a `Disk` (HDF stores as maps from key to table, plain
  files, zip archives) or a `Listing` (directory contents and archive
  entry names).
- `os.path.exists` is a boolean argument.

The source's quirks are kept, not corrected:

- `validate` looks only at the sensor minima. It flags a sensor by its
  position in the list as already shortened by earlier rounds, so on the
  minima 10, 11, 9, 12, 10, 11, 9, 100 it flags sensors 1, 2, 3 and 8, not
  only the one reading 100 (`Validation.ValidateExample`).
- A board's `get_max` and `get_min` report a position among the valid
  sensors only, not a sensor number (`Boards.MaxPosition`,
  `Boards.MinPosition`).
- The list form of a board's `set_filter` reaches sensors 1 to 7 and never
  sensor 8.
- `set_data` and `set_baseline` on a built board rebuild its sensors, which
  makes every sensor valid again, because validation is not re-run.
- The rebuilt sensors get the board's filter only when it is a list. A
  sensor drops any other filter and designs the default one from its time,
  so after a board's `set_filter(order, cutoff, ...)` a later `set_data` or
  `set_baseline` quietly puts the default design back into every sensor
  (`Boards.Holds`).
- `drop_duplicates` compares neighbours only, so a stamp repeated out of
  order stays, and `resample` then fails on it
  (`Columns.DistantRepeatStopsResample`).
- `set_time` stores `_Time`, but `get_time` reads the data's index, so
  setting the time never changes what the getter reports.
- `set_filter(_btype='band')` always fails: it passes one cutoff, and a
  band-pass design needs two.
- A column whose index ends at 0.5 seconds or later per sample (a sample
  rate of at most 2 per second) cannot be built: the default cutoff
  `1 / (sample_rate / 2)` is then at least 1, which `butter` refuses.

## Model

| member | source | states |
|---|---|---|
| Base.Init | WTDtools/base.py:17-36 | the constructor records gas, location, voltage, speed, trial and `_args`, resets time, data and filter to `None`, and keeps a name set before it |
| Base.SetName | WTDtools/base.py:54-66 | after `set_name(n)`, `get_name` returns `n`; key, time, data and filter are untouched |
| Base.SetTime | WTDtools/base.py:79-81 | `set_time` stores `_Time` and changes nothing else |
| Base.GetTime | WTDtools/base.py:75-77 | `get_time` fails exactly when there is no data, and otherwise reports the data's own index |
| Base.SetTimeInvisible | WTDtools/base.py:75-81 | `set_time` never changes what `get_time` reports, since the getter reads the data's index and not `_Time` |
| Base.SampleRate | WTDtools/base.py:70-73 | a missing, empty or zero-ending time gives the matching error; otherwise the rate times the last time stamp equals 1000 times the sample count |
| Base.DesignFilter | WTDtools/base.py:89-98 | a cutoff that is neither a float nor falsy, or an unknown band type, fails the assertion; a given cutoff is used as is and succeeds exactly when the order is non-negative, the cutoff lies strictly between 0 and 1 and the type is not `band`; a falsy cutoff succeeds exactly when the sample rate exists and exceeds 2 under the same order and type conditions, and becomes the value whose product with the rate is 2 |
| Base.Butterworth | WTDtools/base.py:98 | `sp.butter` designs exactly when the order is non-negative, the critical frequency lies strictly between 0 and 1 and a single frequency suits the type (so never for `band`), and raises `ValueError` otherwise |
| Base.SetFilter | WTDtools/base.py:89-98 | `set_filter` succeeds exactly when the design does, and then replaces only `_Filter` |
| Base.DefaultFilter | WTDtools/base.py:89-98 | the default `set_filter()` succeeds exactly when the time index is non-empty and its last stamp lies strictly between 0 and 500 ms times the number of samples, i.e. the sample rate exceeds 2 per second; it then gives a second-order low-pass design whose cutoff times the rate is 2 |
| Sensors.SetFilter | WTDtools/Sensor.py:106-110 | a list passed as `data` becomes the filter verbatim; otherwise the result is the base design from the sensor's own time, failing when the design fails |
| Sensors.New | WTDtools/Sensor.py:22-38 | the constructor fails only when the filter design fails; the sensor it builds is valid, holds the given name, key, time and readout, takes min and max from the extremum and the mean and sample variance from the readout, has no baseline, and has the listed filter or the default design |
| Sensors.SetValid | WTDtools/Sensor.py:59-64 | `set_valid(status)` sets the flag to exactly `status` and leaves every other field alone |
| Sensors.SetBaseline | WTDtools/Sensor.py:95-101 | `set_baseline` succeeds exactly for a two-element sequence, stores it as the pair, and changes nothing else |
| Sensors.FanoOfReadout | WTDtools/Sensor.py:22-38 | a freshly built sensor's `get_fano` times the readout's mean is the readout's sample variance, so it is never negative for a positive mean and is 0 for a constant readout |
| Sensors.Normal | WTDtools/Sensor.py:68-120 | `get_normal` fails without data; otherwise it has one value per reading, undoing the scaling gives the reading back, the minimum maps to 0 and the maximum to 1 |
| Sensors.StatisticsFixed | WTDtools/Sensor.py:29-110 | the extremum and statistics fixed at construction survive `set_valid`, `set_baseline` and `set_filter`, and `set_filter` keeps the flag too |
| Validation.Decide | WTDtools/SensorBoard.py:133-147 | one round flags at most one sensor, and names it by a position inside the current copy |
| Validation.ArgMax | WTDtools/SensorBoard.py:134-136 | the position removed from the upper copy holds a largest value, and no earlier entry is as large |
| Validation.ArgMin | WTDtools/SensorBoard.py:135-137 | the position removed from the lower copy holds a smallest value, and no earlier entry is as small |
| Validation.ArgExtremesArePython | WTDtools/SensorBoard.py:134-137 | those positions are exactly `list.index(max(s))` and `list.index(min(s))`, and hold `max(s)` and `min(s)` |
| Validation.FirstLargestIsIndex | WTDtools/SensorBoard.py:134-136 | a largest entry with nothing as large before it is where `s.index(max(s))` lands |
| Validation.FirstSmallestIsIndex | WTDtools/SensorBoard.py:135-137 | a smallest entry with nothing as small before it is where `s.index(min(s))` lands |
| Validation.DecideSpec | WTDtools/SensorBoard.py:134-147 | a round flags the removed maximum's position when it is at least three times the mean of the rest; otherwise it flags the removed minimum's position when that is at most a third of its rest's mean; otherwise it flags nothing |
| Validation.Rounds | WTDtools/SensorBoard.py:131-147 | the loop runs one round fewer than there are sensors, and round `k` (from 0) can only name a position from 1 to `n - k` |
| Validation.FlaggedBound | WTDtools/SensorBoard.py:142-147 | no more sensors are flagged than there are rounds |
| Validation.Apply | WTDtools/SensorBoard.py:143-147 | after the `set_valid(False)` calls a sensor stays valid exactly when it was valid and no round named it |
| Validation.Validate | WTDtools/SensorBoard.py:124-148 | `validate` leaves each flag set exactly when it was set and no round on the minima names that sensor, so it never sets a flag |
| Validation.SomeSensorSurvives | WTDtools/SensorBoard.py:124-148 | starting from all sensors valid, at least one sensor is still valid after validation |
| Validation.RoundsTrace | WTDtools/SensorBoard.py:133-147 | any written-out run of the loop, each round removing the first maximum and first minimum and deciding as the loop does, produces the decisions the model computes |
| Validation.ExampleTrace | WTDtools/SensorBoard.py:131-147 | the seven rounds on the minima 10, 11, 9, 12, 10, 11, 9, 100 remove the listed positions and decide 8, nothing, nothing, 3, 1, 2, 1 |
| Validation.RoundsExample | WTDtools/SensorBoard.py:131-147 | on those minima the loop's decisions are sensor 8, nothing, nothing, then positions 3, 1, 2 and 1 of the shortened copies |
| Validation.ValidateExample | WTDtools/SensorBoard.py:124-148 | so on those minima sensors 1, 2, 3 and 8 are flagged, not only the sensor reading 100 |
| Validation.FirstLargestUnique | WTDtools/SensorBoard.py:136 | only one position is the first holding the largest entry |
| Validation.FirstSmallestUnique | WTDtools/SensorBoard.py:137 | only one position is the first holding the smallest entry |
| Validation.Flagged | WTDtools/SensorBoard.py:142-147 | the flagged sensors are exactly those some round names |
| Validation.Step | WTDtools/SensorBoard.py:133-147 | one pass of the loop body removes the first largest and first smallest entries and records its decision ahead of the remaining rounds |
| Boards.Extrema | WTDtools/SensorBoard.py:198-217 | `get_extrema` fails exactly when there are fewer than eight channels; otherwise each pair consists of samples of its channel and bounds every sample of it |
| Boards.Update | WTDtools/SensorBoard.py:61-122 | `update` succeeds exactly when the board's filter is a list or the default design works; it then replaces only the sensors, with eight valid sensors named `Sensor 1` .. `Sensor 8`, each holding its channel, the board's time, its extremum pair, the mean and variance of its channel, no baseline, and the board's filter if that is a list or else the default design of the time, since a sensor keeps only a list (`Boards.Holds`) |
| Boards.Validate | WTDtools/SensorBoard.py:124-148 | `validate` changes nothing but validity flags, and the flags it leaves are those of the outlier search run on the sensor minima |
| Boards.ValidateOnlyClears | WTDtools/SensorBoard.py:142-147 | validation can clear a flag but never sets one |
| Boards.ValidityIgnoresMaxima | WTDtools/SensorBoard.py:131-132 | two boards whose extrema agree in their minima get the same flags: validation never reads the maxima |
| Boards.Configure | WTDtools/SensorBoard.py:21-32 | the setters the constructor calls before `update` succeed exactly with a two-element baseline, at least eight channels and a usable filter; they store name, key, readout, time and baseline, compute the extrema and build no sensor |
| Boards.New | WTDtools/SensorBoard.py:21-36 | the constructor succeeds exactly for a two-element baseline, at least eight channels and a list filter or a working default design; the built board keeps name, key, readout, time, baseline pair and the readout's extrema, and its filter is the given list or else the default design; sensor i holds channel i, the time, extremum i, the channel's mean and variance, that filter and no baseline, and the flags are the outlier search's verdict on an all-valid board |
| Boards.ValidateKeepsHolds | WTDtools/SensorBoard.py:124-148 | validation changes only the flags, so every sensor still holds its channel, extremum and statistics |
| Boards.SetData | WTDtools/SensorBoard.py:163-171 | before construction `set_data` only stores the readout; afterwards, for Series channels, it fails exactly for fewer than eight channels or an unusable filter, in the source's order: no channel at all is an `IndexError`, then the filter design of sensor 1 fails, then a missing channel is an `IndexError`; otherwise it rebuilds valid sensors that each hold the new channel, the time, the old extremum, the new channel's mean and variance and the sensor filter, so a designed board filter reverts to the default design in the sensors; the extrema are never recomputed |
| Boards.SetBaseline | WTDtools/SensorBoard.py:184-217 | `set_baseline` fails its assertion unless the baseline has two elements, and fails with the `TypeError` of indexing `None` when there is no readout; it needs a readout of at least eight channels, stores the pair and recomputes the extrema from the readout; on a built board it also needs a list filter or a working default design, and then rebuilds valid sensors each holding its channel, the time, the new extremum, the channel's statistics and the sensor filter |
| Boards.FilterEach | WTDtools/SensorBoard.py:236-244 | forwarding `set_filter(order, cutoff, btype)` to each sensor succeeds exactly when every sensor's own design succeeds, and gives each sensor its own result |
| Boards.SetFilter | WTDtools/SensorBoard.py:219-244 | a list filter always succeeds and, on a built board, reaches sensors 1 to 7 but leaves sensor 8 untouched; any other filter recomputes the board's design and, on a built board, each sensor's, succeeding exactly when the board's design and all eight sensors' designs succeed; extrema, baseline and `_init` never change |
| Boards.Kept | WTDtools/SensorBoard.py:262-275 | the list comprehension keeps exactly the values whose sensor is valid, one per valid sensor, and is empty exactly when no sensor is valid |
| Boards.KeptAt | WTDtools/SensorBoard.py:262-275 | the value of valid sensor `i` sits in the kept list at the number of valid sensors before `i` |
| Boards.GetMax | WTDtools/SensorBoard.py:256-264 | `get_max` fails exactly when no sensor is valid; otherwise its value is the maximum of some valid sensor and bounds every valid sensor's maximum, and its position is at most the number of valid sensors |
| Boards.GetMin | WTDtools/SensorBoard.py:267-275 | `get_min` fails exactly when no sensor is valid, and is a minimum of a valid sensor that no valid sensor's minimum undercuts, at a position among the valid sensors (`Boards.MinPosition`) |
| Boards.MaxPosition | WTDtools/SensorBoard.py:262-264 | the position `get_max` reports counts the valid sensors up to and including the first holder of the largest maximum, so it is not the sensor number once an earlier sensor is invalid |
| Boards.MinPosition | WTDtools/SensorBoard.py:273-275 | the position `get_min` reports counts the valid sensors up to and including the first holder of the smallest minimum |
| Boards.GetVar | WTDtools/SensorBoard.py:301-310 | `get_var` reports the largest variance over all eight sensors, valid or not, at the first sensor number holding it |
| Boards.GetMean | WTDtools/SensorBoard.py:312-321 | `get_mean` reports the largest mean and the first sensor number holding it |
| Boards.GetFano | WTDtools/SensorBoard.py:323-332 | `get_fano` reports the largest Fano factor and the first sensor number holding it |
| Boards.NormalizeChannels | WTDtools/SensorBoard.py:150-154 | board normalisation keeps the shape, can be undone sample by sample, and maps samples between the bounds into `[0, 1]` |
| Boards.NewHasValidSensor | WTDtools/SensorBoard.py:21-148 | a freshly constructed board always keeps a valid sensor, so its `get_max` and `get_min` never raise |
| Boards.SetDataResetsValidity | WTDtools/SensorBoard.py:61-171 | `set_data` on a built board rebuilds the sensors, so every flag that validation cleared is set again |
| Boards.SetBaselineResetsValidity | WTDtools/SensorBoard.py:184-193 | the same holds for `set_baseline` on a built board |
| Boards.ExtremaIgnoreBaseline | WTDtools/SensorBoard.py:190-217 | the extrema depend on the readout alone: any two baselines give the same extrema |
| Boards.GetValid | WTDtools/SensorBoard.py:292-298 | the validity list holds the eight sensors' flags in sensor order |
| Boards.Minima | WTDtools/SensorBoard.py:131 | the list `validate` starts from holds each sensor's minimum in sensor order |
| Boards.Maxima | WTDtools/SensorBoard.py:263 | before filtering by validity, the list holds each sensor's maximum in sensor order |
| Timestamps.RepeatsFrom | WTDtools/SensorColumn.py:319 | the positions listed, in increasing order, are exactly those (shifted by the offset) where a timestamp equals its successor |
| Timestamps.RepeatedShift | WTDtools/SensorColumn.py:319 | dropping the first timestamp moves every repeat one position down |
| Timestamps.Repeats | WTDtools/SensorColumn.py:319 | `np.where(time[1:] == time[:-1])[0]` lists, in increasing order, exactly the positions whose timestamp equals the next one, and is empty exactly when no timestamp repeats |
| Timestamps.FindDuplicates | WTDtools/SensorColumn.py:312-326 | the `hasattr` guard always passes, so it fails exactly when `_Time` is `None`, with the `TypeError` of slicing it; otherwise it returns `None` exactly when no timestamp repeats, and else the non-empty increasing list of every repeat position |
| Timestamps.DeleteFrom | WTDtools/SensorColumn.py:339 | `np.delete` never lengthens the index nor introduces a value |
| Timestamps.DeleteRepeats | WTDtools/SensorColumn.py:336-339 | deleting exactly the repeat positions keeps the last timestamp of every run of equal ones |
| Timestamps.DropIsKeepLast | WTDtools/SensorColumn.py:330-342 | `drop_duplicates` agrees with keeping the last timestamp of every run |
| Timestamps.NoRepeatsKept | WTDtools/SensorColumn.py:337-338 | an index without repeats is kept as it is |
| Timestamps.KeepLastValues | WTDtools/SensorColumn.py:330-342 | keeping the last of every run preserves the first timestamp and the set of timestamps |
| Timestamps.KeepLastDistinct | WTDtools/SensorColumn.py:330-342 | after keeping the last of every run no timestamp equals its successor |
| Timestamps.KeepLastLength | WTDtools/SensorColumn.py:336-339 | exactly one timestamp is dropped per reported repeat |
| Timestamps.DropDuplicatesSpec | WTDtools/SensorColumn.py:330-342 | after `drop_duplicates` no timestamp repeats, every timestamp value survives, one entry per reported repeat is gone, `find_duplicates` then finds nothing, and a second call changes nothing |
| Timestamps.GapsFrom | WTDtools/SensorColumn.py:359-362 | the gaps from a position on are exactly those after which the next timestamp is more than the threshold later, with the timestamps on either side, in increasing order |
| Timestamps.FindGaps | WTDtools/SensorColumn.py:348-363 | both assertions pass, so it fails exactly when `_Time` is `None`, with the `TypeError` of slicing it; otherwise it reports exactly the positions followed by a jump above the threshold, in increasing order, with the start and stop timestamps of each jump |
| Timestamps.GridSize | WTDtools/SensorColumn.py:444-445 | the grid has the fewest points whose last reaches 260000 ms |
| Timestamps.Grid | WTDtools/SensorColumn.py:444-445 | a zero rate divides by zero, a negative rate gives an empty grid, and otherwise point `k` is `(k + 1) * rate / 10` |
| Timestamps.StepsReach | WTDtools/SensorColumn.py:444-445 | comparing `k` steps with the span can be done in integers |
| Timestamps.GridUniform | WTDtools/SensorColumn.py:444-445 | the grid starts one step in, has constant spacing `rate / 10` and strictly increases |
| Timestamps.GridCovers | WTDtools/SensorColumn.py:444-445 | the last grid point reaches 260000 ms and the one before it does not |
| Ingest.DataName | WTDtools/SensorColumn.py:307-308 | the cache key starts with `gas/location/Fan<speed>_<voltage>_trial` and ends with the trial number |
| Ingest.DataNameParts | WTDtools/SensorColumn.py:307-308 | the key splits at its slashes back into gas, location and the rest, so keys of different columns differ when the parts hold no slash |
| Ingest.IntToStringDigits | WTDtools/SensorColumn.py:308 | the trial number as text holds no slash, so it cannot add a level to the key |
| Ingest.ReadHdf | WTDtools/SensorColumn.py:303 | reading fails with a missing-file error exactly when the store is absent and with a missing-key error exactly when the key is absent; otherwise it returns the stored table |
| Ingest.LoadHdf5 | WTDtools/SensorColumn.py:294-303 | a column that already has data refuses; otherwise it reads its own key from the store |
| Ingest.SaveHdf5 | WTDtools/SensorColumn.py:273-290 | saving fails exactly without data; it touches only the named store and key, creates the store when missing, writes the data unless `overwrite` is off and the key exists, in which case nothing changes |
| Ingest.SaveThenLoad | WTDtools/SensorColumn.py:273-303 | after a save that writes, a column without data loads back exactly the saved table |
| Ingest.SaveIdempotent | WTDtools/SensorColumn.py:286-289 | a second save with `overwrite` off leaves the store as the first left it |
| Ingest.SplitZip | WTDtools/SensorColumn.py:234-243 | a `zip://` locator is accepted exactly when it splits on `.zip` into two parts; the archive is the first part with `.zip` restored and the entry is the second part with all its leading slashes removed |
| Ingest.SplitZipRoundTrip | WTDtools/SensorColumn.py:234-243 | a locator built from an archive path and an entry splits back into the same two |
| Ingest.NoZipInArchive | WTDtools/SensorColumn.py:235 | an archive path without a dot holds no `.zip` before its extension |
| Ingest.NoZipAfterSlash | WTDtools/SensorColumn.py:235 | a slash in front of an entry without `.zip` adds none |
| Ingest.ParseLocator | WTDtools/SensorColumn.py:214-268 | an unknown prefix is an error; `file://` parses the named file and fails exactly when it is absent; a successful `zip://` parses the named entry of the named archive |
| Ingest.Probe | WTDtools/SensorColumn.py:195-212 | without a cache nothing happens; a cache hit returns the table; a missing store is created empty and a missing key is ignored; any other error propagates |
| Ingest.Load | WTDtools/SensorColumn.py:184-271 | `hdf://` reads only the named store; otherwise a cache hit ends the load, a cache miss falls back to parsing the locator (creating the store when it was missing), and a column that already has data refuses whenever a store is read |
| Ingest.Fetch | WTDtools/SensorColumn.py:195-271 | the non-`hdf://` load: without a cache the locator is parsed and the disk is left alone; a cache hit returns the cached table; a missing store is created empty before parsing, a missing key just falls through to parsing; a column that already has data refuses whenever a cache is named |
| Ingest.CacheHitIgnoresLocator | WTDtools/SensorColumn.py:195-214 | once the cache holds the column, the locator no longer matters and the load succeeds |
| Ingest.MissCreatesStore | WTDtools/SensorColumn.py:201-208 | a load that missed because the store was absent leaves an empty store behind |
| Columns.Readout | WTDtools/SensorColumn.py:77-147 | board `k` receives exactly channels `BkS1` .. `BkS8` in sensor order; it fails exactly when one of them is missing or has fewer than two samples |
| Columns.FirstAbove | WTDtools/SensorColumn.py:634 | the index found holds a sample above half the channel's largest and no earlier sample is above it; none is found only when no sample is above half the largest |
| Columns.Above | WTDtools/SensorColumn.py:634 | the scan from `k` returns the first index at or after `k` whose sample exceeds the threshold, or none when no later sample does |
| Columns.FirstAboveExists | WTDtools/SensorColumn.py:634 | a non-empty mass-flow channel has a first rise exactly when its largest reading is positive |
| Columns.Rises | WTDtools/SensorColumn.py:632-644 | every rise collected comes from a listed mass-flow channel present in the table, and every present channel that rises contributes its first rise; a missing channel is skipped as the bare `except` does |
| Columns.Least | WTDtools/SensorColumn.py:648 | `min(end)` is one of the entries and no entry is smaller |
| Columns.GetBaseline | WTDtools/SensorColumn.py:625-648 | a detected baseline starts at index 0 |
| Columns.BaselineIsFirstRise | WTDtools/SensorColumn.py:625-648 | a detected baseline ends at the first rise of some mass-flow controller and no controller rises earlier; no baseline means every controller is missing, empty or never above half its largest reading |
| Columns.ConstructorBaseline | WTDtools/SensorColumn.py:61-67 | the constructor installs the detected baseline, or `(0, 1000)` when there is none |
| Columns.CacheLocation | WTDtools/SensorColumn.py:44-53 | without the cache flag there is no cache; with it the configured location is used and a missing location is an error |
| Columns.Deduped | WTDtools/SensorColumn.py:69-70 | without `dropDuplicates` the table and time are untouched; with it the time is the loaded index with every earlier repeat of a run removed |
| Columns.Clean | WTDtools/SensorColumn.py:69-75 | with neither option the data are untouched; without resampling the result is the `drop_duplicates` step, which as intended leaves the time with its earlier repeats removed; with resampling it fails exactly when the stamps left after that step do not strictly increase (a repeated label for `reindex`, an unordered abscissa for the `s=0` spline), and otherwise the time is the 100 Hz grid |
| Columns.AscendingCleans | WTDtools/SensorColumn.py:69-75 | a strictly increasing loaded index always survives the clean-up, and without resampling it leaves table and time as loaded |
| Columns.DistantRepeatStopsResample | WTDtools/SensorColumn.py:432-455 | a stamp repeated out of order (1, 2, 1) passes `drop_duplicates`, which compares neighbours only, and then makes `resample` fail |
| Columns.MakeBoard | WTDtools/SensorColumn.py:77-83 | board `k` is built exactly when its readout exists and its filter can be set, and is then a built board named `Board k` |
| Columns.Attempts | WTDtools/SensorColumn.py:77-147 | there is one attempt per board, attempt `j` building board `j + 1` |
| Columns.BuildBoards | WTDtools/SensorColumn.py:77-147 | the nine boards are built exactly when every attempt succeeds, the first failing board decides the error, and board `k` is the `k`-th attempt's result |
| Columns.New | WTDtools/SensorColumn.py:24-151 | taking `drop_duplicates` to complete, the constructor succeeds exactly when the cache request is well formed, the load succeeds, the loaded index admits the default filter, the clean-up succeeds and all nine boards build; the column is named after its location and marked built, its boards are exactly those `BuildBoards` makes from the cleaned table and time, the constructor's baseline and the default filter, it carries the cleaned data, and it is written to the cache (without overwriting) exactly when a cache is in use, the disk being untouched otherwise |
| Columns.Assemble | WTDtools/SensorColumn.py:56-151 | after `load`, construction succeeds exactly when the default filter can be made, the clean-up succeeds and the nine boards can be made, a failed clean-up being the resample error; the column holds the cleaned data, the baseline, the filter and those boards |
| Columns.NewFinished | WTDtools/SensorColumn.py:24-151 | every column the constructor returns is built, has nine built boards and carries the key it was given |
| Columns.DataAttempts | WTDtools/SensorColumn.py:488-497 | board k's attempt is its `set_data(data[k])` while `data` has entry k, and an `IndexError` after that |
| Columns.DataEach | WTDtools/SensorColumn.py:489-497 | the boards' `set_data` calls run in board order: it succeeds exactly when every board has an entry and every board's `set_data` succeeds, board k then holding the result for entry k; otherwise the error is that of the first attempt that fails, a missing entry being an `IndexError` |
| Columns.SetData | WTDtools/SensorColumn.py:482-497 | the data are always stored; before construction nothing else happens; on a built column, for Series channels, it succeeds exactly when there are nine entries and every board accepts its own, with board `k` then holding `data[k]` and staying built; with no entries, or when every board that has an entry accepts it, too few entries are an `IndexError`; otherwise the first board whose `set_data` fails decides the error |
| Columns.FilterEach | WTDtools/SensorColumn.py:507-516 | every board gets the same arguments, each board designing from its own time, and the result fails exactly when one board's `set_filter` does |
| Columns.SetFilter | WTDtools/SensorColumn.py:502-516 | the column's own design comes first and decides failure before construction; on a built column it succeeds exactly when that design and every board's `set_filter` with the same arguments succeed, each board designing from its own time, and the boards stay built; the baseline and cache are untouched |
| Columns.BaselineEach | WTDtools/SensorColumn.py:659-667 | every board gets the same baseline; a list that is not a pair is the boards' assertion error |
| Columns.SetBaseline | WTDtools/SensorColumn.py:652-667 | fewer than two entries are an `IndexError`; the column keeps the first two as its pair; before construction that is all, and on a built column a longer list fails the boards' assertion while a pair reaches every board |
| Columns.Locate | WTDtools/SensorColumn.py:535-537 | the board reported is numbered from 1 and lies among the boards |
| Columns.Best | WTDtools/SensorColumn.py:536 | `index(min(...))` / `index(max(...))`: the index holds an extreme value and no earlier index holds the same value |
| Columns.LowestAt | WTDtools/SensorColumn.py:535-537 | the column minimum repeats the result of the board it names, no board reports a smaller one, and no earlier board ties it |
| Columns.HighestAt | WTDtools/SensorColumn.py:556-558 | the column maximum repeats the result of the board it names, no board reports a larger one, and no earlier board ties it |
| Columns.AssembledSized | WTDtools/SensorColumn.py:77-147 | a built column has nine boards of eight sensors each |
| Columns.BoardMins | WTDtools/SensorColumn.py:526-535 | the boards' minima, in board order, exist exactly when every board has a valid sensor; otherwise the error is some board's error |
| Columns.MinsValues | WTDtools/SensorColumn.py:526-535 | one entry per board, each that board's `get_min` |
| Columns.BoardMaxs | WTDtools/SensorColumn.py:547-556 | the boards' maxima, in board order, exist exactly when every board has a valid sensor; otherwise the error is some board's error |
| Columns.MaxsValues | WTDtools/SensorColumn.py:547-556 | one entry per board, each that board's `get_max` |
| Columns.GetMin | WTDtools/SensorColumn.py:521-537 | the column minimum exists exactly when every board has a valid sensor, and names a board from 1 to 9 |
| Columns.MinsLocate | WTDtools/SensorColumn.py:521-537 | the chosen entry is the named board's own minimum, no board minimum is smaller, and no earlier board reaches it |
| Columns.GetMinIsSmallest | WTDtools/SensorColumn.py:521-537 | the column minimum is the named board's `get_min`, no board's is smaller, and it is the first board to reach it |
| Columns.ColumnMinBoundsSensors | WTDtools/SensorColumn.py:521-537 | the column minimum is at most the minimum of every valid sensor on every board, and some valid sensor attains it |
| Columns.GetMax | WTDtools/SensorColumn.py:542-558 | the column maximum exists exactly when every board has a valid sensor, and names a board from 1 to 9 |
| Columns.MaxsLocate | WTDtools/SensorColumn.py:542-558 | the chosen entry is the named board's own maximum, no board maximum is larger, and no earlier board reaches it |
| Columns.GetMaxIsLargest | WTDtools/SensorColumn.py:542-558 | the column maximum is the named board's `get_max`, no board's is larger, and it is the first board to reach it |
| Columns.ColumnMaxBoundsSensors | WTDtools/SensorColumn.py:542-558 | the column maximum is at least the maximum of every valid sensor on every board, and some valid sensor attains it |
| Columns.VarRanks | WTDtools/SensorColumn.py:568-577 | one entry per board, each that board's `get_var` |
| Columns.GetVar | WTDtools/SensorColumn.py:563-579 | the board reported is numbered from 1 to 9 |
| Columns.GetVarIsLargest | WTDtools/SensorColumn.py:563-579 | the reported variance is the named board's `get_var`, no board's is larger, and it is the first board to reach it |
| Columns.ColumnVarBoundsSensors | WTDtools/SensorColumn.py:563-579 | the column variance bounds the variance of every sensor, valid or not, and some sensor attains it |
| Columns.MeanRanks | WTDtools/SensorColumn.py:589-598 | one entry per board, each that board's `get_mean` |
| Columns.GetMean | WTDtools/SensorColumn.py:584-600 | the board reported is numbered from 1 to 9 |
| Columns.GetMeanIsLargest | WTDtools/SensorColumn.py:584-600 | the reported mean is the named board's `get_mean`, no board's is larger, and it is the first board to reach it |
| Columns.ColumnMeanBoundsSensors | WTDtools/SensorColumn.py:584-600 | the column mean bounds the mean of every sensor, valid or not, and some sensor attains it |
| Columns.FanoRanks | WTDtools/SensorColumn.py:610-619 | one entry per board, each that board's `get_fano` |
| Columns.GetFano | WTDtools/SensorColumn.py:605-621 | the board reported is numbered from 1 to 9 |
| Columns.GetFanoIsLargest | WTDtools/SensorColumn.py:605-621 | the reported Fano factor is the named board's `get_fano`, no board's is larger, and it is the first board to reach it |
| Selection.GasesKeyed | WTDtools/utils.py:8-19 | the gas table is keyed by exactly 1 .. 11 |
| Selection.LocsKeyed | WTDtools/utils.py:21-35 | both location tables are keyed by exactly 1 .. 6 |
| Selection.SettingsKeyed | WTDtools/utils.py:37-52 | the voltage table is keyed by 1 .. 5 and both fan-speed tables by 1 .. 3 |
| Selection.NewDirectory | WTDtools/utils.py:55-75 | the directory selector is created exactly when the data location exists; it keeps the flags it was given and caches in `<location>/.HDFcache` exactly when caching is asked for |
| Selection.NewZip | WTDtools/utils.py:238-261 | the archive selector is created exactly when the archive exists; it keeps the flags and caches beside the archive in `<name>_HDFcache` exactly when caching is asked for |
| Selection.NewHdf | WTDtools/utils.py:183-209 | the HDF selector reads the given store, keeps the clean-up flags, and never caches whatever it is asked |
| Selection.SelectorDefaults | WTDtools/utils.py:55-61 | with default arguments the directory and zip selectors drop duplicates, fill gaps and resample without caching or printing, and the HDF selector does none of these |
| Selection.Least | WTDtools/utils.py:104-112 | `min` of a non-empty list is one of its entries and no entry is smaller |
| Selection.Most | WTDtools/utils.py:104-112 | `max` of a non-empty list is one of its entries and no entry is larger |
| Selection.Admit | WTDtools/utils.py:104-114 | an empty list fails in `min`; otherwise the check passes exactly when the least entry is positive and the largest is a key, and hands the list on unchanged |
| Selection.Range | WTDtools/utils.py:112 | `range(lo, hi)` holds exactly the integers from `lo` up to but excluding `hi` |
| Selection.AdmitWithin | WTDtools/utils.py:104-114 | for a table keyed `1 .. n`, testing the two ends accepts exactly the non-empty lists whose every entry lies in `1 .. n` |
| Selection.LastPart | WTDtools/utils.py:272 | `split("/")[-1]` is the part of the path after its last slash |
| Selection.ZipEntries | WTDtools/utils.py:270-272 | the listed names contain no slash and are exactly the last parts of the archive entries that start with the column directory and are longer than it |
| Selection.ZipDirectoryEntry | WTDtools/utils.py:270-272 | the archive's entry for the column directory itself is listed, as an empty name |
| Selection.ColFiles | WTDtools/utils.py:166-173 | the directory selector lists `<gas>/<location>` under the data location, and finds nothing exactly when that directory is absent; the archive selector lists `WTD_upload/<gas>/<location>`; either way the files are the listing's, sorted |
| Selection.Matching | WTDtools/utils.py:136 | the filter keeps every file ending with the suffix as often as it occurs and drops every other |
| Selection.MatchingSorted | WTDtools/utils.py:136 | filtering a sorted listing leaves it sorted |
| Selection.Numbered | WTDtools/utils.py:145-147 | each trial kept is a requested number, names the file at that position (from 1) of the matching files, and trials come in increasing order |
| Selection.NumberedComplete | WTDtools/utils.py:145-147 | every requested trial number that has a matching file is kept |
| Selection.FileLocator | WTDtools/utils.py:148-150 | the locator is the selector's prefix, its location and the file, joined by `/` |
| Selection.FileRequests | WTDtools/utils.py:131-158 | one voltage and fan speed fail exactly when a matching file's time stamp does not parse; otherwise every request is a requested trial of a matching file with its key, in increasing trial order |
| Selection.MatchingParses | WTDtools/utils.py:136-142 | the time stamps of the filtered files all parse exactly when those of every file with the suffix do |
| Selection.FileTrials | WTDtools/utils.py:144-158 | every request names a requested trial of a matching file, in increasing trial order |
| Selection.FileRequestsComplete | WTDtools/utils.py:145-158 | every requested trial number that has a matching file yields a request |
| Selection.FileRequestsSound | WTDtools/utils.py:131-158 | every request of one voltage and fan speed was asked for: its key comes from the requested values and its locator points into the data location |
| Selection.SpeedRequests | WTDtools/utils.py:130-158 | the loop over fan speeds fails exactly when some speed's matching files do not all parse |
| Selection.ColumnRequests | WTDtools/utils.py:123-158 | a column whose directory cannot be listed adds nothing; otherwise the loops over voltages and fan speeds fail exactly when some matching time stamp does not parse |
| Selection.GasRequests | WTDtools/utils.py:122-158 | the loop over locations fails exactly when some location's matching time stamps do not all parse |
| Selection.ListedData | WTDtools/utils.py:119-162 | the requests of the directory and archive selectors' `_get_data` (the `SensorColumn` calls are `Construction.BuildColumns`): they fail only on a bad time stamp, and exactly when one of the requested columns has one |
| Selection.SpeedRequestsSound | WTDtools/utils.py:130-158 | every request of one voltage was asked for |
| Selection.ColumnRequestsSound | WTDtools/utils.py:123-158 | every request of one column was asked for |
| Selection.GasRequestsSound | WTDtools/utils.py:122-158 | every request of one gas was asked for |
| Selection.ListedDataSound | WTDtools/utils.py:119-162 | every request of a successful selection was asked for: gas, location, voltage, fan speed and trial come from the requested values, the arguments are the selector's, and the locator points into the data location |
| Selection.FileRequestsHas | WTDtools/utils.py:145-158 | the request for every requested trial of a matching file is among one suffix's requests |
| Selection.SpeedRequestsHas | WTDtools/utils.py:130-158 | the request for every requested trial of every fan speed's matching files is among one voltage's requests |
| Selection.ColumnRequestsHas | WTDtools/utils.py:123-158 | the request for every requested trial of every voltage and fan speed is among one listed column's requests |
| Selection.GasRequestsHas | WTDtools/utils.py:122-158 | the request for every requested trial of every listed location is among one gas's requests |
| Selection.ListedDataComplete | WTDtools/utils.py:119-162 | nothing is lost: every requested trial of every listed column and every requested voltage and fan speed is among a successful selection's requests |
| Selection.HdfSpeeds | WTDtools/utils.py:218-229 | one request per fan speed and trial, the one for speed `b` and trial `c` at position `b * |ts| + c` |
| Selection.HdfVoltages | WTDtools/utils.py:217-229 | one request per voltage, fan speed and trial |
| Selection.HdfLocations | WTDtools/utils.py:216-229 | one request per location, voltage, fan speed and trial |
| Selection.HdfData | WTDtools/utils.py:213-230 | the HDF selector asks for one column per gas, location, voltage, fan speed and trial, without looking at the store |
| Selection.HdfVoltagesAt | WTDtools/utils.py:217-229 | the request for voltage `a`, fan speed `b` and trial `c` sits at its loop-order position |
| Selection.HdfLocationsAt | WTDtools/utils.py:216-229 | the request for location `j`, voltage `a`, fan speed `b` and trial `c` sits at its loop-order position |
| Selection.HdfDataAt | WTDtools/utils.py:213-230 | the request for every combination sits at its loop-order position and reads the store itself |
| Selection.ValidGrid | WTDtools/utils.py:104-135 | lists that pass the assertions only look up keys the tables have |
| Selection.AdmitAll | WTDtools/utils.py:104-114 | the five assertions pass exactly when every list is non-empty and within its table's keys, trials within 1 .. 20 |
| Selection.RangeList | WTDtools/utils.py:77-78 | `list(range(lo, hi))` counts up by one from `lo` and has `hi - lo` entries |
| Selection.Select | WTDtools/utils.py:77-117 | rejected arguments are an empty-list or assertion error; accepted ones make the HDF selector ask for every combination and the other selectors for the listed files |
| Construction.BuildColumns | WTDtools/utils.py:150-158 | one column per request, in order, each finished with its request's key whenever the constructor finishes every column; when no constructor call writes to the disk, it succeeds exactly when every request's column builds from the given disk, and column k is the one built for request k |
| Construction.SelectColumns | WTDtools/utils.py:77-117 | `select` fails with the argument or time-stamp error of the requests, and otherwise returns one finished column per request, each carrying that request's key, or the first constructor error |
| Construction.UncachedColumns | WTDtools/utils.py:221-229 | when no request asks for the cache, as for the HDF selector, the selection succeeds exactly when every request's column builds from the given disk, column k is request k's, and the disk is unchanged |
| Construction.ConstructFinishes | WTDtools/utils.py:150-158 | every column the `SensorColumn` call returns for a request is finished and carries the request's key |
| Selection.SelectDefaultsHdf | WTDtools/utils.py:77-79 | with the default arguments the HDF selector asks for 11 x 6 x 5 x 3 x 20 = 19800 columns |
| Common.Collect | WTDtools/SensorColumn.py:77-147 | building in order succeeds exactly when every step does, keeps every result in place, and otherwise reports the error of the first step that fails |
| Common.Gather | WTDtools/utils.py:121-162 | appending each step's results succeeds exactly when every step does and yields their concatenation; otherwise the first failure decides the error |
| Common.ConcatUniform | WTDtools/utils.py:215-229 | nesting loops of equal length puts element `j` of block `i` at position `i * n + j` |
| Common.ConcatAt | WTDtools/utils.py:215-229 | the same position law, proved one block at a time |
| SeqMath.Max | WTDtools/SensorBoard.py:202-217 | the channel maximum is one of the readings and no reading exceeds it |
| SeqMath.Min | WTDtools/SensorBoard.py:202-217 | the channel minimum is one of the readings and no reading is below it |
| SeqMath.FirstIndex | WTDtools/SensorBoard.py:136-137 | `list.index(x)` finds `x` and nothing earlier equals it |
| SeqMath.MeanBounds | WTDtools/Sensor.py:31 | a channel's mean lies between its minimum and maximum |
| SeqMath.SampleVar | WTDtools/Sensor.py:32 | the sample variance is non-negative and zero for a constant channel |
| SeqMath.RemoveAt | WTDtools/SensorBoard.py:138-139 | `del xs[i]` shortens the list by one, keeps the entries before `i` and shifts the later ones down |
| SeqMath.FirstMax | WTDtools/SensorBoard.py:262-264 | `(xs.index(max(xs)) + 1, max(xs))` names, from 1, a position holding the largest value, with every earlier value smaller |
| SeqMath.FirstMin | WTDtools/SensorBoard.py:273-275 | `(xs.index(min(xs)) + 1, min(xs))` names, from 1, a position holding the smallest value, with every earlier value larger |
| SeqMath.Unit | WTDtools/Sensor.py:68-72 | scaling back a normalised reading gives the reading |
| SeqMath.UnitFacts | WTDtools/Sensor.py:68-72 | the low end maps to 0, the high end to 1, and readings in between into `[0, 1]` |
| SeqMath.Normalize | WTDtools/SensorBoard.py:150-154 | normalisation keeps the length, can be undone reading by reading, maps the ends to 0 and 1 and the range between into `[0, 1]` |
| SeqMath.NormalizeMonotone | WTDtools/SensorBoard.py:150-154 | normalisation with a positive range keeps the order of the readings |
| Strings.FindFrom | WTDtools/SensorColumn.py:235 | the search returns the first occurrence of the separator at or after `k`, or none when there is none |
| Strings.Split | WTDtools/SensorColumn.py:235 | `str.split(sep)` yields at least one part, no part holds the separator, and joining the parts gives the text back |
| Strings.SplitAtFirst | WTDtools/SensorColumn.py:235 | text holding no separator before the first one splits into that text followed by the split of the rest |
| Strings.SplitWithout | WTDtools/SensorColumn.py:235 | text without the separator splits into itself alone |
| Strings.StripLeading | WTDtools/SensorColumn.py:242-243 | stripping the leading slashes removes only slashes and leaves text that does not start with one |
| Strings.NatRoundTrip | WTDtools/SensorColumn.py:308 | a natural number written out in decimal reads back as itself |
| Strings.IntRoundTrip | WTDtools/SensorColumn.py:308 | `str(i)` reads back as `i`, so different trial numbers give different keys |
| Strings.PathJoin | WTDtools/utils.py:170-171 | `os.path.join` ends with its second part, returns it alone when it is absolute and otherwise starts with the first |
| Strings.BaseName | WTDtools/utils.py:259 | the base name holds no slash and ends the path |
| Strings.LastSplitIsBaseName | WTDtools/utils.py:272 | the last part of `split("/")` is the base name |
| Strings.DirName | WTDtools/utils.py:258 | the directory name is a prefix of the path |
| Sorting.Insert | WTDtools/utils.py:172 | inserting into a sorted list keeps it sorted and adds exactly the one element |
| Sorting.Sort | WTDtools/utils.py:172 | `files.sort()` returns a sorted permutation of the listing |
| Sorting.SortedPermutationUnique | WTDtools/utils.py:172 | two sorted permutations of the same listing are equal, so the sorted listing does not depend on the order the file system returns |
| Sorting.BelowTotal | WTDtools/utils.py:172 | Python's string order relates any two names |
| Sorting.BelowTransitive | WTDtools/utils.py:172 | Python's string order is transitive |
| Sorting.BelowAntisymmetric | WTDtools/utils.py:172 | two names each at most the other are equal |
| Strings.BaseNameUnique | WTDtools/utils.py:259 | the base name is the one suffix without a slash that starts the path or follows a slash |
| Strings.DropPrefix | WTDtools/SensorColumn.py:190 | slicing off a prefix's length leaves exactly what follows the prefix |

## Left out

- Parsing, archive reads, HDF store I/O, `os.path.exists` and `os.listdir` are inputs: a parse function, a `Disk`, a `Listing` and a presence flag. What pandas, zipfile and PyTables do inside is outside the model.
- The Butterworth design (`scipy.signal.butter`) and `filtfilt`, with the getters `get_filtered` built on it, are library numerics. A design is kept as an opaque `Butter(order, cutoff, btype)` value.
- `fill_gaps` is spline numerics and is switched off in the constructor (`SensorColumn.py:71-73`). Only the gap search it relies on (`find_gaps`) is modelled.
- `resample` and the reindexing after `drop_duplicates` are modelled on the time index only. The channel values they produce come from the library functions of `Columns.Library`. Of their refusals, the one `resample` makes on stamps that do not strictly increase is modelled (`NotAscending`).
- Columns.Clean: the spline of `resample` also needs more stamps than its degree (one, for `k=1`). How scipy treats a loaded index of a single stamp is left to scipy: the model lets such an index through to the boards.
- Timestamps and readings are reals, so float rounding is not modelled. This covers `np.arange` possibly producing one point more or less near 260000.
- NaN is not modelled. Channels with fewer than two samples are excluded by `Boards.Channels` and `Sensors.New`, and refused by `Columns.Readout`. `Sensors.Fano` and `Boards.GetFano` require non-zero means, and `Sensors.Normal` requires distinct extrema: where pandas would give NaN or infinity, the model says nothing.
- An exception raised part way through a setter leaves earlier assignments in place in Python. An example is the column's `_Baseline` being stored before a board's assertion fails. The model returns only the error, not that half-updated object.
- Columns.SetBaseline: the `isinstance(baseline, (tuple, list))` assertion is not modelled, because a baseline is always a sequence here.
- Columns.New: the model assumes that `drop_duplicates` completes. In the source it raises whenever a time stamp repeats. With `verbose` set, the message at SensorColumn.py:325 (and the one at :344) reads the undefined `self.TimeStamp`, an AttributeError. In every case, SensorColumn.py:340 assigns to pandas' read-only `Index.is_unique`, which is an AttributeError as well. So with `dropDuplicates` set and a repeated stamp, the source raises where `Columns.New` and `Columns.Assemble` may succeed. Without repeats, or with `dropDuplicates` off, the iff follows the source; the resample refusal is part of it.
- Columns.Clean: for the same reason, with a repeated time stamp and `dropDuplicates` set, the source raises where the model returns the table without the earlier repeats. The model states what `drop_duplicates` is for: `Timestamps.DropDuplicates` and its lemmas.
- Boards.SetData: the board setters, and `Columns.SetData` with them, are modelled for channels that are pandas Series, which is what the constructor hands the boards. `Sensor.__init__` calls `.mean()` and `.var()` on whatever channel object it is given (Sensor.py:31-32), and the setters accept lists and numpy arrays (SensorBoard.py:167, SensorColumn.py:488). A numpy array channel gets numpy's population variance (`ddof=0`), not the sample variance `Boards.Holds` states. A plain list channel raises AttributeError where the model builds the board. The "fails exactly" statements of `Boards.SetData`, `Boards.SetBaseline` and `Columns.SetData` hold for Series channels.
- Selection.ZipEntries: the contract states which names are listed, not their order or multiplicity. `ColFiles` sorts the listing and states it as a permutation of these names.
- Construction.SelectColumns: the source builds each group's columns right after parsing that group's time stamps. When a column of an earlier group fails to build and a later group's time stamp does not parse, the source raises the constructor's error and the model the `BadTimestamp` error. Which selections fail, and every successful result, are the same.
- Selection.Select: when several arguments are bad, the error is that of the first failing assertion, in the order gas, location, voltage, fan speed, trial. The contract only says that the result is an empty-list or assertion error.
- The `Warning` the column constructor raises when the cache is requested without a location is modelled as the error `NoCacheLocation`, since raising it stops construction.
- `__str__`, `__call__`, `get_all`, `iter_boards`/`iter_sensors` and numpy transposes only present data.
- Verbose printing is not modelled. Most of it only presents data. The two messages of `find_duplicates` and `drop_duplicates` at SensorColumn.py:325 and :344 are an exception: they read `self.TimeStamp`, which the package defines nowhere (see the `Columns.New` line).
- The channel getters (`get_mfc1_read` and the like) are lookups in the table's channel map.
- `_save` and `copy_HDFcache` are store maintenance outside the core.
- The `from_HDFcache` argument of `select` is accepted and never used by the source, so it is not a parameter.
- The `strftime` reformatting in `_get_data` has no effect on the result.
