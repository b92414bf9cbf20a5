/** The columns `select` returns (WTDtools/utils.py): the `SensorColumn`
    constructor applied to each request the selection makes, in order.
 */
module Construction {
  import opened Common
  import opened Base
  import Ingest
  import Columns
  import opened Selection

  /** The columns `_get_data` appends, in order, and the disk after their
      cache saves. */
  datatype Selected = Selected(columns: seq<Columns.Column>, disk: Ingest.Disk)

  /** A finished column for experiment key `m`: `_init` set and nine
      built boards. */
  predicate Constructed(c: Columns.Column, m: Meta) {
    c.init && Columns.Assembled(c) && c.base.meta == m
  }

  /** None of the constructor calls for these requests writes to the disk,
      as happens when no request asks for the HDF cache. */
  ghost predicate KeepsDisk(qs: seq<Request>, build: (Request, Ingest.Disk) -> Result<Columns.Built>) {
    forall k, d :: 0 <= k < |qs| && build(qs[k], d).Ok? ==> build(qs[k], d).value.disk == d
  }

  /** Every column the constructor returns for these requests is finished
      and carries its request's key. */
  ghost predicate Finishes(qs: seq<Request>, build: (Request, Ingest.Disk) -> Result<Columns.Built>) {
    forall k, d :: 0 <= k < |qs| && build(qs[k], d).Ok? ==> Constructed(build(qs[k], d).value.column, qs[k].meta)
  }

  /** `cols.append(SensorColumn(...))` for each request in turn, where
      `build` is the constructor: a column's cache save is visible to the
      columns after it, and the first constructor error propagates. */
  function BuildColumns(qs: seq<Request>, disk: Ingest.Disk, build: (Request, Ingest.Disk) -> Result<Columns.Built>):
    (r: Result<Selected>)
    ensures r.Ok? ==> |r.value.columns| == |qs|
    ensures Finishes(qs, build) && r.Ok? ==> forall k :: 0 <= k < |qs| ==> Constructed(r.value.columns[k], qs[k].meta)
    ensures KeepsDisk(qs, build) ==> (r.Ok? <==> forall k :: 0 <= k < |qs| ==> build(qs[k], disk).Ok?)
    ensures KeepsDisk(qs, build) && r.Ok? ==>
              r.value.disk == disk
              && forall k :: 0 <= k < |qs| ==> r.value.columns[k] == build(qs[k], disk).value.column
  {
    if |qs| == 0 then Ok(Selected([], disk))
    else
      var first :- build(qs[0], disk);
      assert forall k :: 1 <= k < |qs| ==> qs[1..][k - 1] == qs[k];
      assert KeepsDisk(qs, build) ==> first.disk == disk && KeepsDisk(qs[1..], build);
      var rest :- BuildColumns(qs[1..], first.disk, build);
      var columns := [first.column] + rest.columns;
      assert forall k :: 1 <= k < |qs| ==> columns[k] == rest.columns[k - 1];
      assert Finishes(qs, build) ==> Finishes(qs[1..], build) && Constructed(first.column, qs[0].meta);
      Ok(Selected(columns, rest.disk))
  }

  /** `SensorColumn(data_location=q.locator, ...)` with the key of `q`. */
  function Construct(lib: Columns.Library): (r: (Request, Ingest.Disk) -> Result<Columns.Built>)
  {
    (q: Request, d: Ingest.Disk) => Columns.New(q.locator, q.meta, d, lib)
  }

  /** `select(...)` returning the constructed columns: the argument checks
      and the requests of `Select`, then one column per request. */
  function SelectColumns(sel: Selector, fs: Listing, gas: Arg, loc: Arg, voltage: Arg, speed: Arg, trial: Arg,
                         parses: string -> bool, disk: Ingest.Disk, lib: Columns.Library): (r: Result<Selected>)
    ensures Select(sel, fs, gas, loc, voltage, speed, trial, parses).Err? ==>
              r == Err(Select(sel, fs, gas, loc, voltage, speed, trial, parses).error)
    ensures r.Ok? ==> var qs := Select(sel, fs, gas, loc, voltage, speed, trial, parses).value;
              |r.value.columns| == |qs|
              && forall k :: 0 <= k < |qs| ==> Constructed(r.value.columns[k], qs[k].meta)
  {
    var qs :- Select(sel, fs, gas, loc, voltage, speed, trial, parses);
    ConstructFinishes(qs, lib);
    BuildColumns(qs, disk, Construct(lib))
  }

  /** The column constructor finishes every column it returns. */
  lemma ConstructFinishes(qs: seq<Request>, lib: Columns.Library)
    ensures Finishes(qs, Construct(lib))
  {
    forall k, d | 0 <= k < |qs| && Construct(lib)(qs[k], d).Ok?
      ensures Constructed(Construct(lib)(qs[k], d).value.column, qs[k].meta)
    {
      ConstructedAt(qs[k], d, lib);
    }
  }

  lemma ConstructedAt(q: Request, d: Ingest.Disk, lib: Columns.Library)
    requires Construct(lib)(q, d).Ok?
    ensures Constructed(Construct(lib)(q, d).value.column, q.meta)
  {
    Columns.NewFinished(q.locator, q.meta, d, lib);
  }

  /** Without the HDF cache each column is built from the disk as given:
      the selection succeeds exactly when every request's column builds,
      and column `k` is the one built for request `k`. */
  lemma UncachedColumns(qs: seq<Request>, disk: Ingest.Disk, lib: Columns.Library)
    requires forall k :: 0 <= k < |qs| ==> !qs[k].meta.args.useCache
    ensures var r := BuildColumns(qs, disk, Construct(lib));
            (r.Ok? <==> forall k :: 0 <= k < |qs| ==> Columns.New(qs[k].locator, qs[k].meta, disk, lib).Ok?)
            && (r.Ok? ==> r.value.disk == disk && forall k :: 0 <= k < |qs| ==>
                  r.value.columns[k] == Columns.New(qs[k].locator, qs[k].meta, disk, lib).value.column)
  {
    forall k, d | 0 <= k < |qs| && Construct(lib)(qs[k], d).Ok?
      ensures Construct(lib)(qs[k], d).value.disk == d
    {
      assert !qs[k].meta.args.useCache;
    }
    assert KeepsDisk(qs, Construct(lib));
  }
}
