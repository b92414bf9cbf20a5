/** Failure-compatible wrappers shared by every module of the model.

    The modelled program signals failure with Python exceptions; each one that
    the core can raise is named by a constructor of `Error`, and an operation
    that can raise returns a `Result`.
 */
module Common {

  datatype Option<+T> = None | Some(value: T)

  /** The exceptions the modelled code raises, by cause. */
  datatype Error =
    | AssertionFailed    // a failing `assert` or an explicit AssertionError
    | IndexOutOfRange    // IndexError, e.g. `_Time[-1]` on an empty index
    | EmptySequence      // ValueError of `max`/`min` over an empty list
    | MissingKey         // KeyError: absent store key or archive entry
    | MissingFile        // IOError: absent store file or archive
    | DivisionByZero     // ZeroDivisionError
    | MissingAttribute   // AttributeError on a None field
    | AlreadyHasData     // `load_hdf5` refuses to overwrite data
    | NoData             // `save_hdf5` without data
    | NotATable          // a store write of something that is not a table
    | UnknownLocator     // locator with no recognised prefix
    | AmbiguousZipPath   // zip locator that does not split into two parts
    | NoCacheLocation    // cache requested without a location
    | MissingColumns     // parsed table lacks the expected channels
    | TooFewRows         // fewer than two rows: statistics would be NaN
    | BadTimestamp       // ValueError of `time.strptime` on a file name
    | InvalidFilter      // ValueError of `scipy.signal.butter` on its arguments
    | NotSubscriptable   // TypeError of indexing or slicing `None`
    | NotAscending       // ValueError of a reindex or spline on stamps that do not strictly increase

  datatype Result<+T> = Ok(value: T) | Err(error: Error) {

    predicate IsFailure() {
      Err?
    }

    function PropagateFailure<U>(): Result<U>
      requires Err?
    {
      Err(error)
    }

    function Extract(): T
      requires Ok?
    {
      value
    }
  }

  /** The values of a list of attempts made in order, or the error of the
      first one that failed: what a loop or comprehension whose steps may
      raise produces. */
  function Collect<T>(rs: seq<Result<T>>): (r: Result<seq<T>>)
    ensures r.Ok? <==> forall j :: 0 <= j < |rs| ==> rs[j].Ok?
    ensures r.Ok? ==> |r.value| == |rs| && forall j :: 0 <= j < |rs| ==> rs[j] == Ok(r.value[j])
    ensures r.Err? ==> exists j :: 0 <= j < |rs| && rs[j] == Err(r.error) && forall i :: 0 <= i < j ==> rs[i].Ok?
  {
    if forall j :: 0 <= j < |rs| ==> rs[j].Ok? then
      Ok(Values(rs))
    else
      Err(rs[FirstErr(rs, 0)].error)
  }

  /** The values of attempts that all succeeded, in order. */
  function Values<T>(rs: seq<Result<T>>): (r: seq<T>)
    requires forall j :: 0 <= j < |rs| ==> rs[j].Ok?
    ensures |r| == |rs| && forall j :: 0 <= j < |rs| ==> rs[j] == Ok(r[j])
  {
    if |rs| == 0 then [] else [rs[0].value] + Values(rs[1..])
  }

  /** The position of the first failed attempt at or after `k`. */
  function FirstErr<T>(rs: seq<Result<T>>, k: nat): (j: nat)
    requires k <= |rs|
    requires exists j :: k <= j < |rs| && rs[j].Err?
    ensures k <= j < |rs| && rs[j].Err?
    ensures forall i :: k <= i < j ==> rs[i].Ok?
    decreases |rs| - k
  {
    if rs[k].Err? then k else FirstErr(rs, k + 1)
  }

  /** The concatenation of a list of lists, in order. */
  function Concat<T>(xss: seq<seq<T>>): (r: seq<T>)
  {
    if |xss| == 0 then [] else xss[0] + Concat(xss[1..])
  }

  /** The position of element `j` of block `i` when every block has
      length `n`. */
  function Pos(i: int, n: int, j: int): int
  {
    i * n + j
  }

  /** Concatenating lists of one length `n` puts element `j` of list `i`
      at position `Pos(i, n, j)`. */
  lemma ConcatUniform<T>(xss: seq<seq<T>>, n: nat)
    requires forall i :: 0 <= i < |xss| ==> |xss[i]| == n
    ensures |Concat(xss)| == |xss| * n
    ensures forall i, j :: 0 <= i < |xss| && 0 <= j < n ==>
              0 <= Pos(i, n, j) < |Concat(xss)| && Concat(xss)[Pos(i, n, j)] == xss[i][j]
  {
    ConcatLength(xss, n);
    forall i, j | 0 <= i < |xss| && 0 <= j < n
      ensures 0 <= Pos(i, n, j) < |Concat(xss)| && Concat(xss)[Pos(i, n, j)] == xss[i][j]
    {
      ConcatAt(xss, n, i, j);
    }
  }

  lemma {:induction false} ConcatLength<T>(xss: seq<seq<T>>, n: nat)
    requires forall i :: 0 <= i < |xss| ==> |xss[i]| == n
    ensures |Concat(xss)| == |xss| * n
  {
    if |xss| > 0 {
      ConcatLength(xss[1..], n);
      MulStep(|xss|, n);
    }
  }

  /** One position of `ConcatUniform`. */
  lemma {:induction false} ConcatAt<T>(xss: seq<seq<T>>, n: nat, i: int, j: int)
    requires forall i :: 0 <= i < |xss| ==> |xss[i]| == n
    requires 0 <= i < |xss| && 0 <= j < n
    ensures 0 <= Pos(i, n, j) < |Concat(xss)| && Concat(xss)[Pos(i, n, j)] == xss[i][j]
    decreases i
  {
    var rest := xss[1..];
    ConcatLength(xss, n);
    ConcatLength(rest, n);
    assert Concat(xss) == xss[0] + Concat(rest);
    if i == 0 {
      assert Pos(i, n, j) == j;
    } else {
      ConcatAt(rest, n, i - 1, j);
      MulStep(i, n);
      assert Pos(i, n, j) == n + Pos(i - 1, n, j);
      assert rest[i - 1] == xss[i];
    }
  }

  lemma MulStep(i: int, n: nat)
    requires i > 0
    ensures i * n == n + (i - 1) * n && (i - 1) * n >= 0
  {
  }

  /** An element of one of the lists is an element of their concatenation. */
  lemma {:induction false} ConcatHas<T>(xss: seq<seq<T>>, i: int, x: T)
    requires 0 <= i < |xss| && x in xss[i]
    ensures x in Concat(xss)
  {
    if i > 0 {
      ConcatHas(xss[1..], i - 1, x);
    }
  }

  /** Running attempts that each yield a list, in order, and joining their
      lists: the first failure, or every list concatenated. */
  function Gather<T>(rs: seq<Result<seq<T>>>): (r: Result<seq<T>>)
    ensures r.Ok? <==> forall j :: 0 <= j < |rs| ==> rs[j].Ok?
    ensures r.Ok? ==> r.value == Concat(Values(rs))
    ensures r.Err? ==> exists j :: 0 <= j < |rs| && rs[j] == Err(r.error) && forall i :: 0 <= i < j ==> rs[i].Ok?
  {
    var c := Collect(rs);
    if c.Err? then Err(c.error)
    else
      assert c.value == Values(rs);
      Ok(Concat(c.value))
  }

  /** What one attempt yields is part of a successful `Gather`. */
  lemma GatherHas<T>(rs: seq<Result<seq<T>>>, i: int, x: T)
    requires 0 <= i < |rs| && Gather(rs).Ok? && x in rs[i].value
    ensures x in Gather(rs).value
  {
    var xss := Values(rs);
    assert xss[i] == rs[i].value;
    ConcatHas(xss, i, x);
  }

  /** Every element of a successful `Gather` comes from one of the
      attempts. */
  lemma GatherIn<T>(rs: seq<Result<seq<T>>>, x: T) returns (j: nat)
    requires Gather(rs).Ok? && x in Gather(rs).value
    ensures j < |rs| && rs[j].Ok? && x in rs[j].value
  {
    var xss := Values(rs);
    j := ConcatIn(xss, x);
    assert rs[j] == Ok(xss[j]);
  }

  /** Every element of a concatenation comes from one of the lists. */
  lemma {:induction false} ConcatIn<T>(xss: seq<seq<T>>, x: T) returns (i: nat)
    requires x in Concat(xss)
    ensures i < |xss| && x in xss[i]
  {
    if x in xss[0] {
      i := 0;
    } else {
      i := ConcatIn(xss[1..], x);
      i := i + 1;
    }
  }
}
