/** What a batch function sees of the database, and what it hands back to the
    dataloader library: the query either fails, or yields rows, each of which
    either scans into a record or fails to scan. */
module Batch {

  /** An opaque Go `error` value. */
  datatype Error = Error(message: string)

  /** A nullable Go pointer: `None` is `nil`. */
  datatype Option<T> = None | Some(value: T)

  /** `dataloader.Result[T]`: the loader sets exactly one of Data and Error. */
  datatype Result<T> = Ok(data: T) | Err(error: Error)

  /** The outcome of one `rows.Scan` call. */
  datatype RowScan<R> = Scanned(record: R) | ScanFailed(err: Error)

  /** The outcome of `Query()` followed by the `rows.Next()` loop. */
  datatype Outcome<R> = QueryFailed(err: Error) | Rows(rows: seq<RowScan<R>>)

  ghost predicate AllScanned<R>(rows: seq<RowScan<R>>) {
    forall j :: 0 <= j < |rows| ==> rows[j].Scanned?
  }

  /** Row `j` is the first row whose scan failed. */
  ghost predicate FirstFailureAt<R>(rows: seq<RowScan<R>>, j: int) {
    && 0 <= j < |rows|
    && rows[j].ScanFailed?
    && forall k :: 0 <= k < j ==> rows[k].Scanned?
  }

  /** The batch fails with `e`: either the query itself failed with `e`, or
      the scan loop stopped at a row whose scan failed with `e`. */
  ghost predicate FailsWith<R>(outcome: Outcome<R>, e: Error) {
    || outcome == QueryFailed(e)
    || (outcome.Rows? && exists j :: FirstFailureAt(outcome.rows, j) && outcome.rows[j].err == e)
  }

  /** The scan loop: stops at the first row that fails to scan and reports
      that row's error; otherwise yields every record in row order. */
  function ScanRows<R>(rows: seq<RowScan<R>>): (r: Result<seq<R>>)
    ensures r.Ok? <==> AllScanned(rows)
    ensures r.Ok? ==> |r.data| == |rows| && forall j :: 0 <= j < |rows| ==> r.data[j] == rows[j].record
    decreases |rows|
  {
    if |rows| == 0 then Ok([])
    else match rows[0]
      case ScanFailed(e) => Err(e)
      case Scanned(x) =>
        match ScanRows(rows[1..])
        case Err(e) => Err(e)
        case Ok(xs) => Ok([x] + xs)
  }

  /** When row `j` is the first to fail, the scan loop reports its error. */
  lemma {:induction false} ScanRowsFirstFailure<R>(rows: seq<RowScan<R>>, j: int)
    requires FirstFailureAt(rows, j)
    ensures ScanRows(rows) == Err(rows[j].err)
    decreases j
  {
    if j > 0 {
      assert rows[0].Scanned?;
      ScanRowsFirstFailure(rows[1..], j - 1);
    }
  }

  /** Everything the batch function learns from the database: the query
      error, the first scan error, or all scanned records in row order. */
  function Fetch<R>(outcome: Outcome<R>): (r: Result<seq<R>>)
    ensures r.Ok? ==> outcome.Rows? && AllScanned(outcome.rows) && |r.data| == |outcome.rows|
  {
    match outcome
    case QueryFailed(e) => Err(e)
    case Rows(rows) => ScanRows(rows)
  }

  /** A batch fails exactly in the cases `FailsWith` names, and then with that error. */
  lemma FetchFails<R>(outcome: Outcome<R>, e: Error)
    ensures Fetch(outcome) == Err(e) <==> FailsWith(outcome, e)
  {
    if outcome.Rows? {
      var rows := outcome.rows;
      if j :| FirstFailureAt(rows, j) && rows[j].err == e {
        ScanRowsFirstFailure(rows, j);
      }
      if ScanRows(rows) == Err(e) {
        var j := FirstFailure(rows);
        ScanRowsFirstFailure(rows, j);
      }
    }
  }

  /** Index of the first row that failed to scan, when some row failed. */
  function FirstFailure<R>(rows: seq<RowScan<R>>): (j: nat)
    requires !AllScanned(rows)
    ensures FirstFailureAt(rows, j)
    decreases |rows|
  {
    if rows[0].ScanFailed? then 0 else 1 + FirstFailure(rows[1..])
  }
}
