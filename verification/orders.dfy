/** Order intake: the submission filter, stamping and projecting a batch onto the order-log
    columns, and the append-only order log with its wholesale clear. */
module Orders {
  import opened Wrappers
  import opened Cells
  import opened Tables
  import opened Catalog

  const Branch := "Branch"
  const OrderTime := "Order Time"

  /** The columns of every order-log row, in order. */
  const OrderColumns: seq<string> := [Branch, OrderTime, ProductName, Expiry, OrderQty]

  /** The order log; `None` when the log file does not exist. */
  type Log = Option<Table>

  /** The row's Order Qty is a number greater than 0 (a missing value is not). */
  predicate HasPositiveQty(row: Row) {
    OrderQty in row && row[OrderQty].Int? && row[OrderQty].n > 0
  }

  /** The rows a submission sends: those with a positive Order Qty, in grid order, and no others. */
  function PendingOrders(t: Table): (r: Table)
    ensures r.columns == t.columns
    ensures forall row :: row in r.rows <==> row in t.rows && HasPositiveQty(row)
    ensures forall row {:trigger multiset(r.rows)[row]} :: multiset(r.rows)[row] == if HasPositiveQty(row) then multiset(t.rows)[row] else 0
    ensures IsSubsequence(r.rows, t.rows)
    ensures WellFormed(t) ==> WellFormed(r)
  {
    FilterIsSubsequence(t.rows, HasPositiveQty);
    FilterWellFormed(t, HasPositiveQty);
    Table(t.columns, Filter(t.rows, HasPositiveQty))
  }

  /** The cell of column `c`, or the blank filler when the frame has no such column. */
  function CellOrBlank(columns: seq<string>, row: Row, c: string): Value
    requires row.Keys == ColumnSet(columns)
  {
    if c in columns then row[c] else Blank
  }

  /** One log row: the branch and time stamps, then the product name, expiry and order
      quantity of the submitted row. */
  function OrderRow(columns: seq<string>, branch: string, time: string, row: Row): Row
    requires row.Keys == ColumnSet(columns)
  {
    map[Branch := Str(branch), OrderTime := Str(time),
        ProductName := CellOrBlank(columns, row, ProductName),
        Expiry := CellOrBlank(columns, row, Expiry),
        OrderQty := CellOrBlank(columns, row, OrderQty)]
  }

  /** The log columns are distinct and name exactly the five log fields. */
  lemma OrderColumnsFacts()
    ensures Distinct(OrderColumns)
    ensures ColumnSet(OrderColumns) == {Branch, OrderTime, ProductName, Expiry, OrderQty}
  {
  }

  /** The frame a submission writes: exactly the five log columns, one row per submitted
      row in the same order, every row carrying the same branch and the same time, and
      each remaining column copied from the submitted row or blank when the batch lacks it. */
  function SaveOrder(branch: string, time: string, batch: Table): (r: Table)
    requires WellFormed(batch)
    ensures WellFormed(r)
    ensures r.columns == OrderColumns
    ensures |r.rows| == |batch.rows|
    ensures forall k :: 0 <= k < |r.rows| ==> r.rows[k][Branch] == Str(branch) && r.rows[k][OrderTime] == Str(time)
    ensures forall k :: 0 <= k < |r.rows| ==>
              r.rows[k][ProductName] == (if ProductName in batch.columns then batch.rows[k][ProductName] else Blank)
    ensures forall k :: 0 <= k < |r.rows| ==>
              r.rows[k][Expiry] == (if Expiry in batch.columns then batch.rows[k][Expiry] else Blank)
    ensures forall k :: 0 <= k < |r.rows| ==>
              r.rows[k][OrderQty] == (if OrderQty in batch.columns then batch.rows[k][OrderQty] else Blank)
  {
    var rows := seq(|batch.rows|, k requires 0 <= k < |batch.rows| =>
                      OrderRow(batch.columns, branch, time, batch.rows[k]));
    OrderColumnsFacts();
    Table(OrderColumns, rows)
  }

  /** A log that exists carries the order-log header. */
  predicate HasOrderHeader(log: Log) {
    log.Some? ==> log.value.columns == OrderColumns
  }

  /** Writing a batch to the log: a missing log becomes exactly the batch (with its header);
      an existing log keeps every old row, unchanged and first, and gains the batch after them
      in batch order. The existing header is the order-log header because only this
      operation writes the file. */
  function Append(log: Log, batch: Table): (r: Log)
    requires batch.columns == OrderColumns
    requires HasOrderHeader(log)
    ensures r.Some? && r.value.columns == OrderColumns
    ensures log.None? ==> r.value == batch
    ensures log.Some? ==>
              && |r.value.rows| == |log.value.rows| + |batch.rows|
              && r.value.rows[..|log.value.rows|] == log.value.rows
              && r.value.rows[|log.value.rows|..] == batch.rows
  {
    match log
    case None => Some(batch)
    case Some(t) => Some(Table(t.columns, t.rows + batch.rows))
  }

  /** Clearing the history removes the log file; the admin can only do so while it exists. */
  function Clear(log: Log): (r: Log)
    requires log.Some?
    ensures r.None?
  {
    None
  }

  /** After a clear, the next append recreates the log holding only the new batch. */
  lemma ClearThenAppend(log: Log, batch: Table)
    requires log.Some?
    requires batch.columns == OrderColumns
    ensures Append(Clear(log), batch) == Some(batch)
  {
  }

  /** Two appends keep the history in arrival order. */
  lemma AppendInOrder(log: Table, a: Table, b: Table)
    requires log.columns == OrderColumns && a.columns == OrderColumns && b.columns == OrderColumns
    ensures Append(Append(Some(log), a), b) == Some(Table(OrderColumns, log.rows + a.rows + b.rows))
  {
    assert log.rows + a.rows + b.rows == (log.rows + a.rows) + b.rows;
  }

  /** What the branch is told after pressing submit. */
  datatype Feedback = Saved(count: nat) | NoQuantities

  datatype Outcome = Outcome(log: Log, feedback: Feedback)

  /** Submitting the edited grid: when no row has a positive Order Qty, nothing is written
      and the branch is warned; otherwise those rows are stamped and appended to the log. */
  function Submit(log: Log, branch: string, time: string, edited: Table): (r: Outcome)
    requires WellFormed(edited)
    requires HasOrderHeader(log)
    ensures r.feedback == NoQuantities <==> forall row :: row in edited.rows ==> !HasPositiveQty(row)
    ensures r.feedback == NoQuantities ==> r.log == log
    ensures r.feedback.Saved? ==> r.feedback.count == |PendingOrders(edited).rows| > 0
    ensures HasOrderHeader(r.log)
  {
    var orders := PendingOrders(edited);
    FilterEmptyIff(edited.rows, HasPositiveQty);
    if orders.rows == [] then Outcome(log, NoQuantities)
    else Outcome(Append(log, SaveOrder(branch, time, orders)), Saved(|orders.rows|))
  }

  /** The order log's standing promise: when it exists it has the five log columns, every
      row has a cell in each, and every recorded quantity is a positive number. */
  predicate LogInvariant(log: Log) {
    log.Some? ==>
      && log.value.columns == OrderColumns
      && WellFormed(log.value)
      && forall i :: 0 <= i < |log.value.rows| ==> HasPositiveQty(log.value.rows[i])
  }

  /** A submitted batch on its own satisfies the log invariant. */
  lemma SavedBatchKeepsInvariant(branch: string, time: string, edited: Table)
    requires WellFormed(edited)
    ensures LogInvariant(Some(SaveOrder(branch, time, PendingOrders(edited))))
  {
    var orders := PendingOrders(edited);
    var batch := SaveOrder(branch, time, orders);
    if orders.rows != [] {
      assert OrderQty in edited.columns by {
        var row := orders.rows[0];
        assert row in orders.rows;
        var i :| 0 <= i < |edited.rows| && edited.rows[i] == row;
      }
    }
    forall k | 0 <= k < |batch.rows| ensures HasPositiveQty(batch.rows[k]) {
      assert orders.rows[k] in orders.rows;
    }
  }

  /** Appending a batch that satisfies the log invariant keeps it. */
  lemma AppendKeepsInvariant(log: Log, batch: Table)
    requires LogInvariant(log) && LogInvariant(Some(batch))
    ensures LogInvariant(Append(log, batch))
  {
    if log.Some? {
      var r := Append(log, batch).value;
      var n := |log.value.rows|;
      forall i | 0 <= i < |r.rows| ensures HasPositiveQty(r.rows[i]) && r.rows[i].Keys == ColumnSet(OrderColumns) {
        if i < n {
          assert r.rows[i] == r.rows[..n][i];
        } else {
          assert r.rows[i] == r.rows[n..][i - n];
        }
      }
    }
  }

  /** Submissions keep the log invariant: zero and missing quantities never reach the log. */
  lemma SubmitPreservesInvariant(log: Log, branch: string, time: string, edited: Table)
    requires WellFormed(edited)
    requires LogInvariant(log)
    ensures LogInvariant(Submit(log, branch, time, edited).log)
  {
    SavedBatchKeepsInvariant(branch, time, edited);
    AppendKeepsInvariant(log, SaveOrder(branch, time, PendingOrders(edited)));
  }

  /** The number of rows in a log; a missing log has none. */
  function LogLength(log: Log): nat {
    if log.Some? then |log.value.rows| else 0
  }

  /** Appending puts batch row k at position LogLength(log) + k of the log. */
  lemma AppendPlacesBatch(log: Log, batch: Table)
    requires batch.columns == OrderColumns
    requires HasOrderHeader(log)
    ensures |Append(log, batch).value.rows| == LogLength(log) + |batch.rows|
    ensures forall k :: 0 <= k < |batch.rows| ==> Append(log, batch).value.rows[LogLength(log) + k] == batch.rows[k]
  {
    var rows := Append(log, batch).value.rows;
    var n := LogLength(log);
    forall k | 0 <= k < |batch.rows| ensures rows[n + k] == batch.rows[k] {
      if log.Some? {
        assert rows[n + k] == rows[n..][k];
      }
    }
  }

  /** Rows with a positive Order Qty only come from a grid that has that column. */
  lemma PendingRowsHaveQtyColumn(edited: Table)
    requires WellFormed(edited)
    ensures PendingOrders(edited).rows != [] ==> OrderQty in edited.columns
  {
    var orders := PendingOrders(edited);
    if orders.rows != [] {
      var row := orders.rows[0];
      assert row in orders.rows;
      var i :| 0 <= i < |edited.rows| && edited.rows[i] == row;
    }
  }

  /** A saved submission's log is the old log with the stamped positive rows appended. */
  lemma SavedSubmissionIsAppend(log: Log, branch: string, time: string, edited: Table)
    requires WellFormed(edited)
    requires HasOrderHeader(log)
    ensures Submit(log, branch, time, edited).feedback.Saved? ==>
              Submit(log, branch, time, edited).log == Append(log, SaveOrder(branch, time, PendingOrders(edited)))
  {
  }

  /** Log row `row` records submitted row `src`: the branch, the time and the same Order Qty. */
  predicate RecordsOrder(row: Row, branch: string, time: string, src: Row) {
    && Branch in row && row[Branch] == Str(branch)
    && OrderTime in row && row[OrderTime] == Str(time)
    && OrderQty in row && OrderQty in src && row[OrderQty] == src[OrderQty]
  }

  /** Appending a stamped batch puts row k of the batch, with the branch, the time and its
      Order Qty, right after the old rows. */
  lemma AppendStampsBatch(log: Log, branch: string, time: string, orders: Table)
    requires WellFormed(orders) && OrderQty in orders.columns
    requires HasOrderHeader(log)
    ensures var rows := Append(log, SaveOrder(branch, time, orders)).value.rows;
            && (log.Some? ==> rows[..LogLength(log)] == log.value.rows)
            && |rows| == LogLength(log) + |orders.rows|
            && forall k :: 0 <= k < |orders.rows| ==> RecordsOrder(rows[LogLength(log) + k], branch, time, orders.rows[k])
  {
    AppendPlacesBatch(log, SaveOrder(branch, time, orders));
  }

  /** A saved submission adds exactly its positive rows to the end of the log, in grid
      order, each stamped with the submitting branch and the one submission time. */
  lemma SubmitAppendsPendingRows(log: Log, branch: string, time: string, edited: Table)
    requires WellFormed(edited)
    requires HasOrderHeader(log)
    ensures var r := Submit(log, branch, time, edited);
            var pending := PendingOrders(edited).rows;
            r.feedback.Saved? ==>
              && r.log.Some?
              && (log.Some? ==> r.log.value.rows[..LogLength(log)] == log.value.rows)
              && |r.log.value.rows| == LogLength(log) + |pending|
              && forall k :: 0 <= k < |pending| ==> RecordsOrder(r.log.value.rows[LogLength(log) + k], branch, time, pending[k])
  {
    var r := Submit(log, branch, time, edited);
    if r.feedback.Saved? {
      var orders := PendingOrders(edited);
      SavedSubmissionIsAppend(log, branch, time, edited);
      PendingRowsHaveQtyColumn(edited);
      AppendStampsBatch(log, branch, time, orders);
    }
  }
}
