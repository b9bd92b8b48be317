/** The branch ordering page end to end: load the stored catalog, search it, submit the grid. */
module Intake {
  import opened Wrappers
  import opened Cells
  import opened Tables
  import opened Catalog
  import opened SearchBar
  import opened Orders

  /** The grid a branch sees: nothing (still waiting for the first upload) when no catalog
      is stored, which is different from a stored catalog with no rows; otherwise the loaded
      catalog, with its Order Qty column, narrowed to the rows matching the search term. */
  function BranchGrid(stored: Option<Table>, term: string): (r: Option<Table>)
    requires stored.Some? ==> WellFormed(stored.value)
    ensures r.None? <==> stored.None?
    ensures r.Some? ==> WellFormed(r.value) && OrderQty in r.value.columns
    ensures r.Some? ==> |r.value.rows| <= |stored.value.rows|
    ensures r.Some? && term == "" ==> r.value == Normalize(stored.value)
    ensures r.Some? ==>
              var loaded := Normalize(stored.value);
              && r.value.columns == loaded.columns
              && IsSubsequence(r.value.rows, loaded.rows)
              && (forall row :: row in r.value.rows <==> row in loaded.rows && (term == "" || RowMatches(loaded.columns, row, term)))
              && (forall row :: multiset(r.value.rows)[row] ==
                    if term == "" || RowMatches(loaded.columns, row, term) then multiset(loaded.rows)[row] else 0)
  {
    match stored
    case None => None
    case Some(t) =>
      var shown := Search(Normalize(t), term);
      SubsequenceLength(Normalize(t).rows, shown.rows);
      Some(shown)
  }

  /** A branch that submits a freshly uploaded catalog without typing any quantity, under
      any search term, writes nothing and is warned instead. */
  lemma UneditedGridSavesNothing(log: Log, raw: Table, nameCol: string, expCol: string, qtyCol: string,
                                  term: string, branch: string, time: string)
    requires WellFormed(raw)
    requires nameCol in raw.columns && expCol in raw.columns && qtyCol in raw.columns
    requires HasOrderHeader(log)
    ensures var grid := BranchGrid(SaveStock(None, raw, nameCol, expCol, qtyCol), term).value;
            Submit(log, branch, time, grid) == Outcome(log, NoQuantities)
  {
    var cat := BuildCatalog(raw, nameCol, expCol, qtyCol);
    LoadSavedCatalog(raw, nameCol, expCol, qtyCol);
    var grid := BranchGrid(Some(cat), term).value;
    forall row | row in grid.rows ensures !HasPositiveQty(row) {
      var k :| 0 <= k < |cat.rows| && cat.rows[k] == row;
    }
  }

  /** Branch "North" submits item A with quantity 2 and item B with quantity 0 into an
      empty history: the log is created holding one row, for A, stamped with North. */
  lemma NorthSubmitsOneLine(time: string)
    ensures var a := map[ProductName := Str("A"), Expiry := Str("2026"), AvailableQty := Int(10), OrderQty := Int(2)];
            var b := map[ProductName := Str("B"), Expiry := Str("2027"), AvailableQty := Int(3), OrderQty := Int(0)];
            var r := Submit(None, "North", time, Table(CatalogColumns, [a, b]));
            && r.feedback == Saved(1)
            && r.log.Some?
            && |r.log.value.rows| == 1
            && r.log.value.rows[0] == map[Branch := Str("North"), OrderTime := Str(time),
                                           ProductName := Str("A"), Expiry := Str("2026"), OrderQty := Int(2)]
  {
    var a := map[ProductName := Str("A"), Expiry := Str("2026"), AvailableQty := Int(10), OrderQty := Int(2)];
    var b := map[ProductName := Str("B"), Expiry := Str("2027"), AvailableQty := Int(3), OrderQty := Int(0)];
    var edited := Table(CatalogColumns, [a, b]);
    assert a.Keys == ColumnSet(CatalogColumns) && b.Keys == ColumnSet(CatalogColumns);
    assert Filter(edited.rows, HasPositiveQty) == [a];
  }
}
