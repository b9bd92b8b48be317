/** The branch search bar: a case-insensitive substring search across every cell of a row. */
module SearchBar {
  import opened Strings
  import opened Cells
  import opened Tables

  /** Some cell of the row, rendered as text, contains the term, ignoring case. */
  predicate RowMatches(columns: seq<string>, row: Row, term: string) {
    exists c :: c in columns && c in row && Contains(Lower(Render(row[c])), Lower(term))
  }

  /** The rows shown for a search term. An empty term shows every row; otherwise the rows
      with a matching cell are shown, in catalog order, and no others. */
  function Search(t: Table, term: string): (r: Table)
    ensures r.columns == t.columns
    ensures term == "" ==> r == t
    ensures forall row :: row in r.rows <==> row in t.rows && (term == "" || RowMatches(t.columns, row, term))
    ensures forall row :: multiset(r.rows)[row] ==
              if term == "" || RowMatches(t.columns, row, term) then multiset(t.rows)[row] else 0
    ensures IsSubsequence(r.rows, t.rows)
    ensures WellFormed(t) ==> WellFormed(r)
  {
    if term == "" then
      SubsequenceReflexive(t.rows);
      t
    else
      var keep := (row: Row) => RowMatches(t.columns, row, term);
      FilterIsSubsequence(t.rows, keep);
      FilterWellFormed(t, keep);
      Table(t.columns, Filter(t.rows, keep))
  }

  /** Skipping the mask for an empty term shows the same rows as masking with the empty
      term would, for any frame with at least one column: every cell contains "". */
  lemma EmptyTermMatchesEveryRow(t: Table)
    requires WellFormed(t) && |t.columns| > 0
    ensures Filter(t.rows, (row: Row) => RowMatches(t.columns, row, "")) == Search(t, "").rows
  {
    var c := t.columns[0];
    forall row | row in t.rows ensures RowMatches(t.columns, row, "") {
      var i :| 0 <= i < |t.rows| && t.rows[i] == row;
      assert c in row;
      assert Contains(Lower(Render(row[c])), Lower(""));
    }
    FilterKeepsAll(t.rows, (row: Row) => RowMatches(t.columns, row, ""));
  }
}
