/** The stock catalog: built from an uploaded frame with three chosen columns, replaced
    wholesale on every upload, and given an Order Qty column when loaded by a branch. */
module Catalog {
  import opened Wrappers
  import opened Cells
  import opened Tables

  const ProductName := "Product Name"
  const Expiry := "Expiry"
  const AvailableQty := "Available Qty"
  const OrderQty := "Order Qty"

  /** The four columns of the persisted catalog, in order. */
  const CatalogColumns: seq<string> := [ProductName, Expiry, AvailableQty, OrderQty]

  /** One catalog row from one uploaded row. */
  function CatalogRow(row: Row, nameCol: string, expCol: string, qtyCol: string): Row
    requires nameCol in row && expCol in row && qtyCol in row
  {
    map[ProductName := row[nameCol], Expiry := row[expCol], AvailableQty := row[qtyCol], OrderQty := Int(0)]
  }

  /** The catalog built from an upload: exactly the four catalog columns, one row per
      uploaded row in the same order, copying the chosen name, expiry and quantity cells
      and starting every Order Qty at 0. The chosen columns are among the upload's
      columns because they are picked from that list. */
  function BuildCatalog(raw: Table, nameCol: string, expCol: string, qtyCol: string): (r: Table)
    requires WellFormed(raw)
    requires nameCol in raw.columns && expCol in raw.columns && qtyCol in raw.columns
    ensures WellFormed(r)
    ensures r.columns == CatalogColumns
    ensures |r.rows| == |raw.rows|
    ensures forall k :: 0 <= k < |r.rows| ==>
              && r.rows[k][ProductName] == raw.rows[k][nameCol]
              && r.rows[k][Expiry] == raw.rows[k][expCol]
              && r.rows[k][AvailableQty] == raw.rows[k][qtyCol]
              && r.rows[k][OrderQty] == Int(0)
  {
    var rows := seq(|raw.rows|, k requires 0 <= k < |raw.rows| =>
                      CatalogRow(raw.rows[k], nameCol, expCol, qtyCol));
    Table(CatalogColumns, rows)
  }

  /** Saving an upload overwrites the stored catalog: the result is the upload's catalog,
      whatever was stored before, so no earlier row survives unless the upload repeats it. */
  function SaveStock(stored: Option<Table>, raw: Table, nameCol: string, expCol: string, qtyCol: string): (r: Option<Table>)
    requires WellFormed(raw)
    requires nameCol in raw.columns && expCol in raw.columns && qtyCol in raw.columns
    ensures r.Some? && r.value.columns == CatalogColumns && |r.value.rows| == |raw.rows|
    ensures WellFormed(r.value)
    ensures forall k :: 0 <= k < |raw.rows| ==>
              && r.value.rows[k][ProductName] == raw.rows[k][nameCol]
              && r.value.rows[k][Expiry] == raw.rows[k][expCol]
              && r.value.rows[k][AvailableQty] == raw.rows[k][qtyCol]
              && r.value.rows[k][OrderQty] == Int(0)
  {
    Some(BuildCatalog(raw, nameCol, expCol, qtyCol))
  }

  /** Replace, not merge: two different previous catalogs give the same stored result. */
  lemma SaveStockReplaces(a: Option<Table>, b: Option<Table>, raw: Table, nameCol: string, expCol: string, qtyCol: string)
    requires WellFormed(raw)
    requires nameCol in raw.columns && expCol in raw.columns && qtyCol in raw.columns
    ensures SaveStock(a, raw, nameCol, expCol, qtyCol) == SaveStock(b, raw, nameCol, expCol, qtyCol)
  {
  }

  /** The catalog as a branch sees it after loading: when the stored frame lacks an
      Order Qty column, one is appended with 0 in every row; otherwise the frame is as stored. */
  function Normalize(t: Table): (r: Table)
    requires WellFormed(t)
    ensures WellFormed(r)
    ensures OrderQty in r.columns
    ensures OrderQty in t.columns ==> r == t
    ensures OrderQty !in t.columns ==>
              && r.columns == t.columns + [OrderQty]
              && |r.rows| == |t.rows|
              && forall k :: 0 <= k < |r.rows| ==>
                   && r.rows[k][OrderQty] == Int(0)
                   && forall c :: c in t.columns ==> c in r.rows[k] && r.rows[k][c] == t.rows[k][c]
  {
    if OrderQty in t.columns then t
    else
      var rows := seq(|t.rows|, k requires 0 <= k < |t.rows| => t.rows[k][OrderQty := Int(0)]);
      Table(t.columns + [OrderQty], rows)
  }

  /** Loading twice is the same as loading once. */
  lemma NormalizeIdempotent(t: Table)
    requires WellFormed(t)
    ensures Normalize(Normalize(t)) == Normalize(t)
  {
  }

  /** A catalog saved by the upload already has its Order Qty column, so loading it
      hands the branch exactly what was built. */
  lemma LoadSavedCatalog(raw: Table, nameCol: string, expCol: string, qtyCol: string)
    requires WellFormed(raw)
    requires nameCol in raw.columns && expCol in raw.columns && qtyCol in raw.columns
    ensures Normalize(BuildCatalog(raw, nameCol, expCol, qtyCol)) == BuildCatalog(raw, nameCol, expCol, qtyCol)
  {
    assert OrderQty == CatalogColumns[3];
  }
}
