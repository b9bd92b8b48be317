# Order intake of the pharmacy order portal, in Dafny

The portal (`app.py`) lets an admin upload a stock list and lets branches order from it.
Under the Streamlit page code sits a small amount of table logic, modelled here as pure
functions over data frames:

- **Column auto-matcher** (`get_idx`): picks the default product-name, expiry and
  quantity columns of an uploaded file by keyword (module `Matcher`).
- **Catalog construction and replacement**: the uploaded frame becomes the four-column
  stock list `Product Name, Expiry, Available Qty, Order Qty` (Order Qty 0). Each save
  overwrites the stored list (module `Catalog`).
- **Load normalisation**: a loaded stock list without an `Order Qty` column gets one
  filled with 0 (`Catalog.Normalize`).
- **Search bar**: keeps the rows where some cell, rendered as text, contains the term
  case-insensitively. An empty term keeps every row (module `SearchBar`).
- **Submission**: keeps the rows with `Order Qty > 0`. When none are left, nothing is
  saved and the branch is warned. Otherwise `save_order` stamps each row with the branch
  and one time and projects it onto `Branch, Order Time, Product Name, Expiry, Order Qty`,
  filling missing columns with `''`. The batch is then appended to the order log, which
  is created with its header if absent (module `Orders`).
- **Clearing the history**: deletes the order log (`Orders.Clear`).
- **The branch page end to end**: load, search, submit (module `Intake`).

Data model: a cell is `Value = Str | Int | NaN` (`NaN` is pandas' missing value). A row is
a `map<string, Value>` from column name to cell. A `Table` is an ordered column list plus a
sequence of rows; `WellFormed` says the column names are distinct and every row has exactly
those keys. Stores that may not exist (the stock file, the orders file) are `Option<Table>`,
and `None` is "no file". The current time is an opaque string parameter.

Support modules: `Wrappers` (Option), `Strings` (ASCII lower-casing, substring test),
`Cells` (values and their text rendering), `Tables` (frames, the order-preserving `Filter`
that a boolean mask performs, and the subsequence relation).

## Model

| member | source | states |
|---|---|---|
| Matcher.FirstMatchFrom | app.py:154-155 | the scan returns the first position at or after the start whose lower-cased name contains a keyword, and None exactly when no later name matches |
| Matcher.GetIdx | app.py:153-156 | the result is a valid index for a non-empty column list; when some column matches, it matches and no earlier column does; when none matches, the result is 0 |
| Matcher.NoKeyMatches | app.py:155 | a column name whose lower-cased form lacks some character of every keyword matches no keyword |
| Matcher.PosExportQtyDefault | app.py:161 | for columns Code, Description, Qty On Hand the quantity picker defaults to Qty On Hand (index 2) |
| Matcher.DescriptionIsNoQuantity | app.py:161 | the column Description matches none of the quantity keywords |
| Matcher.PosExportNameDefault | app.py:159 | for the same columns the product-name picker defaults to Description (index 1) |
| Matcher.PosExportExpiryDefault | app.py:160 | for the same columns no expiry keyword matches, so the expiry picker falls back to index 0 |
| Strings.ContainsIffOccurs | app.py:155 | the recursive substring test used for `k in o.lower()` holds exactly when the keyword occurs at some position of the name |
| Strings.MissingCharNotContained | app.py:155 | a keyword with a character absent from the name is not contained in it |
| Cells.NatToStringRoundTrip | app.py:97 | the decimal text of a natural number is a non-empty digit string, has no leading zero unless the number is 0, and reads back as the number |
| Cells.RenderIntRoundTrip | app.py:97 | an integer cell rendered as text starts with '-' exactly when negative, is otherwise all digits, and parses back to the same integer, so distinct quantities render distinctly |
| Cells.RenderExamples | app.py:97 | -5 renders as "-5", 120 as "120", a missing value as "nan" and text as itself |
| Catalog.BuildCatalog | app.py:164-169 | the stock list has exactly the columns Product Name, Expiry, Available Qty, Order Qty; one row per uploaded row in the same order; row k copies the chosen name, expiry and quantity cells of uploaded row k; Order Qty is 0 everywhere |
| Catalog.SaveStock | app.py:164-170 | after a save the stored stock list exists, is well formed, has the four catalog columns and exactly as many rows as the upload, and row k holds uploaded row k's chosen name, expiry and quantity cells with Order Qty 0, so nothing of the previous list survives |
| Catalog.SaveStockReplaces | app.py:170 | the stored result does not depend on what was stored before |
| Catalog.Normalize | app.py:90 | after loading the Order Qty column is present; a frame that had it is unchanged; otherwise the column is appended, every row gets Order Qty 0 and keeps its other cells; well-formedness is kept |
| Catalog.NormalizeIdempotent | app.py:90 | loading an already loaded frame changes nothing |
| Catalog.LoadSavedCatalog | app.py:90 | loading a stock list written by the upload returns it unchanged |
| Tables.Filter | app.py:98 | a mask keeps only rows it accepts and never lengthens the frame; each accepted row appears in the result exactly as many times as in the input, and each rejected row not at all |
| Tables.FilterIsSubsequence | app.py:98 | masking keeps the kept rows in their original order |
| Tables.FilterKeepsAll | app.py:98 | a mask every row passes returns the frame unchanged |
| Tables.FilterEmptyIff | app.py:116 | a masked frame is empty exactly when no row passes the mask |
| Tables.FilterWellFormed | app.py:98 | masking a well-formed frame gives a well-formed frame with the same columns |
| Tables.SubsequenceLength | app.py:98 | an order-preserving selection of rows is never longer than the frame it comes from |
| SearchBar.Search | app.py:95-100 | an empty term returns the frame unchanged; otherwise a row is shown iff some cell's text contains the term ignoring case, as many times as it occurs in the frame (duplicates are kept); shown rows keep catalog order and the columns are unchanged |
| SearchBar.EmptyTermMatchesEveryRow | app.py:95-100 | for a frame with at least one column, the unmasked copy taken for an empty term equals masking with the empty term, since every cell's text contains "" |
| Orders.PendingOrders | app.py:115 | the submitted rows are exactly the grid rows with a positive Order Qty, each as many times as it occurs in the grid, in grid order, with the grid's columns |
| Orders.SaveOrder | app.py:46-56 | every written row has exactly the columns Branch, Order Time, Product Name, Expiry, Order Qty in that order; all rows carry the given branch and the one given time; the other three cells are copied from the batch, or blank when the batch lacks that column; one row per batch row, in order |
| Orders.OrderColumnsFacts | app.py:49 | the five log column names are distinct and are exactly Branch, Order Time, Product Name, Expiry, Order Qty |
| Orders.Append | app.py:58-61 | a missing log becomes exactly the batch; an existing log keeps its old rows as an unchanged prefix and gains the batch after them, so its length grows by the batch size |
| Orders.Clear | app.py:184-186 | clearing an existing log leaves no log |
| Orders.ClearThenAppend | app.py:58-59 | after a clear the next append recreates the log holding only the new batch |
| Orders.AppendInOrder | app.py:58-61 | two appends leave the old history followed by the first batch and then the second |
| Orders.Submit | app.py:114-121 | nothing is saved and the branch is warned exactly when no grid row has a positive Order Qty, and then the log is unchanged; otherwise the reported count is the number of positive rows; the log keeps its header |
| Orders.SavedBatchKeepsInvariant | app.py:115-117 | the frame written by a submission has the log columns and only positive quantities |
| Orders.AppendKeepsInvariant | app.py:58-61 | appending such a frame keeps the log invariant (log columns, well formed, positive quantities) |
| Orders.SubmitPreservesInvariant | app.py:115-117 | no submission ever writes a zero or missing quantity into the log |
| Orders.PendingRowsHaveQtyColumn | app.py:115 | a grid with any positive-quantity row has an Order Qty column |
| Orders.SavedSubmissionIsAppend | app.py:116-117 | a saved submission's log is the old log with the stamped, projected positive rows appended |
| Orders.AppendPlacesBatch | app.py:58-61 | after an append the log length is the old length plus the batch size, and batch row k sits right after the old rows at offset k |
| Orders.AppendStampsBatch | app.py:46-61 | after appending a stamped batch, row k of the batch sits right after the old rows and records the branch, the time and that row's Order Qty |
| Orders.SubmitAppendsPendingRows | app.py:115-117 | a saved submission leaves the old log rows as a prefix and adds one row per positive grid row, in grid order, each with the branch, the single submission time and that row's Order Qty |
| Intake.BranchGrid | app.py:87-100 | no stored stock list gives "waiting" (None), never an empty grid; otherwise the grid has the loaded list's columns (including Order Qty), is an order-preserving selection of the loaded rows holding exactly those that match the term, each as many times as in the loaded list, and with an empty term is the loaded list itself |
| Intake.UneditedGridSavesNothing | app.py:115-121 | a freshly uploaded stock list submitted without entering any quantity, under any search term, saves nothing and leaves the log as it was |
| Intake.NorthSubmitsOneLine | app.py:115-117 | branch North submitting A with quantity 2 and B with 0 into an empty history creates the log with one row, for A, stamped North |

## Left out

- Streamlit page code (sidebar, widgets, data editor, balloons, messages, rerun): presentation only. The edited grid is an input to `Orders.Submit`. The editor's limits (only Order Qty editable, minimum 0) are not modelled.
- Configuration loading (`load_config`, app.py:10-41) and the demo-mode warning: file I/O with a fixed fallback. Branch names and file names are parameters.
- The branch PIN check and the admin password check (app.py:83, app.py:134): plain string equality.
- CSV and Excel reading and writing, `os.path.exists`, `os.remove` and the CSV download (app.py:178-182): storage is an `Option<Table>`. The codec is assumed to give back what it wrote, including cell types.
- The clock: `datetime.now()` and its format are replaced by an opaque time string.
- Error paths through `except Exception` (unreadable files, bad column types): they depend on library behaviour not visible in app.py.
- app.py has no check that Order Qty ≤ Available Qty, no special requests, no Available Qty or Type columns in the log, and no per-branch report partitioning; none is modelled.
- Floating-point cells: pandas turns integer columns with gaps into floats, which render as `5.0`. Cells here are text, integers or missing.
- Matcher.GetIdx: lower-cases ASCII letters only, while Python's `str.lower` also folds non-ASCII letters. It also assumes every column name is a string, where a numeric header would make `o.lower()` raise.
- SearchBar.Search: treats the term as a literal substring and folds ASCII case only. `str.contains` reads the term as a regular expression by default, so a term such as `1.5` also matches `105` and a term such as `(` raises an error.
- Orders.PendingOrders: a text cell in Order Qty counts as not positive. pandas would raise on comparing a text column with 0.
- Orders.Submit: requires the same of the log, for the same reason as Orders.Append below.
- Orders.Submit: a grid without an Order Qty column gets the warning, where app.py:115 raises a KeyError that app.py:122 reports as an error. app.py:90 adds the column on every load, so such a grid never reaches the submit button.
- Orders.Append: requires an existing log to carry the five log columns, because only `save_order` writes that file. The file append is positional (`header=False`), and appending under a different header is not modelled.
- Concurrent sessions: each store operation is modelled as atomic and sessions run one after another. app.py has no locking, and Streamlit serves each browser session on its own thread. Two first submissions racing on the exists-check at app.py:58 can both write a fresh file at app.py:59, and the later one truncates the earlier batch. A clear at app.py:185 can also land in the middle of an append.
