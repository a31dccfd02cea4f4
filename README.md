# Online retail ETL: a Dafny model of the transform and load

This project models `run_etl`, the transform-and-load step of an ETL job for an online
retail export. The job reads a CSV of invoice lines, adds three computed columns to every
line (total price, a cancellation flag, a customer-validity flag), drops lines without a
description (the *staging* set), keeps the staging lines with a positive quantity (the
*clean* set), renames the columns to the database's names, projects both sets onto a fixed
list of eleven columns, and replaces the contents of the tables `stg_retail` and
`retail_clean` with them, each by a `TRUNCATE` followed by a separate append. It returns
a summary: the two row counts and two ratios taken over the staging set. When the input
file is missing it returns no summary and touches nothing.

Modules, one per component:

- `Rows` (`rows.dfy`): the input record, the enriched record, the cell values of a loaded row.
- `FieldDeriver` (`field_deriver.dfy`): the three derived columns.
- `RowFilter` (`row_filter.dfy`): a stable filter (`Where`) with its properties, and the staging and clean filters.
- `ColumnMapper` (`column_mapper.dfy`): the rename map, the frame header, the eleven load columns, lookup of columns by name, and the encoding of a record as cells.
- `TableLoader` (`table_loader.dfy`): the store as a `Store` class holding a map from table name to rows, with `Truncate`, `Append` and `Load`.
- `Pipeline` (`pipeline.dfy`): the run itself (`RunEtl`), the function `RunEffect` that specifies it, the summary, and the lemmas about whole runs.

Modelling choices:

- The input file is a parameter `Source`: `MissingFile`, or `Present(records)` with the records the CSV parses to. A Description or CustomerID that `read_csv` parses as missing is `None` (see below); the other six fields are always present.
- Prices are exact `real`s. The ratios are kept as count pairs (`Ratio(count, population)`), and `Mean` turns a pair into a number when the population is non-empty.
- The database's own failures are parameters. A `TRUNCATE` fails when the table does not exist (it has no key in the map). The `rejected` set names the tables whose append the database refuses. Either failure raises out of the run. Because the `TRUNCATE` commits before the append runs, a refused append leaves its table empty. A refused clean load also leaves the staging table already replaced.
- The three column assignments change the local frame in place. Nothing else holds that frame, so `RunEtl` models them by binding the derived frame (`DeriveAll`) to a local. Filtering, renaming and the summary are pure functions, as in the source. The loads are methods of the `Store` class.

Two behaviours of the code are easy to misread, and the model keeps them as written:

- The truncate and the append of one table are two steps, not one transaction. The `TRUNCATE` runs and commits in its own `engine.begin()` block (scripts/etl_retail.py:101-102, 120-121), and the `to_sql` append runs afterwards, outside it (scripts/etl_retail.py:104-116, 123-135). `LoadEffect` and `RunLeavesMixedState` state the non-atomic behaviour that follows.
- Only missing Description values are dropped (`dropna`, scripts/etl_retail.py:79), and `customer_valid` is `notna` (scripts/etl_retail.py:76). In the model, `None` stands for a Description or CustomerID that `read_csv` parses as missing: a blank field, or one of its default missing-value markers such as `NA`, `N/A`, `NULL`, `null`, `nan`, `NaN`, `#N/A` or `None`. Any other text, whitespace included, is a present value and is kept.

## Model

| member | source | states |
|---|---|---|
| `FieldDeriver.Derive` | scripts/etl_retail.py:70-76 | total price is quantity times unit price; the row counts as cancelled exactly when its invoice text has prefix "C"; customer_valid holds exactly when a customer id is present; dropping the three new columns gives the input row back |
| `FieldDeriver.DeriveAll` | scripts/etl_retail.py:67-76 | the derived frame has one row per input row, in order, and each is that row derived |
| `FieldDeriver.DeriveAllConcat` | scripts/etl_retail.py:70-76 | deriving a frame in two parts gives the same as deriving it whole: no row depends on another |
| `FieldDeriver.CancellationIsCaseSensitive` | scripts/etl_retail.py:73 | an invoice number starting with lower-case "c" is not a cancellation |
| `RowFilter.Where` | scripts/etl_retail.py:79-82 | the filter result is no longer than its input and holds exactly the input's elements that pass |
| `RowFilter.CountWhere` | scripts/etl_retail.py:142-143 | the number of true cells of a boolean column is the length of the filter by it |
| `RowFilter.WhereKeepsEveryCopy` | scripts/etl_retail.py:79-82 | the filter keeps every copy of each element that passes and no copy of any other |
| `RowFilter.WhereIsSubsequence` | scripts/etl_retail.py:79-82 | the filter does not reorder: its result is a subsequence of its input |
| `RowFilter.WhereIdentityIff` | scripts/etl_retail.py:82 | filtering returns its input unchanged if and only if every element passes |
| `RowFilter.WhereEmptyIff` | scripts/etl_retail.py:79 | filtering returns nothing if and only if no element passes |
| `RowFilter.WhereConcat` | scripts/etl_retail.py:79-82 | filtering a concatenation filters each part |
| `RowFilter.WhereWhere` | scripts/etl_retail.py:79-82 | two filters in a row equal one filter by the conjunction |
| `RowFilter.IsSubsequenceTransitive` | scripts/etl_retail.py:79-82 | a subsequence of a subsequence is a subsequence |
| `RowFilter.Staging` | scripts/etl_retail.py:79 | staging holds exactly the frame rows whose description is present, and is no longer than the frame |
| `RowFilter.Clean` | scripts/etl_retail.py:82 | clean holds exactly the staging rows with quantity above zero, and is no longer than staging |
| `RowFilter.FiltersAreStable` | scripts/etl_retail.py:79-82 | staging is a subsequence of the frame, clean of staging, and clean of the frame |
| `RowFilter.CleanIsBothFilters` | scripts/etl_retail.py:79-82 | clean is the frame filtered once by "description present and quantity positive" |
| `RowFilter.CleanEqualsStagingIff` | scripts/etl_retail.py:82 | clean equals staging if and only if every staging row has a positive quantity |
| `ColumnMapper.Rename` | scripts/etl_retail.py:85-94 | each of the eight source names goes to its destination name, in list order; every other name passes unchanged |
| `ColumnMapper.RenameColumns` | scripts/etl_retail.py:96-97 | renaming a header keeps its length; a position holding one of the eight CSV column names gets that column's load name, and a position holding any other name keeps it |
| `ColumnMapper.RenameMapInjective` | scripts/etl_retail.py:85-94 | no two source names share a destination, and the map's keys are exactly the eight CSV columns |
| `ColumnMapper.RenamedFrameIsLoadSchema` | scripts/etl_retail.py:85-116 | the renamed header of the derived frame is exactly the eleven-column load list, in order |
| `ColumnMapper.LoadColumnsDistinct` | scripts/etl_retail.py:104-116 | the load list names each column once |
| `ColumnMapper.IndexOf` | scripts/etl_retail.py:104-116 | a lookup by name finds the first position of the name, or reports that it is absent |
| `ColumnMapper.Select` | scripts/etl_retail.py:104-116 | selecting columns by name succeeds exactly when every name is in the header, and each selected cell is the cell under that name |
| `ColumnMapper.IndexOfDistinct` | scripts/etl_retail.py:104-116 | in a header without repeated names, each name is found where it stands |
| `ColumnMapper.SelectWholeHeader` | scripts/etl_retail.py:104-116 | selecting the whole of a header without repeated names returns the row unchanged |
| `ColumnMapper.Cells` | scripts/etl_retail.py:104-116 | a record's eleven cells read back to that record, and no other cells read back to it |
| `ColumnMapper.LoadRow` | scripts/etl_retail.py:96-135 | the row written for a record has the eleven load columns, holds the record's cells unchanged, and reads back to the record |
| `ColumnMapper.LoadRows` | scripts/etl_retail.py:104-116 | one written row per frame row, in order, each reading back to its frame row |
| `TableLoader.LoadEffect` | scripts/etl_retail.py:101-116 | a load fails at the truncate exactly when the table is absent, and then changes nothing; a refused append leaves the table empty; a completed load leaves the table holding exactly the rows; no other table changes and no table appears |
| `TableLoader.LoadForgetsOldContents` | scripts/etl_retail.py:101-116 | the result of a completed load does not depend on what the table held before |
| `TableLoader.LoadIdempotent` | scripts/etl_retail.py:101-116 | loading the same rows twice, with the database answering the same way, leaves the same store and status as loading once, whether the load completes, the table is missing, or the append is refused |
| `TableLoader.Store.Truncate` | scripts/etl_retail.py:101-102 | the truncate succeeds exactly when the table exists, and then empties it |
| `TableLoader.Store.Append` | scripts/etl_retail.py:104-116 | an accepted append puts the rows after the table's existing rows; a refused one changes nothing |
| `TableLoader.Store.Load` | scripts/etl_retail.py:101-116 | truncate then append changes the store as `LoadEffect` says |
| `Pipeline.Mean` | scripts/etl_retail.py:142-143 | the ratio as a number lies in [0, 1] when the count is part of the population, and times the population gives the count |
| `Pipeline.Summarize` | scripts/etl_retail.py:139-144 | the total is the staging size and the clean count the clean size; the cancelled ratio counts the cancelled staging rows and the valid-customer ratio the staging rows with a customer, each over the staging size |
| `Pipeline.SummaryRatiosInUnitInterval` | scripts/etl_retail.py:142-143 | when staging is non-empty, both ratios of the summary lie in [0, 1] |
| `Pipeline.RunEtl` | scripts/etl_retail.py:53-145 | a missing file returns no summary and leaves the store as it was; otherwise the run changes the store and ends as `RunEffect` says |
| `Pipeline.RunSucceedsIff` | scripts/etl_retail.py:101-145 | a run finishes exactly when both tables exist and neither append is refused; it changes no other table and creates none |
| `Pipeline.RunSuccessContents` | scripts/etl_retail.py:101-144 | a run where both tables exist and neither append is refused finishes; the staging table holds exactly the staging rows and the clean table exactly the clean rows; the summary reports their sizes, and its ratios count, among input rows with a description, those whose invoice number begins with "C" and those with a customer id, over the number of input rows with a description |
| `Pipeline.RunIdempotent` | scripts/etl_retail.py:101-144 | running twice on the same input, with the database answering the same way, leaves the same store and ends the same way as running once, on the failed and half-done paths too |
| `Pipeline.RunLeavesMixedState` | scripts/etl_retail.py:101-135 | when the clean append is refused, the staging table already holds the new rows and the clean table is empty |
| `Pipeline.StagingCountsOnInput` | scripts/etl_retail.py:73-79 | the staging size is the number of input rows with a description; the ratio numerators count those rows with a "C" invoice number or a customer id |
| `Pipeline.StagingOfDescriptionless` | scripts/etl_retail.py:79 | input made only of rows without a description yields an empty staging set |
| `Pipeline.RowsWithoutDescriptionIgnored` | scripts/etl_retail.py:79-144 | adding rows without a description to the input changes neither the tables nor the summary |
| `Pipeline.ThreeRowScenario` | scripts/etl_retail.py:53-145 | a sale, a cancellation with no customer, and a row with no description give staging 2, clean 1, and both ratios 1 of 2 |

## Left out

- `load_config` (scripts/etl_retail.py:10-17): it reads a YAML file. The data path is not modelled; the file appears only as the `Source` parameter.
- `setup_logging` (scripts/etl_retail.py:20-35) and every logging call: they only affect global logging handlers and write log lines.
- `get_engine` (scripts/etl_retail.py:39-50): it builds a connection string for SQLAlchemy, a library outside this model. The engine is the `Store` object.
- `main` (scripts/etl_retail.py:148-181): wall-clock timing, printing, percentage formatting, and the catch-all handler. A raised error is the `Raised` outcome.
- CSV reading (`pd.read_csv` with Latin-1) and timestamp parsing (`pd.to_datetime`): the records arrive already parsed. A timestamp is an opaque value that is carried through. A malformed file or date is not modelled.
- Missing values in the other six input fields (InvoiceNo, StockCode, Quantity, InvoiceDate, UnitPrice, Country): the model assumes they are always present. In the code, a blank Quantity or UnitPrice reads as NaN and makes `total_price` NaN (line 70). A NaN Quantity fails `Quantity > 0` (line 82), so such a row stays in staging but never reaches the clean set. A blank InvoiceDate becomes NaT (line 67). Missing cells of any kind are written to the tables as NULL. None of these rows can be expressed as a `RawRecord`.
- Floating point: prices and totals are exact reals, with no rounding. Ratios are count pairs. When staging is empty, pandas gives NaN; here the ratio is `0 of 0` and `Mean` is not defined.
- Failures other than a missing table at `TRUNCATE` and a refused append: lost connections and errors inside `to_sql` are not modelled separately. A refused append changes nothing, so the model does not cover an append that fails after writing part of its rows.
- SQL column typing: a written row is a sequence of cells in load-column order. Each cell type (text, integer, decimal, timestamp, flag, NULL) follows the record field it comes from.
- `ColumnMapper.Select`: when a header repeats a name, pandas returns every column with that name, but the model returns the first. The frame's header has no repeated names (`RenamedFrameIsLoadSchema`, `LoadColumnsDistinct`), so this case never arises in a run.
