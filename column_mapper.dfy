/** Column names: the rename to the database's names, and the projection of each row
    onto the eleven columns of the loaded tables. */
module ColumnMapper {
  import opened Rows

  /** The header of the CSV export. */
  const SourceColumns: seq<string> :=
    ["InvoiceNo", "StockCode", "Description", "Quantity", "InvoiceDate", "UnitPrice",
     "CustomerID", "Country"]

  /** The columns the transform adds, in the order it adds them. */
  const DerivedColumns: seq<string> := ["total_price", "is_cancelled", "customer_valid"]

  /** The frame's columns once the derived ones are assigned: new columns go to the end. */
  const FrameColumns: seq<string> := SourceColumns + DerivedColumns

  /** The fixed rename applied to both frames before loading. */
  const RenameMap: map<string, string> := map[
    "InvoiceNo" := "invoice_no",
    "StockCode" := "stock_code",
    "Description" := "description",
    "Quantity" := "quantity",
    "InvoiceDate" := "invoice_date",
    "UnitPrice" := "unit_price",
    "CustomerID" := "customer_id",
    "Country" := "country"]

  /** The columns of both loaded tables, in the order they are written. */
  const LoadColumns: seq<string> :=
    ["invoice_no", "stock_code", "description", "quantity", "invoice_date", "unit_price",
     "customer_id", "country", "total_price", "is_cancelled", "customer_valid"]

  /** No two positions of `s` hold the same element. */
  predicate Distinct<T(==)>(s: seq<T>)
  {
    forall i, j :: 0 <= i < j < |s| ==> s[i] != s[j]
  }

  /** The name a column carries after renaming: names outside the map pass unchanged. */
  function Rename(c: string): (d: string)
    ensures forall i :: 0 <= i < |SourceColumns| && SourceColumns[i] == c ==> d == LoadColumns[i]
    ensures c !in SourceColumns ==> d == c
  {
    if c in RenameMap then RenameMap[c] else c
  }

  /** A frame's header after renaming; the cells are not touched. */
  function RenameColumns(cs: seq<string>): (ds: seq<string>)
    ensures |ds| == |cs|
    ensures forall i, k :: 0 <= i < |cs| && 0 <= k < |SourceColumns| && cs[i] == SourceColumns[k] ==>
      ds[i] == LoadColumns[k]
    ensures forall i :: 0 <= i < |cs| && cs[i] !in SourceColumns ==> ds[i] == cs[i]
  {
    seq(|cs|, i requires 0 <= i < |cs| => Rename(cs[i]))
  }

  /** The rename sends no two source columns to the same name, so it loses no column. */
  lemma RenameMapInjective()
    ensures forall c1, c2 :: c1 in RenameMap && c2 in RenameMap && RenameMap[c1] == RenameMap[c2] ==> c1 == c2
    ensures RenameMap.Keys == set c | c in SourceColumns
  {
  }

  /** Renaming the derived frame's header gives exactly the load column list, which
      names each column once. */
  lemma RenamedFrameIsLoadSchema()
    ensures RenameColumns(FrameColumns) == LoadColumns
  {
    var renamed := RenameColumns(FrameColumns);
    forall i | 0 <= i < |FrameColumns|
      ensures renamed[i] == LoadColumns[i]
    {
      if i < |SourceColumns| {
        assert FrameColumns[i] == SourceColumns[i];
      } else {
        assert FrameColumns[i] == DerivedColumns[i - |SourceColumns|];
      }
    }
  }

  lemma LoadColumnsDistinct()
    ensures Distinct(LoadColumns)
  {
  }

  /** The position of the first `c` in `cs`, or |cs| when there is none. */
  function IndexOf(cs: seq<string>, c: string): (i: nat)
    ensures i <= |cs|
    ensures i < |cs| <==> c in cs
    ensures i < |cs| ==> cs[i] == c
    ensures forall j :: 0 <= j < i ==> cs[j] != c
  {
    if cs == [] then 0
    else if cs[0] == c then 0
    else 1 + IndexOf(cs[1..], c)
  }

  /** The cells of the columns `cols`, looked up by name in a frame row whose header is
      `header`; None when a name is not in the header (the lookup raises a key error). */
  function Select(header: seq<string>, row: seq<Value>, cols: seq<string>): (r: Option<seq<Value>>)
    requires |row| == |header|
    ensures r.Some? <==> forall c :: c in cols ==> c in header
    ensures r.Some? ==> |r.value| == |cols|
    ensures r.Some? ==> forall k :: 0 <= k < |cols| ==>
      IndexOf(header, cols[k]) < |header| && r.value[k] == row[IndexOf(header, cols[k])]
  {
    if cols == [] then Some([])
    else
      var i := IndexOf(header, cols[0]);
      if i == |header| then None
      else match Select(header, row, cols[1..])
        case None => None
        case Some(rest) => Some([row[i]] + rest)
  }

  /** In a header that names each column once, a column is found where it stands. */
  lemma IndexOfDistinct(header: seq<string>, k: nat)
    requires k < |header| && Distinct(header)
    ensures IndexOf(header, header[k]) == k
  {
    assert header[k] in header;
  }

  /** Selecting every column of a header that names each column once gives the row back. */
  lemma SelectWholeHeader(header: seq<string>, row: seq<Value>)
    requires |row| == |header| && Distinct(header)
    ensures Select(header, row, header) == Some(row)
  {
    var r := Select(header, row, header);
    assert r.Some?;
    assert |r.value| == |row|;
    forall k | 0 <= k < |header|
      ensures r.value[k] == row[k]
    {
      IndexOfDistinct(header, k);
    }
    assert r.value == row;
  }

  function TextOrNull(o: Option<string>): Value
  {
    match o
    case Some(s) => Text(s)
    case None => Null
  }

  function OptionalText(v: Value): Option<string>
    requires v.Text? || v.Null?
  {
    if v.Text? then Some(v.text) else None
  }

  /** Reads an enriched record back from the cells of a loaded row, if they have the
      shapes the load writes. */
  function FromCells(row: seq<Value>): Option<EnrichedRecord>
  {
    if |row| == |LoadColumns|
       && row[0].Text? && row[1].Text? && (row[2].Text? || row[2].Null?) && row[3].Integer?
       && row[4].Moment? && row[5].Decimal? && (row[6].Text? || row[6].Null?) && row[7].Text?
       && row[8].Decimal? && row[9].Flag? && row[10].Flag?
    then Some(EnrichedRecord(
      row[0].text, row[1].text, OptionalText(row[2]), row[3].integer, row[4].moment,
      row[5].decimal, OptionalText(row[6]), row[7].text, row[8].decimal, row[9].flag,
      row[10].flag))
    else None
  }

  /** The cells of an enriched row, in the order of the frame's columns. The encoding
      loses nothing: the row can be read back, and only these cells read back to it. */
  function Cells(e: EnrichedRecord): (row: seq<Value>)
    ensures |row| == |FrameColumns|
    ensures FromCells(row) == Some(e)
    ensures forall other :: FromCells(other) == Some(e) ==> other == row
  {
    [Text(e.invoiceNo), Text(e.stockCode), TextOrNull(e.description), Integer(e.quantity),
     Moment(e.invoiceDate), Decimal(e.unitPrice), TextOrNull(e.customerId), Text(e.country),
     Decimal(e.totalPrice), Flag(e.isCancelled), Flag(e.customerValid)]
  }

  /** The row written to a table for `e`: its frame row renamed, then restricted to the
      load column list. The projection finds every column and moves no cell. */
  function LoadRow(e: EnrichedRecord): (row: DbRow)
    ensures |row| == |LoadColumns|
    ensures row == Cells(e)
    ensures FromCells(row) == Some(e)
  {
    RenamedFrameIsLoadSchema();
    LoadColumnsDistinct();
    SelectWholeHeader(LoadColumns, Cells(e));
    Select(RenameColumns(FrameColumns), Cells(e), LoadColumns).value
  }

  /** The rows written for a frame, one per frame row, in order. */
  function LoadRows(frame: seq<EnrichedRecord>): (rows: seq<DbRow>)
    ensures |rows| == |frame|
    ensures forall i :: 0 <= i < |frame| ==> FromCells(rows[i]) == Some(frame[i])
  {
    seq(|frame|, i requires 0 <= i < |frame| => LoadRow(frame[i]))
  }
}
