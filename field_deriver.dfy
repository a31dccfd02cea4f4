/** The three computed columns every row of the export receives before filtering. */
module FieldDeriver {
  import opened Rows

  /** Invoice numbers of cancellations begin with this text. */
  const CancelPrefix: string := "C"

  /** The raw record underneath an enriched one: the derived columns dropped. */
  function Base(e: EnrichedRecord): RawRecord
  {
    RawRecord(e.invoiceNo, e.stockCode, e.description, e.quantity, e.invoiceDate,
              e.unitPrice, e.customerId, e.country)
  }

  /** Adds total_price, is_cancelled and customer_valid to one row. The test for
      cancellation is case-sensitive and looks at the first character only. */
  function Derive(r: RawRecord): (e: EnrichedRecord)
    ensures e.totalPrice == r.quantity as real * r.unitPrice
    ensures e.isCancelled <==> CancelPrefix <= r.invoiceNo
    ensures e.customerValid <==> r.customerId.Some?
    ensures Base(e) == r
  {
    EnrichedRecord(
      r.invoiceNo, r.stockCode, r.description, r.quantity, r.invoiceDate,
      r.unitPrice, r.customerId, r.country,
      r.quantity as real * r.unitPrice,
      |r.invoiceNo| > 0 && r.invoiceNo[0] == 'C',
      r.customerId.Some?)
  }

  /** The whole frame after the three column assignments: row by row, nothing
      reordered, no row looking at another. */
  function DeriveAll(rows: seq<RawRecord>): (frame: seq<EnrichedRecord>)
    ensures |frame| == |rows|
    ensures forall i :: 0 <= i < |rows| ==> frame[i] == Derive(rows[i])
  {
    if rows == [] then [] else [Derive(rows[0])] + DeriveAll(rows[1..])
  }

  /** Deriving a frame split in two is deriving each part: no cross-row dependency. */
  lemma DeriveAllConcat(a: seq<RawRecord>, b: seq<RawRecord>)
    ensures DeriveAll(a + b) == DeriveAll(a) + DeriveAll(b)
  {
  }

  /** The cancellation test distinguishes case: a lower-case "c" is not a cancellation. */
  lemma CancellationIsCaseSensitive(r: RawRecord)
    requires |r.invoiceNo| > 0 && r.invoiceNo[0] == 'c'
    ensures !Derive(r).isCancelled
  {
  }
}
