/** The records that flow through the retail transform, and the cells of a loaded table. */
module Rows {

  datatype Option<+T> = None | Some(value: T)

  /** An invoice timestamp as produced by parsing the InvoiceDate text. The model never
      looks inside it: it is only carried from the input row to the loaded row. */
  datatype Timestamp = Timestamp(instant: int)

  /** One line of the export as read from the CSV file. A field the CSV reader parses
      as missing (blank, or a missing-value marker such as NA, NULL or nan) is None;
      `invoiceNo` is the text form of the invoice number. Prices are exact decimals. */
  datatype RawRecord = RawRecord(
    invoiceNo: string,
    stockCode: string,
    description: Option<string>,
    quantity: int,
    invoiceDate: Timestamp,
    unitPrice: real,
    customerId: Option<string>,
    country: string)

  /** A raw record with the three derived columns added. */
  datatype EnrichedRecord = EnrichedRecord(
    invoiceNo: string,
    stockCode: string,
    description: Option<string>,
    quantity: int,
    invoiceDate: Timestamp,
    unitPrice: real,
    customerId: Option<string>,
    country: string,
    totalPrice: real,
    isCancelled: bool,
    customerValid: bool)

  /** One cell of a row written to the store; Null is SQL NULL. */
  datatype Value =
    | Null
    | Text(text: string)
    | Integer(integer: int)
    | Decimal(decimal: real)
    | Moment(moment: Timestamp)
    | Flag(flag: bool)

  /** A row of a loaded table: one cell per column of the table's column list. */
  type DbRow = seq<Value>
}
