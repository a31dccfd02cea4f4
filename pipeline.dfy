/** The ETL run: read, derive, filter, rename and project, load both tables, summarise. */
module Pipeline {
  import opened Rows
  import opened FieldDeriver
  import opened RowFilter
  import opened ColumnMapper
  import opened TableLoader

  const StagingTable: string := "stg_retail"
  const CleanTable: string := "retail_clean"

  /** The input file: absent, or present with the records it parses to. */
  datatype Source = MissingFile | Present(records: seq<RawRecord>)

  /** The mean of a boolean column, kept as the number of true cells over the number of cells. */
  datatype Ratio = Ratio(count: nat, population: nat)

  datatype RunSummary = RunSummary(
    totalRows: nat,
    cleanRows: nat,
    cancelledRatio: Ratio,
    validCustomerRatio: Ratio)

  /** How a run ends: no summary (missing file), an error raised by a table load, or the summary. */
  datatype RunOutcome =
    | NoSummary
    | Raised(table: string, status: LoadStatus)
    | Finished(summary: RunSummary)

  predicate IsCancelledRow(e: EnrichedRecord)
  {
    e.isCancelled
  }

  predicate HasValidCustomer(e: EnrichedRecord)
  {
    e.customerValid
  }

  /** The ratio as a number; it lies in [0, 1] when the count is part of the population. */
  function Mean(r: Ratio): (m: real)
    requires 0 < r.population
    ensures r.count <= r.population ==> 0.0 <= m <= 1.0
    ensures m * r.population as real == r.count as real
  {
    r.count as real / r.population as real
  }

  /** The staging set of a run over `records`. */
  function StagingSet(records: seq<RawRecord>): seq<EnrichedRecord>
  {
    Staging(DeriveAll(records))
  }

  /** The clean set of a run over `records`. */
  function CleanSet(records: seq<RawRecord>): seq<EnrichedRecord>
  {
    Clean(StagingSet(records))
  }

  /** The run summary: both counts, and both ratios taken over the staging rows. */
  function Summarize(staging: seq<EnrichedRecord>, clean: seq<EnrichedRecord>): (s: RunSummary)
    ensures s.totalRows == |staging| && s.cleanRows == |clean|
    ensures s.cancelledRatio.population == |staging| && s.cancelledRatio.count <= |staging|
    ensures s.validCustomerRatio.population == |staging| && s.validCustomerRatio.count <= |staging|
    ensures s.cancelledRatio.count == |Where(staging, IsCancelledRow)|
    ensures s.validCustomerRatio.count == |Where(staging, HasValidCustomer)|
  {
    RunSummary(
      |staging|,
      |clean|,
      Ratio(CountWhere(staging, IsCancelledRow), |staging|),
      Ratio(CountWhere(staging, HasValidCustomer), |staging|))
  }

  /** Both ratios of a summary lie in [0, 1] when the staging set is non-empty. */
  lemma SummaryRatiosInUnitInterval(staging: seq<EnrichedRecord>, clean: seq<EnrichedRecord>)
    requires |staging| > 0
    ensures 0.0 <= Mean(Summarize(staging, clean).cancelledRatio) <= 1.0
    ensures 0.0 <= Mean(Summarize(staging, clean).validCustomerRatio) <= 1.0
  {
  }

  /** What a run over a present file does to the store and what it returns: load the
      staging table, then the clean table, each by truncate-then-append; the first
      load that fails raises and ends the run. */
  function RunEffect(tables: Tables, records: seq<RawRecord>, rejected: set<string>): (RunOutcome, Tables)
  {
    var staging := StagingSet(records);
    var clean := Clean(staging);
    var first := LoadEffect(tables, StagingTable, LoadRows(staging), StagingTable in rejected);
    if first.0 != Loaded then (Raised(StagingTable, first.0), first.1)
    else
      var second := LoadEffect(first.1, CleanTable, LoadRows(clean), CleanTable in rejected);
      if second.0 != Loaded then (Raised(CleanTable, second.0), second.1)
      else (Finished(Summarize(staging, clean)), second.1)
  }

  /** The run. `rejected` names the tables whose append the database refuses. A missing
      file ends the run before anything is read and before the store is touched. */
  method RunEtl(store: Store, source: Source, rejected: set<string>) returns (outcome: RunOutcome)
    modifies store
    ensures source.MissingFile? ==> outcome == NoSummary && store.tables == old(store.tables)
    ensures source.Present? ==> (outcome, store.tables) == RunEffect(old(store.tables), source.records, rejected)
  {
    if source.MissingFile? {
      return NoSummary;
    }
    var frame := DeriveAll(source.records);
    var staging := Staging(frame);
    var clean := Clean(staging);
    var stagingRows := LoadRows(staging);
    var cleanRows := LoadRows(clean);

    var status := store.Load(StagingTable, stagingRows, StagingTable in rejected);
    if status != Loaded {
      return Raised(StagingTable, status);
    }
    status := store.Load(CleanTable, cleanRows, CleanTable in rejected);
    if status != Loaded {
      return Raised(CleanTable, status);
    }
    outcome := Finished(Summarize(staging, clean));
  }

  /** A run finishes exactly when both tables exist and neither append is refused; it
      never creates, drops or touches any other table. */
  lemma RunSucceedsIff(tables: Tables, records: seq<RawRecord>, rejected: set<string>)
    ensures RunEffect(tables, records, rejected).0.Finished? <==>
      StagingTable in tables && CleanTable in tables &&
      StagingTable !in rejected && CleanTable !in rejected
    ensures RunEffect(tables, records, rejected).1.Keys == tables.Keys
    ensures forall u :: u in tables && u != StagingTable && u != CleanTable ==>
      RunEffect(tables, records, rejected).1[u] == tables[u]
  {
  }

  /** A finished run leaves the staging table holding exactly the staging rows and the
      clean table exactly the clean rows, whatever they held before, and reports the
      staging and clean counts. */
  lemma RunSuccessContents(tables: Tables, records: seq<RawRecord>, rejected: set<string>)
    requires StagingTable in tables && CleanTable in tables
    requires StagingTable !in rejected && CleanTable !in rejected
    ensures RunEffect(tables, records, rejected).0.Finished?
    ensures RunEffect(tables, records, rejected).1 ==
      tables[StagingTable := LoadRows(StagingSet(records))][CleanTable := LoadRows(CleanSet(records))]
    ensures RunEffect(tables, records, rejected).0.summary.totalRows == |StagingSet(records)|
    ensures RunEffect(tables, records, rejected).0.summary.cleanRows == |CleanSet(records)|
    ensures RunEffect(tables, records, rejected).0.summary.cancelledRatio == Ratio(
      CountWhere(records, (r: RawRecord) => r.description.Some? && CancelPrefix <= r.invoiceNo),
      CountWhere(records, (r: RawRecord) => r.description.Some?))
    ensures RunEffect(tables, records, rejected).0.summary.validCustomerRatio == Ratio(
      CountWhere(records, (r: RawRecord) => r.description.Some? && r.customerId.Some?),
      CountWhere(records, (r: RawRecord) => r.description.Some?))
  {
    StagingCountsOnInput(records);
  }

  /** Running twice on the same input, with the database answering the same way, gives
      the same store and the same outcome as running once: the loads replace, they do not
      accumulate. This holds on every path, the failed and the half-done ones included. */
  lemma RunIdempotent(tables: Tables, records: seq<RawRecord>, rejected: set<string>)
    ensures RunEffect(RunEffect(tables, records, rejected).1, records, rejected) == RunEffect(tables, records, rejected)
  {
    var staged := LoadRows(StagingSet(records));
    var cleaned := LoadRows(CleanSet(records));
    var stagingRejected, cleanRejected := StagingTable in rejected, CleanTable in rejected;
    var first := LoadEffect(tables, StagingTable, staged, stagingRejected);
    var again := LoadEffect(first.1, StagingTable, staged, stagingRejected);
    LoadIdempotent(tables, StagingTable, staged, stagingRejected);
    assert again == first;
    if first.0 == Loaded {
      var second := LoadEffect(first.1, CleanTable, cleaned, cleanRejected);
      LoadIdempotent(first.1, CleanTable, cleaned, cleanRejected);
      // The second run's staging load leaves `second.1` as it found it.
      var restaged := LoadEffect(second.1, StagingTable, staged, stagingRejected);
      assert restaged.0 == Loaded;
      assert restaged.1 == second.1[StagingTable := staged];
      assert second.1[StagingTable := staged] == second.1 by {
        assert second.1[StagingTable] == staged;
      }
    }
  }

  /** The two loads are not one unit: when the clean append is refused, the staging
      table already holds the new rows and the clean table is left empty. */
  lemma RunLeavesMixedState(tables: Tables, records: seq<RawRecord>)
    requires StagingTable in tables && CleanTable in tables
    ensures RunEffect(tables, records, {CleanTable}) == (
      Raised(CleanTable, AppendFailed),
      tables[StagingTable := LoadRows(StagingSet(records))][CleanTable := []])
  {
  }

  /** The staging population counted on the input: rows with a description; and the
      two ratio numerators: such rows whose invoice number begins with "C", and such
      rows with a customer id. */
  lemma {:induction false} StagingCountsOnInput(records: seq<RawRecord>)
    ensures |StagingSet(records)| == CountWhere(records, (r: RawRecord) => r.description.Some?)
    ensures CountWhere(StagingSet(records), IsCancelledRow) ==
      CountWhere(records, (r: RawRecord) => r.description.Some? && CancelPrefix <= r.invoiceNo)
    ensures CountWhere(StagingSet(records), HasValidCustomer) ==
      CountWhere(records, (r: RawRecord) => r.description.Some? && r.customerId.Some?)
  {
    if records != [] {
      StagingCountsOnInput(records[1..]);
      var frame := DeriveAll(records);
      assert frame[1..] == DeriveAll(records[1..]);
      var e := Derive(records[0]);
      if HasDescription(e) {
        assert StagingSet(records) == [e] + StagingSet(records[1..]);
        assert StagingSet(records)[1..] == StagingSet(records[1..]);
      }
    }
  }

  /** A frame made only of rows without a description has an empty staging set. */
  lemma StagingOfDescriptionless(extra: seq<RawRecord>)
    requires forall r :: r in extra ==> r.description.None?
    ensures StagingSet(extra) == []
  {
    var frame := DeriveAll(extra);
    forall e | e in frame
      ensures !HasDescription(e)
    {
      var i :| 0 <= i < |frame| && frame[i] == e;
      assert extra[i] in extra;
    }
    WhereEmptyIff(frame, HasDescription);
  }

  /** Rows without a description are invisible to the whole run: appending them to the
      input changes neither the tables nor the summary, ratios included. */
  lemma RowsWithoutDescriptionIgnored(tables: Tables, records: seq<RawRecord>, extra: seq<RawRecord>, rejected: set<string>)
    requires forall r :: r in extra ==> r.description.None?
    ensures RunEffect(tables, records + extra, rejected) == RunEffect(tables, records, rejected)
  {
    DeriveAllConcat(records, extra);
    WhereConcat(DeriveAll(records), DeriveAll(extra), HasDescription);
    StagingOfDescriptionless(extra);
    assert StagingSet(records + extra) == StagingSet(records) + [];
    assert StagingSet(records + extra) == StagingSet(records);
  }

  /** The worked example: a sale, a cancellation with a negative quantity and no
      customer, and a row with no description. */
  lemma ThreeRowScenario(tables: Tables)
    requires StagingTable in tables && CleanTable in tables
    ensures var records := [
        RawRecord("536365", "85123A", Some("LAMP"), 6, Timestamp(0), 2.55, Some("17850"), "United Kingdom"),
        RawRecord("C536366", "22633", Some("MUG"), -1, Timestamp(1), 1.0, None, "United Kingdom"),
        RawRecord("536367", "84879", None, 3, Timestamp(2), 0.0, Some("123"), "United Kingdom")];
      RunEffect(tables, records, {}).0 == Finished(RunSummary(2, 1, Ratio(1, 2), Ratio(1, 2)))
  {
    var records := [
        RawRecord("536365", "85123A", Some("LAMP"), 6, Timestamp(0), 2.55, Some("17850"), "United Kingdom"),
        RawRecord("C536366", "22633", Some("MUG"), -1, Timestamp(1), 1.0, None, "United Kingdom"),
        RawRecord("536367", "84879", None, 3, Timestamp(2), 0.0, Some("123"), "United Kingdom")];
    var f0, f1, f2 := Derive(records[0]), Derive(records[1]), Derive(records[2]);
    assert DeriveAll(records) == [f0, f1, f2];
    assert !f0.isCancelled && f1.isCancelled;
    assert [f1, f2][1..] == [f2] && [f2][1..] == [];
    assert [f0, f1, f2][1..] == [f1, f2];
    assert f0.description.Some? && f1.description.Some? && f2.description.None?;
    assert Where([f2], HasDescription) == [];
    assert Where([f1, f2], HasDescription) == [f1];
    var staging := Staging([f0, f1, f2]);
    assert staging == [f0, f1];
    assert [f0, f1][1..] == [f1] && [f1][1..] == [];
    assert Where([f1], PositiveQuantity) == [];
    assert Clean(staging) == [f0];
    assert CountWhere(staging, IsCancelledRow) == 1;
    assert CountWhere(staging, HasValidCustomer) == 1;
  }
}
