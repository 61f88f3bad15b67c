// Ingesting again: tables keep the scale of their columns, and an identical run updates just
// the records that have more digits than their columns.
module Reingestion {
  import opened Wrappers
  import opened Prices
  import opened Grouping
  import opened Ingestion

  // ------------------------------------------------------------ stored form

  // Every row holds its values in the scale of their columns, as a database does.
  ghost predicate InScale(table: Table) {
    forall cell | cell in table :: StoredValues(table[cell].values) == table[cell].values
  }

  // Every row passes the validation of prices.
  ghost predicate Valid(table: Table) {
    forall cell | cell in table :: ValidateValues(table[cell].values).None?
  }

  // A record that its columns store as it was sent.
  predicate Fits(r: DailyPriceRecord) {
    StoredValues(r.values) == r.values
  }

  lemma {:induction false} PutKeepsForm(directory: Directory, table: Table, r: DailyPriceRecord, runId: int)
    ensures InScale(table) ==> InScale(Put(directory, table, r, runId))
    ensures Valid(table) && ValidatePrice(r).None? ==> Valid(Put(directory, table, r, runId))
  {
    StoredTwice(r.values);
    if ValidatePrice(r).None? {
      StoringKeepsValidity(r.values);
    }
  }

  lemma {:induction false} PutAllKeepsForm(
      directory: Directory, table: Table, records: seq<DailyPriceRecord>, runId: int)
    ensures InScale(table) ==> InScale(PutAll(directory, table, records, runId))
    ensures Valid(table) && (forall i | 0 <= i < |records| :: ValidatePrice(records[i]).None?) ==>
              Valid(PutAll(directory, table, records, runId))
  {
    if records != [] {
      var before, r := records[..|records| - 1], records[|records| - 1];
      PutAllKeepsForm(directory, table, before, runId);
      PutKeepsForm(directory, PutAll(directory, table, before, runId), r, runId);
    }
  }

  lemma {:induction false} UniqueIsAcceptable(calendar: Calendar, records: seq<DailyPriceRecord>)
    ensures forall i | 0 <= i < |Unique(calendar, records)| :: Acceptable(calendar, Unique(calendar, records)[i])
  {
    if records != [] {
      UniqueIsAcceptable(calendar, records[..|records| - 1]);
    }
  }

  // Ingestion keeps the table in the scale of its columns, and it keeps every row valid.
  lemma {:induction false} IngestKeepsForm(
    calendar: Calendar, directory: Directory, single: bool, table: Table, records: seq<DailyPriceRecord>, runId: int)
    requires Injective(directory)
    ensures var after := Ingest(calendar, directory, single, table, records, runId).table;
            (InScale(table) ==> InScale(after)) && (Valid(table) ==> Valid(after))
  {
    var all := IngestIsPut(calendar, directory, single, table, records, runId);
    var kept := Unique(calendar, records);
    UniqueIsAcceptable(calendar, records);
    UniqueIsDistinct(calendar, records);
    StocksAreKept(single, kept);
    forall i | 0 <= i < |all| ensures ValidatePrice(all[i]).None? {
      assert all[i] in Accepted(calendar, single, records) && all[i] in kept;
    }
    PutAllKeepsForm(directory, table, all, runId);
  }

  // ------------------------------------------------------------- second run

  // How many of the records of known securities do not fit their columns.
  function Unfitting(directory: Directory, records: seq<DailyPriceRecord>): nat {
    if records == [] then 0
    else
      var r := records[|records| - 1];
      Unfitting(directory, records[..|records| - 1]) + One(r.security in directory && !Fits(r))
  }

  lemma {:induction false} UnfittingIff(directory: Directory, records: seq<DailyPriceRecord>)
    ensures Unfitting(directory, records) == 0 <==> forall r | r in records && r.security in directory :: Fits(r)
  {
    if records != [] {
      var before, last := records[..|records| - 1], records[|records| - 1];
      UnfittingIff(directory, before);
      assert records == before + [last];
    }
  }

  ghost predicate SameValues(a: Table, b: Table) {
    a.Keys == b.Keys && forall cell | cell in a :: a[cell].values == b[cell].values
  }

  // The table already holds the record, as its columns store it.
  ghost predicate Holds(directory: Directory, table: Table, r: DailyPriceRecord) {
    r.security in directory ==>
      var cell := Cell(directory[r.security], r.tradeDate);
      cell in table && table[cell].values == StoredValues(r.values)
  }

  // Putting a held record again updates its row exactly when it does not fit, and never
  // changes a value.
  lemma {:induction false} HeldFate(directory: Directory, table: Table, r: DailyPriceRecord, runId: int)
    requires Holds(directory, table, r)
    ensures FateOf(directory, table, r)
            == if r.security !in directory then Missing else if Fits(r) then Unchanged else Updated
    ensures SameValues(Put(directory, table, r, runId), table)
    ensures Fits(r) || r.security !in directory ==> Put(directory, table, r, runId) == table
  {
  }

  lemma {:induction false} PutAgain(directory: Directory, table: Table, records: seq<DailyPriceRecord>, runId: int)
    requires forall i | 0 <= i < |records| :: Holds(directory, table, records[i])
    ensures SameValues(PutAll(directory, table, records, runId), table)
    ensures (forall r | r in records && r.security in directory :: Fits(r)) ==>
              PutAll(directory, table, records, runId) == table
  {
    if records != [] {
      var before, r := records[..|records| - 1], records[|records| - 1];
      PutAgain(directory, table, before, runId);
      assert Holds(directory, PutAll(directory, table, before, runId), r);
      HeldFate(directory, PutAll(directory, table, before, runId), r, runId);
      assert forall x | x in before :: x in records;
    }
  }

  lemma {:induction false} CountAgain(directory: Directory, table: Table, records: seq<DailyPriceRecord>)
    requires forall i | 0 <= i < |records| :: Holds(directory, table, records[i])
    ensures Count(directory, table, records, Inserted) == 0
    ensures Count(directory, table, records, Updated) == Unfitting(directory, records)
  {
    if records != [] {
      CountAgain(directory, table, records[..|records| - 1]);
      HeldFate(directory, table, records[|records| - 1], 0);
    }
  }

  lemma {:induction false} MissingIgnoresTable(directory: Directory, a: Table, b: Table, records: seq<DailyPriceRecord>)
    ensures Count(directory, a, records, Missing) == Count(directory, b, records, Missing)
  {
    if records != [] {
      MissingIgnoresTable(directory, a, b, records[..|records| - 1]);
    }
  }

  // After a run on a table in scale, the table holds every accepted record.
  lemma {:induction false} IngestHolds(
    calendar: Calendar, directory: Directory, single: bool, table: Table, records: seq<DailyPriceRecord>, runId: int)
    requires Injective(directory) && InScale(table)
    ensures var after := Ingest(calendar, directory, single, table, records, runId).table;
            forall r | r in Accepted(calendar, single, records) :: Holds(directory, after, r)
  {
    var all := IngestIsPut(calendar, directory, single, table, records, runId);
    PutAllCells(directory, table, all, runId);
    var after := Ingest(calendar, directory, single, table, records, runId).table;
    forall r | r in Accepted(calendar, single, records) ensures Holds(directory, after, r) {
      assert r in all;
      var j :| 0 <= j < |all| && all[j] == r;
      if r.security in directory {
        var cell := Cell(directory[r.security], r.tradeDate);
        assert Lookup(after, cell) == Some(Stored(Lookup(table, cell), r, runId));
      }
    }
  }

  // A second run on the same records, under whatever run id, changes no value, inserts
  // nothing and rejects what the first one rejected. It updates exactly the rows of the
  // accepted records that do not fit their columns.
  lemma {:induction false} SecondRunUpdatesUnfitting(
    calendar: Calendar, directory: Directory, single: bool, table: Table, records: seq<DailyPriceRecord>,
    firstId: int, secondId: int)
    requires Injective(directory) && InScale(table)
    ensures var first := Ingest(calendar, directory, single, table, records, firstId);
            var second := Ingest(calendar, directory, single, first.table, records, secondId);
            && SameValues(second.table, first.table)
            && second.run.inserted == 0 && second.run.rejected == first.run.rejected
            && second.run.updated == Unfitting(directory, Accepted(calendar, single, records))
            && (second.run.updated == 0 ==> second.table == first.table)
  {
    var after := Ingest(calendar, directory, single, table, records, firstId).table;
    var all := IngestIsPut(calendar, directory, single, table, records, firstId);
    var again := IngestIsPut(calendar, directory, single, after, records, secondId);
    var accepted := Accepted(calendar, single, records);
    IngestHolds(calendar, directory, single, table, records, firstId);
    forall i | 0 <= i < |again| ensures Holds(directory, after, again[i]) {
      assert again[i] in accepted;
    }
    PutAgain(directory, after, again, secondId);
    CountAgain(directory, after, accepted);
    MissingIgnoresTable(directory, table, after, accepted);
    UnfittingIff(directory, accepted);
  }

  // An identical second run updates nothing exactly when every accepted record of a known
  // security fits its columns.
  lemma {:induction false} SecondRunIsQuietIff(
    calendar: Calendar, directory: Directory, single: bool, table: Table, records: seq<DailyPriceRecord>,
    firstId: int, secondId: int)
    requires Injective(directory) && InScale(table)
    ensures var first := Ingest(calendar, directory, single, table, records, firstId);
            var second := Ingest(calendar, directory, single, first.table, records, secondId);
            second.run.updated == 0 <==>
              forall r | r in Accepted(calendar, single, records) && r.security in directory :: Fits(r)
  {
    SecondRunUpdatesUnfitting(calendar, directory, single, table, records, firstId, secondId);
    UnfittingIff(directory, Accepted(calendar, single, records));
  }

  // The table after runs with these ids on the same records.
  function TableAfter(
    calendar: Calendar, directory: Directory, single: bool, table: Table, records: seq<DailyPriceRecord>,
    ids: seq<int>): Table
  {
    if ids == [] then table
    else
      var before := TableAfter(calendar, directory, single, table, records, ids[..|ids| - 1]);
      Ingest(calendar, directory, single, before, records, ids[|ids| - 1]).table
  }

  lemma {:induction false} RunsKeepScale(
    calendar: Calendar, directory: Directory, single: bool, table: Table, records: seq<DailyPriceRecord>,
    ids: seq<int>)
    requires Injective(directory) && InScale(table)
    ensures InScale(TableAfter(calendar, directory, single, table, records, ids))
  {
    if ids != [] {
      var init := ids[..|ids| - 1];
      RunsKeepScale(calendar, directory, single, table, records, init);
      IngestKeepsForm(
        calendar, directory, single, TableAfter(calendar, directory, single, table, records, init), records,
        ids[|ids| - 1]);
    }
  }

  // Every run after the first one updates those rows again, and nothing else.
  lemma {:induction false} EveryLaterRunUpdates(
    calendar: Calendar, directory: Directory, single: bool, table: Table, records: seq<DailyPriceRecord>,
    ids: seq<int>, next: int)
    requires Injective(directory) && InScale(table) && ids != []
    ensures var before := TableAfter(calendar, directory, single, table, records, ids);
            var later := Ingest(calendar, directory, single, before, records, next);
            && SameValues(later.table, before) && later.run.inserted == 0
            && later.run.updated == Unfitting(directory, Accepted(calendar, single, records))
  {
    var init := ids[..|ids| - 1];
    RunsKeepScale(calendar, directory, single, table, records, init);
    SecondRunUpdatesUnfitting(
      calendar, directory, single, TableAfter(calendar, directory, single, table, records, init), records,
      ids[|ids| - 1], next);
  }

  // A turnover with five decimals, which its column stores with four.
  function FiveDecimals(security: SecurityKey): DailyPriceRecord {
    var none := Ohlc(None, None, None, None);
    DailyPriceRecord(security, 1, PriceValues(none, none, None, Some(1.00001), Provenance(0, 0, 0, 0, None, None)))
  }

  // Sent twice to an empty table, that record is inserted by the first run and updated by
  // the second, and by every later one.
  lemma {:induction false} FiveDecimalsWitness(security: SecurityKey, id: int, firstId: int, secondId: int)
    ensures var records, directory := [FiveDecimals(security)], map[security := id];
            var first := Ingest(None, directory, true, map[], records, firstId);
            var second := Ingest(None, directory, true, first.table, records, secondId);
            first.run.inserted == 1 && second.run.updated == 1 && second.run.rejected == 0
  {
    var r := FiveDecimals(security);
    var records, directory := [r], map[security := id];
    assert records[..0] == [];
    assert FourDecimals(1.00001) == 1.0;
    assert !Fits(r);
    assert Unique(None, records) == [] + [r] && Stocks(true, [r]) == [] + [r];
    assert Accepted(None, true, records) == [r];
    assert FateOf(directory, map[], r) == Inserted;
    CountLast(directory, map[], records, Inserted);
    CountLast(directory, map[], records, Missing);
    assert Unfitting(directory, [r]) == 1;
    var all := IngestIsPut(None, directory, true, map[], records, firstId);
    SecondRunUpdatesUnfitting(None, directory, true, map[], records, firstId, secondId);
  }
}
