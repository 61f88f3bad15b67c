// Daily price ingestion: reject duplicates, invalid prices and closed days, leave out
// expected non-stocks, then upsert the rest group by group into the price table.
module Ingestion {
  import opened Wrappers
  import opened Prices
  import opened Grouping

  datatype PriceKey = PriceKey(security: SecurityKey, tradeDate: int)

  datatype Cell = Cell(securityId: int, tradeDate: int)

  datatype Row = Row(values: PriceValues, runId: int)

  type Table = map<Cell, Row>

  // The active common stocks and their ids.
  type Directory = map<SecurityKey, int>

  // The trading days, when a calendar is configured.
  type Calendar = Option<set<int>>

  function KeyOf(r: DailyPriceRecord): PriceKey {
    PriceKey(r.security, r.tradeDate)
  }

  function SecurityOf(r: DailyPriceRecord): SecurityKey {
    r.security
  }

  // ---------------------------------------------------------------- filters

  predicate Acceptable(calendar: Calendar, r: DailyPriceRecord) {
    ValidatePrice(r).None? && (calendar.Some? ==> r.tradeDate in calendar.value)
  }

  predicate HasKey(records: seq<DailyPriceRecord>, key: PriceKey) {
    exists i | 0 <= i < |records| :: KeyOf(records[i]) == key
  }

  // The records kept: acceptable, and no earlier one kept under the same key.
  function Unique(calendar: Calendar, records: seq<DailyPriceRecord>): (kept: seq<DailyPriceRecord>)
    ensures |kept| <= |records|
  {
    if records == [] then []
    else
      var kept, r := Unique(calendar, records[..|records| - 1]), records[|records| - 1];
      if HasKey(kept, KeyOf(r)) || !Acceptable(calendar, r) then kept else kept + [r]
  }

  predicate StartsWith(code: string, prefix: string) {
    prefix <= code
  }

  predicate IsExpectedNonStock(code: string) {
    || |code| >= 6
    || StartsWith(code, "00") || StartsWith(code, "01") || StartsWith(code, "02") || StartsWith(code, "03")
    || StartsWith(code, "08")
    || StartsWith(code, "91")
    || |code| == 5
  }

  predicate Kept(single: bool, r: DailyPriceRecord) {
    single || !IsExpectedNonStock(r.security.code)
  }

  // Non-stocks are left out unless one security was asked for.
  function Stocks(single: bool, records: seq<DailyPriceRecord>): seq<DailyPriceRecord> {
    if records == [] then []
    else
      Stocks(single, records[..|records| - 1])
      + if Kept(single, records[|records| - 1]) then [records[|records| - 1]] else []
  }

  // ----------------------------------------------------------------- upsert

  datatype SyncResult = Synced(inserted: nat, updated: nat) | DuplicatePrice | MissingSecurity

  datatype SyncStep = SyncStep(table: Table, result: SyncResult)

  datatype Fate = Inserted | Updated | Unchanged | Missing

  // What becomes of a record. The row as it reads back is compared with the record as it
  // was sent; the run id does not take part.
  function FateOf(directory: Directory, table: Table, r: DailyPriceRecord): Fate {
    if r.security !in directory then Missing
    else
      var cell := Cell(directory[r.security], r.tradeDate);
      if cell !in table then Inserted
      else if table[cell].values != r.values then Updated
      else Unchanged
  }

  function Put(directory: Directory, table: Table, r: DailyPriceRecord, runId: int): Table {
    match FateOf(directory, table, r)
    case Missing => table
    case Unchanged => table
    case _ => table[Cell(directory[r.security], r.tradeDate) := Row(StoredValues(r.values), runId)]
  }

  function One(happened: bool): nat {
    if happened then 1 else 0
  }

  // The repository's upsert: it stops at a repeated record or an unknown security and
  // leaves what it did before.
  function SyncRecords(directory: Directory, table: Table, records: seq<DailyPriceRecord>, runId: int): SyncStep {
    if records == [] then SyncStep(table, Synced(0, 0))
    else
      var before, r := SyncRecords(directory, table, records[..|records| - 1], runId), records[|records| - 1];
      if !before.result.Synced? then before
      else if HasKey(records[..|records| - 1], KeyOf(r)) then SyncStep(before.table, DuplicatePrice)
      else
        var fate := FateOf(directory, before.table, r);
        if fate.Missing? then SyncStep(before.table, MissingSecurity)
        else
          SyncStep(
            Put(directory, before.table, r, runId),
            Synced(before.result.inserted + One(fate.Inserted?), before.result.updated + One(fate.Updated?)))
  }

  datatype Totals = Totals(table: Table, inserted: nat, updated: nat, failed: nat, duplicate: bool)

  // The totals after one more group; a repeated record stops the run.
  function AddGroup(before: Totals, step: SyncStep, size: nat): Totals {
    match step.result
    case Synced(inserted, updated) =>
      before.(table := step.table, inserted := before.inserted + inserted, updated := before.updated + updated)
    case MissingSecurity => before.(table := step.table, failed := before.failed + size)
    case DuplicatePrice => before.(duplicate := true)
  }

  function SyncGroups(
      directory: Directory, table: Table, groups: seq<Group<SecurityKey, DailyPriceRecord>>, runId: int): Totals {
    if groups == [] then Totals(table, 0, 0, 0, false)
    else
      var before, items := SyncGroups(directory, table, groups[..|groups| - 1], runId), groups[|groups| - 1].items;
      if before.duplicate then before else AddGroup(before, SyncRecords(directory, before.table, items, runId), |items|)
  }

  datatype Status = Succeeded | Partial | Failed

  datatype IngestionRun = IngestionRun(status: Status, fetched: nat, inserted: nat, updated: nat, rejected: nat)

  datatype Ingested = Ingested(table: Table, run: IngestionRun)

  // A repeated record would fail the run and roll back.
  function Ingest(
    calendar: Calendar, directory: Directory, single: bool, table: Table, records: seq<DailyPriceRecord>,
    runId: int): Ingested
  {
    var kept := Unique(calendar, records);
    var totals := SyncGroups(directory, table, GroupBy(Stocks(single, kept), SecurityOf), runId);
    Conclude(table, records, kept, totals)
  }

  function Conclude(table: Table, records: seq<DailyPriceRecord>, kept: seq<DailyPriceRecord>, totals: Totals): Ingested
    requires |kept| <= |records|
  {
    if totals.duplicate then Ingested(table, IngestionRun(Failed, |records|, 0, 0, |records|))
    else
      var rejected := |records| - |kept| + totals.failed;
      Ingested(
        totals.table,
        IngestionRun(if rejected > 0 then Partial else Succeeded, |records|, totals.inserted, totals.updated, rejected))
  }

  // ------------------------------------------------------------- first valid

  // The first acceptable record under a key.
  function FirstValid(calendar: Calendar, records: seq<DailyPriceRecord>, key: PriceKey): Option<DailyPriceRecord> {
    if records == [] then None
    else
      var before, r := FirstValid(calendar, records[..|records| - 1], key), records[|records| - 1];
      if before.Some? then before else if KeyOf(r) == key && Acceptable(calendar, r) then Some(r) else None
  }

  ghost predicate DistinctKeys(records: seq<DailyPriceRecord>) {
    forall i, j | 0 <= i < j < |records| :: KeyOf(records[i]) != KeyOf(records[j])
  }

  lemma {:induction false} UniqueIsDistinct(calendar: Calendar, records: seq<DailyPriceRecord>)
    ensures DistinctKeys(Unique(calendar, records))
  {
    if records != [] {
      UniqueIsDistinct(calendar, records[..|records| - 1]);
    }
  }

  lemma {:induction false} HasKeyMore(records: seq<DailyPriceRecord>, r: DailyPriceRecord, key: PriceKey)
    ensures HasKey(records + [r], key) <==> HasKey(records, key) || KeyOf(r) == key
  {
    if HasKey(records, key) {
      var i :| 0 <= i < |records| && KeyOf(records[i]) == key;
      assert (records + [r])[i] == records[i];
    }
    assert (records + [r])[|records|] == r;
  }

  ghost predicate AllUnder(records: seq<DailyPriceRecord>, key: PriceKey, found: Option<DailyPriceRecord>) {
    forall i | 0 <= i < |records| && KeyOf(records[i]) == key :: found == Some(records[i])
  }

  // What is kept under a key is its first acceptable record, once.
  lemma {:induction false} UniqueIsFirstValid(calendar: Calendar, records: seq<DailyPriceRecord>, key: PriceKey)
    ensures DistinctKeys(Unique(calendar, records))
    ensures HasKey(Unique(calendar, records), key) <==> FirstValid(calendar, records, key).Some?
    ensures AllUnder(Unique(calendar, records), key, FirstValid(calendar, records, key))
  {
    UniqueIsDistinct(calendar, records);
    if records != [] {
      var before, r := records[..|records| - 1], records[|records| - 1];
      UniqueIsFirstValid(calendar, before, key);
      HasKeyMore(Unique(calendar, before), r, key);
    }
  }

  lemma {:induction false} StocksAreKept(single: bool, records: seq<DailyPriceRecord>)
    requires DistinctKeys(records)
    ensures DistinctKeys(Stocks(single, records)) && |Stocks(single, records)| <= |records|
    ensures forall r :: r in Stocks(single, records) <==> r in records && Kept(single, r)
  {
    if records != [] {
      var before, r := records[..|records| - 1], records[|records| - 1];
      StocksAreKept(single, before);
      assert records == before + [r];
      forall i | 0 <= i < |Stocks(single, before)| ensures KeyOf(Stocks(single, before)[i]) != KeyOf(r) {
        assert Stocks(single, before)[i] in before;
      }
    }
  }

  // ------------------------------------------------------------ one big put

  function PutAll(directory: Directory, table: Table, records: seq<DailyPriceRecord>, runId: int): Table {
    if records == [] then table
    else Put(directory, PutAll(directory, table, records[..|records| - 1], runId), records[|records| - 1], runId)
  }

  // How many records have this fate against the table as it was.
  function Count(directory: Directory, table: Table, records: seq<DailyPriceRecord>, fate: Fate): nat {
    if records == [] then 0
    else
      Count(directory, table, records[..|records| - 1], fate)
      + One(FateOf(directory, table, records[|records| - 1]) == fate)
  }

  ghost predicate Injective(directory: Directory) {
    forall a, b | a in directory && b in directory && directory[a] == directory[b] :: a == b
  }

  // The row that a record leaves in its cell, which held `row` before.
  function Stored(row: Option<Row>, r: DailyPriceRecord, runId: int): Row {
    if row.Some? && row.value.values == r.values then row.value else Row(StoredValues(r.values), runId)
  }

  function Lookup(table: Table, cell: Cell): Option<Row> {
    if cell in table then Some(table[cell]) else None
  }

  ghost predicate Targets(directory: Directory, records: seq<DailyPriceRecord>, cell: Cell) {
    exists i | 0 <= i < |records| ::
      records[i].security in directory && Cell(directory[records[i].security], records[i].tradeDate) == cell
  }

  // Records with distinct keys each decide one cell, and leave all others.
  lemma {:induction false} PutAllCells(directory: Directory, table: Table, records: seq<DailyPriceRecord>, runId: int)
    requires DistinctKeys(records) && Injective(directory)
    ensures forall cell | !Targets(directory, records, cell) ::
            Lookup(PutAll(directory, table, records, runId), cell) == Lookup(table, cell)
    ensures forall i | 0 <= i < |records| && records[i].security in directory ::
              var cell := Cell(directory[records[i].security], records[i].tradeDate);
              Lookup(PutAll(directory, table, records, runId), cell)
                == Some(Stored(Lookup(table, cell), records[i], runId))
  {
    if records != [] {
      var before, r := records[..|records| - 1], records[|records| - 1];
      PutAllCells(directory, table, before, runId);
      var middle, after := PutAll(directory, table, before, runId), PutAll(directory, table, records, runId);
      if r.security in directory {
        LastCellIsFree(directory, records);
        var own := Cell(directory[r.security], r.tradeDate);
        assert Lookup(middle, own) == Lookup(table, own);
      }
      forall cell | !Targets(directory, records, cell) ensures Lookup(after, cell) == Lookup(table, cell) {
        assert !Targets(directory, before, cell);
      }
      forall i | 0 <= i < |records| && records[i].security in directory
        ensures var cell := Cell(directory[records[i].security], records[i].tradeDate);
                Lookup(after, cell) == Some(Stored(Lookup(table, cell), records[i], runId))
      {
        if i < |before| {
          assert before[i] == records[i] && KeyOf(before[i]) != KeyOf(r);
        }
      }
    }
  }

  lemma {:induction false} LastCellIsFree(directory: Directory, records: seq<DailyPriceRecord>)
    requires records != [] && DistinctKeys(records) && Injective(directory)
             && records[|records| - 1].security in directory
    ensures var r := records[|records| - 1];
            !Targets(directory, records[..|records| - 1], Cell(directory[r.security], r.tradeDate))
  {
    var r := records[|records| - 1];
    forall i | 0 <= i < |records| - 1
      ensures records[i].security in directory
              ==> Cell(directory[records[i].security], records[i].tradeDate) != Cell(directory[r.security], r.tradeDate)
    {
      assert KeyOf(records[i]) != KeyOf(r);
    }
  }

  // With distinct keys, the fate of a record does not depend on those before it.
  lemma {:induction false} FateIsStable(directory: Directory, table: Table, records: seq<DailyPriceRecord>, runId: int)
    requires records != [] && DistinctKeys(records) && Injective(directory)
    ensures var r := records[|records| - 1];
            FateOf(directory, PutAll(directory, table, records[..|records| - 1], runId), r)
              == FateOf(directory, table, r)
  {
    var before, r := records[..|records| - 1], records[|records| - 1];
    PutAllCells(directory, table, before, runId);
    if r.security in directory {
      LastCellIsFree(directory, records);
      var own := Cell(directory[r.security], r.tradeDate);
      assert Lookup(PutAll(directory, table, before, runId), own) == Lookup(table, own);
    }
  }

  lemma {:induction false} PutAllConcat(
      directory: Directory, table: Table, a: seq<DailyPriceRecord>, b: seq<DailyPriceRecord>, runId: int)
    ensures PutAll(directory, table, a + b, runId) == PutAll(directory, PutAll(directory, table, a, runId), b, runId)
  {
    if b == [] {
      assert a + b == a;
    } else {
      PutAllConcat(directory, table, a, b[..|b| - 1], runId);
      assert (a + b)[..|a + b| - 1] == a + b[..|b| - 1];
    }
  }

  lemma {:induction false} CountConcat(
      directory: Directory, table: Table, a: seq<DailyPriceRecord>, b: seq<DailyPriceRecord>, fate: Fate)
    ensures Count(directory, table, a + b, fate) == Count(directory, table, a, fate) + Count(directory, table, b, fate)
  {
    if b == [] {
      assert a + b == a;
    } else {
      CountConcat(directory, table, a, b[..|b| - 1], fate);
      assert (a + b)[..|a + b| - 1] == a + b[..|b| - 1];
    }
  }

  lemma {:induction false} CountsCoverAll(directory: Directory, table: Table, records: seq<DailyPriceRecord>)
    ensures |records| == Count(directory, table, records, Inserted) + Count(directory, table, records, Updated)
                         + Count(directory, table, records, Unchanged) + Count(directory, table, records, Missing)
  {
    if records != [] {
      CountsCoverAll(directory, table, records[..|records| - 1]);
    }
  }

  // ---------------------------------------------------- groups are one put

  ghost predicate AllKnown(directory: Directory, records: seq<DailyPriceRecord>) {
    forall i | 0 <= i < |records| :: records[i].security in directory
  }

  ghost predicate AllUnknown(directory: Directory, records: seq<DailyPriceRecord>) {
    forall i | 0 <= i < |records| :: records[i].security !in directory
  }

  lemma {:induction false} SyncOneMore(directory: Directory, table: Table, items: seq<DailyPriceRecord>, runId: int)
    requires items != [] && !HasKey(items[..|items| - 1], KeyOf(items[|items| - 1]))
             && items[|items| - 1].security in directory
    requires SyncRecords(directory, table, items[..|items| - 1], runId).result.Synced?
    ensures var before, r := SyncRecords(directory, table, items[..|items| - 1], runId), items[|items| - 1];
            var fate := FateOf(directory, before.table, r);
            SyncRecords(directory, table, items, runId)
            == SyncStep(
                 Put(directory, before.table, r, runId),
                 Synced(before.result.inserted + One(fate.Inserted?), before.result.updated + One(fate.Updated?)))
  {
  }

  // Known securities: the upsert puts every record, and counts the fates they have
  // against the table as it was before the earlier groups.
  lemma {:induction false} KnownGroupIsPut(
    directory: Directory, table: Table, earlier: seq<DailyPriceRecord>, items: seq<DailyPriceRecord>, runId: int)
    requires DistinctKeys(earlier + items) && Injective(directory) && AllKnown(directory, items)
    ensures SyncRecords(directory, PutAll(directory, table, earlier, runId), items, runId)
            == SyncStep(
                 PutAll(directory, table, earlier + items, runId),
                 Synced(Count(directory, table, items, Inserted), Count(directory, table, items, Updated)))
    ensures Count(directory, table, items, Missing) == 0
  {
    if items == [] {
      assert earlier + items == earlier;
    } else {
      LastOfGroup(earlier, items);
      KnownGroupIsPut(directory, table, earlier, items[..|items| - 1], runId);
      FateIsStable(directory, table, earlier + items, runId);
      KnownNext(directory, table, earlier, items, runId);
      CountLast(directory, table, items, Missing);
    }
  }

  lemma {:induction false} KnownNext(
    directory: Directory, table: Table, earlier: seq<DailyPriceRecord>, items: seq<DailyPriceRecord>, runId: int)
    requires items != [] && items[|items| - 1].security in directory
             && !HasKey(items[..|items| - 1], KeyOf(items[|items| - 1]))
    requires var before, r := items[..|items| - 1], items[|items| - 1];
             && (earlier + items)[..|earlier + items| - 1] == earlier + before
             && SyncRecords(directory, PutAll(directory, table, earlier, runId), before, runId)
                == SyncStep(
                     PutAll(directory, table, earlier + before, runId),
                     Synced(Count(directory, table, before, Inserted), Count(directory, table, before, Updated)))
             && FateOf(directory, PutAll(directory, table, earlier + before, runId), r) == FateOf(directory, table, r)
    ensures SyncRecords(directory, PutAll(directory, table, earlier, runId), items, runId)
            == SyncStep(
                 PutAll(directory, table, earlier + items, runId),
                 Synced(Count(directory, table, items, Inserted), Count(directory, table, items, Updated)))
  {
    SyncOneMore(directory, PutAll(directory, table, earlier, runId), items, runId);
    PutLast(directory, table, earlier + items, runId);
    CountLast(directory, table, items, Inserted);
    CountLast(directory, table, items, Updated);
  }

  lemma {:induction false} PutLast(directory: Directory, table: Table, records: seq<DailyPriceRecord>, runId: int)
    requires records != []
    ensures PutAll(directory, table, records, runId)
            == Put(directory, PutAll(directory, table, records[..|records| - 1], runId), records[|records| - 1], runId)
  {
  }

  lemma {:induction false} CountLast(directory: Directory, table: Table, records: seq<DailyPriceRecord>, fate: Fate)
    requires records != []
    ensures Count(directory, table, records, fate)
            == Count(directory, table, records[..|records| - 1], fate)
              + One(FateOf(directory, table, records[|records| - 1]) == fate)
  {
  }

  lemma {:induction false} LastOfGroup(earlier: seq<DailyPriceRecord>, items: seq<DailyPriceRecord>)
    requires items != [] && DistinctKeys(earlier + items)
    ensures var before, r, all := items[..|items| - 1], items[|items| - 1], earlier + items;
            && all[..|all| - 1] == earlier + before && all[|all| - 1] == r
            && DistinctKeys(earlier + before)
            && !HasKey(before, KeyOf(r))
  {
    var before, r, all := items[..|items| - 1], items[|items| - 1], earlier + items;
    assert forall i | 0 <= i < |before| :: all[|earlier| + i] == before[i];
    assert all[..|all| - 1] == earlier + before;
  }

  // An unknown security: nothing is written, and every record of the group is missing.
  lemma {:induction false} UnknownGroupIsRejected(
    directory: Directory, table: Table, counted: Table, items: seq<DailyPriceRecord>, runId: int)
    requires AllUnknown(directory, items)
    ensures items != [] ==> SyncRecords(directory, table, items, runId) == SyncStep(table, MissingSecurity)
    ensures PutAll(directory, table, items, runId) == table
    ensures Count(directory, counted, items, Missing) == |items|
    ensures Count(directory, counted, items, Inserted) == 0 && Count(directory, counted, items, Updated) == 0
  {
    if items != [] {
      UnknownGroupIsRejected(directory, table, counted, items[..|items| - 1], runId);
    }
  }

  // The totals of a run that put all of these records.
  function PutTotals(directory: Directory, table: Table, all: seq<DailyPriceRecord>, runId: int): Totals {
    Totals(
      PutAll(directory, table, all, runId),
      Count(directory, table, all, Inserted), Count(directory, table, all, Updated),
      Count(directory, table, all, Missing),
      false)
  }

  lemma {:induction false} PutKnownGroup(
    directory: Directory, table: Table, earlier: seq<DailyPriceRecord>, items: seq<DailyPriceRecord>, runId: int)
    requires DistinctKeys(earlier + items) && Injective(directory) && AllKnown(directory, items)
    ensures var before := PutTotals(directory, table, earlier, runId);
            AddGroup(before, SyncRecords(directory, before.table, items, runId), |items|)
            == PutTotals(directory, table, earlier + items, runId)
  {
    CountConcat(directory, table, earlier, items, Inserted);
    CountConcat(directory, table, earlier, items, Updated);
    CountConcat(directory, table, earlier, items, Missing);
    KnownGroupIsPut(directory, table, earlier, items, runId);
  }

  lemma {:induction false} PutUnknownGroup(
    directory: Directory, table: Table, earlier: seq<DailyPriceRecord>, items: seq<DailyPriceRecord>, runId: int)
    requires AllUnknown(directory, items) && items != []
    ensures var before := PutTotals(directory, table, earlier, runId);
            AddGroup(before, SyncRecords(directory, before.table, items, runId), |items|)
            == PutTotals(directory, table, earlier + items, runId)
  {
    CountConcat(directory, table, earlier, items, Inserted);
    CountConcat(directory, table, earlier, items, Updated);
    CountConcat(directory, table, earlier, items, Missing);
    PutAllConcat(directory, table, earlier, items, runId);
    UnknownGroupIsRejected(directory, PutAll(directory, table, earlier, runId), table, items, runId);
  }

  lemma {:induction false} GroupsArePut(
    directory: Directory, table: Table, groups: seq<Group<SecurityKey, DailyPriceRecord>>, runId: int)
    requires IsGrouping(groups, SecurityOf) && DistinctKeys(Flatten(groups)) && Injective(directory)
    ensures SyncGroups(directory, table, groups, runId) == PutTotals(directory, table, Flatten(groups), runId)
  {
    if groups != [] {
      var init, g := groups[..|groups| - 1], groups[|groups| - 1];
      var earlier, items := Flatten(init), g.items;
      assert Flatten(groups) == earlier + items;
      PrefixIsDistinct(earlier, items);
      GroupsArePut(directory, table, init, runId);
      assert forall k | 0 <= k < |items| :: SecurityOf(items[k]) == g.key;
      if g.key in directory {
        PutKnownGroup(directory, table, earlier, items, runId);
      } else {
        PutUnknownGroup(directory, table, earlier, items, runId);
      }
    }
  }

  lemma {:induction false} PrefixIsDistinct(a: seq<DailyPriceRecord>, b: seq<DailyPriceRecord>)
    requires DistinctKeys(a + b)
    ensures DistinctKeys(a)
  {
    assert forall i | 0 <= i < |a| :: (a + b)[i] == a[i];
  }

  ghost predicate SameMembers(a: seq<DailyPriceRecord>, b: seq<DailyPriceRecord>) {
    forall r :: r in a <==> r in b
  }

  // Grouping reorders the records and nothing more: distinct keys stay distinct, and each
  // fate is as frequent as before.
  lemma {:induction false} GroupingKeepsRecords(records: seq<DailyPriceRecord>)
    requires DistinctKeys(records)
    ensures DistinctKeys(Flatten(GroupBy(records, SecurityOf)))
            && SameMembers(Flatten(GroupBy(records, SecurityOf)), records)
  {
    if records != [] {
      GroupingKeepsRecords(records[..|records| - 1]);
      var a, b := GroupByInserts(records, SecurityOf);
      LastKeyIsFree(records, a + b);
      InsertKeepsKeys(a, records[|records| - 1], b);
      InsertKeepsMembers(a, b, records);
    }
  }

  lemma {:induction false} InsertKeepsMembers(
      a: seq<DailyPriceRecord>, b: seq<DailyPriceRecord>, records: seq<DailyPriceRecord>)
    requires records != [] && SameMembers(a + b, records[..|records| - 1])
    ensures SameMembers(a + [records[|records| - 1]] + b, records)
  {
    var init, last := records[..|records| - 1], records[|records| - 1];
    assert records == init + [last];
    forall r ensures r in a + [last] + b <==> r in records {
      assert r in a + b <==> r in init;
    }
  }

  lemma {:induction false} LastKeyIsFree(records: seq<DailyPriceRecord>, all: seq<DailyPriceRecord>)
    requires records != [] && DistinctKeys(records) && SameMembers(all, records[..|records| - 1])
    ensures forall i | 0 <= i < |all| :: KeyOf(all[i]) != KeyOf(records[|records| - 1])
  {
    forall i | 0 <= i < |all| ensures KeyOf(all[i]) != KeyOf(records[|records| - 1]) {
      assert all[i] in records[..|records| - 1];
      var j :| 0 <= j < |records| - 1 && records[j] == all[i];
    }
  }

  lemma {:induction false} InsertKeepsKeys(a: seq<DailyPriceRecord>, r: DailyPriceRecord, b: seq<DailyPriceRecord>)
    requires DistinctKeys(a + b) && forall i | 0 <= i < |a + b| :: KeyOf((a + b)[i]) != KeyOf(r)
    ensures DistinctKeys(a + [r] + b)
  {
    var all, after := a + b, a + [r] + b;
    forall i, j | 0 <= i < j < |after| ensures KeyOf(after[i]) != KeyOf(after[j]) {
      var k, l := if i < |a| then i else i - 1, if j < |a| then j else j - 1;
      assert i != |a| ==> after[i] == all[k];
      assert j != |a| ==> after[j] == all[l];
    }
  }

  lemma {:induction false} CountInsert(
    directory: Directory, table: Table, a: seq<DailyPriceRecord>, r: DailyPriceRecord, b: seq<DailyPriceRecord>,
    fate: Fate)
    ensures Count(directory, table, a + [r] + b, fate)
            == Count(directory, table, a + b, fate) + One(FateOf(directory, table, r) == fate)
  {
    CountConcat(directory, table, a + [r], b, fate);
    CountConcat(directory, table, a, b, fate);
    assert (a + [r])[..|a|] == a;
  }

  lemma {:induction false} GroupingKeepsCounts(
      directory: Directory, table: Table, records: seq<DailyPriceRecord>, fate: Fate)
    ensures Count(directory, table, Flatten(GroupBy(records, SecurityOf)), fate)
            == Count(directory, table, records, fate)
  {
    if records != [] {
      var before, r := records[..|records| - 1], records[|records| - 1];
      GroupingKeepsCounts(directory, table, before, fate);
      var a, b := GroupByInserts(records, SecurityOf);
      CountInsert(directory, table, a, r, b, fate);
    }
  }

  // ------------------------------------------------------------ main results

  function Accepted(calendar: Calendar, single: bool, records: seq<DailyPriceRecord>): seq<DailyPriceRecord> {
    Stocks(single, Unique(calendar, records))
  }

  // A run never meets a repeated record; it puts every accepted record at once, and its
  // counts are the fates of the accepted records against the table before the run.
  lemma {:induction false} IngestIsPut(
    calendar: Calendar, directory: Directory, single: bool, table: Table, records: seq<DailyPriceRecord>, runId: int)
    returns (all: seq<DailyPriceRecord>)
    requires Injective(directory)
    ensures DistinctKeys(all) && SameMembers(all, Accepted(calendar, single, records))
    ensures var result := Ingest(calendar, directory, single, table, records, runId);
            var accepted := Accepted(calendar, single, records);
            && result.table == PutAll(directory, table, all, runId)
            && result.run.inserted == Count(directory, table, accepted, Inserted)
            && result.run.updated == Count(directory, table, accepted, Updated)
            && result.run.rejected
               == |records| - |Unique(calendar, records)| + Count(directory, table, accepted, Missing)
            && result.run.status == if result.run.rejected > 0 then Partial else Succeeded
  {
    var kept, accepted := Unique(calendar, records), Accepted(calendar, single, records);
    UniqueIsFirstValid(calendar, records, PriceKey(SecurityKey(0, ""), 0));
    StocksAreKept(single, kept);
    var groups := GroupBy(accepted, SecurityOf);
    GroupByIsGrouping(accepted, SecurityOf);
    GroupingKeepsRecords(accepted);
    all := Flatten(groups);
    GroupsArePut(directory, table, groups, runId);
    GroupingKeepsCounts(directory, table, accepted, Inserted);
    GroupingKeepsCounts(directory, table, accepted, Updated);
    GroupingKeepsCounts(directory, table, accepted, Missing);
  }

  // Conservation: every fetched record is rejected, left out as a non-stock, inserted,
  // updated, or found unchanged; no run fails.
  lemma {:induction false} FetchedIsAccountedFor(
    calendar: Calendar, directory: Directory, single: bool, table: Table, records: seq<DailyPriceRecord>, runId: int)
    requires Injective(directory)
    ensures var run := Ingest(calendar, directory, single, table, records, runId).run;
            var kept, accepted := Unique(calendar, records), Accepted(calendar, single, records);
            && run.status != Failed
            && run.fetched == |records|
            && run.fetched
               == run.rejected + (|kept| - |accepted|) + run.inserted + run.updated
                 + Count(directory, table, accepted, Unchanged)
  {
    var all := IngestIsPut(calendar, directory, single, table, records, runId);
    CountsCoverAll(directory, table, Accepted(calendar, single, records));
  }

  // The table becomes the old one overridden, in the cell of each known security and date,
  // by the first acceptable record under that key, unless it is left out as a non-stock.
  lemma {:induction false} TableIsOverridden(
    calendar: Calendar, directory: Directory, single: bool, table: Table, records: seq<DailyPriceRecord>, runId: int,
    security: SecurityKey, date: int)
    requires Injective(directory) && security in directory
    ensures var cell := Cell(directory[security], date);
            var first := FirstValid(calendar, records, PriceKey(security, date));
            Lookup(Ingest(calendar, directory, single, table, records, runId).table, cell)
            == if first.Some? && Kept(single, first.value) then Some(Stored(Lookup(table, cell), first.value, runId))
              else Lookup(table, cell)
  {
    var key, cell := PriceKey(security, date), Cell(directory[security], date);
    var all := IngestIsPut(calendar, directory, single, table, records, runId);
    var kept, accepted := Unique(calendar, records), Accepted(calendar, single, records);
    var first := FirstValid(calendar, records, key);
    UniqueIsFirstValid(calendar, records, key);
    StocksAreKept(single, kept);
    PutAllCells(directory, table, all, runId);
    if first.Some? && Kept(single, first.value) {
      var i :| 0 <= i < |kept| && KeyOf(kept[i]) == key;
      assert kept[i] in accepted && kept[i] in all;
      var j :| 0 <= j < |all| && all[j] == kept[i];
      assert Cell(directory[all[j].security], all[j].tradeDate) == cell;
    } else {
      forall j | 0 <= j < |all| && all[j].security in directory
        ensures Cell(directory[all[j].security], all[j].tradeDate) != cell
      {
        assert all[j] in accepted && all[j] in kept;
        var i :| 0 <= i < |kept| && kept[i] == all[j];
        assert KeyOf(kept[i]) != key;
      }
      assert !Targets(directory, all, cell);
    }
  }

  // Cells of ids that no known security has are left alone.
  lemma {:induction false} OtherCellsStay(
    calendar: Calendar, directory: Directory, single: bool, table: Table, records: seq<DailyPriceRecord>, runId: int,
    cell: Cell)
    requires Injective(directory) && forall s | s in directory :: directory[s] != cell.securityId
    ensures Lookup(Ingest(calendar, directory, single, table, records, runId).table, cell) == Lookup(table, cell)
  {
    var all := IngestIsPut(calendar, directory, single, table, records, runId);
    PutAllCells(directory, table, all, runId);
  }

  // ----------------------------------------------------------------- service

  // The rows a repository reads ahead, and the part of the table they stand for.
  ghost predicate IsIndex(index: Table, table: Table, ids: set<int>, dates: set<int>) {
    forall cell: Cell | cell.securityId in ids && cell.tradeDate in dates :: Lookup(index, cell) == Lookup(table, cell)
  }

  class SqlPriceRepository {
    const directory: Directory
    var table: Table

    constructor (directory: Directory, table: Table)
      ensures this.directory == directory && this.table == table
    {
      this.directory, this.table := directory, table;
    }

    // Insert or update one row, in the table and in the rows read ahead.
    method Upsert(r: DailyPriceRecord, index: Table, runId: int) returns (index': Table, fate: Fate)
      requires r.security in directory
      requires var cell := Cell(directory[r.security], r.tradeDate); Lookup(index, cell) == Lookup(table, cell)
      modifies this
      ensures fate == FateOf(directory, old(table), r) && table == Put(directory, old(table), r, runId)
      ensures forall cell | Lookup(index, cell) == Lookup(old(table), cell) ::
              Lookup(index', cell) == Lookup(table, cell)
    {
      var cell, row := Cell(directory[r.security], r.tradeDate), Row(StoredValues(r.values), runId);
      assert cell in index <==> Lookup(table, cell).Some?;
      if cell !in index {
        table, index', fate := table[cell := row], index[cell := row], Inserted;
      } else if index[cell].values != r.values {
        table, index', fate := table[cell := row], index[cell := row], Updated;
      } else {
        index', fate := index, Unchanged;
      }
    }

    method Synchronize(records: seq<DailyPriceRecord>, runId: int) returns (result: SyncResult)
      modifies this
      ensures SyncStep(table, result) == SyncRecords(directory, old(table), records, runId)
    {
      var inserted: nat, updated: nat := 0, 0;
      var seen: set<PriceKey> := {};
      var ids := set i | 0 <= i < |records| && records[i].security in directory :: directory[records[i].security];
      var dates := set i | 0 <= i < |records| :: records[i].tradeDate;
      var index := map cell | cell in table && cell.securityId in ids && cell.tradeDate in dates :: table[cell];
      for n := 0 to |records|
        invariant Reached(directory, old(table), records, n, runId, table, inserted, updated)
        invariant Seen(seen, records, n)
        invariant IsIndex(index, table, ids, dates)
      {
        var r := records[n];
        SeenNext(seen, records, n);
        ReachedNext(directory, old(table), records, n, runId, table, inserted, updated);
        if KeyOf(r) in seen {
          return DuplicatePrice;
        }
        seen := seen + {KeyOf(r)};
        if r.security !in directory {
          return MissingSecurity;
        }
        var fate;
        assert directory[r.security] in ids && r.tradeDate in dates;
        index, fate := Upsert(r, index, runId);
        if fate == Inserted {
          inserted := inserted + 1;
        } else if fate == Updated {
          updated := updated + 1;
        }
      }
      assert records[..|records|] == records;
      result := Synced(inserted, updated);
    }
  }

  // The upsert after its first n records.
  ghost predicate Reached(
    directory: Directory, start: Table, records: seq<DailyPriceRecord>, n: nat, runId: int, table: Table, inserted: nat,
    updated: nat)
    requires n <= |records|
  {
    SyncRecords(directory, start, records[..n], runId) == SyncStep(table, Synced(inserted, updated))
  }

  lemma {:induction false} ReachedNext(
    directory: Directory, start: Table, records: seq<DailyPriceRecord>, n: nat, runId: int, table: Table, inserted: nat,
    updated: nat)
    requires n < |records| && Reached(directory, start, records, n, runId, table, inserted, updated)
    ensures HasKey(records[..n], KeyOf(records[n])) ==>
              SyncRecords(directory, start, records, runId) == SyncStep(table, DuplicatePrice)
    ensures !HasKey(records[..n], KeyOf(records[n])) && records[n].security !in directory ==>
              SyncRecords(directory, start, records, runId) == SyncStep(table, MissingSecurity)
    ensures !HasKey(records[..n], KeyOf(records[n])) && records[n].security in directory ==>
              var fate := FateOf(directory, table, records[n]);
              Reached(
                directory, start, records, n + 1, runId, Put(directory, table, records[n], runId),
                inserted + One(fate.Inserted?), updated + One(fate.Updated?))
  {
    var more := records[..n + 1];
    assert more[..|more| - 1] == records[..n] && more[|more| - 1] == records[n];
    if HasKey(records[..n], KeyOf(records[n])) || records[n].security !in directory {
      StopKeeps(directory, start, records, n + 1, runId);
    } else {
      SyncOneMore(directory, start, more, runId);
    }
  }

  ghost predicate Seen(seen: set<PriceKey>, records: seq<DailyPriceRecord>, n: nat)
    requires n <= |records|
  {
    forall key :: key in seen <==> HasKey(records[..n], key)
  }

  lemma {:induction false} SeenNext(seen: set<PriceKey>, records: seq<DailyPriceRecord>, n: nat)
    requires n < |records| && Seen(seen, records, n)
    ensures KeyOf(records[n]) in seen <==> HasKey(records[..n], KeyOf(records[n]))
    ensures Seen(seen + {KeyOf(records[n])}, records, n + 1)
  {
    var before, after := records[..n], records[..n + 1];
    assert after[n] == records[n];
    forall key
      ensures HasKey(after, key) <==> HasKey(before, key) || key == KeyOf(records[n])
    {
      if HasKey(before, key) {
        var i :| 0 <= i < |before| && KeyOf(before[i]) == key;
        assert after[i] == before[i];
      }
    }
  }

  // Once the upsert stops, later records do not matter.
  lemma {:induction false} StopKeeps(
      directory: Directory, table: Table, records: seq<DailyPriceRecord>, n: nat, runId: int)
    requires n <= |records| && !SyncRecords(directory, table, records[..n], runId).result.Synced?
    ensures SyncRecords(directory, table, records, runId) == SyncRecords(directory, table, records[..n], runId)
    decreases |records|
  {
    if n == |records| {
      assert records[..n] == records;
    } else {
      assert records[..|records| - 1][..n] == records[..n];
      StopKeeps(directory, table, records[..|records| - 1], n, runId);
    }
  }

  class DailyPriceIngestionService {
    const calendar: Calendar
    const repository: SqlPriceRepository

    constructor (calendar: Calendar, repository: SqlPriceRepository)
      ensures this.calendar == calendar && this.repository == repository
    {
      this.calendar, this.repository := calendar, repository;
    }

    method Filter(records: seq<DailyPriceRecord>, single: bool) returns (accepted: seq<DailyPriceRecord>, rejected: nat)
      ensures accepted == Accepted(calendar, single, records) && rejected == |records| - |Unique(calendar, records)|
    {
      var kept: seq<DailyPriceRecord> := [];
      rejected := 0;
      for n := 0 to |records|
        invariant kept == Unique(calendar, records[..n]) && rejected == n - |kept|
      {
        assert records[..n + 1][..n] == records[..n];
        if HasKey(kept, KeyOf(records[n])) || !Acceptable(calendar, records[n]) {
          rejected := rejected + 1;
        } else {
          kept := kept + [records[n]];
        }
      }
      assert records[..|records|] == records;
      accepted := [];
      for n := 0 to |kept|
        invariant accepted == Stocks(single, kept[..n])
      {
        assert kept[..n + 1][..n] == kept[..n];
        if Kept(single, kept[n]) {
          accepted := accepted + [kept[n]];
        }
      }
      assert kept[..|kept|] == kept;
    }

    method GroupAll(accepted: seq<DailyPriceRecord>) returns (groups: seq<Group<SecurityKey, DailyPriceRecord>>)
      ensures groups == GroupBy(accepted, SecurityOf)
    {
      groups := [];
      for n := 0 to |accepted|
        invariant groups == GroupBy(accepted[..n], SecurityOf)
      {
        assert accepted[..n + 1][..n] == accepted[..n];
        groups := Add(groups, accepted[n].security, accepted[n]);
      }
      assert accepted[..|accepted|] == accepted;
    }

    method Synchronize(records: seq<DailyPriceRecord>, single: bool, runId: int) returns (run: IngestionRun)
      modifies repository
      ensures Ingested(repository.table, run)
              == Ingest(calendar, repository.directory, single, old(repository.table), records, runId)
    {
      var saved := repository.table;
      var accepted, rejected := Filter(records, single);
      var groups := GroupAll(accepted);
      var totals := Totals(saved, 0, 0, 0, false);
      for g := 0 to |groups|
        invariant totals.table == repository.table && !totals.duplicate
        invariant ReachedGroup(repository.directory, saved, groups, g, runId, totals)
      {
        var result := repository.Synchronize(groups[g].items, runId);
        ReachedNextGroup(repository.directory, saved, groups, g, runId, totals);
        totals := AddGroup(totals, SyncStep(repository.table, result), |groups[g].items|);
        if result.DuplicatePrice? {
          repository.table := saved;
          return IngestionRun(Failed, |records|, 0, 0, |records|);
        }
      }
      assert groups[..|groups|] == groups;
      rejected := rejected + totals.failed;
      run := IngestionRun(if rejected > 0 then Partial else Succeeded, |records|, totals.inserted, totals.updated,
        rejected);
    }
  }

  // The run after its first g groups.
  ghost predicate ReachedGroup(
    directory: Directory, start: Table, groups: seq<Group<SecurityKey, DailyPriceRecord>>, g: nat, runId: int,
    totals: Totals)
    requires g <= |groups|
  {
    SyncGroups(directory, start, groups[..g], runId) == totals
  }

  lemma {:induction false} ReachedNextGroup(
    directory: Directory, start: Table, groups: seq<Group<SecurityKey, DailyPriceRecord>>, g: nat, runId: int,
    totals: Totals)
    requires g < |groups| && ReachedGroup(directory, start, groups, g, runId, totals) && !totals.duplicate
    ensures var step := SyncRecords(directory, totals.table, groups[g].items, runId);
            && ReachedGroup(directory, start, groups, g + 1, runId, AddGroup(totals, step, |groups[g].items|))
            && (step.result.DuplicatePrice? ==> SyncGroups(directory, start, groups, runId).duplicate)
  {
    var more := groups[..g + 1];
    assert more[..|more| - 1] == groups[..g] && more[|more| - 1] == groups[g];
    if SyncRecords(directory, totals.table, groups[g].items, runId).result.DuplicatePrice? {
      DuplicateStays(directory, start, groups, g + 1, runId);
    }
  }

  lemma {:induction false} DuplicateStays(
    directory: Directory, table: Table, groups: seq<Group<SecurityKey, DailyPriceRecord>>, g: nat, runId: int)
    requires g <= |groups| && SyncGroups(directory, table, groups[..g], runId).duplicate
    ensures SyncGroups(directory, table, groups, runId).duplicate
    decreases |groups|
  {
    if g == |groups| {
      assert groups[..g] == groups;
    } else {
      assert groups[..|groups| - 1][..g] == groups[..g];
      DuplicateStays(directory, table, groups[..|groups| - 1], g, runId);
    }
  }
}
