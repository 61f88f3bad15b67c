// What each status of the daily report stands for in terms of the counts of the database, and
// which anomaly it raises.
module AuditStatuses {
  import opened Wrappers
  import opened Monitoring
  import opened Audit

  // ------------------------------------------------------------ daily prices

  predicate IsStock(db: Database, id: int, market: Market) {
    && id in db.securities
    && db.securities[id].market == market && db.securities[id].common && db.securities[id].active
  }

  // The active common stocks of a market, and the positions of their prices of a date.
  function StocksOf(db: Database, market: Market): set<int> {
    set id | id in db.securities && IsStock(db, id, market)
  }

  function PricesOf(db: Database, prices: seq<Price>, market: Market, date: int): set<int> {
    set i | 0 <= i < |prices| && IsRow(db, prices[i], market, date)
  }

  predicate IsRow(db: Database, p: Price, market: Market, date: int) {
    p.date == date && IsStock(db, p.security, market)
  }

  lemma {:induction false} OnePriceMore(db: Database, prices: seq<Price>, market: Market, date: int)
    requires prices != []
    ensures |PricesOf(db, prices, market, date)|
            == |PricesOf(db, prices[..|prices| - 1], market, date)|
               + if IsRow(db, prices[|prices| - 1], market, date) then 1 else 0
  {
    var last := |prices| - 1;
    assert PricesOf(db, prices, market, date)
           == PricesOf(db, prices[..last], market, date) + if IsRow(db, prices[last], market, date) then {last} else {};
  }

  lemma {:induction false} RowsCount(db: Database, prices: seq<Price>, market: Market, date: int)
    ensures PriceRows(db, prices, market, date) == |PricesOf(db, prices, market, date)|
  {
    if prices == [] {
      assert PricesOf(db, prices, market, date) == {};
    } else {
      var last := |prices| - 1;
      RowsCount(db, prices[..last], market, date);
      OnePriceMore(db, prices, market, date);
    }
  }

  lemma {:induction false} StocksCount(db: Database, market: Market)
    ensures Stocks(db, market) == |StocksOf(db, market)|
  {
    assert StocksOf(db, market) == set id | id in db.securities && Eligible(db.securities[id], market);
  }

  // At most one stock in fifty is missing.
  predicate FewMissing(rows: int, expected: int) {
    50 * (expected - rows) <= expected
  }

  // A market's day: without a row it is FAILED or NO_DATA by whether a run failed; a
  // duplicate makes it FAILED; otherwise it is COMPLETE while few stocks are missing.
  ghost predicate DailyIs(db: Database, market: Market, date: int, status: AuditStatus) {
    var rows, expected := |PricesOf(db, db.prices, market, date)|, |StocksOf(db, market)|;
    var duplicate := db.duplicatePrices(market) > 0;
    match status
    case Complete => rows > 0 && !duplicate && FewMissing(rows, expected)
    case Partial => rows > 0 && !duplicate && !FewMissing(rows, expected)
    case NoData => rows == 0 && !db.failedRun(market)
    case Failed => (rows == 0 && db.failedRun(market)) || (rows > 0 && duplicate)
    case Unavailable => false
    case Stale => false
  }

  lemma {:induction false} DailyIff(db: Database, market: Market, date: int, status: AuditStatus)
    ensures DailyStatus(db, market, date) == status <==> DailyIs(db, market, date, status)
  {
    RowsCount(db, db.prices, market, date);
    StocksCount(db, market);
  }

  // ---------------------------------------------------------- other datasets

  // Market spot: two rows each of breadth and margin make it COMPLETE, no row of any kind NO_DATA.
  predicate SpotIs(db: Database, status: AuditStatus) {
    var some := db.breadth > 0 || db.margin > 0 || db.lending > 0 || db.institutional > 0;
    match status
    case Complete => db.breadth >= 2 && db.margin >= 2 && db.duplicateSpot == 0
    case Partial => some && (db.breadth < 2 || db.margin < 2) && db.duplicateSpot == 0
    case NoData => !some
    case Failed => some && db.duplicateSpot > 0
    case Unavailable => false
    case Stale => false
  }

  // Technical snapshots: a duplicate or a missing long average makes a day FAILED; a day
  // without any is STALE when it is a trading day with an earlier snapshot.
  ghost predicate TechnicalsAre(db: Database, date: int, trading: bool, status: AuditStatus) {
    var some := db.snapshots > 0;
    var broken := db.duplicateSnapshots > 0 || db.ma240Valid < db.ma240Eligible;
    var few := FewMissing(db.snapshots, |StocksOf(db, Twse)| + |StocksOf(db, Tpex)|);
    var earlier := trading && db.latestSnapshot.Some? && db.latestSnapshot.value < date;
    match status
    case Complete => some && !broken && few
    case Partial => some && !broken && !few
    case NoData => !some && !earlier
    case Failed => some && broken
    case Stale => !some && earlier
    case Unavailable => false
  }

  predicate DerivativeIs(db: Database, dataset: Dataset, status: AuditStatus) {
    match status
    case Complete => !dataset.VolatilityIndex? && db.derivativeRows(dataset) > 0
    case NoData => !dataset.VolatilityIndex? && db.derivativeRows(dataset) == 0
    case Unavailable => dataset.VolatilityIndex?
    case _ => false
  }

  predicate AnyDuplicate(db: Database) {
    || db.duplicateSecurities > 0 || db.duplicatePrices(Twse) > 0 || db.duplicatePrices(Tpex) > 0
    || db.duplicatePrices(OtherMarket) > 0 || db.duplicateSnapshots > 0 || db.duplicateSpot > 0
    || db.duplicateDerivatives > 0
  }

  // The status of every dataset in the report, exactly. The derivatives come in their order.
  lemma {:induction false} StatusesIff(db: Database, date: int, trading: bool, status: AuditStatus)
    ensures
      var r := ReportOf(db, date, trading);
      && r.date == date && r.trading == trading
      && (r.master == status <==>
            || (status.Complete? && db.securities != map[] && db.duplicateSecurities == 0)
            || (status.Failed? && (db.securities == map[] || db.duplicateSecurities > 0)))
      && (r.twse == status <==> DailyIs(db, Twse, date, status))
      && (r.tpex == status <==> DailyIs(db, Tpex, date, status))
      && (r.spot == status <==> SpotIs(db, status))
      && (r.technicals == status <==> TechnicalsAre(db, date, trading, status))
      && (r.industry == status <==>
            (status.Complete? && db.industryRows > 0) || (status.NoData? && db.industryRows == 0))
      && (r.duplicates == status <==>
            (status.Complete? && !AnyDuplicate(db)) || (status.Failed? && AnyDuplicate(db)))
  {
    DailyIff(db, Twse, date, status);
    DailyIff(db, Tpex, date, status);
    SpotIff(db, status);
    TechnicalsIff(db, date, trading, status);
  }

  lemma {:induction false} SpotIff(db: Database, status: AuditStatus)
    ensures SpotStatus(db) == status <==> SpotIs(db, status)
  {
  }

  lemma {:induction false} TechnicalsIff(db: Database, date: int, trading: bool, status: AuditStatus)
    ensures TechnicalStatus(db, date, trading) == status <==> TechnicalsAre(db, date, trading, status)
  {
    StocksCount(db, Twse);
    StocksCount(db, Tpex);
  }

  lemma {:induction false} AuditsAt(db: Database, datasets: seq<Dataset>, i: nat)
    requires i < |datasets|
    ensures |DerivativeAudits(db, datasets)| == |datasets|
    ensures DerivativeAudits(db, datasets)[i].dataset == datasets[i]
    ensures forall status ::
              DerivativeAudits(db, datasets)[i].status == status <==> DerivativeIs(db, datasets[i], status)
    decreases |datasets|
  {
    var last := |datasets| - 1;
    if i < last {
      AuditsAt(db, datasets[..last], i);
    } else if last > 0 {
      AuditsAt(db, datasets[..last], 0);
    }
  }

  lemma {:induction false} DerivativesIff(db: Database, date: int, trading: bool, i: nat, status: AuditStatus)
    requires i < 8
    ensures
      var d := ReportOf(db, date, trading).derivatives;
      && |d| == 8
      && d[i].dataset == [FuturesProducts, FuturesContracts, FuturesDaily, FuturesInstitutional, TraderConcentration,
                          OptionPutCall, OptionStrikeOi, VolatilityIndex][i]
      && (d[i].status == status <==> DerivativeIs(db, d[i].dataset, status))
  {
    AuditsAt(db, DERIVATIVE_DATASETS, i);
  }

  // ----------------------------------------------------------- overall status

  // A status the overall status depends on: every dataset of the day but the volatility index.
  ghost predicate Counts(r: Report, status: AuditStatus) {
    || status in {r.twse, r.tpex, r.spot, r.technicals, r.industry}
    || exists i :: 0 <= i < |r.derivatives| && CountsAt(r.derivatives, i, status)
  }

  predicate CountsAt(derivatives: seq<DerivativeAudit>, i: int, status: AuditStatus)
    requires 0 <= i < |derivatives|
  {
    !derivatives[i].dataset.VolatilityIndex? && derivatives[i].status == status
  }

  lemma {:induction false} ConsideredIff(derivatives: seq<DerivativeAudit>, status: AuditStatus)
    ensures status in Considered(derivatives)
            <==> exists i :: 0 <= i < |derivatives| && CountsAt(derivatives, i, status)
    decreases |derivatives|
  {
    if derivatives != [] {
      var last := |derivatives| - 1;
      ConsideredIff(derivatives[..last], status);
      forall i | 0 <= i < last ensures CountsAt(derivatives[..last], i, status) <==> CountsAt(derivatives, i, status) {
      }
      assert status in Considered(derivatives)
             <==> status in Considered(derivatives[..last]) || CountsAt(derivatives, last, status);
    }
  }

  // Only one status counts.
  ghost predicate AllAre(r: Report, status: AuditStatus) {
    forall other | Counts(r, other) :: other == status
  }

  // The overall status, exactly: a duplicate anywhere fails the day, a closed day is
  // COMPLETE, and otherwise a failure prevails, then agreement, then staleness.
  lemma {:induction false} OverallIff(db: Database, date: int, trading: bool)
    ensures
      var r := ReportOf(db, date, trading);
      var broken := r.duplicates.Failed? || (trading && Counts(r, Failed));
      && (r.overall.Failed? <==> broken)
      && (r.overall.Complete? <==> !broken && (!trading || AllAre(r, Complete)))
      && (r.overall.NoData? <==> !broken && trading && AllAre(r, NoData))
      && (r.overall.Stale? <==> !broken && trading && Counts(r, Stale))
      && (r.overall.Partial? <==>
            !broken && trading && !AllAre(r, Complete) && !AllAre(r, NoData) && !Counts(r, Stale))
  {
    var r := ReportOf(db, date, trading);
    var statuses := [r.twse, r.tpex, r.spot, r.technicals, r.industry] + Considered(r.derivatives);
    forall status ensures status in statuses <==> Counts(r, status) {
      ConsideredIff(r.derivatives, status);
    }
    assert Counts(r, r.twse);
    OverallOf(trading, statuses, r.duplicates);
  }

  lemma {:induction false} OverallOf(trading: bool, statuses: seq<AuditStatus>, duplicates: AuditStatus)
    ensures
      var overall, broken :=
        Overall(trading, statuses, duplicates), duplicates.Failed? || (trading && Failed in statuses);
      var complete, none := (forall s | s in statuses :: s == Complete), (forall s | s in statuses :: s == NoData);
      && (overall.Failed? <==> broken)
      && (overall.Complete? <==> !broken && (!trading || complete))
      && (overall.NoData? <==> !broken && trading && none && !complete)
      && (overall.Stale? <==> !broken && trading && !complete && !none && Stale in statuses)
      && (overall.Partial? <==> !broken && trading && !complete && !none && Stale !in statuses)
  {
    StatusIn(statuses, Failed);
    StatusIn(statuses, Stale);
    EveryStatus(statuses, Complete);
    EveryStatus(statuses, NoData);
  }

  lemma {:induction false} StatusIn(statuses: seq<AuditStatus>, status: AuditStatus)
    ensures (exists i :: 0 <= i < |statuses| && statuses[i] == status) <==> status in statuses
  {
  }

  lemma {:induction false} EveryStatus(statuses: seq<AuditStatus>, status: AuditStatus)
    ensures (forall i :: 0 <= i < |statuses| ==> statuses[i] == status)
            <==> forall other | other in statuses :: other == status
  {
    if forall other | other in statuses :: other == status {
      forall i | 0 <= i < |statuses| ensures statuses[i] == status {
        assert statuses[i] in statuses;
      }
    }
  }

  // ---------------------------------------------------------------- anomalies

  predicate Is(a: Anomaly, r: Report, anomalyType: string, dataset: string, scope: string, severity: Severity) {
    && a.key.anomalyType == anomalyType && a.key.dataset == dataset && a.key.scope == scope && a.key.date == r.date
    && a.severity == severity && a.message == ""
  }

  // One dataset: the severity of the anomaly that each status raises, if it raises any.
  predicate Raises(
      a: Anomaly, r: Report, status: AuditStatus, dataset: string, scope: string, failed: Severity,
      noData: Option<Severity>)
  {
    || (status.Failed? && Is(a, r, "DATASET_FAILED", dataset, scope, failed))
    || (status.Partial? && Is(a, r, "DATASET_PARTIAL", dataset, scope, Warning))
    || (status.NoData? && noData.Some? && Is(a, r, "DATASET_NO_DATA", dataset, scope, noData.value))
  }

  predicate DerivativeRaises(a: Anomaly, r: Report, d: DerivativeAudit) {
    || (d.dataset.FuturesProducts? && Raises(a, r, d.status, "FUTURES_PRODUCTS", "TAIFEX", Error, Some(Warning)))
    || (d.dataset.FuturesContracts? && Raises(a, r, d.status, "FUTURES_CONTRACTS", "TAIFEX", Error, Some(Warning)))
    || (d.dataset.FuturesDaily? && Raises(a, r, d.status, "FUTURES_DAILY", "TAIFEX", Error, Some(Warning)))
    || (d.dataset.FuturesInstitutional?
        && Raises(a, r, d.status, "FUTURES_INSTITUTIONAL", "TAIFEX", Error, Some(Warning)))
    || (d.dataset.TraderConcentration?
        && Raises(a, r, d.status, "TRADER_CONCENTRATION", "TAIFEX", Error, Some(Warning)))
    || (d.dataset.OptionPutCall? && Raises(a, r, d.status, "OPTION_PUT_CALL", "TAIFEX", Error, Some(Warning)))
    || (d.dataset.OptionStrikeOi? && Raises(a, r, d.status, "OPTION_STRIKE_OI", "TAIFEX", Error, Some(Warning)))
  }

  predicate RunRaises(a: Anomaly, r: Report, run: FailedRun) {
    Is(a, r, "INGESTION_RUN_FAILED", run.dataset, if run.provider == "" then "PROVIDER" else run.provider, Error)
  }

  // Everything a report raises.
  ghost predicate ReportRaises(a: Anomaly, r: Report) {
    || Raises(a, r, r.master, "SECURITY_MASTER", "GLOBAL", Critical, None)
    || Raises(a, r, r.twse, "TWSE_DAILY", "TWSE", Error, Some(Error))
    || Raises(a, r, r.tpex, "TPEX_DAILY", "TPEX", Error, Some(Error))
    || Raises(a, r, r.spot, "MARKET_SPOT", "GLOBAL", Error, None)
    || (exists i :: 0 <= i < |r.derivatives| && DerivativeRaises(a, r, r.derivatives[i]))
    || Raises(a, r, r.technicals, "TECHNICALS", "GLOBAL", Error, None)
    || (r.technicals.Stale? && Is(a, r, "DATASET_STALE", "TECHNICALS", "GLOBAL", Warning))
    || Raises(a, r, r.industry, "INDUSTRY_STRENGTH", "GLOBAL", Error, None)
    || (r.industry.NoData? && Is(a, r, "DATASET_PARTIAL", "INDUSTRY_STRENGTH", "GLOBAL", Warning))
    || (r.duplicates.Failed? && Is(a, r, "DUPLICATE_RECORDS", "DATABASE", "GLOBAL", Error))
  }

  lemma {:induction false} OneAnomaly(
      a: Anomaly, r: Report, anomalyType: string, dataset: string, scope: string, severity: Severity)
    ensures a in Raise(r.date, anomalyType, dataset, scope, severity)
            <==> Is(a, r, anomalyType, dataset, scope, severity)
  {
    var key := Key(anomalyType, dataset, scope, r.date);
    assert Raise(r.date, anomalyType, dataset, scope, severity) == [Anomaly(key, severity, "")];
  }

  lemma {:induction false} DailyRaises(a: Anomaly, r: Report, status: AuditStatus, dataset: string, scope: string)
    ensures a in DailyAnomalies(r, status, dataset, scope)
            <==> Raises(a, r, status, dataset, scope, Error, Some(Error))
  {
    OneAnomaly(a, r, "DATASET_FAILED", dataset, scope, Error);
    OneAnomaly(a, r, "DATASET_PARTIAL", dataset, scope, Warning);
    OneAnomaly(a, r, "DATASET_NO_DATA", dataset, scope, Error);
  }

  lemma {:induction false} GlobalRaises(a: Anomaly, r: Report)
    ensures a in MasterAnomalies(r) <==> Raises(a, r, r.master, "SECURITY_MASTER", "GLOBAL", Critical, None)
    ensures a in SpotAnomalies(r) <==> Raises(a, r, r.spot, "MARKET_SPOT", "GLOBAL", Error, None)
    ensures a in DuplicateAnomalies(r)
            <==> r.duplicates.Failed? && Is(a, r, "DUPLICATE_RECORDS", "DATABASE", "GLOBAL", Error)
  {
    OneAnomaly(a, r, "DATASET_FAILED", "SECURITY_MASTER", "GLOBAL", Critical);
    OneAnomaly(a, r, "DATASET_PARTIAL", "SECURITY_MASTER", "GLOBAL", Warning);
    OneAnomaly(a, r, "DATASET_FAILED", "MARKET_SPOT", "GLOBAL", Error);
    OneAnomaly(a, r, "DATASET_PARTIAL", "MARKET_SPOT", "GLOBAL", Warning);
    OneAnomaly(a, r, "DUPLICATE_RECORDS", "DATABASE", "GLOBAL", Error);
  }

  lemma {:induction false} AnalysisRaises(a: Anomaly, r: Report)
    ensures a in TechnicalAnomalies(r) <==>
              || Raises(a, r, r.technicals, "TECHNICALS", "GLOBAL", Error, None)
              || (r.technicals.Stale? && Is(a, r, "DATASET_STALE", "TECHNICALS", "GLOBAL", Warning))
    ensures a in IndustryAnomalies(r) <==>
              || Raises(a, r, r.industry, "INDUSTRY_STRENGTH", "GLOBAL", Error, None)
              || (r.industry.NoData? && Is(a, r, "DATASET_PARTIAL", "INDUSTRY_STRENGTH", "GLOBAL", Warning))
  {
    OneAnomaly(a, r, "DATASET_FAILED", "TECHNICALS", "GLOBAL", Error);
    OneAnomaly(a, r, "DATASET_PARTIAL", "TECHNICALS", "GLOBAL", Warning);
    OneAnomaly(a, r, "DATASET_STALE", "TECHNICALS", "GLOBAL", Warning);
    OneAnomaly(a, r, "DATASET_FAILED", "INDUSTRY_STRENGTH", "GLOBAL", Error);
    OneAnomaly(a, r, "DATASET_PARTIAL", "INDUSTRY_STRENGTH", "GLOBAL", Warning);
  }

  lemma {:induction false} OneDerivativeRaises(a: Anomaly, r: Report, d: DerivativeAudit)
    ensures a in DerivativeAnomaly(r.date, d) <==> DerivativeRaises(a, r, d)
  {
    OneAnomaly(a, r, "DATASET_FAILED", DatasetName(d.dataset), "TAIFEX", Error);
    OneAnomaly(a, r, "DATASET_PARTIAL", DatasetName(d.dataset), "TAIFEX", Warning);
    OneAnomaly(a, r, "DATASET_NO_DATA", DatasetName(d.dataset), "TAIFEX", Warning);
  }

  lemma {:induction false} DerivativesRaise(a: Anomaly, r: Report, derivatives: seq<DerivativeAudit>)
    ensures a in DerivativeAnomalies(r.date, derivatives)
            <==> exists i :: 0 <= i < |derivatives| && DerivativeRaises(a, r, derivatives[i])
    decreases |derivatives|
  {
    if derivatives != [] {
      var last := |derivatives| - 1;
      DerivativesRaise(a, r, derivatives[..last]);
      OneDerivativeRaises(a, r, derivatives[last]);
      assert forall i | 0 <= i < last :: derivatives[..last][i] == derivatives[i];
    }
  }

  lemma {:induction false} RunsRaise(a: Anomaly, r: Report, runs: seq<FailedRun>)
    ensures a in RunAnomalies(r.date, runs) <==> exists i :: 0 <= i < |runs| && RunRaises(a, r, runs[i])
    decreases |runs|
  {
    if runs != [] {
      var last := |runs| - 1;
      RunsRaise(a, r, runs[..last]);
      OneAnomaly(a, r, "INGESTION_RUN_FAILED", runs[last].dataset,
        if runs[last].provider == "" then "PROVIDER" else runs[last].provider, Error);
      assert forall i | 0 <= i < last :: runs[..last][i] == runs[i];
    }
  }

  // The anomalies of a report and the failed runs of its day, exactly; a closed day has none.
  lemma {:induction false} AnomaliesIff(r: Report, failedRuns: seq<FailedRun>, a: Anomaly)
    ensures a in Anomalies(r, failedRuns) <==>
              && r.trading
              && (|| (exists i :: 0 <= i < |failedRuns| && RunRaises(a, r, failedRuns[i]))
                  || ReportRaises(a, r))
  {
    RunsRaise(a, r, failedRuns);
    GlobalRaises(a, r);
    AnalysisRaises(a, r);
    DailyRaises(a, r, r.twse, "TWSE_DAILY", "TWSE");
    DailyRaises(a, r, r.tpex, "TPEX_DAILY", "TPEX");
    DerivativesRaise(a, r, r.derivatives);
  }
}
