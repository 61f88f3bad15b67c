// The daily audit's statuses and the anomalies the monitor extracts from them.
module Audit {
  import opened Wrappers
  import opened Monitoring

  datatype AuditStatus = Complete | Partial | NoData | Unavailable | Stale | Failed

  datatype Market = Twse | Tpex | OtherMarket

  datatype Security = Security(market: Market, common: bool, active: bool)

  datatype Price = Price(security: int, date: int)

  datatype Dataset =
    | FuturesProducts
    | FuturesContracts
    | FuturesDaily
    | FuturesInstitutional
    | TraderConcentration
    | OptionPutCall
    | OptionStrikeOi
    | VolatilityIndex

  // What the audit queries read: the security master and the prices as rows (a price names
  // an existing security), everything else as the counts its queries return.
  datatype Database = Database(
    securities: map<int, Security>,
    duplicateSecurities: nat,
    prices: seq<Price>,
    duplicatePrices: Market -> nat,
    failedRun: Market -> bool,
    breadth: nat, margin: nat, lending: nat, institutional: nat, duplicateSpot: nat,
    derivativeRows: Dataset -> nat,
    duplicateDerivatives: nat,
    snapshots: nat, ma240Valid: nat, ma240Eligible: nat, latestSnapshot: Option<int>, duplicateSnapshots: nat,
    industryRows: nat)

  predicate Eligible(s: Security, market: Market) {
    s.market == market && s.common && s.active
  }

  // Active common stocks of a market.
  function Stocks(db: Database, market: Market): nat {
    |set id | id in db.securities && Eligible(db.securities[id], market)|
  }

  // Price rows of a date for the active common stocks of a market.
  function PriceRows(db: Database, prices: seq<Price>, market: Market, date: int): nat {
    if prices == [] then 0
    else
      var last := prices[|prices| - 1];
      PriceRows(db, prices[..|prices| - 1], market, date)
      + (if last.date == date && last.security in db.securities && Eligible(db.securities[last.security], market) then 1
        else 0)
  }

  // --------------------------------------------------------------- statuses

  function MasterStatus(db: Database): AuditStatus {
    if |db.securities| > 0 && db.duplicateSecurities == 0 then Complete else Failed
  }

  // 98% of the eligible stocks have a row.
  predicate Covered(rows: nat, expected: nat) {
    expected == 0 || 100 * rows >= 98 * expected
  }

  function DailyStatus(db: Database, market: Market, date: int): AuditStatus {
    var rows := PriceRows(db, db.prices, market, date);
    if rows == 0 then (if db.failedRun(market) then Failed else NoData)
    else if db.duplicatePrices(market) > 0 then Failed
    else if Covered(rows, Stocks(db, market)) then Complete
    else Partial
  }

  function SpotStatus(db: Database): AuditStatus {
    if db.breadth + db.margin + db.lending + db.institutional == 0 then NoData
    else if db.breadth >= 2 && db.margin >= 2 && db.duplicateSpot == 0 then Complete
    else if db.duplicateSpot > 0 then Failed
    else Partial
  }

  function DerivativeStatus(db: Database, dataset: Dataset): AuditStatus {
    if dataset.VolatilityIndex? then Unavailable
    else if db.derivativeRows(dataset) > 0 then Complete
    else NoData
  }

  function TechnicalStatus(db: Database, date: int, trading: bool): AuditStatus {
    var active := Stocks(db, Twse) + Stocks(db, Tpex);
    var missing := if db.ma240Eligible > db.ma240Valid then db.ma240Eligible - db.ma240Valid else 0;
    if db.snapshots > 0 then
      if db.duplicateSnapshots > 0 || missing > 0 then Failed
      else if 100 * db.snapshots >= 98 * active then Complete
      else Partial
    else if !trading then NoData
    else if db.latestSnapshot.Some? && db.latestSnapshot.value < date then Stale
    else NoData
  }

  function IndustryStatus(db: Database): AuditStatus {
    if db.industryRows > 0 then Complete else NoData
  }

  // Duplicate prices over every market.
  function AllDuplicatePrices(db: Database): nat {
    db.duplicatePrices(Twse) + db.duplicatePrices(Tpex) + db.duplicatePrices(OtherMarket)
  }

  function DuplicateStatus(db: Database): AuditStatus {
    if db.duplicateSecurities + AllDuplicatePrices(db) + db.duplicateSnapshots + db.duplicateSpot
      + db.duplicateDerivatives == 0
    then Complete else Failed
  }

  const DERIVATIVE_DATASETS: seq<Dataset> :=
    [FuturesProducts, FuturesContracts, FuturesDaily, FuturesInstitutional, TraderConcentration, OptionPutCall,
     OptionStrikeOi, VolatilityIndex]

  datatype DerivativeAudit = DerivativeAudit(dataset: Dataset, status: AuditStatus)

  datatype Report = Report(
    date: int, trading: bool, master: AuditStatus, twse: AuditStatus, tpex: AuditStatus, spot: AuditStatus,
    derivatives: seq<DerivativeAudit>, technicals: AuditStatus, industry: AuditStatus, duplicates: AuditStatus,
    overall: AuditStatus)

  // The statuses the overall status is computed from, as the loop collects them.
  function Considered(derivatives: seq<DerivativeAudit>): seq<AuditStatus> {
    if derivatives == [] then []
    else
      var last := derivatives[|derivatives| - 1];
      Considered(derivatives[..|derivatives| - 1]) + (if last.dataset.VolatilityIndex? then [] else [last.status])
  }

  method OverallStatus(
      trading: bool, twse: AuditStatus, tpex: AuditStatus, spot: AuditStatus, derivatives: seq<DerivativeAudit>,
      technicals: AuditStatus, industry: AuditStatus, duplicates: AuditStatus) returns (overall: AuditStatus)
    ensures overall == Overall(trading, [twse, tpex, spot, technicals, industry] + Considered(derivatives), duplicates)
  {
    if duplicates.Failed? {
      return Failed;
    }
    if !trading {
      return Complete;
    }
    var statuses := [twse, tpex, spot, technicals, industry];
    for i := 0 to |derivatives|
      invariant statuses == [twse, tpex, spot, technicals, industry] + Considered(derivatives[..i])
    {
      assert derivatives[..i + 1][..i] == derivatives[..i];
      if !derivatives[i].dataset.VolatilityIndex? {
        statuses := statuses + [derivatives[i].status];
      }
    }
    assert derivatives[..|derivatives|] == derivatives;
    if exists i :: 0 <= i < |statuses| && statuses[i].Failed? {
      return Failed;
    }
    if forall i :: 0 <= i < |statuses| ==> statuses[i].Complete? {
      return Complete;
    }
    if forall i :: 0 <= i < |statuses| ==> statuses[i].NoData? {
      return NoData;
    }
    if exists i :: 0 <= i < |statuses| && statuses[i].Stale? {
      return Stale;
    }
    return Partial;
  }

  function Overall(trading: bool, statuses: seq<AuditStatus>, duplicates: AuditStatus): AuditStatus {
    if duplicates.Failed? then Failed
    else if !trading then Complete
    else if exists i :: 0 <= i < |statuses| && statuses[i].Failed? then Failed
    else if forall i :: 0 <= i < |statuses| ==> statuses[i].Complete? then Complete
    else if forall i :: 0 <= i < |statuses| ==> statuses[i].NoData? then NoData
    else if exists i :: 0 <= i < |statuses| && statuses[i].Stale? then Stale
    else Partial
  }

  method AuditDate(db: Database, date: int, trading: bool) returns (report: Report)
    ensures report == ReportOf(db, date, trading)
  {
    var derivatives: seq<DerivativeAudit> := [];
    for i := 0 to |DERIVATIVE_DATASETS|
      invariant derivatives == DerivativeAudits(db, DERIVATIVE_DATASETS[..i])
    {
      assert DERIVATIVE_DATASETS[..i + 1][..i] == DERIVATIVE_DATASETS[..i];
      derivatives := derivatives
        + [DerivativeAudit(DERIVATIVE_DATASETS[i], DerivativeStatus(db, DERIVATIVE_DATASETS[i]))];
    }
    assert DERIVATIVE_DATASETS[..|DERIVATIVE_DATASETS|] == DERIVATIVE_DATASETS;
    var twse, tpex := DailyStatus(db, Twse, date), DailyStatus(db, Tpex, date);
    var technicals := TechnicalStatus(db, date, trading);
    var overall := OverallStatus(trading, twse, tpex, SpotStatus(db), derivatives, technicals, IndustryStatus(db),
      DuplicateStatus(db));
    report := Report(date, trading, MasterStatus(db), twse, tpex, SpotStatus(db), derivatives, technicals,
      IndustryStatus(db), DuplicateStatus(db), overall);
  }

  function DerivativeAudits(db: Database, datasets: seq<Dataset>): seq<DerivativeAudit> {
    if datasets == [] then []
    else
      var last := datasets[|datasets| - 1];
      DerivativeAudits(db, datasets[..|datasets| - 1]) + [DerivativeAudit(last, DerivativeStatus(db, last))]
  }

  function ReportOf(db: Database, date: int, trading: bool): Report {
    var derivatives := DerivativeAudits(db, DERIVATIVE_DATASETS);
    var twse, tpex := DailyStatus(db, Twse, date), DailyStatus(db, Tpex, date);
    var technicals := TechnicalStatus(db, date, trading);
    Report(date, trading, MasterStatus(db), twse, tpex, SpotStatus(db), derivatives, technicals, IndustryStatus(db),
           DuplicateStatus(db),
           Overall(trading, [twse, tpex, SpotStatus(db), technicals, IndustryStatus(db)] + Considered(derivatives),
                   DuplicateStatus(db)))
  }

  // ------------------------------------------------------------- extraction

  datatype FailedRun = FailedRun(dataset: string, provider: string, message: string)

  function Raise(date: int, anomalyType: string, dataset: string, scope: string, severity: Severity): seq<Anomaly> {
    [Anomaly(Key(anomalyType, dataset, scope, date), severity, "")]
  }

  function MasterAnomalies(r: Report): seq<Anomaly> {
    match r.master
    case Failed => Raise(r.date, "DATASET_FAILED", "SECURITY_MASTER", "GLOBAL", Critical)
    case Partial => Raise(r.date, "DATASET_PARTIAL", "SECURITY_MASTER", "GLOBAL", Warning)
    case _ => []
  }

  function DailyAnomalies(r: Report, status: AuditStatus, dataset: string, scope: string): seq<Anomaly> {
    match status
    case Failed => Raise(r.date, "DATASET_FAILED", dataset, scope, Error)
    case Partial => Raise(r.date, "DATASET_PARTIAL", dataset, scope, Warning)
    case NoData => Raise(r.date, "DATASET_NO_DATA", dataset, scope, Error)
    case _ => []
  }

  function SpotAnomalies(r: Report): seq<Anomaly> {
    match r.spot
    case Failed => Raise(r.date, "DATASET_FAILED", "MARKET_SPOT", "GLOBAL", Error)
    case Partial => Raise(r.date, "DATASET_PARTIAL", "MARKET_SPOT", "GLOBAL", Warning)
    case _ => []
  }

  function DatasetName(dataset: Dataset): string {
    match dataset
    case FuturesProducts => "FUTURES_PRODUCTS"
    case FuturesContracts => "FUTURES_CONTRACTS"
    case FuturesDaily => "FUTURES_DAILY"
    case FuturesInstitutional => "FUTURES_INSTITUTIONAL"
    case TraderConcentration => "TRADER_CONCENTRATION"
    case OptionPutCall => "OPTION_PUT_CALL"
    case OptionStrikeOi => "OPTION_STRIKE_OI"
    case VolatilityIndex => "VOLATILITY_INDEX"
  }

  function DerivativeAnomaly(date: int, d: DerivativeAudit): seq<Anomaly> {
    if d.dataset.VolatilityIndex? then []
    else
      match d.status
      case Failed => Raise(date, "DATASET_FAILED", DatasetName(d.dataset), "TAIFEX", Error)
      case Partial => Raise(date, "DATASET_PARTIAL", DatasetName(d.dataset), "TAIFEX", Warning)
      case NoData => Raise(date, "DATASET_NO_DATA", DatasetName(d.dataset), "TAIFEX", Warning)
      case _ => []
  }

  function DerivativeAnomalies(date: int, derivatives: seq<DerivativeAudit>): seq<Anomaly> {
    if derivatives == [] then []
    else
      DerivativeAnomalies(date, derivatives[..|derivatives| - 1])
      + DerivativeAnomaly(date, derivatives[|derivatives| - 1])
  }

  function TechnicalAnomalies(r: Report): seq<Anomaly> {
    match r.technicals
    case Failed => Raise(r.date, "DATASET_FAILED", "TECHNICALS", "GLOBAL", Error)
    case Stale => Raise(r.date, "DATASET_STALE", "TECHNICALS", "GLOBAL", Warning)
    case Partial => Raise(r.date, "DATASET_PARTIAL", "TECHNICALS", "GLOBAL", Warning)
    case _ => []
  }

  function IndustryAnomalies(r: Report): seq<Anomaly> {
    match r.industry
    case Failed => Raise(r.date, "DATASET_FAILED", "INDUSTRY_STRENGTH", "GLOBAL", Error)
    case Partial => Raise(r.date, "DATASET_PARTIAL", "INDUSTRY_STRENGTH", "GLOBAL", Warning)
    case NoData => Raise(r.date, "DATASET_PARTIAL", "INDUSTRY_STRENGTH", "GLOBAL", Warning)
    case _ => []
  }

  function DuplicateAnomalies(r: Report): seq<Anomaly> {
    if r.duplicates.Failed? then Raise(r.date, "DUPLICATE_RECORDS", "DATABASE", "GLOBAL", Error) else []
  }

  function RunAnomaly(date: int, run: FailedRun): seq<Anomaly> {
    Raise(date, "INGESTION_RUN_FAILED", run.dataset, if run.provider == "" then "PROVIDER" else run.provider, Error)
  }

  function RunAnomalies(date: int, runs: seq<FailedRun>): seq<Anomaly> {
    if runs == [] then []
    else RunAnomalies(date, runs[..|runs| - 1]) + RunAnomaly(date, runs[|runs| - 1])
  }

  function Anomalies(r: Report, failedRuns: seq<FailedRun>): seq<Anomaly> {
    if !r.trading then []
    else
      RunAnomalies(r.date, failedRuns)
      + MasterAnomalies(r)
      + DailyAnomalies(r, r.twse, "TWSE_DAILY", "TWSE")
      + DailyAnomalies(r, r.tpex, "TPEX_DAILY", "TPEX")
      + SpotAnomalies(r)
      + DerivativeAnomalies(r.date, r.derivatives)
      + TechnicalAnomalies(r)
      + IndustryAnomalies(r)
      + DuplicateAnomalies(r)
  }

  method ExtractFailedRuns(date: int, failedRuns: seq<FailedRun>) returns (anomalies: seq<Anomaly>)
    ensures anomalies == RunAnomalies(date, failedRuns)
  {
    anomalies := [];
    for i := 0 to |failedRuns|
      invariant anomalies == RunAnomalies(date, failedRuns[..i])
    {
      assert failedRuns[..i + 1][..i] == failedRuns[..i];
      anomalies := anomalies + RunAnomaly(date, failedRuns[i]);
    }
    assert failedRuns[..|failedRuns|] == failedRuns;
  }

  method ExtractDerivatives(date: int, derivatives: seq<DerivativeAudit>) returns (anomalies: seq<Anomaly>)
    ensures anomalies == DerivativeAnomalies(date, derivatives)
  {
    anomalies := [];
    for i := 0 to |derivatives|
      invariant anomalies == DerivativeAnomalies(date, derivatives[..i])
    {
      assert derivatives[..i + 1][..i] == derivatives[..i];
      anomalies := anomalies + DerivativeAnomaly(date, derivatives[i]);
    }
    assert derivatives[..|derivatives|] == derivatives;
  }

  method ExtractAnomalies(r: Report, failedRuns: seq<FailedRun>) returns (anomalies: seq<Anomaly>)
    ensures anomalies == Anomalies(r, failedRuns)
  {
    if !r.trading {
      return [];
    }
    anomalies := ExtractFailedRuns(r.date, failedRuns);
    anomalies := anomalies + MasterAnomalies(r);
    anomalies := anomalies + DailyAnomalies(r, r.twse, "TWSE_DAILY", "TWSE");
    anomalies := anomalies + DailyAnomalies(r, r.tpex, "TPEX_DAILY", "TPEX");
    anomalies := anomalies + SpotAnomalies(r);
    var derivatives := ExtractDerivatives(r.date, r.derivatives);
    anomalies := anomalies + derivatives;
    anomalies := anomalies + TechnicalAnomalies(r);
    anomalies := anomalies + IndustryAnomalies(r);
    anomalies := anomalies + DuplicateAnomalies(r);
  }

  // -------------------------------------------------------------- agreement

  lemma {:induction false} RowsNeedSecurities(db: Database, prices: seq<Price>, market: Market, date: int)
    requires PriceRows(db, prices, market, date) > 0
    ensures |db.securities| > 0
    decreases |prices|
  {
    var last := prices[|prices| - 1];
    if last.date == date && last.security in db.securities && Eligible(db.securities[last.security], market) {
      assert db.securities.Keys != {};
    } else {
      RowsNeedSecurities(db, prices[..|prices| - 1], market, date);
    }
  }

  ghost predicate AllComplete(statuses: seq<AuditStatus>) {
    forall i | 0 <= i < |statuses| :: statuses[i].Complete?
  }

  ghost predicate CompleteOrNoData(statuses: seq<AuditStatus>) {
    forall i | 0 <= i < |statuses| :: statuses[i].Complete? || statuses[i].NoData?
  }

  // The derivatives raise nothing exactly when every dataset that counts is complete.
  lemma {:induction false} DerivativesSilentIff(db: Database, date: int, datasets: seq<Dataset>)
    ensures CompleteOrNoData(Considered(DerivativeAudits(db, datasets)))
    ensures DerivativeAnomalies(date, DerivativeAudits(db, datasets)) == []
            <==> AllComplete(Considered(DerivativeAudits(db, datasets)))
    decreases |datasets|
  {
    if datasets != [] {
      var n := |datasets| - 1;
      DerivativesSilentIff(db, date, datasets[..n]);
      var before, after := DerivativeAudits(db, datasets[..n]), DerivativeAudits(db, datasets);
      assert after[..|after| - 1] == before;
      var b, a := Considered(before), Considered(after);
      assert a == b + (if datasets[n].VolatilityIndex? then [] else [DerivativeStatus(db, datasets[n])]);
      if AllComplete(a) {
        assert forall i | 0 <= i < |b| :: b[i] == a[i];
      }
      assert !datasets[n].VolatilityIndex? ==> a[|b|] == DerivativeStatus(db, datasets[n]);
    }
  }

  // The incomplete day the monitor does not report: only the market spot or the technicals
  // have no data, everything else is complete.
  ghost predicate OnlySpotOrTechnicalsMissing(r: Report) {
    && r.twse.Complete? && r.tpex.Complete? && r.industry.Complete? && AllComplete(Considered(r.derivatives))
    && !r.duplicates.Failed?
    && (r.spot.Complete? || r.spot.NoData?)
    && (r.technicals.Complete? || r.technicals.NoData?)
  }

  // A trading day without failed runs raises nothing exactly when the master is complete
  // and at most the spot or the technicals lack data.
  lemma {:induction false} SilentIff(db: Database, date: int)
    ensures var r := ReportOf(db, date, true);
            Anomalies(r, []) == [] <==> OnlySpotOrTechnicalsMissing(r) && r.master.Complete?
  {
    var r := ReportOf(db, date, true);
    DerivativesSilentIff(db, date, DERIVATIVE_DATASETS);
    AnomaliesAreParts(r);
    StatusesSilentIff(db, date);
  }

  // Each status but the derivatives' raises nothing exactly when it is complete, or lacks
  // data for the spot or the technicals.
  lemma {:induction false} StatusesSilentIff(db: Database, date: int)
    ensures var r := ReportOf(db, date, true);
            && (MasterAnomalies(r) == [] <==> r.master.Complete?)
            && (DailyAnomalies(r, r.twse, "TWSE_DAILY", "TWSE") == [] <==> r.twse.Complete?)
            && (DailyAnomalies(r, r.tpex, "TPEX_DAILY", "TPEX") == [] <==> r.tpex.Complete?)
            && (SpotAnomalies(r) == [] <==> r.spot.Complete? || r.spot.NoData?)
            && (TechnicalAnomalies(r) == [] <==> r.technicals.Complete? || r.technicals.NoData?)
            && (IndustryAnomalies(r) == [] <==> r.industry.Complete?)
            && (DuplicateAnomalies(r) == [] <==> !r.duplicates.Failed?)
  {
  }

  lemma {:induction false} AnomaliesAreParts(r: Report)
    requires r.trading
    ensures Anomalies(r, []) == [] <==>
        && MasterAnomalies(r) == []
        && DailyAnomalies(r, r.twse, "TWSE_DAILY", "TWSE") == []
        && DailyAnomalies(r, r.tpex, "TPEX_DAILY", "TPEX") == []
        && SpotAnomalies(r) == [] && DerivativeAnomalies(r.date, r.derivatives) == []
        && TechnicalAnomalies(r) == [] && IndustryAnomalies(r) == [] && DuplicateAnomalies(r) == []
  {
    assert RunAnomalies(r.date, []) == [];
  }

  lemma {:induction false} OverallCases(r: Report, considered: seq<AuditStatus>)
    requires r.trading && CompleteOrNoData(considered) && considered == Considered(r.derivatives)
    requires r.overall == Overall(true, [r.twse, r.tpex, r.spot, r.technicals, r.industry] + considered, r.duplicates)
    ensures r.overall.Complete? ==> OnlySpotOrTechnicalsMissing(r) && r.spot.Complete? && r.technicals.Complete?
    ensures OnlySpotOrTechnicalsMissing(r) ==> r.overall.Complete? || r.overall.Partial?
  {
    var five := [r.twse, r.tpex, r.spot, r.technicals, r.industry];
    var statuses := five + considered;
    assert statuses[0] == r.twse && statuses[1] == r.tpex && statuses[2] == r.spot && statuses[3] == r.technicals
        && statuses[4] == r.industry;
    assert forall i | 5 <= i < |statuses| :: statuses[i] == considered[i - 5];
    if r.overall.Complete? {
      forall i | 0 <= i < |considered| ensures considered[i].Complete? {
        assert statuses[i + 5].Complete?;
      }
    }
  }

  // Audit and monitor agree on a trading day without failed runs. A COMPLETE day raises no
  // anomaly (security master included); a FAILED, STALE or NO_DATA day raises at least one;
  // a PARTIAL day is silent exactly when only the spot or the technicals have no data.
  lemma {:induction false} AuditAndMonitorAgree(db: Database, date: int)
    ensures
      var r := ReportOf(db, date, true);
      && (r.overall.Complete? ==> Anomalies(r, []) == [])
      && (r.overall.Failed? || r.overall.Stale? || r.overall.NoData? ==> Anomalies(r, []) != [])
      && (r.overall.Partial? ==> (Anomalies(r, []) == [] <==> OnlySpotOrTechnicalsMissing(r)))
  {
    var r := ReportOf(db, date, true);
    DerivativesSilentIff(db, date, DERIVATIVE_DATASETS);
    SilentIff(db, date);
    OverallCases(r, Considered(r.derivatives));
    if OnlySpotOrTechnicalsMissing(r) {
      RowsNeedSecurities(db, db.prices, Twse, date);
    }
  }

  // Failed ingestion runs are reported on every trading day, first and whatever the audit
  // says, and nothing else is when the report raises nothing.
  lemma {:induction false} FailedRunsAreReported(r: Report, failedRuns: seq<FailedRun>)
    requires r.trading
    ensures RunAnomalies(r.date, failedRuns) <= Anomalies(r, failedRuns)
    ensures |RunAnomalies(r.date, failedRuns)| == |failedRuns|
    ensures Anomalies(r, []) == [] ==> Anomalies(r, failedRuns) == RunAnomalies(r.date, failedRuns)
  {
    RunAnomaliesOfEach(r.date, failedRuns);
    var runs := RunAnomalies(r.date, failedRuns);
    var x := Longer(runs, runs, MasterAnomalies(r));
    x := Longer(runs, x, DailyAnomalies(r, r.twse, "TWSE_DAILY", "TWSE"));
    x := Longer(runs, x, DailyAnomalies(r, r.tpex, "TPEX_DAILY", "TPEX"));
    x := Longer(runs, x, SpotAnomalies(r));
    x := Longer(runs, x, DerivativeAnomalies(r.date, r.derivatives));
    x := Longer(runs, x, TechnicalAnomalies(r));
    x := Longer(runs, x, IndustryAnomalies(r));
    x := Longer(runs, x, DuplicateAnomalies(r));
    AnomaliesAreParts(r);
  }

  lemma {:induction false} Longer(start: seq<Anomaly>, a: seq<Anomaly>, b: seq<Anomaly>) returns (both: seq<Anomaly>)
    requires start <= a
    ensures both == a + b && start <= both && (b == [] ==> both == a)
  {
    both := a + b;
  }

  lemma {:induction false} RunAnomaliesOfEach(date: int, failedRuns: seq<FailedRun>)
    ensures |RunAnomalies(date, failedRuns)| == |failedRuns|
  {
    if failedRuns != [] {
      RunAnomaliesOfEach(date, failedRuns[..|failedRuns| - 1]);
    }
  }

  // Every anomaly of a report carries the report's date, as the monitor's run requires.
  lemma {:induction false} DerivativeDates(date: int, derivatives: seq<DerivativeAudit>)
    ensures forall i | 0 <= i < |DerivativeAnomalies(date, derivatives)| ::
            DerivativeAnomalies(date, derivatives)[i].key.date == date
    decreases |derivatives|
  {
    if derivatives != [] {
      DerivativeDates(date, derivatives[..|derivatives| - 1]);
    }
  }

  lemma {:induction false} RunDates(date: int, runs: seq<FailedRun>)
    ensures forall i | 0 <= i < |RunAnomalies(date, runs)| :: RunAnomalies(date, runs)[i].key.date == date
    decreases |runs|
  {
    if runs != [] {
      RunDates(date, runs[..|runs| - 1]);
    }
  }

  ghost predicate AllOn(date: int, anomalies: seq<Anomaly>) {
    forall i | 0 <= i < |anomalies| :: anomalies[i].key.date == date
  }

  lemma {:induction false} AnomaliesAreOfTheDay(r: Report, failedRuns: seq<FailedRun>)
    ensures AllOn(r.date, Anomalies(r, failedRuns))
  {
    RunDates(r.date, failedRuns);
    DerivativeDates(r.date, r.derivatives);
    if r.trading {
      PiecesAreOfTheDay(r);
      var x := BothOn(r.date, RunAnomalies(r.date, failedRuns), MasterAnomalies(r));
      x := BothOn(r.date, x, DailyAnomalies(r, r.twse, "TWSE_DAILY", "TWSE"));
      x := BothOn(r.date, x, DailyAnomalies(r, r.tpex, "TPEX_DAILY", "TPEX"));
      x := BothOn(r.date, x, SpotAnomalies(r));
      x := BothOn(r.date, x, DerivativeAnomalies(r.date, r.derivatives));
      x := BothOn(r.date, x, TechnicalAnomalies(r));
      x := BothOn(r.date, x, IndustryAnomalies(r));
      x := BothOn(r.date, x, DuplicateAnomalies(r));
    }
  }

  lemma {:induction false} PiecesAreOfTheDay(r: Report)
    ensures AllOn(r.date, MasterAnomalies(r)) && AllOn(r.date, SpotAnomalies(r))
    ensures AllOn(r.date, DailyAnomalies(r, r.twse, "TWSE_DAILY", "TWSE"))
    ensures AllOn(r.date, DailyAnomalies(r, r.tpex, "TPEX_DAILY", "TPEX"))
    ensures AllOn(r.date, TechnicalAnomalies(r)) && AllOn(r.date, IndustryAnomalies(r))
    ensures AllOn(r.date, DuplicateAnomalies(r))
  {
  }

  lemma {:induction false} BothOn(date: int, a: seq<Anomaly>, b: seq<Anomaly>) returns (both: seq<Anomaly>)
    requires AllOn(date, a) && AllOn(date, b)
    ensures both == a + b && AllOn(date, both)
  {
    both := a + b;
  }

  // One monitoring run: audit the date, extract, and let every key take its step.
  method Monitor(
      service: DataQualityMonitoringService, db: Database, date: int, trading: bool, failedRuns: seq<FailedRun>,
      now: int)
    returns (result: RunResult)
    modifies service
    ensures IsRun(service.cooldown, old(service.records),
                  Run(date, trading, if trading then Anomalies(ReportOf(db, date, trading), failedRuns) else [], now),
                  service.records, result.notifications)
    ensures trading && failedRuns == [] && ReportOf(db, date, trading).overall.Complete? ==>
              && result.active == 0
              && (forall i | 0 <= i < |result.notifications| :: result.notifications[i].isResolution)
              && (result.notifications == [] <==> NoneActive(old(service.records), date))
  {
    var detected: seq<Anomaly> := [];
    if trading {
      var report := AuditDate(db, date, trading);
      detected := ExtractAnomalies(report, failedRuns);
      AnomaliesAreOfTheDay(report, failedRuns);
      AuditAndMonitorAgree(db, date);
    }
    var run := Run(date, trading, detected, now);
    ghost var before := service.records;
    result := service.EvaluateDate(run);
    if detected == [] {
      NothingDetected(service.cooldown, before, run, service.records, result.notifications);
      if trading {
        SilentRunIff(service.cooldown, before, run, service.records, result.notifications);
      }
    }
  }

  lemma {:induction false} NothingDetected(
      cooldown: int, before: Records, run: Run, after: Records, notes: seq<Notification>)
    requires IsRun(cooldown, before, run, after, notes) && run.detected == []
    ensures forall i | 0 <= i < |notes| :: notes[i].isResolution
  {
    forall i | 0 <= i < |notes|
      ensures notes[i].isResolution
    {
      var key := notes[i].key;
      assert NotesOf(notes, key) == StepFor(cooldown, before, run, key).notes;
      NoteIsOwn(notes, i);
    }
  }

  // No record of the date is active.
  ghost predicate NoneActive(records: Records, date: int) {
    forall key | key in records && key.date == date :: !records[key].status.Active?
  }

  // A run that detects nothing sends nothing exactly when no record of its date is active.
  lemma {:induction false} SilentRunIff(
    cooldown: int, before: Records, run: Run, after: Records, notes: seq<Notification>)
    requires IsRun(cooldown, before, run, after, notes) && run.trading && run.detected == []
    ensures notes == [] <==> NoneActive(before, run.date)
  {
    forall key ensures NotesOf(notes, key) == StepFor(cooldown, before, run, key).notes {
    }
    if notes == [] {
      forall key | key in before && key.date == run.date ensures !before[key].status.Active? {
        assert NotesOf(notes, key) == [];
      }
    }
    if notes != [] {
      var key := notes[0].key;
      NoteIsOwn(notes, 0);
      assert StepFor(cooldown, before, run, key).notes != [];
      assert key in before && key.date == run.date && before[key].status.Active?;
    }
  }

  // A database on which the audit of the date is COMPLETE.
  function CompleteDatabase(date: int): Database {
    Database(
      map[1 := Security(Twse, true, true), 2 := Security(Tpex, true, true)], 0,
      [Price(1, date), Price(2, date)], market => 0, market => false,
      2, 2, 0, 0, 0, dataset => 1, 0, 2, 0, 0, None, 0, 1)
  }

  lemma {:induction false} CompleteDatabaseIsComplete(date: int)
    ensures ReportOf(CompleteDatabase(date), date, true).overall.Complete?
  {
    var db := CompleteDatabase(date);
    OneStock(date);
    assert db.prices[..1] == [Price(1, date)] && db.prices[..0] == [];
    assert PriceRows(db, [], Twse, date) == 0 && PriceRows(db, [], Tpex, date) == 0;
    assert [Price(1, date)][..0] == [];
    assert PriceRows(db, [Price(1, date)], Twse, date) == 1 && PriceRows(db, [Price(1, date)], Tpex, date) == 0;
    assert PriceRows(db, db.prices, Twse, date) == 1 && PriceRows(db, db.prices, Tpex, date) == 1;
    DatasetsComplete(db, DERIVATIVE_DATASETS);
    var r := ReportOf(db, date, true);
    assert r.technicals.Complete? && r.spot.Complete? && r.industry.Complete? && r.duplicates.Complete?;
    var statuses := [r.twse, r.tpex, r.spot, r.technicals, r.industry] + Considered(r.derivatives);
    forall i | 0 <= i < |statuses| ensures statuses[i].Complete? {
      if i >= 5 {
        assert statuses[i] == Considered(r.derivatives)[i - 5];
      }
    }
  }

  lemma {:induction false} OneStock(date: int)
    ensures Stocks(CompleteDatabase(date), Twse) == 1 && Stocks(CompleteDatabase(date), Tpex) == 1
  {
    var db := CompleteDatabase(date);
    assert (set id | id in db.securities && Eligible(db.securities[id], Twse)) == {1};
    assert (set id | id in db.securities && Eligible(db.securities[id], Tpex)) == {2};
  }

  lemma {:induction false} DatasetsComplete(db: Database, datasets: seq<Dataset>)
    requires forall dataset :: db.derivativeRows(dataset) > 0
    ensures AllComplete(Considered(DerivativeAudits(db, datasets)))
  {
    if datasets != [] {
      DatasetsComplete(db, datasets[..|datasets| - 1]);
    }
  }

  // A COMPLETE day that notifies: the first run of the day finds a failed ingestion run,
  // which has succeeded by the second run. The audit is COMPLETE both times, and the second
  // run sends a resolution.
  lemma {:induction false} CompleteDayWitness(cooldown: int, date: int, failed: FailedRun, now: int, later: int)
    ensures
      var r := ReportOf(CompleteDatabase(date), date, true);
      var key := RunAnomaly(date, failed)[0].key;
      var runs := [Run(date, true, Anomalies(r, [failed]), now), Run(date, true, Anomalies(r, []), later)];
      var notes := TraceOf(cooldown, runs, key).notes;
      && r.overall.Complete? && Anomalies(r, []) == []
      && |notes| == 2 && !notes[0].isResolution && notes[1].isResolution && notes[1].at == later
  {
    var db := CompleteDatabase(date);
    var r, key := ReportOf(db, date, true), RunAnomaly(date, failed)[0].key;
    CompleteDatabaseIsComplete(date);
    AuditAndMonitorAgree(db, date);
    FailedRunsAreReported(r, [failed]);
    assert RunAnomalies(date, [failed]) == RunAnomalies(date, [failed][..0]) + RunAnomaly(date, failed);
    assert Anomalies(r, [failed]) == RunAnomaly(date, failed);
    var first, second := Run(date, true, Anomalies(r, [failed]), now), Run(date, true, [], later);
    var runs := [first, second];
    assert runs[..1] == [first] && [first][..0] == [];
    assert Detected(first.detected, key).Some?;
    var one := TraceOf(cooldown, [first], key);
    assert one == TraceStep(cooldown, first, key, TraceOf(cooldown, [], key));
    assert TraceOf(cooldown, runs, key) == TraceStep(cooldown, second, key, one);
  }

  lemma {:induction false} NoteIsOwn(notes: seq<Notification>, i: nat)
    requires i < |notes|
    ensures notes[i] in NotesOf(notes, notes[i].key)
    decreases |notes|
  {
    if i < |notes| - 1 {
      NoteIsOwn(notes[..|notes| - 1], i);
    }
  }
}
