// The daily drift detector, and the conservation law that makes it meaningful: what a tenant owes
// for a period is what the provider has charged plus what has not been charged yet.
module Drift {
  import opened Basics
  import opened Billing
  import opened BillingRuns
  import opened ExactlyOnce

  datatype Period = Period(start: int, end: int)

  // tenant_id = ? AND ts >= start AND ts < end
  predicate Covers(w: Period, tenantID: string, evTenant: string, ts: int) {
    evTenant == tenantID && w.start <= ts < w.end
  }

  function PeriodUnits(row: Row, tenantID: string, w: Period): int {
    if Covers(w, tenantID, row.ev.tenantID, row.ev.ts) then row.ev.units else 0
  }

  function PeriodSum(outbox: seq<Row>, tenantID: string, w: Period): int {
    if outbox == [] then 0
    else PeriodSum(outbox[..|outbox| - 1], tenantID, w) + PeriodUnits(outbox[|outbox| - 1], tenantID, w)
  }

  function TenantPeriodSum(outbox: seq<Row>, tenantID: string, w: Period): Result<int> {
    if tenantID == "" then Err("billing: empty tenant_id") else Ok(PeriodSum(outbox, tenantID, w))
  }

  // What the provider has charged the tenant for the period.
  function ChargedSum(usage: seq<UsageRecord>, tenantID: string, w: Period): int {
    if usage == [] then 0
    else
      var c := usage[|usage| - 1];
      ChargedSum(usage[..|usage| - 1], tenantID, w)
      + if Covers(w, tenantID, c.tenantID, c.ts) then c.units else 0
  }

  function UnchargedSum(outbox: seq<Row>, usage: seq<UsageRecord>, tenantID: string, w: Period): int {
    if outbox == [] then 0
    else
      var row := outbox[|outbox| - 1];
      UnchargedSum(outbox[..|outbox| - 1], usage, tenantID, w)
      + if HasUsage(usage, UsageKey(row.ev)) then 0 else PeriodUnits(row, tenantID, w)
  }

  // ---------------------------------------------------------------- what a period is

  // The sum of f over some rows.
  function Total<R>(f: R -> int, rows: seq<R>): int {
    if rows == [] then 0 else Total(f, rows[..|rows| - 1]) + f(rows[|rows| - 1])
  }

  // A tenant's period sum is the units of its rows from the start of the period to before its end.
  lemma {:induction false} PeriodSumIs(outbox: seq<Row>, tenantID: string, w: Period)
    ensures PeriodSum(outbox, tenantID, w) == Total((r: Row) =>
      if r.ev.tenantID == tenantID && r.ev.ts >= w.start && r.ev.ts < w.end then r.ev.units else 0, outbox)
  {
    if outbox != [] {
      PeriodSumIs(outbox[..|outbox| - 1], tenantID, w);
    }
  }

  // What the provider has charged it for the same period, by the same bounds.
  lemma {:induction false} ChargedSumIs(usage: seq<UsageRecord>, tenantID: string, w: Period)
    ensures ChargedSum(usage, tenantID, w) == Total((c: UsageRecord) =>
      if c.tenantID == tenantID && c.ts >= w.start && c.ts < w.end then c.units else 0, usage)
  {
    if usage != [] {
      ChargedSumIs(usage[..|usage| - 1], tenantID, w);
    }
  }

  // Adjacent periods neither share nor lose a row.
  lemma {:induction false} PeriodsAddUp(outbox: seq<Row>, tenantID: string, a: int, b: int, c: int)
    requires a <= b <= c
    ensures PeriodSum(outbox, tenantID, Period(a, c))
         == PeriodSum(outbox, tenantID, Period(a, b)) + PeriodSum(outbox, tenantID, Period(b, c))
  {
    if outbox != [] {
      PeriodsAddUp(outbox[..|outbox| - 1], tenantID, a, b, c);
    }
  }

  // ---------------------------------------------------------------- conservation

  lemma {:induction false} NothingCharged(outbox: seq<Row>, tenantID: string, w: Period)
    ensures UnchargedSum(outbox, [], tenantID, w) == PeriodSum(outbox, tenantID, w)
  {
    if outbox != [] {
      NothingCharged(outbox[..|outbox| - 1], tenantID, w);
    }
  }

  // A new charge for row i moves exactly that row's units out of the uncharged sum.
  lemma {:induction false} ChargeMovesOneRow(outbox: seq<Row>, usage: seq<UsageRecord>, c: UsageRecord, i: nat, n: nat,
                                            tenantID: string, w: Period)
    requires i < |outbox| && n <= |outbox| && c.idemKey == UsageKey(outbox[i].ev)
    requires !HasUsage(usage, c.idemKey) && TagsDistinct(outbox)
    ensures UnchargedSum(outbox[..n], usage + [c], tenantID, w)
         == UnchargedSum(outbox[..n], usage, tenantID, w) - if i < n then PeriodUnits(outbox[i], tenantID, w) else 0
  {
    if n != 0 {
      ChargeMovesOneRow(outbox, usage, c, i, n - 1, tenantID, w);
      assert outbox[..n][..n - 1] == outbox[..n - 1];
      var key := UsageKey(outbox[n - 1].ev);
      SameKeySameTag(outbox[n - 1].ev, outbox[i].ev);
      if HasUsage(usage, key) {
        var a :| 0 <= a < |usage| && usage[a].idemKey == key;
        assert (usage + [c])[a].idemKey == key;
      } else if key == c.idemKey {
        assert (usage + [c])[|usage|].idemKey == key;
      }
    }
  }

  predicate LogBacked(kinds: Kinds, outbox: seq<Row>, usage: seq<UsageRecord>) {
    forall a :: 0 <= a < |usage| ==> UsageBacked(kinds, outbox, usage[a])
  }

  // The units charged and those not charged yet add up to the period sum.
  predicate Balanced(outbox: seq<Row>, usage: seq<UsageRecord>, tenantID: string, w: Period) {
    PeriodSum(outbox, tenantID, w) == ChargedSum(usage, tenantID, w) + UnchargedSum(outbox, usage, tenantID, w)
  }

  lemma ChargedSnoc(usage: seq<UsageRecord>, c: UsageRecord, tenantID: string, w: Period)
    ensures ChargedSum(usage + [c], tenantID, w)
         == ChargedSum(usage, tenantID, w) + if Covers(w, tenantID, c.tenantID, c.ts) then c.units else 0
  {
    assert (usage + [c])[..|usage|] == usage;
  }

  lemma NewKey(usage: seq<UsageRecord>, c: UsageRecord)
    requires UsageDistinct(usage + [c])
    ensures UsageDistinct(usage) && !HasUsage(usage, c.idemKey)
  {
    var all := usage + [c];
    assert all[|usage|] == c && forall k :: 0 <= k < |usage| ==> all[k] == usage[k];
  }

  lemma BalancedStep(kinds: Kinds, outbox: seq<Row>, usage: seq<UsageRecord>, c: UsageRecord, tenantID: string,
                     w: Period)
    requires TagsDistinct(outbox) && UsageBacked(kinds, outbox, c) && !HasUsage(usage, c.idemKey)
    requires Balanced(outbox, usage, tenantID, w)
    ensures Balanced(outbox, usage + [c], tenantID, w)
  {
    var i :| 0 <= i < |outbox| && BacksUsage(kinds, outbox[i], c);
    ChargeMovesOneRow(outbox, usage, c, i, |outbox|, tenantID, w);
    ChargedSnoc(usage, c, tenantID, w);
    assert outbox[..|outbox|] == outbox;
  }

  lemma {:induction false} Conserved(kinds: Kinds, outbox: seq<Row>, usage: seq<UsageRecord>, tenantID: string,
                                     w: Period)
    requires TagsDistinct(outbox) && UsageDistinct(usage) && LogBacked(kinds, outbox, usage)
    ensures Balanced(outbox, usage, tenantID, w)
  {
    if usage == [] {
      NothingCharged(outbox, tenantID, w);
    } else {
      var before, c := usage[..|usage| - 1], usage[|usage| - 1];
      assert before + [c] == usage;
      NewKey(before, c);
      assert UsageBacked(kinds, outbox, c);
      Conserved(kinds, outbox, before, tenantID, w);
      BalancedStep(kinds, outbox, before, c, tenantID, w);
    }
  }

  lemma {:induction false} FlushedMeansCharged(kinds: Kinds, b: Books, outbox: seq<Row>, tenantID: string, w: Period)
    requires AllMetered(kinds, outbox)
    requires forall i :: 0 <= i < |outbox| && Covers(w, tenantID, outbox[i].ev.tenantID, outbox[i].ev.ts) ==>
      Charged(kinds, b, outbox[i].ev)
    ensures UnchargedSum(outbox, b.usage, tenantID, w) == 0
  {
    if outbox != [] {
      var n := |outbox| - 1;
      assert forall i :: 0 <= i < n ==> outbox[..n][i] == outbox[i];
      FlushedMeansCharged(kinds, b, outbox[..n], tenantID, w);
      assert outbox[n] == outbox[|outbox| - 1];
    }
  }

  // ---------------------------------------------------------------- drift

  const DRIFT_THRESHOLD: real := 0.005

  function Abs(x: int): (r: nat)
    ensures r >= x && r >= -x && (r == x || r == -x)
  {
    if x < 0 then -x else x
  }

  function DriftFraction(ledger: int, stripeUnits: int): real {
    if ledger == 0 && stripeUnits == 0 then 0.0
    else
      var denom := if ledger as real < 1.0 then 1.0 else ledger as real;
      Abs(ledger - stripeUnits) as real / denom
  }

  function Max(x: int, y: int): (r: int)
    ensures r >= x && r >= y && (r == x || r == y)
  {
    if x < y then y else x
  }

  // The real-valued test, as whole-number arithmetic.
  lemma DriftsIff(ledger: int, stripeUnits: int)
    ensures DriftFraction(ledger, stripeUnits) > DRIFT_THRESHOLD <==> 200 * Abs(ledger - stripeUnits) > Max(ledger, 1)
  {
    var gap, denom := Abs(ledger - stripeUnits) as real, Max(ledger, 1) as real;
    assert ledger as real < 1.0 <==> ledger < 1;
    if !(ledger == 0 && stripeUnits == 0) {
      assert DriftFraction(ledger, stripeUnits) == gap / denom;
      assert gap / denom * denom == gap;
      QuotientAbove(gap, denom, DRIFT_THRESHOLD);
    }
  }

  lemma QuotientAbove(x: real, d: real, t: real)
    requires d > 0.0
    ensures x / d > t <==> x > t * d
  {
    var q := x / d;
    assert q * d == x;
    if q > t {
      assert (q - t) * d > 0.0;
    } else {
      assert (t - q) * d >= 0.0;
    }
  }

  datatype Report = Report(tenantID: string, ledgerUnits: int, stripeUnits: int, driftFrac: real, alerted: bool)
  datatype Alert = ReportError(tenantID: string, error: string) | DriftAlert(report: Report)
  datatype Findings = Findings(reports: seq<Report>, alerts: seq<Alert>, error: Option<string>)

  type Reporter = string -> Result<int>

  // One tenant of the daily run. A failed drift alert ends the run; a failed report does not.
  function Visit(f: Findings, outbox: seq<Row>, tenantID: string, w: Period, reporter: Reporter,
                 alertOk: string -> bool): Findings {
    if f.error.Some? then f
    else
      var ledger := TenantPeriodSum(outbox, tenantID, w);
      if ledger.Err? then f.(error := Some(ledger.error))
      else if reporter(tenantID).Err? then f.(alerts := f.alerts + [ReportError(tenantID, reporter(tenantID).error)])
      else
        var drift := DriftFraction(ledger.value, reporter(tenantID).value);
        var rep := Report(tenantID, ledger.value, reporter(tenantID).value, drift, drift > DRIFT_THRESHOLD);
        var called := if rep.alerted then f.alerts + [DriftAlert(rep)] else f.alerts;
        if rep.alerted && !alertOk(tenantID) then f.(alerts := called, error := Some("billing: alert drift"))
        else f.(reports := f.reports + [rep], alerts := called)
  }

  function VisitAll(outbox: seq<Row>, tenants: seq<string>, w: Period, reporter: Reporter,
                    alertOk: string -> bool): Findings {
    if tenants == [] then Findings([], [], None)
    else Visit(VisitAll(outbox, tenants[..|tenants| - 1], w, reporter, alertOk),
               outbox, tenants[|tenants| - 1], w, reporter, alertOk)
  }

  method ReconcilerRun(outbox: seq<Row>, tenants: seq<string>, w: Period, reporter: Reporter, alertOk: string -> bool)
      returns (reports: seq<Report>, alerts: seq<Alert>, error: Option<string>)
    ensures Findings(reports, alerts, error) == VisitAll(outbox, tenants, w, reporter, alertOk)
  {
    reports, alerts, error := [], [], None;
    for i := 0 to |tenants|
      invariant error.None?
      invariant Findings(reports, alerts, None) == VisitAll(outbox, tenants[..i], w, reporter, alertOk)
    {
      var t := tenants[i];
      assert tenants[..i + 1][..i] == tenants[..i];
      var ledger := TenantPeriodSum(outbox, t, w);
      if ledger.Err? {
        error := Some(ledger.error);
        StaysStopped(outbox, tenants, i + 1, w, reporter, alertOk);
        return;
      }
      var stripe := reporter(t);
      if stripe.Err? {
        alerts := alerts + [ReportError(t, stripe.error)];
        continue;
      }
      var drift := DriftFraction(ledger.value, stripe.value);
      var rep := Report(t, ledger.value, stripe.value, drift, false);
      if drift > DRIFT_THRESHOLD {
        rep := rep.(alerted := true);
        alerts := alerts + [DriftAlert(rep)];
        if !alertOk(t) {
          error := Some("billing: alert drift");
          StaysStopped(outbox, tenants, i + 1, w, reporter, alertOk);
          return;
        }
      }
      reports := reports + [rep];
    }
    assert tenants[..|tenants|] == tenants;
  }

  lemma {:induction false} StaysStopped(outbox: seq<Row>, tenants: seq<string>, n: nat, w: Period, reporter: Reporter,
                                       alertOk: string -> bool)
    requires n <= |tenants| && VisitAll(outbox, tenants[..n], w, reporter, alertOk).error.Some?
    ensures VisitAll(outbox, tenants, w, reporter, alertOk) == VisitAll(outbox, tenants[..n], w, reporter, alertOk)
    decreases |tenants|
  {
    if n == |tenants| {
      assert tenants[..n] == tenants;
    } else {
      var m := |tenants| - 1;
      assert tenants[..m][..n] == tenants[..n];
      StaysStopped(outbox, tenants[..m], n, w, reporter, alertOk);
    }
  }

  // ---------------------------------------------------------------- the detector over whole runs

  ghost predicate ReportsCharges(reporter: Reporter, usage: seq<UsageRecord>, w: Period) {
    forall t :: reporter(t) == Ok(ChargedSum(usage, t, w))
  }

  predicate AllMetered(kinds: Kinds, outbox: seq<Row>) {
    forall i :: 0 <= i < |outbox| ==> kinds(outbox[i].ev.sku) <= {Metered}
  }

  // The report states the conservation law, and alerts exactly when 200 times the units not
  // charged yet exceed the ledger sum (taken as at least 1).
  predicate Measures(r: Report, b: Books, w: Period) {
    var uncharged := UnchargedSum(b.outbox, b.usage, r.tenantID, w);
    && r.ledgerUnits == r.stripeUnits + uncharged
    && (r.alerted <==> 200 * Abs(uncharged) > Max(r.ledgerUnits, 1))
  }

  predicate AllMeasure(f: Findings, b: Books, w: Period) {
    && (forall k :: 0 <= k < |f.reports| ==> Measures(f.reports[k], b, w))
    && (forall k :: 0 <= k < |f.alerts| ==>
          f.alerts[k].DriftAlert? && f.alerts[k].report.alerted && Measures(f.alerts[k].report, b, w))
  }

  lemma VisitMeasures(kinds: Kinds, f: Findings, b: Books, tenantID: string, w: Period,
                      reporter: Reporter, alertOk: string -> bool)
    requires TagsDistinct(b.outbox) && UsageDistinct(b.usage) && LogBacked(kinds, b.outbox, b.usage)
    requires ReportsCharges(reporter, b.usage, w) && AllMeasure(f, b, w)
    ensures AllMeasure(Visit(f, b.outbox, tenantID, w, reporter, alertOk), b, w)
  {
    var ledger, stripe := PeriodSum(b.outbox, tenantID, w), ChargedSum(b.usage, tenantID, w);
    assert reporter(tenantID) == Ok(stripe);
    Conserved(kinds, b.outbox, b.usage, tenantID, w);
    DriftsIff(ledger, stripe);
    var drift := DriftFraction(ledger, stripe);
    assert Measures(Report(tenantID, ledger, stripe, drift, drift > DRIFT_THRESHOLD), b, w);
  }

  // Every report and every alert of the detector, run against any reachable pipeline, is right.
  lemma {:induction false} AlertsMeasureUncharged(kinds: Kinds, steps: seq<Step>, all: set<string>,
                                                  tenants: seq<string>, w: Period,
                                                  reporter: Reporter, alertOk: string -> bool)
    requires Honest(kinds, START, steps) && RecordsFrom(steps, all) && Apart(all)
    requires AllMetered(kinds, Run(START, steps).books.outbox)
    requires ReportsCharges(reporter, Run(START, steps).books.usage, w)
    ensures var b := Run(START, steps).books;
      AllMeasure(VisitAll(b.outbox, tenants, w, reporter, alertOk), b, w)
  {
    if tenants != [] {
      var n := |tenants| - 1;
      AlertsMeasureUncharged(kinds, steps, all, tenants[..n], w, reporter, alertOk);
      var b := Run(START, steps).books;
      RunKeeps(kinds, START, steps);
      RowsComeFrom(steps, all);
      ApartGivesDistinctTags(b.outbox, all);
      VisitMeasures(kinds, VisitAll(b.outbox, tenants[..n], w, reporter, alertOk), b, tenants[n], w, reporter, alertOk);
    }
  }

  function AlertsOf(reports: seq<Report>): seq<Alert> {
    if reports == [] then []
    else
      var r := reports[|reports| - 1];
      AlertsOf(reports[..|reports| - 1]) + if r.alerted then [DriftAlert(r)] else []
  }

  lemma AlertsSnoc(reports: seq<Report>, r: Report)
    ensures AlertsOf(reports + [r]) == AlertsOf(reports) + if r.alerted then [DriftAlert(r)] else []
  {
    assert (reports + [r])[..|reports|] == reports;
  }

  // Reporter and alerter answer for this tenant.
  predicate Answered(t: string, reporter: Reporter, alertOk: string -> bool) {
    t != "" && reporter(t).Ok? && alertOk(t)
  }

  // Each tenant is reported once, in order, and the alerts sent are those of the reports that drift.
  predicate Reported(f: Findings, tenants: seq<string>) {
    && f.error.None? && |f.reports| == |tenants| && f.alerts == AlertsOf(f.reports)
    && forall k :: 0 <= k < |tenants| ==> f.reports[k].tenantID == tenants[k]
  }

  lemma ReportedStep(f: Findings, tenants: seq<string>, t: string, outbox: seq<Row>, w: Period, reporter: Reporter,
                     alertOk: string -> bool)
    requires Reported(f, tenants) && Answered(t, reporter, alertOk)
    ensures Reported(Visit(f, outbox, t, w, reporter, alertOk), tenants + [t])
  {
    var after := Visit(f, outbox, t, w, reporter, alertOk);
    var r := after.reports[|after.reports| - 1];
    assert after.reports == f.reports + [r] && r.tenantID == t;
    AlertsSnoc(f.reports, r);
    assert f.alerts + [] == f.alerts;
  }

  lemma VisitSnoc(outbox: seq<Row>, tenants: seq<string>, t: string, w: Period, reporter: Reporter,
                  alertOk: string -> bool)
    ensures VisitAll(outbox, tenants + [t], w, reporter, alertOk)
         == Visit(VisitAll(outbox, tenants, w, reporter, alertOk), outbox, t, w, reporter, alertOk)
  {
    assert (tenants + [t])[..|tenants|] == tenants;
  }

  lemma {:induction false} EveryTenantReported(outbox: seq<Row>, tenants: seq<string>, w: Period, reporter: Reporter,
                                              alertOk: string -> bool)
    requires forall t :: t in tenants ==> Answered(t, reporter, alertOk)
    ensures Reported(VisitAll(outbox, tenants, w, reporter, alertOk), tenants)
  {
    if tenants != [] {
      var before, t := tenants[..|tenants| - 1], tenants[|tenants| - 1];
      assert before + [t] == tenants;
      EveryTenantReported(outbox, before, w, reporter, alertOk);
      VisitSnoc(outbox, before, t, w, reporter, alertOk);
      ReportedStep(VisitAll(outbox, before, w, reporter, alertOk), before, t, outbox, w, reporter, alertOk);
    }
  }

  // The tenant's rows of the period are all billed.
  predicate FlushedFor(outbox: seq<Row>, tenantID: string, w: Period) {
    forall i :: 0 <= i < |outbox| ==>
      outbox[i].ev.tenantID == tenantID && w.start <= outbox[i].ev.ts < w.end ==> outbox[i].billedAt.Some?
  }

  lemma FlushedNeverDrifts(kinds: Kinds, steps: seq<Step>, w: Period, r: Report)
    requires Honest(kinds, START, steps) && AllMetered(kinds, Run(START, steps).books.outbox)
    requires FlushedFor(Run(START, steps).books.outbox, r.tenantID, w)
    requires Measures(r, Run(START, steps).books, w)
    ensures !r.alerted && r.stripeUnits == r.ledgerUnits
  {
    RunKeeps(kinds, START, steps);
    var b := Run(START, steps).books;
    FlushedMeansCharged(kinds, b, b.outbox, r.tenantID, w);
  }

  // Nothing the loop reports or sends accuses a tenant whose rows of the period are all billed.
  predicate Silent(f: Findings, outbox: seq<Row>, w: Period) {
    && (forall k :: 0 <= k < |f.reports| && FlushedFor(outbox, f.reports[k].tenantID, w) ==>
          !f.reports[k].alerted && f.reports[k].stripeUnits == f.reports[k].ledgerUnits)
    && (forall k :: 0 <= k < |f.alerts| ==>
          f.alerts[k].DriftAlert? && !FlushedFor(outbox, f.alerts[k].report.tenantID, w))
  }

  // Against any reachable pipeline the daily run is silent about flushed tenants.
  lemma FlushedIsSilent(kinds: Kinds, steps: seq<Step>, all: set<string>, tenants: seq<string>, w: Period,
                        reporter: Reporter, alertOk: string -> bool)
    requires Honest(kinds, START, steps) && RecordsFrom(steps, all) && Apart(all)
    requires AllMetered(kinds, Run(START, steps).books.outbox)
    requires ReportsCharges(reporter, Run(START, steps).books.usage, w)
    ensures var b := Run(START, steps).books;
      Silent(VisitAll(b.outbox, tenants, w, reporter, alertOk), b.outbox, w)
  {
    AlertsMeasureUncharged(kinds, steps, all, tenants, w, reporter, alertOk);
    var b := Run(START, steps).books;
    var f := VisitAll(b.outbox, tenants, w, reporter, alertOk);
    forall k | 0 <= k < |f.reports| && FlushedFor(b.outbox, f.reports[k].tenantID, w)
      ensures !f.reports[k].alerted && f.reports[k].stripeUnits == f.reports[k].ledgerUnits
    {
      FlushedNeverDrifts(kinds, steps, w, f.reports[k]);
    }
    forall k | 0 <= k < |f.alerts|
      ensures f.alerts[k].DriftAlert? && !FlushedFor(b.outbox, f.alerts[k].report.tenantID, w)
    {
      if FlushedFor(b.outbox, f.alerts[k].report.tenantID, w) {
        FlushedNeverDrifts(kinds, steps, w, f.alerts[k].report);
      }
    }
  }

  // ---------------------------------------------------------------- when the run stops

  // The run cannot get past this tenant: it has no id, or it drifts by more than half a percent and
  // the alert cannot be sent.
  predicate Stops(outbox: seq<Row>, t: string, w: Period, reporter: Reporter, alertOk: string -> bool) {
    || t == ""
    || (reporter(t).Ok? && !alertOk(t)
        && 200 * Abs(PeriodSum(outbox, t, w) - reporter(t).value) > Max(PeriodSum(outbox, t, w), 1))
  }

  // The tenant is reported with its ledger sum and these units of the provider's.
  predicate HasReport(reports: seq<Report>, outbox: seq<Row>, t: string, w: Period, stripe: int) {
    exists j :: 0 <= j < |reports| && Compares(reports[j], outbox, t, w, stripe)
  }

  predicate Compares(r: Report, outbox: seq<Row>, t: string, w: Period, stripe: int) {
    r.tenantID == t && r.stripeUnits == stripe && r.ledgerUnits == PeriodSum(outbox, t, w)
  }

  // What has been reported and alerted when the run has got past these tenants.
  predicate Told(f: Findings, outbox: seq<Row>, tenants: seq<string>, w: Period, reporter: Reporter) {
    && (forall k :: 0 <= k < |tenants| && reporter(tenants[k]).Ok? ==>
          HasReport(f.reports, outbox, tenants[k], w, reporter(tenants[k]).value))
    && (forall k :: 0 <= k < |tenants| && reporter(tenants[k]).Err? ==>
          ReportError(tenants[k], reporter(tenants[k]).error) in f.alerts)
  }

  lemma StopStep(f: Findings, outbox: seq<Row>, t: string, w: Period, reporter: Reporter, alertOk: string -> bool)
    requires f.error.None?
    ensures var g := Visit(f, outbox, t, w, reporter, alertOk);
      && (g.error.Some? <==> Stops(outbox, t, w, reporter, alertOk))
      && f.reports <= g.reports && f.alerts <= g.alerts
      && (g.error.None? && reporter(t).Err? ==> g.alerts == f.alerts + [ReportError(t, reporter(t).error)])
      && (g.error.None? && reporter(t).Ok? ==>
            |g.reports| == |f.reports| + 1 && Compares(g.reports[|f.reports|], outbox, t, w, reporter(t).value))
  {
    if reporter(t).Ok? {
      DriftsIff(PeriodSum(outbox, t, w), reporter(t).value);
    }
  }

  lemma ToldSnoc(f: Findings, g: Findings, outbox: seq<Row>, tenants: seq<string>, t: string, w: Period,
                 reporter: Reporter)
    requires Told(f, outbox, tenants, w, reporter) && f.reports <= g.reports && f.alerts <= g.alerts
    requires Told(g, outbox, [t], w, reporter)
    ensures Told(g, outbox, tenants + [t], w, reporter)
  {
    var all := tenants + [t];
    assert all[|tenants|] == [t][0];
    forall k | 0 <= k < |all| && reporter(all[k]).Ok?
      ensures HasReport(g.reports, outbox, all[k], w, reporter(all[k]).value)
    {
      if k < |tenants| {
        var j :| 0 <= j < |f.reports| && Compares(f.reports[j], outbox, tenants[k], w, reporter(tenants[k]).value);
        assert g.reports[j] == f.reports[j];
      } else {
        assert HasReport(g.reports, outbox, [t][0], w, reporter([t][0]).value);
      }
    }
    forall k | 0 <= k < |all| && reporter(all[k]).Err?
      ensures ReportError(all[k], reporter(all[k]).error) in g.alerts
    {
      if k < |tenants| {
        assert ReportError(tenants[k], reporter(tenants[k]).error) in f.alerts;
      }
    }
  }

  // The run stops exactly at a tenant it cannot get past; up to there every tenant has been reported,
  // with its ledger sum and the provider's, or its failed report has been alerted.
  lemma {:induction false} StopsIff(outbox: seq<Row>, tenants: seq<string>, w: Period, reporter: Reporter,
                                   alertOk: string -> bool)
    ensures var f := VisitAll(outbox, tenants, w, reporter, alertOk);
      && (f.error.Some? <==> exists k :: 0 <= k < |tenants| && Stops(outbox, tenants[k], w, reporter, alertOk))
      && (f.error.None? ==> Told(f, outbox, tenants, w, reporter))
  {
    if tenants != [] {
      var before, t := tenants[..|tenants| - 1], tenants[|tenants| - 1];
      assert before + [t] == tenants;
      StopsIff(outbox, before, w, reporter, alertOk);
      VisitSnoc(outbox, before, t, w, reporter, alertOk);
      var f, g := VisitAll(outbox, before, w, reporter, alertOk), VisitAll(outbox, tenants, w, reporter, alertOk);
      assert forall k :: 0 <= k < |before| ==> before[k] == tenants[k];
      if f.error.None? {
        StopStep(f, outbox, t, w, reporter, alertOk);
        if g.error.None? {
          if reporter(t).Ok? {
            assert Compares(g.reports[|f.reports|], outbox, t, w, reporter(t).value);
          }
          ToldSnoc(f, g, outbox, before, t, w, reporter);
        }
      }
    }
  }
}
