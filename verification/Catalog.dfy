// The SKU registry's dispatcher: the kind of plan follows the pricing model of the SKU.
module Catalog {
  import opened Basics
  import opened Billing
  import opened BillingRuns
  import opened ExactlyOnce
  import opened Charges

  datatype SKU = SKU(name: string, billingMeter: string, model: string, baseCents: int)

  // The registry (name@version to SKU, read once at start-up) and the provider's price table.
  type Registry = string -> Option<SKU>
  type PriceTable = string -> Option<string>

  function Dispatch(registry: Registry, prices: PriceTable, p: PendingEvent): Result<DispatchPlan> {
    match registry(p.sku)
    case None => Err("catalog: sku not found: " + p.sku)
    case Some(sku) =>
      if sku.model == "metered" || sku.model == "monthly_subscription" then
        Ok(DispatchPlan("metered", sku.billingMeter, "", 0, ""))
      else if sku.model == "per_job_fixed" then
        if p.meter == "" then Err("catalog: per_job_fixed sku " + sku.name + " requires a tier in PendingEvent.Meter")
        else match prices(sku.name + ":" + p.meter)
          case None => Err("catalog: no StripeRef for " + sku.name + ":" + p.meter)
          case Some(price) =>
            Ok(DispatchPlan("oneshot", "", price, p.units,
                            sku.name + " tier " + p.meter + " \U{2014} task " + p.entryID))
      else Err("catalog: unknown Pricing.Model " + sku.model + " on " + sku.name)
  }

  // Which events the catalog has a plan for: those of a known SKU of a known pricing model; under
  // per_job_fixed the event must name a tier, and the tier must have a price.
  lemma DispatchesIff(registry: Registry, prices: PriceTable, p: PendingEvent)
    ensures Dispatch(registry, prices, p).Ok? <==>
      && registry(p.sku).Some?
      && var s := registry(p.sku).value;
         || s.model == "metered" || s.model == "monthly_subscription"
         || (s.model == "per_job_fixed" && p.meter != "" && prices(s.name + ":" + p.meter).Some?)
  {
  }

  // The kind of plan that this registry gives a SKU, if it knows the SKU.
  function KindsFor(registry: Registry, sku: string): set<Kind> {
    match registry(sku)
    case None => {}
    case Some(s) => {if s.model == "per_job_fixed" then OneShot else Metered}
  }

  // An attempt plans with the registry and the prices loaded then; the dispatcher may also fail for
  // its own reasons.
  predicate CatalogStep(registry: Registry, prices: PriceTable, s: Sys, step: Step) {
    step.Attempt? && s.pass.Open? && s.pass.todo != [] ==>
      step.plan.Err? || step.plan == Dispatch(registry, prices, s.pass.todo[0].ev)
  }

  // Registry and prices are read from files when the process starts: they may differ from step to step.
  predicate CatalogRun(registryAt: nat -> Registry, pricesAt: nat -> PriceTable, steps: seq<Step>) {
    steps == [] ||
    var n := |steps| - 1;
    && CatalogRun(registryAt, pricesAt, steps[..n])
    && CatalogStep(registryAt(n), pricesAt(n), Run(START, steps[..n]), steps[n])
  }

  // These are all the kinds of plan the registries give.
  ghost predicate Gives(registryAt: nat -> Registry, kinds: Kinds) {
    forall sku, kind :: kind in kinds(sku) <==> exists n :: kind in KindsFor(registryAt(n), sku)
  }

  lemma DispatchFits(registryAt: nat -> Registry, kinds: Kinds, n: nat, prices: PriceTable, ev: PendingEvent)
    requires Gives(registryAt, kinds)
    ensures Fits(kinds, ev, Dispatch(registryAt(n), prices, ev))
  {
    var plan := Dispatch(registryAt(n), prices, ev);
    if plan.Ok? {
      assert KindOf(plan.value.kind) in KindsFor(registryAt(n), ev.sku);
    }
  }

  lemma {:induction false} CatalogIsHonest(
    registryAt: nat -> Registry, pricesAt: nat -> PriceTable, kinds: Kinds, steps: seq<Step>)
    requires CatalogRun(registryAt, pricesAt, steps) && Gives(registryAt, kinds)
    ensures Honest(kinds, START, steps)
  {
    if steps != [] {
      var n := |steps| - 1;
      CatalogIsHonest(registryAt, pricesAt, kinds, steps[..n]);
      var s := Run(START, steps[..n]);
      if steps[n].Attempt? && s.pass.Open? && s.pass.todo != [] {
        DispatchFits(registryAt, kinds, n, pricesAt(n), s.pass.todo[0].ev);
      }
    }
  }

  // No SKU moves between per_job_fixed and the other models.
  ghost predicate ModelsHold(registryAt: nat -> Registry) {
    forall m, n, sku | sku != "" ::
      !(Metered in KindsFor(registryAt(m), sku) && OneShot in KindsFor(registryAt(n), sku))
  }

  lemma ModelsGiveOneCharge(registryAt: nat -> Registry, kinds: Kinds)
    requires Gives(registryAt, kinds)
    ensures ModelsHold(registryAt) <==> OneCharge(kinds)
  {
    if m, n, sku :| sku != "" && Metered in KindsFor(registryAt(m), sku) && OneShot in KindsFor(registryAt(n), sku) {
      assert Metered in kinds(sku) && OneShot in kinds(sku);
    }
    if sku :| sku != "" && Metered in kinds(sku) && OneShot in kinds(sku) {
      var m :| Metered in KindsFor(registryAt(m), sku);
      var n :| OneShot in KindsFor(registryAt(n), sku);
    }
  }

  // Exactly-once charging with the catalog wired in: prices may be edited between retries, and
  // SKUs added, dropped and re-priced, as long as none moves between per_job_fixed and the others.
  lemma CatalogChargesOnce(
    registryAt: nat -> Registry, pricesAt: nat -> PriceTable, kinds: Kinds, steps: seq<Step>, tenants: set<string>)
    requires CatalogRun(registryAt, pricesAt, steps) && Gives(registryAt, kinds) && ModelsHold(registryAt)
    requires RecordsFrom(steps, tenants) && Apart(tenants)
    ensures EveryRowOnce(kinds, Run(START, steps).books)
  {
    CatalogIsHonest(registryAt, pricesAt, kinds, steps);
    ModelsGiveOneCharge(registryAt, kinds);
    ChargesExactlyOnce(kinds, steps, tenants);
  }

  // ---------------------------------------------------------------- what a charge carries

  // The SKU of this row, as some registry of the run had it: metered, under its billing meter or the
  // row's own.
  predicate MeteredBy(registry: Registry, c: UsageRecord, row: Row) {
    && registry(row.ev.sku).Some?
    && var s := registry(row.ev.sku).value;
       && s.model in {"metered", "monthly_subscription"}
       && (s.billingMeter != "" ==> c.meter == s.billingMeter) && (s.billingMeter == "" ==> c.meter == row.ev.meter)
  }

  // Or sold by the job, at the price filed under its name and the row's tier.
  predicate SoldBy(registry: Registry, prices: PriceTable, c: OneShotRecord, row: Row) {
    && registry(row.ev.sku).Some?
    && var s := registry(row.ev.sku).value;
       && s.model == "per_job_fixed" && row.ev.meter != "" && prices(s.name + ":" + row.ev.meter) == Some(c.priceID)
       && c.description == s.name + " tier " + row.ev.meter + " \U{2014} task " + row.ev.entryID
       && (row.ev.units != 0 ==> c.quantity == row.ev.units) && (row.ev.units == 0 ==> c.quantity == 1)
  }

  predicate OfRow(outbox: seq<Row>, i: int, tenantID: string, sku: string) {
    0 <= i < |outbox| && outbox[i].ev.tenantID == tenantID && outbox[i].ev.sku == sku
  }

  ghost predicate UsagePriced(registryAt: nat -> Registry, outbox: seq<Row>, c: UsageRecord) {
    exists n: nat, i :: OfRow(outbox, i, c.tenantID, c.sku) && MeteredBy(registryAt(n), c, outbox[i])
      && c.units == outbox[i].ev.units && c.ts == outbox[i].ev.ts
  }

  ghost predicate OneShotPriced(registryAt: nat -> Registry, pricesAt: nat -> PriceTable, outbox: seq<Row>,
                                c: OneShotRecord) {
    exists n: nat, i :: OfRow(outbox, i, c.tenantID, c.sku) && SoldBy(registryAt(n), pricesAt(n), c, outbox[i])
  }

  lemma {:induction false} CatalogPlans(registryAt: nat -> Registry, pricesAt: nat -> PriceTable, steps: seq<Step>,
                                        k: nat, row: Row, plan: DispatchPlan)
    requires CatalogRun(registryAt, pricesAt, steps) && Plans(steps, k, row, plan)
    ensures Dispatch(registryAt(k), pricesAt(k), row.ev) == Ok(plan)
    decreases |steps|
  {
    var n := |steps| - 1;
    if k == n {
      assert CatalogStep(registryAt(n), pricesAt(n), Run(START, steps[..n]), steps[n]);
    } else {
      assert steps[..n][..k] == steps[..k];
      CatalogPlans(registryAt, pricesAt, steps[..n], k, row, plan);
    }
  }

  lemma UsageIsPriced(registryAt: nat -> Registry, pricesAt: nat -> PriceTable, steps: seq<Step>, outbox: seq<Row>,
                      c: UsageRecord)
    requires CatalogRun(registryAt, pricesAt, steps) && UsageGiven(steps, outbox, c)
    ensures UsagePriced(registryAt, outbox, c)
  {
    var k, i, plan :| 0 <= i < |outbox| && Plans(steps, k, outbox[i], plan) && UsageFits(c, outbox[i], plan);
    CatalogPlans(registryAt, pricesAt, steps, k, outbox[i], plan);
    assert OfRow(outbox, i, c.tenantID, c.sku) && MeteredBy(registryAt(k), c, outbox[i]);
  }

  lemma OneShotIsPriced(registryAt: nat -> Registry, pricesAt: nat -> PriceTable, steps: seq<Step>, outbox: seq<Row>,
                        c: OneShotRecord)
    requires CatalogRun(registryAt, pricesAt, steps) && OneShotGiven(steps, outbox, c)
    ensures OneShotPriced(registryAt, pricesAt, outbox, c)
  {
    var k, i, plan :| 0 <= i < |outbox| && Plans(steps, k, outbox[i], plan) && OneShotFits(c, outbox[i], plan);
    CatalogPlans(registryAt, pricesAt, steps, k, outbox[i], plan);
    assert OfRow(outbox, i, c.tenantID, c.sku) && SoldBy(registryAt(k), pricesAt(k), c, outbox[i]);
  }

  // With the catalog wired in, over every run: a usage charge is metered under the billing meter of
  // its SKU, and a one-shot is charged at the price of its tier, for the units of its row.
  lemma CatalogPrices(registryAt: nat -> Registry, pricesAt: nat -> PriceTable, steps: seq<Step>)
    requires CatalogRun(registryAt, pricesAt, steps)
    ensures var b := Run(START, steps).books;
      && (forall a :: 0 <= a < |b.usage| ==> UsagePriced(registryAt, b.outbox, b.usage[a]))
      && (forall a :: 0 <= a < |b.oneShots| ==> OneShotPriced(registryAt, pricesAt, b.outbox, b.oneShots[a]))
  {
    var b := Run(START, steps).books;
    ChargesCarryPlans(steps);
    forall a | 0 <= a < |b.usage| ensures UsagePriced(registryAt, b.outbox, b.usage[a]) {
      UsageIsPriced(registryAt, pricesAt, steps, b.outbox, b.usage[a]);
    }
    forall a | 0 <= a < |b.oneShots| ensures OneShotPriced(registryAt, pricesAt, b.outbox, b.oneShots[a]) {
      OneShotIsPriced(registryAt, pricesAt, steps, b.outbox, b.oneShots[a]);
    }
  }

  // ---------------------------------------------------------------- a SKU that changes its model

  // The registry read at the restart, which is step 4.
  function Edited(before: Registry, after: Registry): nat -> Registry {
    n => if n < 4 then before else after
  }

  predicate PlansBy(registryAt: nat -> Registry, pricesAt: nat -> PriceTable, steps: seq<Step>, ev: PendingEvent) {
    forall k: nat :: k < |steps| && steps[k].Attempt? ==> steps[k].plan == Dispatch(registryAt(k), pricesAt(k), ev)
  }

  lemma {:induction false} OneEventCatalogRun(
    registryAt: nat -> Registry, pricesAt: nat -> PriceTable, steps: seq<Step>, e: LedgerEvent)
    requires RecordsOnly(steps, e) && PlansBy(registryAt, pricesAt, steps, Stamped(e, 0))
    ensures CatalogRun(registryAt, pricesAt, steps)
  {
    if steps != [] {
      var before := steps[..|steps| - 1];
      assert forall k :: 0 <= k < |before| ==> before[k] == steps[k];
      OneEventCatalogRun(registryAt, pricesAt, before, e);
      AttemptIsFor(before, e);
    }
  }

  // An event that the registry bills by meter before a restart and as a job after it: some run with
  // that one edit charges its row under both.
  lemma EditChargesTwice(before: Registry, after: Registry, prices: PriceTable, e: LedgerEvent)
    requires Billable(e)
    requires Dispatch(before, prices, Stamped(e, 0)).Ok? && KindsFor(before, e.sku) == {Metered}
    requires Dispatch(after, prices, Stamped(e, 0)).Ok? && KindsFor(after, e.sku) == {OneShot}
    ensures exists steps ::
      && CatalogRun(Edited(before, after), _ => prices, steps) && RecordsOnly(steps, e)
      && ChargesTwice(Run(START, steps).books)
  {
    var first, second := Dispatch(before, prices, Stamped(e, 0)).value, Dispatch(after, prices, Stamped(e, 0)).value;
    var steps := DoubleRun(e, first, second);
    RestartDoubles(e, first, second);
    OneEventCatalogRun(Edited(before, after), _ => prices, steps, e);
  }
}
