// What rows and charges carry, field by field, over whole runs: a row what was recorded, a charge
// what its row and its plan say.
module Charges {
  import opened Basics
  import opened Billing
  import opened BillingRuns

  // ---------------------------------------------------------------- rows

  // Step k records an event of this id that the outbox takes.
  predicate Records(steps: seq<Step>, k: nat, entryID: string) {
    && k < |steps| && steps[k].Record? && steps[k].dbOk && steps[k].ev.result == "bill"
    && steps[k].ev.tenantID != "" && steps[k].ev.sku != "" && steps[k].ev.meter != ""
    && steps[k].ev.entryID == entryID && entryID != ""
  }

  // The row carries the fields of that event; the clock stands in for a missing time.
  predicate Carries(row: Row, ev: LedgerEvent, now: int) {
    && row.ev.entryID == ev.entryID && row.ev.tenantID == ev.tenantID && row.taskID == ev.taskID
    && row.ev.sku == ev.sku && row.ev.meter == ev.meter && row.ev.units == ev.units
    && (ev.ts.Some? ==> row.ev.ts == ev.ts.value) && (ev.ts.None? ==> row.ev.ts == now)
  }

  predicate RecordedAt(steps: seq<Step>, k: nat, row: Row) {
    && Records(steps, k, row.ev.entryID) && Carries(row, steps[k].ev, steps[k].now)
    && forall m :: 0 <= m < k ==> !Records(steps, m, row.ev.entryID)
  }

  predicate RowIsRecorded(steps: seq<Step>, row: Row) {
    exists k :: 0 <= k < |steps| && RecordedAt(steps, k, row)
  }

  predicate EntryHasRow(steps: seq<Step>, k: nat, outbox: seq<Row>) {
    k < |steps| && steps[k].Record? && Records(steps, k, steps[k].ev.entryID) ==> HasEntry(outbox, steps[k].ev.entryID)
  }

  // The rows are exactly what was recorded: one for each id, with the fields first recorded under it.
  predicate IsLedger(steps: seq<Step>, outbox: seq<Row>) {
    && (forall i :: 0 <= i < |outbox| ==> RowIsRecorded(steps, outbox[i]))
    && (forall k :: 0 <= k < |steps| && steps[k].Record? ==> EntryHasRow(steps, k, outbox))
    && EntriesDistinct(outbox)
  }

  lemma RecordsSnoc(steps: seq<Step>, step: Step, k: nat, entryID: string)
    requires k < |steps|
    ensures Records(steps + [step], k, entryID) <==> Records(steps, k, entryID)
  {
  }

  lemma RecordedStays(steps: seq<Step>, step: Step, row: Row, same: Row)
    requires RowIsRecorded(steps, row) && same.ev == row.ev && same.taskID == row.taskID
    ensures RowIsRecorded(steps + [step], same)
  {
    var k :| 0 <= k < |steps| && RecordedAt(steps, k, row);
    forall m | 0 <= m <= k ensures Records(steps + [step], m, row.ev.entryID) <==> Records(steps, m, row.ev.entryID) {
      RecordsSnoc(steps, step, m, row.ev.entryID);
    }
    assert RecordedAt(steps + [step], k, same);
  }

  lemma EntryKept(o: seq<Row>, p: seq<Row>, entryID: string)
    requires HasEntry(o, entryID) && |o| <= |p| && forall i :: 0 <= i < |o| ==> p[i].ev == o[i].ev
    ensures HasEntry(p, entryID)
  {
    var i :| 0 <= i < |o| && o[i].ev.entryID == entryID;
    assert p[i].ev.entryID == entryID;
  }

  // A row that an insert adds is the first of its id.
  lemma NewRowRecorded(steps: seq<Step>, step: Step, outbox: seq<Row>, row: Row)
    requires IsLedger(steps, outbox) && step.Record? && !HasEntry(outbox, step.ev.entryID)
    requires Records([step], 0, row.ev.entryID) && Carries(row, step.ev, step.now)
    ensures RowIsRecorded(steps + [step], row)
  {
    var all, n := steps + [step], |steps|;
    assert all[n] == step;
    forall m | 0 <= m < n ensures !Records(all, m, row.ev.entryID) {
      assert all[m] == steps[m];
      assert steps[m].Record? ==> EntryHasRow(steps, m, outbox);
    }
    assert RecordedAt(all, n, row);
  }

  // What one step makes of the outbox: old rows keep what they carry, and an insert adds one row.
  predicate Grows(o: seq<Row>, p: seq<Row>, step: Step) {
    && |o| <= |p| <= |o| + 1
    && (forall i :: 0 <= i < |o| ==> p[i].ev == o[i].ev && p[i].taskID == o[i].taskID)
    && (|p| > |o| ==>
          step.Record? && Records([step], 0, p[|o|].ev.entryID) && Carries(p[|o|], step.ev, step.now)
          && !HasEntry(o, step.ev.entryID))
    && (step.Record? && Records([step], 0, step.ev.entryID) ==> HasEntry(p, step.ev.entryID))
  }

  lemma StepGrows(s: Sys, step: Step)
    requires Dense(s.books.outbox) && Snapshotted(s)
    ensures Grows(s.books.outbox, Do(s, step).books.outbox, step)
  {
    SnapshotStep(s, step);
    if step.Record? {
      var o, p := s.books.outbox, Do(s, step).books.outbox;
      if |p| > |o| {
        assert p[|o|].ev.entryID == step.ev.entryID;
      }
    }
  }

  lemma LedgerStep(steps: seq<Step>, step: Step, o: seq<Row>, p: seq<Row>)
    requires IsLedger(steps, o) && Grows(o, p, step)
    ensures IsLedger(steps + [step], p)
  {
    var all := steps + [step];
    forall i | 0 <= i < |p| ensures RowIsRecorded(all, p[i]) {
      if i < |o| {
        RecordedStays(steps, step, o[i], p[i]);
      } else {
        NewRowRecorded(steps, step, o, p[i]);
      }
    }
    forall k | 0 <= k < |all| && all[k].Record? ensures EntryHasRow(all, k, p) {
      if k < |steps| && Records(all, k, all[k].ev.entryID) {
        assert all[k] == steps[k] && EntryHasRow(steps, k, o);
        EntryKept(o, p, all[k].ev.entryID);
      } else {
        assert k == |steps| ==> all[k] == step;
      }
    }
    forall i, j | 0 <= i < j < |p| ensures p[i].ev.entryID != p[j].ev.entryID {
      if j == |o| {
        assert o[i].ev.entryID != step.ev.entryID;
      }
    }
  }

  // In every run of the pipeline, whatever passes, failures and crashes come in between: a row for
  // each id recorded, with tenant, task, SKU, meter, units and time as first recorded.
  lemma {:induction false} RowsAreTheLedger(steps: seq<Step>)
    ensures IsLedger(steps, Run(START, steps).books.outbox)
  {
    if steps != [] {
      var before, step := steps[..|steps| - 1], steps[|steps| - 1];
      assert before + [step] == steps;
      RowsAreTheLedger(before);
      RunSnapshotted(before);
      StepGrows(Run(START, before), step);
      LedgerStep(before, step, Run(START, before).books.outbox, Do(Run(START, before), step).books.outbox);
    }
  }

  // ---------------------------------------------------------------- charges

  // A charge carries its row's tenant, SKU, units and time, and the plan's meter, or the row's own.
  predicate UsageFits(c: UsageRecord, row: Row, plan: DispatchPlan) {
    && plan.kind != "skip" && plan.kind != "oneshot"
    && c.tenantID == row.ev.tenantID && c.sku == row.ev.sku && c.units == row.ev.units && c.ts == row.ev.ts
    && (plan.meterName != "" ==> c.meter == plan.meterName) && (plan.meterName == "" ==> c.meter == row.ev.meter)
    && c.idemKey == "usage:" + row.ev.tenantID + ":" + row.ev.entryID
  }

  // A one-shot carries its row's tenant and SKU, and the plan's price, description and quantity.
  predicate OneShotFits(c: OneShotRecord, row: Row, plan: DispatchPlan) {
    && plan.kind == "oneshot"
    && c.tenantID == row.ev.tenantID && c.sku == row.ev.sku
    && c.priceID == plan.priceID && c.description == plan.description
    && (plan.quantity != 0 ==> c.quantity == plan.quantity) && (plan.quantity == 0 ==> c.quantity == 1)
    && c.idemKey == "oneshot:" + row.ev.tenantID + ":" + row.ev.entryID
  }

  // Step k attempts this row, with this plan.
  predicate Plans(steps: seq<Step>, k: nat, row: Row, plan: DispatchPlan) {
    && k < |steps| && steps[k].Attempt? && steps[k].plan == Ok(plan)
    && var s := Run(START, steps[..k]);
       s.pass.Open? && s.pass.todo != [] && s.pass.todo[0].ev == row.ev
  }

  ghost predicate UsageGiven(steps: seq<Step>, outbox: seq<Row>, c: UsageRecord) {
    exists k, i, plan :: 0 <= i < |outbox| && Plans(steps, k, outbox[i], plan) && UsageFits(c, outbox[i], plan)
  }

  ghost predicate OneShotGiven(steps: seq<Step>, outbox: seq<Row>, c: OneShotRecord) {
    exists k, i, plan :: 0 <= i < |outbox| && Plans(steps, k, outbox[i], plan) && OneShotFits(c, outbox[i], plan)
  }

  ghost predicate AllGiven(steps: seq<Step>, b: Books) {
    && (forall a :: 0 <= a < |b.usage| ==> UsageGiven(steps, b.outbox, b.usage[a]))
    && (forall a :: 0 <= a < |b.oneShots| ==> OneShotGiven(steps, b.outbox, b.oneShots[a]))
  }

  lemma PlansStay(steps: seq<Step>, step: Step, k: nat, row: Row, same: Row, plan: DispatchPlan)
    requires Plans(steps, k, row, plan) && same.ev == row.ev
    ensures Plans(steps + [step], k, same, plan)
  {
    assert (steps + [step])[..k] == steps[..k];
  }

  predicate SameEvents(o: seq<Row>, p: seq<Row>) {
    |o| <= |p| && forall i :: 0 <= i < |o| ==> p[i].ev == o[i].ev
  }

  lemma UsageStaysGiven(steps: seq<Step>, step: Step, o: seq<Row>, p: seq<Row>, c: UsageRecord)
    requires UsageGiven(steps, o, c) && SameEvents(o, p)
    ensures UsageGiven(steps + [step], p, c)
  {
    var k, i, plan :| 0 <= i < |o| && Plans(steps, k, o[i], plan) && UsageFits(c, o[i], plan);
    PlansStay(steps, step, k, o[i], p[i], plan);
    assert UsageFits(c, p[i], plan);
  }

  lemma OneShotStaysGiven(steps: seq<Step>, step: Step, o: seq<Row>, p: seq<Row>, c: OneShotRecord)
    requires OneShotGiven(steps, o, c) && SameEvents(o, p)
    ensures OneShotGiven(steps + [step], p, c)
  {
    var k, i, plan :| 0 <= i < |o| && Plans(steps, k, o[i], plan) && OneShotFits(c, o[i], plan);
    PlansStay(steps, step, k, o[i], p[i], plan);
    assert OneShotFits(c, p[i], plan);
  }

  // What one attempt of a row adds to the logs, for every outcome of the call.
  predicate Adds(b: Books, e: Books, row: Row, plan: DispatchPlan) {
    && e.outbox == b.outbox
    && (e.usage == b.usage
        || (|e.usage| == |b.usage| + 1 && b.usage <= e.usage && UsageFits(e.usage[|b.usage|], row, plan)))
    && (e.oneShots == b.oneShots
        || (|e.oneShots| == |b.oneShots| + 1 && b.oneShots <= e.oneShots
            && OneShotFits(e.oneShots[|b.oneShots|], row, plan)))
  }

  lemma EmitAdds(b: Books, row: Row, plan: DispatchPlan, fault: Fault)
    ensures Adds(b, Emit(b, row.ev, Ok(plan), fault), row, plan)
  {
    assert UsageKey(row.ev) == "usage:" + row.ev.tenantID + ":" + row.ev.entryID;
    assert OneShotKey(row.ev) == "oneshot:" + row.ev.tenantID + ":" + row.ev.entryID;
  }

  predicate UsageKnown(log: seq<UsageRecord>, key: string) {
    exists a :: 0 <= a < |log| && log[a].idemKey == key
  }

  predicate OneShotKnown(log: seq<OneShotRecord>, key: string) {
    exists a :: 0 <= a < |log| && log[a].idemKey == key
  }

  // Whether a call adds a charge: it does unless the plan says skip, the request is lost on its way,
  // or the provider knows the key. A lost reply is an error although the charge is made.
  lemma EmitAddsIff(b: Books, row: Row, plan: DispatchPlan, fault: Fault)
    ensures var e := Emit(b, row.ev, Ok(plan), fault);
      && (|e.usage| > |b.usage| <==>
            plan.kind != "skip" && plan.kind != "oneshot" && !fault.LostBefore?
            && !UsageKnown(b.usage, "usage:" + row.ev.tenantID + ":" + row.ev.entryID))
      && (|e.oneShots| > |b.oneShots| <==>
            plan.kind == "oneshot" && !fault.LostBefore?
            && !OneShotKnown(b.oneShots, "oneshot:" + row.ev.tenantID + ":" + row.ev.entryID))
    ensures Verdict(Ok(plan), fault).None? <==> plan.kind == "skip" || fault.NoFault?
  {
    assert UsageKey(row.ev) == "usage:" + row.ev.tenantID + ":" + row.ev.entryID;
    assert OneShotKey(row.ev) == "oneshot:" + row.ev.tenantID + ":" + row.ev.entryID;
    assert UsageKnown(b.usage, UsageKey(row.ev)) == HasUsage(b.usage, UsageKey(row.ev));
    assert OneShotKnown(b.oneShots, OneShotKey(row.ev)) == HasOneShot(b.oneShots, OneShotKey(row.ev));
  }

  // Without a dispatcher every row is metered under its own meter.
  lemma UnwiredIsMetered(b: Books, row: Row, fault: Fault)
    requires row.ev.meter != ""
    ensures var e := Emit(b, row.ev, PlanFor(None, row.ev), fault);
      && e.outbox == b.outbox && e.oneShots == b.oneShots && b.usage <= e.usage
      && (|e.usage| > |b.usage| <==>
            !fault.LostBefore? && !UsageKnown(b.usage, "usage:" + row.ev.tenantID + ":" + row.ev.entryID))
      && (|e.usage| > |b.usage| ==>
            e.usage[|b.usage|].meter == row.ev.meter && e.usage[|b.usage|].units == row.ev.units)
  {
    var plan := PlanFor(None, row.ev).value;
    EmitAdds(b, row, plan, fault);
    EmitAddsIff(b, row, plan, fault);
  }

  lemma AttemptGives(steps: seq<Step>, step: Step, i: nat, plan: DispatchPlan)
    requires var s := Run(START, steps);
      && step.Attempt? && step.plan == Ok(plan) && s.pass.Open? && s.pass.todo != []
      && i < |s.books.outbox| && s.pass.todo[0].ev == s.books.outbox[i].ev
    requires AllGiven(steps, Run(START, steps).books)
    ensures AllGiven(steps + [step], Do(Run(START, steps), step).books)
  {
    var s, all := Run(START, steps), steps + [step];
    var b, e := s.books, Do(s, step).books;
    var row := b.outbox[i];
    EmitAdds(b, row, plan, step.fault);
    assert all[..|steps|] == steps && all[|steps|] == step;
    assert Plans(all, |steps|, row, plan);
    forall a | 0 <= a < |e.usage| ensures UsageGiven(all, e.outbox, e.usage[a]) {
      if a < |b.usage| {
        assert e.usage[a] == b.usage[a];
        UsageStaysGiven(steps, step, b.outbox, e.outbox, b.usage[a]);
      }
    }
    forall a | 0 <= a < |e.oneShots| ensures OneShotGiven(all, e.outbox, e.oneShots[a]) {
      if a < |b.oneShots| {
        assert e.oneShots[a] == b.oneShots[a];
        OneShotStaysGiven(steps, step, b.outbox, e.outbox, b.oneShots[a]);
      }
    }
  }

  lemma OtherStepGives(steps: seq<Step>, step: Step, e: Books)
    requires AllGiven(steps, Run(START, steps).books)
    requires var b := Run(START, steps).books;
      e.usage == b.usage && e.oneShots == b.oneShots && SameEvents(b.outbox, e.outbox)
    ensures AllGiven(steps + [step], e)
  {
    var b := Run(START, steps).books;
    forall a | 0 <= a < |e.usage| ensures UsageGiven(steps + [step], e.outbox, e.usage[a]) {
      UsageStaysGiven(steps, step, b.outbox, e.outbox, b.usage[a]);
    }
    forall a | 0 <= a < |e.oneShots| ensures OneShotGiven(steps + [step], e.outbox, e.oneShots[a]) {
      OneShotStaysGiven(steps, step, b.outbox, e.outbox, b.oneShots[a]);
    }
  }

  lemma GivenStep(steps: seq<Step>, step: Step)
    requires AllGiven(steps, Run(START, steps).books)
    ensures AllGiven(steps + [step], Do(Run(START, steps), step).books)
  {
    var s := Run(START, steps);
    RunSnapshotted(steps);
    if step.Attempt? && step.plan.Ok? && s.pass.Open? && s.pass.todo != [] {
      assert Current(s.books.outbox, s.pass.todo[0]);
      AttemptGives(steps, step, s.pass.todo[0].id - 1, step.plan.value);
    } else {
      StepGrows(s, step);
      OtherStepGives(steps, step, Do(s, step).books);
    }
  }

  // In every run, whatever dispatcher answers and whatever fails: each charge was planned for its row,
  // and carries the fields of that row and of that plan.
  lemma {:induction false} ChargesCarryPlans(steps: seq<Step>)
    ensures AllGiven(steps, Run(START, steps).books)
  {
    if steps != [] {
      var before, step := steps[..|steps| - 1], steps[|steps| - 1];
      assert before + [step] == steps;
      ChargesCarryPlans(before);
      GivenStep(before, step);
    }
  }

  // ---------------------------------------------------------------- the row after an attempt

  // What a pass writes to a row: the time it was billed, or the error cut to 500 characters, the time
  // of the attempt, one failure more, and the dead-letter stamp from the threshold on.
  predicate Written(p: Row, q: Row, error: Option<string>, threshold: int, now: int) {
    && q.id == p.id && q.ev == p.ev && q.taskID == p.taskID
    && (error.None? ==> q == p.(billedAt := Some(now)))
    && (error.Some? ==>
          && q.billedAt == p.billedAt && q.failureCount == p.failureCount + 1 && q.lastAttemptAt == Some(now)
          && |q.lastError| == (if |error.value| < 500 then |error.value| else 500) && q.lastError <= error.value
          && q.deadLetteredAt == if q.failureCount >= threshold then Some(now) else p.deadLetteredAt)
  }

  // The error is that of the plan, or that of the call; a skip never fails.
  predicate FailsWith(plan: Result<DispatchPlan>, fault: Fault, error: Option<string>) {
    match plan
    case Err(e) => error == Some(e)
    case Ok(p) =>
      if p.kind == "skip" then error == None
      else match fault
        case NoFault => error == None
        case LostBefore(e) => error == Some(e)
        case LostAfter(e) => error == Some(e)
  }

  lemma RowIsWritten(b: Books, d: Option<Dispatcher>, threshold: int, p: Row, o: Outcome, i: nat)
    requires Dense(b.outbox) && Current(b.outbox, p) && i < |b.outbox| && o.writeOk
    ensures var after := FlushRow(b, d, threshold, p, o).outbox;
      && |after| == |b.outbox|
      && (i != p.id - 1 ==> after[i] == b.outbox[i])
      && exists error ::
           FailsWith(PlanFor(d, p.ev), o.fault, error) && Written(p, after[p.id - 1], error, threshold, o.now)
  {
    var after := FlushRow(b, d, threshold, p, o).outbox;
    var error := Verdict(PlanFor(d, p.ev), o.fault);
    assert FailsWith(PlanFor(d, p.ev), o.fault, error) && Written(p, after[p.id - 1], error, threshold, o.now);
  }
}
