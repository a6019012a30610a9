// Whole runs of the billing pipeline. Every SQL statement and every backend call is one step, so
// Records interleave with a pass, an UPDATE can fail, and a crash can fall between the emit and
// the UPDATE that marks the row. One pass is in flight at a time.
module BillingRuns {
  import opened Basics
  import opened Billing

  datatype Pass =
    | Idle
    | Open(threshold: int, todo: seq<Row>)
    | Settling(threshold: int, p: Row, rest: seq<Row>, error: Option<string>)

  datatype Sys = Sys(books: Books, pass: Pass)

  datatype Step =
    | Record(ev: LedgerEvent, now: int, dbOk: bool)
    | Select(threshold: int, n: nat)                      // the pass reads a snapshot, n rows at most
    | Attempt(plan: Result<DispatchPlan>, fault: Fault)   // plan and emit the next row
    | Write(ok: bool, at: int)                            // the UPDATE that follows an attempt
    | Return                                              // the pass ends
    | Crash                                               // the process dies; nothing durable is lost

  const START: Sys := Sys(Books([], [], []), Idle)

  function Do(s: Sys, step: Step): Sys {
    match step
    case Record(ev, now, dbOk) =>
      s.(books := s.books.(outbox := Recorded(s.books.outbox, ev, now, dbOk)))
    case Select(t, n) =>
      if s.pass.Idle? then s.(pass := Open(t, Cut(Pending(s.books.outbox), n))) else s
    case Attempt(plan, fault) =>
      if s.pass.Open? && s.pass.todo != [] then
        Sys(Emit(s.books, s.pass.todo[0].ev, plan, fault),
            Settling(s.pass.threshold, s.pass.todo[0], s.pass.todo[1..], Verdict(plan, fault)))
      else s
    case Write(ok, at) =>
      if s.pass.Settling? then
        var row := Settled(s.pass.p, s.pass.error, s.pass.threshold, at);
        Sys(if ok then s.books.(outbox := Updated(s.books.outbox, row)) else s.books,
            Open(s.pass.threshold, s.pass.rest))
      else s
    case Return => if s.pass.Open? && s.pass.todo == [] then s.(pass := Idle) else s
    case Crash => s.(pass := Idle)
  }

  function Run(s: Sys, steps: seq<Step>): Sys {
    if steps == [] then s else Do(Run(s, steps[..|steps| - 1]), steps[|steps| - 1])
  }

  lemma RunSnoc(s: Sys, steps: seq<Step>, step: Step)
    ensures Run(s, steps + [step]) == Do(Run(s, steps), step)
  {
    assert (steps + [step])[..|steps|] == steps;
  }

  // ---------------------------------------------------------------- the environment's promise

  // The kinds of plan that a SKU may get in the course of a run.
  type Kinds = string -> set<Kind>

  // A plan is of a kind its SKU may get, and a one-shot bills the recorded units.
  predicate Fits(kinds: Kinds, ev: PendingEvent, plan: Result<DispatchPlan>) {
    plan.Ok? ==>
      && KindOf(plan.value.kind) in kinds(ev.sku)
      && (KindOf(plan.value.kind) == OneShot ==> plan.value.quantity == ev.units)
  }

  predicate HonestStep(kinds: Kinds, s: Sys, step: Step) {
    step.Attempt? && s.pass.Open? && s.pass.todo != [] ==> Fits(kinds, s.pass.todo[0].ev, step.plan)
  }

  predicate Honest(kinds: Kinds, s: Sys, steps: seq<Step>) {
    steps == [] ||
    var n := |steps| - 1;
    Honest(kinds, s, steps[..n]) && HonestStep(kinds, Run(s, steps[..n]), steps[n])
  }

  // ---------------------------------------------------------------- the invariant

  predicate Dense(outbox: seq<Row>) {
    forall i :: 0 <= i < |outbox| ==> outbox[i].id == i + 1
  }

  predicate EntriesDistinct(outbox: seq<Row>) {
    forall i, j :: 0 <= i < j < |outbox| ==> outbox[i].ev.entryID != outbox[j].ev.entryID
  }

  predicate UsageDistinct(log: seq<UsageRecord>) {
    forall i, j :: 0 <= i < j < |log| ==> log[i].idemKey != log[j].idemKey
  }

  predicate OneShotDistinct(log: seq<OneShotRecord>) {
    forall i, j :: 0 <= i < j < |log| ==> log[i].idemKey != log[j].idemKey
  }

  predicate BacksUsage(kinds: Kinds, row: Row, c: UsageRecord) {
    && Metered in kinds(row.ev.sku)
    && c.idemKey == UsageKey(row.ev) && c.tenantID == row.ev.tenantID && c.sku == row.ev.sku
    && c.units == row.ev.units && c.ts == row.ev.ts
  }

  function BilledQuantity(units: int): int { if units == 0 then 1 else units }

  predicate BacksOneShot(kinds: Kinds, row: Row, c: OneShotRecord) {
    && OneShot in kinds(row.ev.sku)
    && c.idemKey == OneShotKey(row.ev) && c.tenantID == row.ev.tenantID && c.sku == row.ev.sku
    && c.quantity == BilledQuantity(row.ev.units)
  }

  predicate UsageBacked(kinds: Kinds, outbox: seq<Row>, c: UsageRecord) {
    exists i :: 0 <= i < |outbox| && BacksUsage(kinds, outbox[i], c)
  }

  predicate OneShotBacked(kinds: Kinds, outbox: seq<Row>, c: OneShotRecord) {
    exists i :: 0 <= i < |outbox| && BacksOneShot(kinds, outbox[i], c)
  }

  predicate Backed(kinds: Kinds, b: Books) {
    && (forall a :: 0 <= a < |b.usage| ==> UsageBacked(kinds, b.outbox, b.usage[a]))
    && (forall a :: 0 <= a < |b.oneShots| ==> OneShotBacked(kinds, b.outbox, b.oneShots[a]))
  }

  predicate Charged(kinds: Kinds, b: Books, ev: PendingEvent) {
    || Skip in kinds(ev.sku)
    || (Metered in kinds(ev.sku) && HasUsage(b.usage, UsageKey(ev)))
    || (OneShot in kinds(ev.sku) && HasOneShot(b.oneShots, OneShotKey(ev)))
  }

  predicate BilledCharged(kinds: Kinds, b: Books) {
    forall i :: 0 <= i < |b.outbox| && b.outbox[i].Billed() ==> Charged(kinds, b, b.outbox[i].ev)
  }

  // A snapshot row is still what the table holds: only the pass itself touches pending rows.
  predicate Current(outbox: seq<Row>, q: Row) {
    1 <= q.id <= |outbox| && outbox[q.id - 1] == q && q.Waiting()
  }

  predicate Snapshot(outbox: seq<Row>, todo: seq<Row>) {
    && (forall k :: 0 <= k < |todo| ==> Current(outbox, todo[k]))
    && (forall j, k :: 0 <= j < k < |todo| ==> todo[j].id < todo[k].id)
  }

  predicate PassOk(kinds: Kinds, s: Sys) {
    match s.pass
    case Idle => true
    case Open(_, todo) => Snapshot(s.books.outbox, todo)
    case Settling(_, p, rest, error) =>
      && Snapshot(s.books.outbox, [p] + rest)
      && (error.None? ==> Charged(kinds, s.books, p.ev))
  }

  predicate Inv(kinds: Kinds, s: Sys) {
    && Dense(s.books.outbox) && EntriesDistinct(s.books.outbox)
    && UsageDistinct(s.books.usage) && OneShotDistinct(s.books.oneShots)
    && Backed(kinds, s.books) && BilledCharged(kinds, s.books) && PassOk(kinds, s)
  }

  lemma SnapshotSnoc(outbox: seq<Row>, row: Row, todo: seq<Row>)
    requires Dense(outbox + [row]) && Snapshot(outbox, todo)
    ensures Snapshot(outbox + [row], todo)
    ensures row.Waiting() ==> Snapshot(outbox + [row], todo + [row])
  {
    var all := outbox + [row];
    assert all[|outbox|] == row;
    forall k | 0 <= k < |todo| ensures Current(all, todo[k]) && todo[k].id < row.id {
      assert Current(outbox, todo[k]);
    }
  }

  lemma {:induction false} PendingIsSnapshot(outbox: seq<Row>)
    requires Dense(outbox)
    ensures Snapshot(outbox, Pending(outbox))
  {
    if outbox != [] {
      var n := |outbox| - 1;
      PendingIsSnapshot(outbox[..n]);
      assert outbox[..n] + [outbox[n]] == outbox;
      SnapshotSnoc(outbox[..n], outbox[n], Pending(outbox[..n]));
    }
  }

  lemma CutIsSnapshot(outbox: seq<Row>, n: nat)
    requires Dense(outbox)
    ensures Snapshot(outbox, Cut(Pending(outbox), n))
  {
    PendingIsSnapshot(outbox);
  }

  // Payloads of existing rows never change, so every charge stays backed.
  lemma StillBacked(kinds: Kinds, b: Books, e: Books)
    requires Backed(kinds, b) && e.usage == b.usage && e.oneShots == b.oneShots
    requires |b.outbox| <= |e.outbox|
    requires forall i :: 0 <= i < |b.outbox| ==> e.outbox[i].ev == b.outbox[i].ev
    ensures Backed(kinds, e)
  {
    forall a | 0 <= a < |e.usage| ensures UsageBacked(kinds, e.outbox, e.usage[a]) {
      var i :| 0 <= i < |b.outbox| && BacksUsage(kinds, b.outbox[i], b.usage[a]);
      assert BacksUsage(kinds, e.outbox[i], e.usage[a]);
    }
    forall a | 0 <= a < |e.oneShots| ensures OneShotBacked(kinds, e.outbox, e.oneShots[a]) {
      var i :| 0 <= i < |b.outbox| && BacksOneShot(kinds, b.outbox[i], b.oneShots[a]);
      assert BacksOneShot(kinds, e.outbox[i], e.oneShots[a]);
    }
  }

  lemma RecordKeeps(kinds: Kinds, s: Sys, step: Step)
    requires Inv(kinds, s) && step.Record?
    ensures Inv(kinds, Do(s, step))
  {
    var t := Do(s, step);
    assert s.books.outbox <= t.books.outbox;
    StillBacked(kinds, s.books, t.books);
  }

  // One emit keeps the logs duplicate-free and backed, forgets no charge, and on success has charged.
  lemma EmitKeeps(kinds: Kinds, b: Books, p: Row, plan: Result<DispatchPlan>, fault: Fault)
    requires Fits(kinds, p.ev, plan) && Current(b.outbox, p)
    requires UsageDistinct(b.usage) && OneShotDistinct(b.oneShots) && Backed(kinds, b)
    ensures var e := Emit(b, p.ev, plan, fault);
      && e.outbox == b.outbox && b.usage <= e.usage && b.oneShots <= e.oneShots
      && UsageDistinct(e.usage) && OneShotDistinct(e.oneShots) && Backed(kinds, e)
      && (Verdict(plan, fault).None? ==> Charged(kinds, e, p.ev))
  {
    var e := Emit(b, p.ev, plan, fault);
    if |e.usage| > |b.usage| {
      var n := |b.usage|;
      assert BacksUsage(kinds, e.outbox[p.id - 1], e.usage[n]);
      assert e.usage[n].idemKey == UsageKey(p.ev);
    }
    if |e.oneShots| > |b.oneShots| {
      var n := |b.oneShots|;
      assert BacksOneShot(kinds, e.outbox[p.id - 1], e.oneShots[n]);
      assert e.oneShots[n].idemKey == OneShotKey(p.ev);
    }
  }

  lemma ChargedGrows(kinds: Kinds, b: Books, e: Books, ev: PendingEvent)
    requires b.usage <= e.usage && b.oneShots <= e.oneShots && Charged(kinds, b, ev)
    ensures Charged(kinds, e, ev)
  {
    if HasUsage(b.usage, UsageKey(ev)) {
      var i :| 0 <= i < |b.usage| && b.usage[i].idemKey == UsageKey(ev);
      assert e.usage[i] == b.usage[i];
    }
    if HasOneShot(b.oneShots, OneShotKey(ev)) {
      var i :| 0 <= i < |b.oneShots| && b.oneShots[i].idemKey == OneShotKey(ev);
      assert e.oneShots[i] == b.oneShots[i];
    }
  }

  lemma AttemptKeeps(kinds: Kinds, s: Sys, step: Step)
    requires Inv(kinds, s) && step.Attempt? && HonestStep(kinds, s, step)
    ensures Inv(kinds, Do(s, step))
  {
    if s.pass.Open? && s.pass.todo != [] {
      var p := s.pass.todo[0];
      assert Current(s.books.outbox, p);
      var t := Do(s, step);
      EmitKeeps(kinds, s.books, p, step.plan, step.fault);
      forall i | 0 <= i < |t.books.outbox| && t.books.outbox[i].Billed()
        ensures Charged(kinds, t.books, t.books.outbox[i].ev)
      {
        ChargedGrows(kinds, s.books, t.books, s.books.outbox[i].ev);
      }
      assert [p] + s.pass.todo[1..] == s.pass.todo;
    }
  }

  // The UPDATE rewrites the row the pass holds and no other.
  lemma WriteTouchesOneRow(outbox: seq<Row>, p: Row, rest: seq<Row>, row: Row)
    requires Dense(outbox) && Snapshot(outbox, [p] + rest) && row.id == p.id
    ensures Current(outbox, p) && Updated(outbox, row) == outbox[p.id - 1 := row]
    ensures Dense(Updated(outbox, row)) && Snapshot(Updated(outbox, row), rest)
  {
    assert ([p] + rest)[0] == p;
    assert Current(outbox, p);
    var after := Updated(outbox, row);
    forall k | 0 <= k < |rest| ensures Current(after, rest[k]) {
      assert ([p] + rest)[k + 1] == rest[k];
    }
    forall j, k | 0 <= j < k < |rest| ensures rest[j].id < rest[k].id {
      assert ([p] + rest)[j + 1] == rest[j] && ([p] + rest)[k + 1] == rest[k];
    }
  }

  lemma SnapshotTail(outbox: seq<Row>, p: Row, rest: seq<Row>)
    requires Snapshot(outbox, [p] + rest)
    ensures Snapshot(outbox, rest)
  {
    forall k | 0 <= k < |rest| ensures Current(outbox, rest[k]) {
      assert ([p] + rest)[k + 1] == rest[k];
    }
    forall j, k | 0 <= j < k < |rest| ensures rest[j].id < rest[k].id {
      assert ([p] + rest)[j + 1] == rest[j] && ([p] + rest)[k + 1] == rest[k];
    }
  }

  lemma WriteKeepsCharges(kinds: Kinds, b: Books, e: Books, i: nat, row: Row)
    requires i < |b.outbox| && e == b.(outbox := b.outbox[i := row])
    requires BilledCharged(kinds, b) && row.ev == b.outbox[i].ev && (row.Billed() ==> Charged(kinds, b, row.ev))
    ensures BilledCharged(kinds, e)
  {
    forall j | 0 <= j < |e.outbox| && e.outbox[j].Billed() ensures Charged(kinds, e, e.outbox[j].ev) {
      assert j != i ==> e.outbox[j] == b.outbox[j];
    }
  }

  lemma WriteKeeps(kinds: Kinds, s: Sys, step: Step)
    requires Inv(kinds, s) && step.Write?
    ensures Inv(kinds, Do(s, step))
  {
    if s.pass.Settling? {
      var p, rest := s.pass.p, s.pass.rest;
      if step.ok {
        var row := Settled(p, s.pass.error, s.pass.threshold, step.at);
        WriteTouchesOneRow(s.books.outbox, p, rest, row);
        StillBacked(kinds, s.books, Do(s, step).books);
        WriteKeepsCharges(kinds, s.books, Do(s, step).books, p.id - 1, row);
      } else {
        SnapshotTail(s.books.outbox, p, rest);
      }
    }
  }

  lemma StepKeeps(kinds: Kinds, s: Sys, step: Step)
    requires Inv(kinds, s) && HonestStep(kinds, s, step)
    ensures Inv(kinds, Do(s, step))
  {
    match step
    case Record(_, _, _) => RecordKeeps(kinds, s, step);
    case Select(_, n) => CutIsSnapshot(s.books.outbox, n);
    case Attempt(_, _) => AttemptKeeps(kinds, s, step);
    case Write(_, _) => WriteKeeps(kinds, s, step);
    case Return =>
    case Crash =>
  }

  lemma {:induction false} RunKeeps(kinds: Kinds, s: Sys, steps: seq<Step>)
    requires Inv(kinds, s) && Honest(kinds, s, steps)
    ensures Inv(kinds, Run(s, steps))
  {
    if steps != [] {
      var n := |steps| - 1;
      RunKeeps(kinds, s, steps[..n]);
      StepKeeps(kinds, Run(s, steps[..n]), steps[n]);
    }
  }

  // ---------------------------------------------------------------- without any promise

  // The pass holds rows of the table; no assumption on the dispatcher is needed for this part.
  predicate Snapshotted(s: Sys) {
    match s.pass
    case Idle => true
    case Open(_, todo) => Snapshot(s.books.outbox, todo)
    case Settling(_, p, rest, _) => Snapshot(s.books.outbox, [p] + rest)
  }

  predicate SamePayloads(o: seq<Row>, p: seq<Row>) {
    |o| == |p| && forall i :: 0 <= i < |o| ==> o[i].ev == p[i].ev && o[i].taskID == p[i].taskID
  }

  lemma SnapshotStep(s: Sys, step: Step)
    requires Dense(s.books.outbox) && Snapshotted(s)
    ensures Dense(Do(s, step).books.outbox) && Snapshotted(Do(s, step))
    ensures !step.Record? ==> SamePayloads(s.books.outbox, Do(s, step).books.outbox)
  {
    match step
    case Record(_, _, _) => assert s.books.outbox <= Do(s, step).books.outbox;
    case Select(_, n) => CutIsSnapshot(s.books.outbox, n);
    case Attempt(_, _) =>
      if s.pass.Open? && s.pass.todo != [] {
        assert [s.pass.todo[0]] + s.pass.todo[1..] == s.pass.todo;
      }
    case Write(ok, at) =>
      if s.pass.Settling? {
        WriteTouchesOneRow(s.books.outbox, s.pass.p, s.pass.rest,
                           Settled(s.pass.p, s.pass.error, s.pass.threshold, at));
        SnapshotTail(s.books.outbox, s.pass.p, s.pass.rest);
      }
    case Return =>
    case Crash =>
  }

  // Whatever the environment does, ids are dense and a pass holds rows as the table has them.
  lemma {:induction false} RunSnapshotted(steps: seq<Step>)
    ensures Dense(Run(START, steps).books.outbox) && Snapshotted(Run(START, steps))
  {
    if steps != [] {
      RunSnapshotted(steps[..|steps| - 1]);
      SnapshotStep(Run(START, steps[..|steps| - 1]), steps[|steps| - 1]);
    }
  }
}
