// The billing outbox: rows recorded from ledger events, one reconcile pass that charges a
// backend under stable idempotency keys, and the backend that deduplicates by key.
module Billing {
  import opened Basics

  const DEFAULT_DEAD_LETTER_THRESHOLD: int := 10
  const MAX_LAST_ERROR_LEN: nat := 500

  // ts == None is Go's zero time.
  datatype LedgerEvent = LedgerEvent(entryID: string, taskID: string, tenantID: string, sku: string,
                                     result: string, units: int, meter: string, ts: Option<int>)

  // The part of an outbox row that a dispatcher sees.
  datatype PendingEvent = PendingEvent(entryID: string, tenantID: string, sku: string, meter: string,
                                       units: int, ts: int)

  datatype Row = Row(id: int, ev: PendingEvent, taskID: string, billedAt: Option<int>,
                     failureCount: int, lastError: string, lastAttemptAt: Option<int>,
                     deadLetteredAt: Option<int>)
  {
    predicate Billed() { billedAt.Some? }
    predicate Dead() { deadLetteredAt.Some? }
    predicate Waiting() { billedAt.None? && deadLetteredAt.None? }
  }

  datatype DispatchPlan = DispatchPlan(kind: string, meterName: string, priceID: string,
                                       quantity: int, description: string)

  datatype Kind = Metered | OneShot | Skip

  // Any unrecognised kind string is treated as metered.
  function KindOf(kind: string): Kind {
    if kind == "skip" then Skip else if kind == "oneshot" then OneShot else Metered
  }

  type Dispatcher = PendingEvent -> Result<DispatchPlan>

  // No dispatcher wired: every event is metered under its own meter.
  function PlanFor(d: Option<Dispatcher>, ev: PendingEvent): (r: Result<DispatchPlan>)
    ensures d.Some? ==> r == d.value(ev)
    ensures d.None? ==> r.Ok? && r.value.kind == "metered" && r.value.meterName == ev.meter
  {
    match d
    case None => Ok(DispatchPlan("metered", ev.meter, "", 0, ""))
    case Some(f) => f(ev)
  }

  // ---------------------------------------------------------------- the backend

  datatype UsageRecord = UsageRecord(tenantID: string, sku: string, meter: string, units: int,
                                     ts: int, idemKey: string)
  datatype OneShotRecord = OneShotRecord(tenantID: string, sku: string, priceID: string,
                                         quantity: int, description: string, idemKey: string)

  function Tag(ev: PendingEvent): string {
    ev.tenantID + ":" + ev.entryID
  }

  function UsageKey(ev: PendingEvent): string {
    "usage:" + Tag(ev)
  }

  function OneShotKey(ev: PendingEvent): string {
    "oneshot:" + Tag(ev)
  }

  predicate HasUsage(log: seq<UsageRecord>, key: string) {
    exists i :: 0 <= i < |log| && log[i].idemKey == key
  }

  predicate HasOneShot(log: seq<OneShotRecord>, key: string) {
    exists i :: 0 <= i < |log| && log[i].idemKey == key
  }

  function AddUsage(log: seq<UsageRecord>, r: UsageRecord): seq<UsageRecord> {
    if r.idemKey != "" && HasUsage(log, r.idemKey) then log else log + [r]
  }

  function AddOneShot(log: seq<OneShotRecord>, r: OneShotRecord): seq<OneShotRecord> {
    if r.idemKey != "" && HasOneShot(log, r.idemKey) then log
    else log + [if r.quantity == 0 then r.(quantity := 1) else r]
  }

  function UsageFor(ev: PendingEvent, plan: DispatchPlan): UsageRecord {
    UsageRecord(ev.tenantID, ev.sku, if plan.meterName == "" then ev.meter else plan.meterName,
                ev.units, ev.ts, UsageKey(ev))
  }

  function OneShotFor(ev: PendingEvent, plan: DispatchPlan): OneShotRecord {
    OneShotRecord(ev.tenantID, ev.sku, plan.priceID, plan.quantity, plan.description, OneShotKey(ev))
  }

  // How one backend call can end: it succeeds, it fails before reaching the provider, or it takes
  // effect and the reply is lost.
  datatype Fault = NoFault | LostBefore(error: string) | LostAfter(error: string)

  // The durable state of the pipeline: the outbox table and the provider's two logs.
  datatype Books = Books(outbox: seq<Row>, usage: seq<UsageRecord>, oneShots: seq<OneShotRecord>)

  // Effect of planning and emitting one row on the provider's logs.
  function Emit(b: Books, ev: PendingEvent, plan: Result<DispatchPlan>, fault: Fault): Books {
    if plan.Err? then b
    else match KindOf(plan.value.kind)
      case Skip => b
      case OneShot =>
        if fault.LostBefore? then b
        else b.(oneShots := AddOneShot(b.oneShots, OneShotFor(ev, plan.value)))
      case Metered =>
        if fault.LostBefore? then b
        else b.(usage := AddUsage(b.usage, UsageFor(ev, plan.value)))
  }

  // What the pass sees of that attempt: None is success.
  function Verdict(plan: Result<DispatchPlan>, fault: Fault): Option<string> {
    if plan.Err? then Some(plan.error)
    else if KindOf(plan.value.kind) == Skip || fault.NoFault? then None
    else Some(fault.error)
  }

  // ---------------------------------------------------------------- the outbox table

  function Truncate(s: string, n: nat): (r: string)
    ensures |r| <= n && r <= s
  {
    if |s| <= n then s else s[..n]
  }

  predicate HasEntry(outbox: seq<Row>, entryID: string) {
    exists i :: 0 <= i < |outbox| && outbox[i].ev.entryID == entryID
  }

  predicate Complete(ev: LedgerEvent) {
    ev.tenantID != "" && ev.sku != "" && ev.meter != "" && ev.entryID != ""
  }

  function Stamped(ev: LedgerEvent, now: int): PendingEvent {
    PendingEvent(ev.entryID, ev.tenantID, ev.sku, ev.meter, ev.units,
                 if ev.ts.Some? then ev.ts.value else now)
  }

  // INSERT OR IGNORE under UNIQUE(entry_id); ids count up from 1.
  function Inserted(outbox: seq<Row>, ev: PendingEvent, taskID: string): seq<Row> {
    if HasEntry(outbox, ev.entryID) then outbox
    else outbox + [Row(|outbox| + 1, ev, taskID, None, 0, "", None, None)]
  }

  function RecordReply(ev: LedgerEvent, dbOk: bool): Result<()> {
    if ev.result != "bill" then Ok(())
    else if ev.tenantID == "" || ev.sku == "" || ev.meter == "" then Err("billing: incomplete event")
    else if ev.entryID == "" then Err("billing: empty entry_id")
    else if !dbOk then Err("billing: insert")
    else Ok(())
  }

  function Recorded(outbox: seq<Row>, ev: LedgerEvent, now: int, dbOk: bool): seq<Row> {
    if ev.result == "bill" && Complete(ev) && dbOk then Inserted(outbox, Stamped(ev, now), ev.taskID)
    else outbox
  }

  // SELECT ... WHERE billed_at IS NULL AND dead_lettered_at IS NULL ORDER BY id
  function Pending(outbox: seq<Row>): seq<Row> {
    if outbox == [] then []
    else
      var n := |outbox| - 1;
      Pending(outbox[..n]) + if outbox[n].Waiting() then [outbox[n]] else []
  }

  // UPDATE ... WHERE id = row.id
  function Updated(outbox: seq<Row>, row: Row): (r: seq<Row>)
    ensures |r| == |outbox|
    ensures forall i :: 0 <= i < |r| ==> r[i] == if outbox[i].id == row.id then row else outbox[i]
  {
    seq(|outbox|, i requires 0 <= i < |outbox| => if outbox[i].id == row.id then row else outbox[i])
  }

  // The row as the statement after an attempt rewrites it. `p` is the row the pass selected.
  function Settled(p: Row, error: Option<string>, threshold: int, now: int): Row {
    if error.None? then p.(billedAt := Some(now))
    else
      var failed := p.(failureCount := p.failureCount + 1,
                       lastError := Truncate(error.value, MAX_LAST_ERROR_LEN),
                       lastAttemptAt := Some(now));
      if p.failureCount + 1 >= threshold then failed.(deadLetteredAt := Some(now)) else failed
  }

  // ---------------------------------------------------------------- one whole pass

  // What the environment does to one row in one pass: how the backend call ends, whether the
  // UPDATE that follows it succeeds, and the clock.
  datatype Outcome = Outcome(fault: Fault, writeOk: bool, now: int)

  function FlushRow(b: Books, d: Option<Dispatcher>, threshold: int, p: Row, o: Outcome): Books {
    var plan := PlanFor(d, p.ev);
    var emitted := Emit(b, p.ev, plan, o.fault);
    if o.writeOk
    then emitted.(outbox := Updated(b.outbox, Settled(p, Verdict(plan, o.fault), threshold, o.now)))
    else emitted
  }

  predicate Counts(d: Option<Dispatcher>, p: Row, o: Outcome) {
    Verdict(PlanFor(d, p.ev), o.fault).None? && o.writeOk
  }

  function FlushStep(d: Option<Dispatcher>, threshold: int, env: int -> Outcome): (Books, Row) -> Books {
    (b: Books, p: Row) => FlushRow(b, d, threshold, p, env(p.id))
  }

  function Flush(b: Books, d: Option<Dispatcher>, threshold: int, todo: seq<Row>, env: int -> Outcome): Books {
    Fold(FlushStep(d, threshold, env), b, todo)
  }

  lemma FlushSnoc(b: Books, d: Option<Dispatcher>, threshold: int, todo: seq<Row>, p: Row, env: int -> Outcome)
    ensures Flush(b, d, threshold, todo + [p], env)
         == FlushRow(Flush(b, d, threshold, todo, env), d, threshold, p, env(p.id))
  {
    assert (todo + [p])[..|todo|] == todo;
  }

  function EmittedCount(d: Option<Dispatcher>, todo: seq<Row>, env: int -> Outcome): nat {
    if todo == [] then 0
    else
      var p := todo[|todo| - 1];
      EmittedCount(d, todo[..|todo| - 1], env) + if Counts(d, p, env(p.id)) then 1 else 0
  }

  lemma NextRow(b: Books, d: Option<Dispatcher>, threshold: int, ps: seq<Row>, i: nat, env: int -> Outcome)
    requires i < |ps|
    ensures Flush(b, d, threshold, ps[..i + 1], env)
         == FlushRow(Flush(b, d, threshold, ps[..i], env), d, threshold, ps[i], env(ps[i].id))
    ensures EmittedCount(d, ps[..i + 1], env)
         == EmittedCount(d, ps[..i], env) + if Counts(d, ps[i], env(ps[i].id)) then 1 else 0
  {
    PrefixSnoc(ps, i);
    FlushSnoc(b, d, threshold, ps[..i], ps[i], env);
    assert ps[..i + 1][..i] == ps[..i];
  }

  // OWERA_DEAD_LETTER_THRESHOLD: `parsed` is the integer in the variable, if there is one.
  function DeadLetterThreshold(parsed: Option<int>): (t: int)
    ensures t >= 1
    ensures parsed.Some? && parsed.value > 0 ==> t == parsed.value
    ensures !(parsed.Some? && parsed.value > 0) ==> t == 10
  {
    if parsed.Some? && parsed.value > 0 then parsed.value else DEFAULT_DEAD_LETTER_THRESHOLD
  }

  class FakeBackend {
    var records: seq<UsageRecord>
    var oneShots: seq<OneShotRecord>

    constructor ()
      ensures records == [] && oneShots == []
    {
      records, oneShots := [], [];
    }

    method EmitUsage(r: UsageRecord)
      modifies this`records
      ensures records == AddUsage(old(records), r)
      ensures r.idemKey != "" && (exists i :: 0 <= i < |old(records)| && old(records)[i].idemKey == r.idemKey) ==>
        records == old(records)
      ensures !(r.idemKey != "" && exists i :: 0 <= i < |old(records)| && old(records)[i].idemKey == r.idemKey) ==>
        records == old(records) + [r]
    {
      for i := 0 to |records|
        invariant records == old(records)
        invariant r.idemKey != "" ==> forall k :: 0 <= k < i ==> records[k].idemKey != r.idemKey
      {
        if records[i].idemKey == r.idemKey && r.idemKey != "" {
          return;
        }
      }
      records := records + [r];
    }

    method EmitOneShot(r: OneShotRecord)
      modifies this`oneShots
      ensures oneShots == AddOneShot(old(oneShots), r)
      ensures r.idemKey != "" && (exists i :: 0 <= i < |old(oneShots)| && old(oneShots)[i].idemKey == r.idemKey) ==>
        oneShots == old(oneShots)
      ensures !(r.idemKey != "" && exists i :: 0 <= i < |old(oneShots)| && old(oneShots)[i].idemKey == r.idemKey) ==>
        oneShots == old(oneShots) + [r.(quantity := if r.quantity == 0 then 1 else r.quantity)]
    {
      for i := 0 to |oneShots|
        invariant oneShots == old(oneShots)
        invariant r.idemKey != "" ==> forall k :: 0 <= k < i ==> oneShots[k].idemKey != r.idemKey
      {
        if oneShots[i].idemKey == r.idemKey && r.idemKey != "" {
          return;
        }
      }
      var quantity := if r.quantity == 0 then 1 else r.quantity;
      oneShots := oneShots + [r.(quantity := quantity)];
    }
  }

  class Service {
    var outbox: seq<Row>
    var dispatcher: Option<Dispatcher>
    const backend: FakeBackend?

    constructor (backend: FakeBackend?)
      ensures outbox == [] && dispatcher == None && this.backend == backend
    {
      outbox, dispatcher := [], None;
      this.backend := backend;
    }

    ghost function Contents(): Books
      reads this, backend
    {
      if backend == null then Books(outbox, [], []) else Books(outbox, backend.records, backend.oneShots)
    }

    method SetDispatcher(d: Option<Dispatcher>)
      modifies this`dispatcher
      ensures dispatcher == d
    {
      dispatcher := d;
    }

    method Record(ev: LedgerEvent, now: int, dbOk: bool) returns (reply: Result<()>)
      modifies this`outbox
      ensures reply == RecordReply(ev, dbOk)
      ensures ev.result != "bill" ==> reply.Ok?
      ensures ev.result == "bill" ==>
        (reply.Ok? <==> dbOk && ev.tenantID != "" && ev.sku != "" && ev.meter != "" && ev.entryID != "")
      ensures outbox == Recorded(old(outbox), ev, now, dbOk)
      ensures reply.Err? || ev.result != "bill" ==> outbox == old(outbox)
    {
      if ev.result != "bill" {
        return Ok(());
      }
      if ev.tenantID == "" || ev.sku == "" || ev.meter == "" {
        return Err("billing: incomplete event");
      }
      if ev.entryID == "" {
        return Err("billing: empty entry_id");
      }
      var ts := if ev.ts.Some? then ev.ts.value else now;
      if !dbOk {
        return Err("billing: insert");
      }
      var payload := PendingEvent(ev.entryID, ev.tenantID, ev.sku, ev.meter, ev.units, ts);
      if !HasEntry(outbox, ev.entryID) {
        outbox := outbox + [Row(|outbox| + 1, payload, ev.taskID, None, 0, "", None, None)];
      }
      return Ok(());
    }

    // The failure bookkeeping of one row; the write may fail, which leaves the table alone.
    method RecordFailure(p: Row, error: string, threshold: int, now: int, writeOk: bool)
      modifies this`outbox
      ensures outbox == if writeOk then Updated(old(outbox), Settled(p, Some(error), threshold, now)) else old(outbox)
    {
      var nextCount := p.failureCount + 1;
      if !writeOk {
        return;
      }
      var row := p.(failureCount := nextCount, lastError := Truncate(error, MAX_LAST_ERROR_LEN),
                    lastAttemptAt := Some(now));
      if nextCount >= threshold {
        row := row.(deadLetteredAt := Some(now));
      }
      outbox := Updated(outbox, row);
    }

    method Call(ev: PendingEvent, plan: DispatchPlan, fault: Fault) returns (error: Option<string>)
      requires backend != null
      modifies backend
      ensures Contents() == old(Emit(Contents(), ev, Ok(plan), fault))
      ensures error == Verdict(Ok(plan), fault)
    {
      if KindOf(plan.kind) == Skip {
        return None;
      }
      if fault.LostBefore? {
        return Some(fault.error);
      }
      if KindOf(plan.kind) == OneShot {
        backend.EmitOneShot(OneShotFor(ev, plan));
      } else {
        backend.EmitUsage(UsageFor(ev, plan));
      }
      return if fault.LostAfter? then Some(fault.error) else None;
    }

    // How far the SELECT of the pending rows is read: None is an error, and a reading that breaks off
    // after n rows goes unnoticed.
    method Reconcile(parsed: Option<int>, reading: Option<nat>, env: int -> Outcome) returns (r: Result<nat>)
      modifies this`outbox, backend
      ensures backend == null || reading.None? ==> r.Err? && Contents() == old(Contents())
      ensures backend != null && reading.Some? ==>
        var todo := Cut(Pending(old(outbox)), reading.value);
        && Contents() == old(Flush(Contents(), dispatcher, DeadLetterThreshold(parsed), todo, env))
        && r == Ok(old(EmittedCount(dispatcher, todo, env)))
    {
      if backend == null {
        return Err("billing: no backend");
      }
      var threshold := DeadLetterThreshold(parsed);
      if reading.None? {
        return Err("billing: select pending");
      }
      var ps := Cut(Pending(outbox), reading.value);
      var emitted: nat := 0;
      for i := 0 to |ps|
        invariant Contents() == old(Flush(Contents(), dispatcher, threshold, ps[..i], env))
        invariant emitted == old(EmittedCount(dispatcher, ps[..i], env))
      {
        var p := ps[i];
        NextRow(old(Contents()), dispatcher, threshold, ps, i, env);
        var o := env(p.id);
        var plan := PlanFor(dispatcher, p.ev);
        if plan.Err? {
          RecordFailure(p, plan.error, threshold, o.now, o.writeOk);
          continue;
        }
        var error := Call(p.ev, plan.value, o.fault);
        if error.Some? {
          RecordFailure(p, error.value, threshold, o.now, o.writeOk);
          continue;
        }
        if !o.writeOk {
          continue;
        }
        outbox := Updated(outbox, p.(billedAt := Some(o.now)));
        emitted := emitted + 1;
      }
      assert ps[..|ps|] == ps;
      r := Ok(emitted);
    }
  }
}
