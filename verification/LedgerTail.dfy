// Polling the operator ledger for one task, and fanning its bill entries into the outbox.
module LedgerTail {
  import opened Basics
  import opened Billing
  import opened Recording
  import opened Jobs

  datatype BillData = BillData(sku: string, meter: string, units: int, occurredAt: Option<int>)
  datatype EndData = EndData(outputs: Option<string>, error: string)

  // An operator-plane entry. Its Data blob is either absent or decoded both as a bill and as an end
  // result, each of which may fail.
  datatype LedgerEntry = LedgerEntry(ts: Option<int>, taskID: string, tenantID: string, phase: string,
                                     hasData: bool, bill: Result<BillData>, end: Result<EndData>)

  datatype BillEntry = BillEntry(taskID: string, tenantID: string, ts: Option<int>, data: BillData)

  datatype PollResult = PollResult(terminal: bool, status: Status, outputs: Option<string>, errMsg: string,
                                   bills: seq<BillEntry>)

  datatype TailResult = TailResult(entries: seq<LedgerEntry>, cursor: string)

  const NOTHING: PollResult := PollResult(false, Unknown(""), None, "", [])

  function MapPhaseToStatus(phase: string): (r: Option<Status>)
    ensures r.Some? ==> r.value.IsTerminal()
    ensures r == Some(Succeeded) <==> phase == "complete"
    ensures r == Some(Failed) <==> phase == "failed"
    ensures r == Some(Cancelled) <==> phase == "cancelled"
  {
    if phase == "complete" then Some(Succeeded)
    else if phase == "failed" then Some(Failed)
    else if phase == "cancelled" then Some(Cancelled)
    else None
  }

  function ParseBillEntry(e: LedgerEntry): Option<BillEntry> {
    if !e.hasData then Some(BillEntry(e.taskID, e.tenantID, e.ts, BillData("", "", 0, None)))
    else match e.bill
      case Err(_) => None
      case Ok(d) => Some(BillEntry(e.taskID, e.tenantID, e.ts, d))
  }

  function ExtractEnd(e: LedgerEntry): EndData {
    if !e.hasData then EndData(None, "")
    else match e.end
      case Err(msg) => EndData(None, "ledgertail: malformed data: " + msg)
      case Ok(d) => d
  }

  predicate IsBill(e: LedgerEntry) { e.phase == "bill" && ParseBillEntry(e).Some? }
  predicate IsEnd(e: LedgerEntry) { e.phase in {"complete", "failed", "cancelled"} }

  function ScanEntry(out: PollResult, e: LedgerEntry): PollResult {
    if e.phase == "bill" then
      match ParseBillEntry(e)
      case None => out
      case Some(be) => out.(bills := out.bills + [be])
    else if out.terminal || MapPhaseToStatus(e.phase).None? then out
    else
      out.(terminal := true, status := MapPhaseToStatus(e.phase).value,
           outputs := ExtractEnd(e).outputs, errMsg := ExtractEnd(e).error)
  }

  function Scan(entries: seq<LedgerEntry>): PollResult {
    if entries == [] then NOTHING else ScanEntry(Scan(entries[..|entries| - 1]), entries[|entries| - 1])
  }

  // The cursor of each task.
  type Cursors = map<string, string>

  function CursorOf(cursors: Cursors, taskID: string): (c: string)
    ensures taskID in cursors ==> c == cursors[taskID]
    ensures taskID !in cursors ==> c == ""
  {
    if taskID in cursors then cursors[taskID] else ""
  }

  // A failed call, or an empty cursor in the reply, moves no cursor.
  function AfterPoll(cursors: Cursors, taskID: string, reply: Result<TailResult>): Cursors {
    if reply.Ok? && reply.value.cursor != "" then cursors[taskID := reply.value.cursor] else cursors
  }

  class LedgerTailClient {
    var cursors: Cursors

    constructor ()
      ensures cursors == map[]
    {
      cursors := map[];
    }

    // `call` is the remote procedure: (task, cursor) to the tail after that cursor.
    method Poll(taskID: string, call: (string, string) -> Result<TailResult>) returns (r: Result<PollResult>)
      modifies this
      ensures var reply := call(taskID, CursorOf(old(cursors), taskID));
        && cursors == AfterPoll(old(cursors), taskID, reply)
        && (reply.Ok? && reply.value.cursor != "" ==> taskID in cursors && cursors[taskID] == reply.value.cursor)
        && (reply.Err? || reply.value.cursor == "" ==> cursors == old(cursors))
        && r == if reply.Err? then Err(reply.error) else Ok(Scan(reply.value.entries))
    {
      var cursor := if taskID in cursors then cursors[taskID] else "";
      var res := call(taskID, cursor);
      if res.Err? {
        return Err(res.error);
      }
      if res.value.cursor != "" {
        cursors := cursors[taskID := res.value.cursor];
      }
      var out := NOTHING;
      var entries := res.value.entries;
      for i := 0 to |entries|
        invariant out == Scan(entries[..i])
      {
        assert entries[..i + 1][..i] == entries[..i];
        var e := entries[i];
        if e.phase == "bill" {
          var be := ParseBillEntry(e);
          if be.Some? {
            out := out.(bills := out.bills + [be.value]);
          }
          continue;
        }
        if out.terminal {
          continue;
        }
        var status := MapPhaseToStatus(e.phase);
        if status.None? {
          continue;
        }
        var end := ExtractEnd(e);
        out := out.(terminal := true, status := status.value, outputs := end.outputs, errMsg := end.error);
      }
      assert entries[..|entries|] == entries;
      return Ok(out);
    }
  }

  function ParsedBills(entries: seq<LedgerEntry>): seq<BillEntry> {
    if entries == [] then []
    else
      var n := |entries| - 1;
      ParsedBills(entries[..n]) + if IsBill(entries[n]) then [ParseBillEntry(entries[n]).value] else []
  }

  predicate FirstEnd(entries: seq<LedgerEntry>, k: nat) {
    k < |entries| && IsEnd(entries[k]) && forall m :: 0 <= m < k ==> !IsEnd(entries[m])
  }

  // What this end entry says of the task; data that cannot be read is an error of its own.
  predicate Reports(e: LedgerEntry, r: PollResult) {
    && (e.phase == "complete" ==> r.status == Succeeded)
    && (e.phase == "failed" ==> r.status == Failed)
    && (e.phase == "cancelled" ==> r.status == Cancelled)
    && (!e.hasData ==> r.outputs == None && r.errMsg == "")
    && (e.hasData && e.end.Ok? ==> r.outputs == e.end.value.outputs && r.errMsg == e.end.value.error)
    && (e.hasData && e.end.Err? ==> r.outputs == None && r.errMsg == "ledgertail: malformed data: " + e.end.error)
  }

  // The outcome is the batch's first end entry and nothing after it; bills on either side of it
  // are all kept, in order.
  predicate ScanOk(entries: seq<LedgerEntry>, r: PollResult) {
    && r.bills == ParsedBills(entries)
    && (r.terminal <==> exists k :: 0 <= k < |entries| && IsEnd(entries[k]))
    && (r.terminal ==> r.status.IsTerminal())
    && forall k | 0 <= k < |entries| && FirstEnd(entries, k) :: Reports(entries[k], r)
  }

  lemma {:induction false} FirstEndWins(entries: seq<LedgerEntry>)
    ensures ScanOk(entries, Scan(entries))
  {
    if entries != [] {
      var n := |entries| - 1;
      FirstEndWins(entries[..n]);
      var before, r := Scan(entries[..n]), Scan(entries);
      assert forall k :: 0 <= k < n ==> entries[..n][k] == entries[k];
      if before.terminal {
        var k :| 0 <= k < n && IsEnd(entries[..n][k]);
        assert IsEnd(entries[k]);
      }
      forall k | 0 <= k < |entries| && FirstEnd(entries, k) ensures Reports(entries[k], r) {
        if k < n {
          assert IsEnd(entries[..n][k]) && FirstEnd(entries[..n], k);
        }
      }
    }
  }

  // The bill that an entry of phase "bill" stands for: its data as decoded, or blank if it has none.
  predicate Bills(e: LedgerEntry, b: BillEntry) {
    && e.phase == "bill" && b.taskID == e.taskID && b.tenantID == e.tenantID && b.ts == e.ts
    && (e.hasData ==> e.bill == Ok(b.data)) && (!e.hasData ==> b.data == BillData("", "", 0, None))
  }

  // A poll returns exactly the bills its entries stand for.
  lemma {:induction false} ParsedBillsAre(entries: seq<LedgerEntry>, b: BillEntry)
    ensures b in ParsedBills(entries) <==> exists k :: 0 <= k < |entries| && Bills(entries[k], b)
  {
    if entries != [] {
      var n := |entries| - 1;
      ParsedBillsAre(entries[..n], b);
      assert forall k :: 0 <= k < n ==> entries[..n][k] == entries[k];
      if Bills(entries[n], b) {
        assert b in ParsedBills(entries);
      }
      if k :| 0 <= k < |entries| && Bills(entries[k], b) {
        assert k < n ==> Bills(entries[..n][k], b);
      }
    }
  }

  // ---------------------------------------------------------------- outbox ids of bills

  // RFC 3339 with nanoseconds, in UTC: None is the zero time.
  type Clock = Option<int> -> string

  ghost predicate ClockOk(fmt: Clock) {
    && (forall t :: multiset(fmt(t))[':'] == 2)
    && (forall t, u :: fmt(t) == fmt(u) ==> t == u)
  }

  function StampOf(b: BillEntry): Option<int> {
    if b.ts.Some? then b.ts else b.data.occurredAt
  }

  function BuildBillEntryID(fmt: Clock, b: BillEntry): string {
    b.taskID + ":" + fmt(StampOf(b)) + ":" + b.data.sku + ":" + b.data.meter
  }

  predicate PlainBill(b: BillEntry) { ':' !in b.taskID && ':' !in b.data.sku }

  // The time of the envelope, or that of the bill where the envelope has none.
  predicate SameTime(b: BillEntry, c: BillEntry) {
    && (b.ts.Some? && c.ts.Some? ==> b.ts == c.ts)
    && (b.ts.Some? && c.ts.None? ==> b.ts == c.data.occurredAt)
    && (b.ts.None? && c.ts.Some? ==> b.data.occurredAt == c.ts)
    && (b.ts.None? && c.ts.None? ==> b.data.occurredAt == c.data.occurredAt)
  }

  lemma FourParts(a: string, t: string, x: string, m: string, b: string, u: string, y: string, n: string)
    requires ':' !in a && ':' !in b && ':' !in x && ':' !in y && multiset(t)[':'] == multiset(u)[':']
    requires a + ":" + t + ":" + x + ":" + m == b + ":" + u + ":" + y + ":" + n
    ensures a == b && t == u && x == y && m == n
  {
    var p, q := x + [':'] + m, y + [':'] + n;
    assert a + ":" + t + ":" + x + ":" + m == a + [':'] + (t + [':'] + p);
    assert b + ":" + u + ":" + y + ":" + n == b + [':'] + (u + [':'] + q);
    SplitUnique(':', a, t + [':'] + p, b, u + [':'] + q);
    SplitUnique(':', t, p, u, q);
    SplitUnique(':', x, m, y, n);
  }

  // Task, time, SKU and meter are exactly what the id remembers; where both envelopes carry a time,
  // nothing else of the time counts.
  lemma BillIDsAgreeIff(fmt: Clock, b: BillEntry, c: BillEntry)
    requires ClockOk(fmt) && PlainBill(b) && PlainBill(c)
    ensures BuildBillEntryID(fmt, b) == BuildBillEntryID(fmt, c) <==>
      b.taskID == c.taskID && SameTime(b, c) && b.data.sku == c.data.sku && b.data.meter == c.data.meter
  {
    assert SameTime(b, c) <==> StampOf(b) == StampOf(c);
    if BuildBillEntryID(fmt, b) == BuildBillEntryID(fmt, c) {
      FourParts(b.taskID, fmt(StampOf(b)), b.data.sku, b.data.meter,
                c.taskID, fmt(StampOf(c)), c.data.sku, c.data.meter);
    }
  }

  // ---------------------------------------------------------------- bills into the outbox

  function BillEvent(fmt: Clock, jobTenant: string, b: BillEntry): LedgerEvent {
    LedgerEvent(BuildBillEntryID(fmt, b), b.taskID, if b.tenantID == "" then jobTenant else b.tenantID,
                b.data.sku, "bill", b.data.units, b.data.meter,
                if b.data.occurredAt.Some? then b.data.occurredAt else b.ts)
  }

  // dbOk(i) says whether the INSERT of the i-th bill of the batch gets through.
  function BillDeliveries(fmt: Clock, jobTenant: string, bills: seq<BillEntry>, now: int,
                          dbOk: nat -> bool): (ds: seq<Delivery>)
    ensures |ds| == |bills|
  {
    seq(|bills|, i requires 0 <= i < |bills| => Delivery(BillEvent(fmt, jobTenant, bills[i]), now, dbOk(i)))
  }

  method RecordBills(svc: Service, fmt: Clock, jobTenant: string, bills: seq<BillEntry>, now: int, dbOk: nat -> bool)
    modifies svc`outbox
    ensures svc.outbox == Deliver(old(svc.outbox), BillDeliveries(fmt, jobTenant, bills, now, dbOk))
  {
    ghost var ds := BillDeliveries(fmt, jobTenant, bills, now, dbOk);
    for i := 0 to |bills|
      invariant svc.outbox == Deliver(old(svc.outbox), ds[..i])
    {
      assert ds[..i + 1][..i] == ds[..i];
      var b := bills[i];
      var tenantID := b.tenantID;
      if tenantID == "" {
        tenantID := jobTenant;
      }
      var ts := b.data.occurredAt;
      if ts.None? {
        ts := b.ts;
      }
      var ev := LedgerEvent(BuildBillEntryID(fmt, b), b.taskID, tenantID, b.data.sku,
                            "bill", b.data.units, b.data.meter, ts);
      var reply := svc.Record(ev, now, dbOk(i));
      if reply.Err? {
        continue;
      }
    }
    assert ds[..|ds|] == ds;
  }
}
