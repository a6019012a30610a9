// Any polls of any tasks' ledgers, by any clients that lose their cursors, over any outbox.
module LedgerPolls {
  import opened Basics
  import opened Billing
  import opened Recording
  import opened LedgerTail

  // Fixed for a run: the clock format and the tenant of each task's job.
  datatype Config = Config(fmt: Clock, tenantOf: string -> string)

  // `reply` is what the server answers, `upTo` how far the task's ledger had grown by then. Cursors
  // live in the memory of a client, so a restart forgets them all.
  datatype Step =
    | Poll(client: int, taskID: string, reply: Result<TailResult>, upTo: nat, now: int)
    | Restart(client: int)

  datatype Sys = Sys(clients: map<int, Cursors>, outbox: seq<Row>)

  function ClientOf(s: Sys, client: int): Cursors {
    if client in s.clients then s.clients[client] else map[]
  }

  function Cursor(s: Sys, client: int, taskID: string): string {
    CursorOf(ClientOf(s, client), taskID)
  }

  // Every INSERT gets through.
  function Deliveries(cfg: Config, taskID: string, bills: seq<BillEntry>, now: int): seq<Delivery> {
    BillDeliveries(cfg.fmt, cfg.tenantOf(taskID), bills, now, i => true)
  }

  function Polled(cfg: Config, step: Step): seq<Delivery> {
    if step.Poll? && step.reply.Ok?
    then Deliveries(cfg, step.taskID, Scan(step.reply.value.entries).bills, step.now)
    else []
  }

  function Do(cfg: Config, s: Sys, step: Step): Sys {
    match step
    case Poll(c, taskID, reply, _, _) =>
      Sys(s.clients[c := AfterPoll(ClientOf(s, c), taskID, reply)], Deliver(s.outbox, Polled(cfg, step)))
    case Restart(c) => s.(clients := s.clients - {c})
  }

  function Run(cfg: Config, start: seq<Row>, steps: seq<Step>): Sys {
    if steps == [] then Sys(map[], start) else Do(cfg, Run(cfg, start, steps[..|steps| - 1]), steps[|steps| - 1])
  }

  lemma RunSnoc(cfg: Config, start: seq<Row>, steps: seq<Step>, step: Step)
    ensures Run(cfg, start, steps + [step]) == Do(cfg, Run(cfg, start, steps), step)
  {
    assert (steps + [step])[..|steps|] == steps;
  }

  // ---------------------------------------------------------------- whatever the server answers

  // Every bill returned, in the order of the polls.
  function AllPolled(cfg: Config, steps: seq<Step>): seq<Delivery> {
    if steps == [] then [] else AllPolled(cfg, steps[..|steps| - 1]) + Polled(cfg, steps[|steps| - 1])
  }

  lemma AllPolledSnoc(cfg: Config, steps: seq<Step>, step: Step)
    ensures AllPolled(cfg, steps + [step]) == AllPolled(cfg, steps) + Polled(cfg, step)
  {
    assert (steps + [step])[..|steps|] == steps;
  }

  predicate IsDelivered(cfg: Config, start: seq<Row>, steps: seq<Step>) {
    Run(cfg, start, steps).outbox == Deliver(start, AllPolled(cfg, steps))
  }

  lemma DeliveredStep(cfg: Config, start: seq<Row>, steps: seq<Step>, step: Step)
    requires IsDelivered(cfg, start, steps)
    ensures IsDelivered(cfg, start, steps + [step])
  {
    RunSnoc(cfg, start, steps, step);
    AllPolledSnoc(cfg, steps, step);
    DeliverAppend(start, AllPolled(cfg, steps), Polled(cfg, step));
  }

  lemma {:induction false} PollsAreDelivered(cfg: Config, start: seq<Row>, steps: seq<Step>)
    ensures IsDelivered(cfg, start, steps)
  {
    if steps != [] {
      var before, step := steps[..|steps| - 1], steps[|steps| - 1];
      assert before + [step] == steps;
      PollsAreDelivered(cfg, start, before);
      DeliveredStep(cfg, start, before, step);
    }
  }

  // Over any outbox, any tasks and any answers: the old rows stay, and there is one new row per
  // distinct new bill id returned, with the payload that was returned first.
  lemma PollsAreExplained(cfg: Config, start: seq<Row>, steps: seq<Step>)
    ensures Explained(start, AllPolled(cfg, steps), Run(cfg, start, steps).outbox)
  {
    PollsAreDelivered(cfg, start, steps);
    FirstWins(start, AllPolled(cfg, steps));
  }

  // ---------------------------------------------------------------- a server that skips nothing

  // The whole ledger of each task, and where in it a cursor points; no cursor points to the start.
  datatype Server = Server(ledger: string -> seq<LedgerEntry>, position: (string, string) -> nat)

  ghost predicate FromTheStart(srv: Server) {
    forall taskID :: srv.position(taskID, "") == 0
  }

  // The answer to a cursor: the entries from there to the end of the ledger then, and a cursor that
  // points at most to that end.
  predicate Answers(srv: Server, cursor: string, step: Step)
    requires step.Poll? && step.reply.Ok?
  {
    var res, from := step.reply.value, srv.position(step.taskID, cursor);
    && from <= step.upTo <= |srv.ledger(step.taskID)|
    && res.entries == srv.ledger(step.taskID)[from..step.upTo]
    && (res.cursor != "" ==> srv.position(step.taskID, res.cursor) <= step.upTo)
  }

  predicate Served(cfg: Config, srv: Server, start: seq<Row>, steps: seq<Step>) {
    forall k :: 0 <= k < |steps| && steps[k].Poll? && steps[k].reply.Ok? ==>
      Answers(srv, Cursor(Run(cfg, start, steps[..k]), steps[k].client, steps[k].taskID), steps[k])
  }

  lemma ServedFront(cfg: Config, srv: Server, start: seq<Row>, steps: seq<Step>, step: Step)
    requires Served(cfg, srv, start, steps + [step])
    ensures Served(cfg, srv, start, steps)
    ensures step.Poll? && step.reply.Ok? ==>
      Answers(srv, Cursor(Run(cfg, start, steps), step.client, step.taskID), step)
  {
    var all := steps + [step];
    assert all[|steps|] == step && all[..|steps|] == steps;
    forall k | 0 <= k < |steps| && steps[k].Poll? && steps[k].reply.Ok?
      ensures Answers(srv, Cursor(Run(cfg, start, steps[..k]), steps[k].client, steps[k].taskID), steps[k])
    {
      assert all[k] == steps[k] && all[..k] == steps[..k];
    }
  }

  // How much of a task's ledger has been read.
  function Reached(steps: seq<Step>, taskID: string): nat {
    if steps == [] then 0
    else
      var before, last := Reached(steps[..|steps| - 1], taskID), steps[|steps| - 1];
      if last.Poll? && last.reply.Ok? && last.taskID == taskID && last.upTo > before then last.upTo else before
  }

  lemma ReachedSnoc(steps: seq<Step>, step: Step, taskID: string)
    ensures Reached(steps + [step], taskID) ==
      if step.Poll? && step.reply.Ok? && step.taskID == taskID && step.upTo > Reached(steps, taskID)
      then step.upTo else Reached(steps, taskID)
  {
    assert (steps + [step])[..|steps|] == steps;
  }

  // Each of these bills has its row, as far as Record accepts it.
  predicate KnownBills(cfg: Config, taskID: string, o: seq<Row>, bills: seq<BillEntry>) {
    forall k :: 0 <= k < |bills| && Billable(cfg, taskID, bills[k]) ==> HasEntry(o, BuildBillEntryID(cfg.fmt, bills[k]))
  }

  predicate Billable(cfg: Config, taskID: string, b: BillEntry) {
    Complete(BillEvent(cfg.fmt, cfg.tenantOf(taskID), b))
  }

  predicate Known(cfg: Config, taskID: string, o: seq<Row>, entries: seq<LedgerEntry>) {
    KnownBills(cfg, taskID, o, ParsedBills(entries))
  }

  lemma {:induction false} BillsOfConcat(a: seq<LedgerEntry>, b: seq<LedgerEntry>)
    ensures ParsedBills(a + b) == ParsedBills(a) + ParsedBills(b)
  {
    if b == [] {
      assert a + b == a;
    } else {
      var front, e := b[..|b| - 1], b[|b| - 1];
      BillsOfConcat(a, front);
      assert (a + b)[..|a| + |front|] == a + front && (a + b)[|a| + |front|] == e;
    }
  }

  lemma KnownParts(cfg: Config, taskID: string, o: seq<Row>, a: seq<BillEntry>, b: seq<BillEntry>)
    ensures KnownBills(cfg, taskID, o, a + b) <==> KnownBills(cfg, taskID, o, a) && KnownBills(cfg, taskID, o, b)
  {
    var all := a + b;
    assert forall k :: 0 <= k < |a| ==> all[k] == a[k];
    assert forall k :: 0 <= k < |b| ==> all[|a| + k] == b[k];
  }

  lemma KnownConcat(cfg: Config, taskID: string, o: seq<Row>, a: seq<LedgerEntry>, b: seq<LedgerEntry>)
    ensures Known(cfg, taskID, o, a + b) <==> Known(cfg, taskID, o, a) && Known(cfg, taskID, o, b)
  {
    BillsOfConcat(a, b);
    KnownParts(cfg, taskID, o, ParsedBills(a), ParsedBills(b));
  }

  lemma KnownSlice(cfg: Config, taskID: string, o: seq<Row>, entries: seq<LedgerEntry>, from: nat, upTo: nat, n: nat)
    requires from <= upTo <= n <= |entries| && Known(cfg, taskID, o, entries[..n])
    ensures Known(cfg, taskID, o, entries[from..upTo])
  {
    assert entries[..n] == entries[..from] + (entries[from..upTo] + entries[upTo..n]);
    KnownConcat(cfg, taskID, o, entries[..from], entries[from..upTo] + entries[upTo..n]);
    KnownConcat(cfg, taskID, o, entries[from..upTo], entries[upTo..n]);
  }

  lemma KnownGrows(cfg: Config, taskID: string, o: seq<Row>, p: seq<Row>, entries: seq<LedgerEntry>)
    requires o <= p && Known(cfg, taskID, o, entries)
    ensures Known(cfg, taskID, p, entries)
  {
    var bills := ParsedBills(entries);
    forall k | 0 <= k < |bills| && Billable(cfg, taskID, bills[k])
      ensures HasEntry(p, BuildBillEntryID(cfg.fmt, bills[k]))
    {
      var i :| 0 <= i < |o| && o[i].ev.entryID == BuildBillEntryID(cfg.fmt, bills[k]);
      assert p[i] == o[i];
    }
  }

  lemma DeliveredIsKnown(cfg: Config, taskID: string, o: seq<Row>, bills: seq<BillEntry>, now: int)
    ensures KnownBills(cfg, taskID, Deliver(o, Deliveries(cfg, taskID, bills, now)), bills)
  {
    var ds := Deliveries(cfg, taskID, bills, now);
    FirstWins(o, ds);
    forall k | 0 <= k < |bills| && Billable(cfg, taskID, bills[k])
      ensures HasEntry(Deliver(o, ds), BuildBillEntryID(cfg.fmt, bills[k]))
    {
      assert ds[k].Lands() && ds[k].ev.entryID == BuildBillEntryID(cfg.fmt, bills[k]);
    }
  }

  lemma KnownAddsNothing(cfg: Config, taskID: string, o: seq<Row>, bills: seq<BillEntry>, now: int)
    requires KnownBills(cfg, taskID, o, bills)
    ensures Deliver(o, Deliveries(cfg, taskID, bills, now)) == o
  {
    RedeliveryAddsNothing(o, Deliveries(cfg, taskID, bills, now));
  }

  lemma DeliveriesConcat(cfg: Config, taskID: string, a: seq<BillEntry>, b: seq<BillEntry>, now: int)
    ensures Deliveries(cfg, taskID, a + b, now) == Deliveries(cfg, taskID, a, now) + Deliveries(cfg, taskID, b, now)
  {
  }

  // ---------------------------------------------------------------- polls against that server

  // The cursor that a client holds never points past what has been read, and all of that is known.
  ghost predicate TaskOk(cfg: Config, srv: Server, start: seq<Row>, steps: seq<Step>, taskID: string) {
    && Reached(steps, taskID) <= |srv.ledger(taskID)|
    && Known(cfg, taskID, Run(cfg, start, steps).outbox, srv.ledger(taskID)[..Reached(steps, taskID)])
    && forall c :: srv.position(taskID, Cursor(Run(cfg, start, steps), c, taskID)) <= Reached(steps, taskID)
  }

  // The stretch of its ledger that a poll is the first to read.
  function FirstRead(cfg: Config, srv: Server, steps: seq<Step>, step: Step): seq<Delivery> {
    if step.Poll? && step.reply.Ok? && Reached(steps, step.taskID) < step.upTo <= |srv.ledger(step.taskID)|
    then Deliveries(cfg, step.taskID,
                    ParsedBills(srv.ledger(step.taskID)[Reached(steps, step.taskID)..step.upTo]), step.now)
    else []
  }

  // A stretch that starts inside what is known adds only what lies beyond it.
  lemma StretchAdds(cfg: Config, taskID: string, o: seq<Row>, ledger: seq<LedgerEntry>, from: nat, reached: nat,
                    upTo: nat, now: int)
    requires from <= reached <= upTo <= |ledger| && Known(cfg, taskID, o, ledger[..reached])
    ensures Deliver(o, Deliveries(cfg, taskID, ParsedBills(ledger[from..upTo]), now))
         == Deliver(o, Deliveries(cfg, taskID, ParsedBills(ledger[reached..upTo]), now))
  {
    var known, fresh' := ledger[from..reached], ledger[reached..upTo];
    assert ledger[from..upTo] == known + fresh';
    BillsOfConcat(known, fresh');
    DeliveriesConcat(cfg, taskID, ParsedBills(known), ParsedBills(fresh'), now);
    DeliverAppend(o, Deliveries(cfg, taskID, ParsedBills(known), now),
                  Deliveries(cfg, taskID, ParsedBills(fresh'), now));
    KnownSlice(cfg, taskID, o, ledger, from, reached, reached);
    KnownAddsNothing(cfg, taskID, o, ParsedBills(known), now);
  }

  lemma PollAdds(cfg: Config, srv: Server, start: seq<Row>, steps: seq<Step>, step: Step)
    requires step.Poll? && step.reply.Ok? && TaskOk(cfg, srv, start, steps, step.taskID)
    requires Answers(srv, Cursor(Run(cfg, start, steps), step.client, step.taskID), step)
    ensures Deliver(Run(cfg, start, steps).outbox, Polled(cfg, step))
         == Deliver(Run(cfg, start, steps).outbox, FirstRead(cfg, srv, steps, step))
  {
    var s, taskID, ledger := Run(cfg, start, steps), step.taskID, srv.ledger(step.taskID);
    var from, reached := srv.position(taskID, Cursor(s, step.client, taskID)), Reached(steps, taskID);
    FirstEndWins(ledger[from..step.upTo]);
    if step.upTo > reached {
      StretchAdds(cfg, taskID, s.outbox, ledger, from, reached, step.upTo, step.now);
    } else {
      KnownSlice(cfg, taskID, s.outbox, ledger, from, step.upTo, reached);
      KnownAddsNothing(cfg, taskID, s.outbox, ParsedBills(ledger[from..step.upTo]), step.now);
    }
  }

  lemma CursorAfter(cfg: Config, s: Sys, step: Step, c: int, taskID: string)
    ensures Cursor(Do(cfg, s, step), c, taskID) ==
      if step.Restart? && c == step.client then ""
      else if step.Poll? && c == step.client && taskID == step.taskID && step.reply.Ok? && step.reply.value.cursor != ""
      then step.reply.value.cursor
      else Cursor(s, c, taskID)
  {
  }

  lemma UpTo(ledger: seq<LedgerEntry>, reached: nat, upTo: nat)
    requires reached <= upTo <= |ledger|
    ensures ledger[..upTo] == ledger[..reached] + ledger[reached..upTo]
  {
  }

  lemma KnownAfter(cfg: Config, srv: Server, start: seq<Row>, steps: seq<Step>, step: Step, taskID: string)
    requires TaskOk(cfg, srv, start, steps, taskID)
    requires step.Poll? && step.reply.Ok? ==>
      Answers(srv, Cursor(Run(cfg, start, steps), step.client, step.taskID), step)
    ensures Reached(steps + [step], taskID) <= |srv.ledger(taskID)|
    ensures Known(cfg, taskID, Run(cfg, start, steps + [step]).outbox,
                  srv.ledger(taskID)[..Reached(steps + [step], taskID)])
  {
    var s, ledger := Run(cfg, start, steps), srv.ledger(taskID);
    var reached, o := Reached(steps, taskID), Deliver(s.outbox, Polled(cfg, step));
    RunSnoc(cfg, start, steps, step);
    ReachedSnoc(steps, step, taskID);
    DeliverGrows(s.outbox, Polled(cfg, step));
    KnownGrows(cfg, taskID, s.outbox, o, ledger[..reached]);
    if Reached(steps + [step], taskID) > reached {
      PollAdds(cfg, srv, start, steps, step);
      UpTo(ledger, reached, step.upTo);
      DeliveredIsKnown(cfg, taskID, s.outbox, ParsedBills(ledger[reached..step.upTo]), step.now);
      KnownConcat(cfg, taskID, o, ledger[..reached], ledger[reached..step.upTo]);
    }
  }

  lemma TaskStep(cfg: Config, srv: Server, start: seq<Row>, steps: seq<Step>, step: Step, taskID: string)
    requires FromTheStart(srv) && TaskOk(cfg, srv, start, steps, taskID)
    requires step.Poll? && step.reply.Ok? ==>
      Answers(srv, Cursor(Run(cfg, start, steps), step.client, step.taskID), step)
    ensures TaskOk(cfg, srv, start, steps + [step], taskID)
  {
    KnownAfter(cfg, srv, start, steps, step, taskID);
    RunSnoc(cfg, start, steps, step);
    ReachedSnoc(steps, step, taskID);
    forall c
      ensures srv.position(taskID, Cursor(Run(cfg, start, steps + [step]), c, taskID))
         <= Reached(steps + [step], taskID)
    {
      CursorAfter(cfg, Run(cfg, start, steps), step, c, taskID);
    }
  }

  // No poll ever starts past what was read before it: restarts only move cursors back.
  lemma {:induction false} CursorsStayBehind(cfg: Config, srv: Server, start: seq<Row>, steps: seq<Step>,
                                             taskID: string)
    requires FromTheStart(srv) && Served(cfg, srv, start, steps)
    ensures TaskOk(cfg, srv, start, steps, taskID)
  {
    if steps == [] {
      assert srv.ledger(taskID)[..0] == [];
    } else {
      var before, step := steps[..|steps| - 1], steps[|steps| - 1];
      assert before + [step] == steps;
      ServedFront(cfg, srv, start, before, step);
      CursorsStayBehind(cfg, srv, start, before, taskID);
      TaskStep(cfg, srv, start, before, step, taskID);
    }
  }

  // A poll of what has been read already, by any client, adds no row.
  lemma RepollAddsNothing(cfg: Config, srv: Server, start: seq<Row>, steps: seq<Step>, step: Step)
    requires FromTheStart(srv) && Served(cfg, srv, start, steps + [step])
    requires step.Poll? && step.upTo <= Reached(steps, step.taskID)
    ensures Run(cfg, start, steps + [step]).outbox == Run(cfg, start, steps).outbox
  {
    RunSnoc(cfg, start, steps, step);
    ServedFront(cfg, srv, start, steps, step);
    CursorsStayBehind(cfg, srv, start, steps, step.taskID);
    if step.reply.Ok? {
      PollAdds(cfg, srv, start, steps, step);
    }
  }

  // Every stretch of every ledger once, by the poll that was the first to read it.
  function FirstReads(cfg: Config, srv: Server, steps: seq<Step>): seq<Delivery> {
    if steps == [] then []
    else FirstReads(cfg, srv, steps[..|steps| - 1]) + FirstRead(cfg, srv, steps[..|steps| - 1], steps[|steps| - 1])
  }

  lemma FirstReadsSnoc(cfg: Config, srv: Server, steps: seq<Step>, step: Step)
    ensures FirstReads(cfg, srv, steps + [step]) == FirstReads(cfg, srv, steps) + FirstRead(cfg, srv, steps, step)
  {
    assert (steps + [step])[..|steps|] == steps;
  }

  predicate OnceRead(cfg: Config, srv: Server, start: seq<Row>, steps: seq<Step>) {
    Run(cfg, start, steps).outbox == Deliver(start, FirstReads(cfg, srv, steps))
  }

  lemma OnceReadStep(cfg: Config, srv: Server, start: seq<Row>, steps: seq<Step>, step: Step)
    requires FromTheStart(srv) && Served(cfg, srv, start, steps + [step]) && OnceRead(cfg, srv, start, steps)
    ensures OnceRead(cfg, srv, start, steps + [step])
  {
    RunSnoc(cfg, start, steps, step);
    ServedFront(cfg, srv, start, steps, step);
    FirstReadsSnoc(cfg, srv, steps, step);
    DeliverAppend(start, FirstReads(cfg, srv, steps), FirstRead(cfg, srv, steps, step));
    if step.Poll? && step.reply.Ok? {
      CursorsStayBehind(cfg, srv, start, steps, step.taskID);
      PollAdds(cfg, srv, start, steps, step);
    }
  }

  // Any interleaving of polls of any tasks by any clients, with cursor losses and full re-reads,
  // leaves the very outbox that delivering each stretch of each ledger once would leave.
  lemma {:induction false} PollsAreFirstReads(cfg: Config, srv: Server, start: seq<Row>, steps: seq<Step>)
    requires FromTheStart(srv) && Served(cfg, srv, start, steps)
    ensures OnceRead(cfg, srv, start, steps)
  {
    if steps != [] {
      var before, step := steps[..|steps| - 1], steps[|steps| - 1];
      assert before + [step] == steps;
      ServedFront(cfg, srv, start, before, step);
      PollsAreFirstReads(cfg, srv, start, before);
      OnceReadStep(cfg, srv, start, before, step);
    }
  }

  // ---------------------------------------------------------------- one task whose bills carry a time

  predicate Timed(bills: seq<BillEntry>) {
    forall k :: 0 <= k < |bills| ==> bills[k].ts.Some? || bills[k].data.occurredAt.Some?
  }

  predicate AllOf(steps: seq<Step>, taskID: string) {
    forall k :: 0 <= k < |steps| && steps[k].Poll? ==> steps[k].taskID == taskID
  }

  // A bill with a time of its own is recorded the same whenever it is polled.
  lemma RecordedAlike(o: seq<Row>, d: Delivery, e: Delivery)
    requires d.ev == e.ev && d.dbOk == e.dbOk && d.ev.ts.Some?
    ensures Recorded(o, d.ev, d.now, d.dbOk) == Recorded(o, e.ev, e.now, e.dbOk)
  {
  }

  lemma {:induction false} NowIsIrrelevant(cfg: Config, taskID: string, o: seq<Row>, bills: seq<BillEntry>, now: int,
                                           later: int)
    requires Timed(bills)
    ensures Deliver(o, Deliveries(cfg, taskID, bills, now)) == Deliver(o, Deliveries(cfg, taskID, bills, later))
  {
    if bills != [] {
      var front, b := bills[..|bills| - 1], bills[|bills| - 1];
      assert front + [b] == bills && (b.ts.Some? || b.data.occurredAt.Some?);
      NowIsIrrelevant(cfg, taskID, o, front, now, later);
      DeliveriesConcat(cfg, taskID, front, [b], now);
      DeliveriesConcat(cfg, taskID, front, [b], later);
      var ev := BillEvent(cfg.fmt, cfg.tenantOf(taskID), b);
      var d, e := Delivery(ev, now, true), Delivery(ev, later, true);
      assert Deliveries(cfg, taskID, [b], now) == [d] && Deliveries(cfg, taskID, [b], later) == [e];
      DeliverOne(o, Deliveries(cfg, taskID, front, now), d);
      DeliverOne(o, Deliveries(cfg, taskID, front, later), e);
      RecordedAlike(Deliver(o, Deliveries(cfg, taskID, front, now)), d, e);
    }
  }

  lemma DeliverOne(o: seq<Row>, ds: seq<Delivery>, d: Delivery)
    ensures Deliver(o, ds + [d]) == Recorded(Deliver(o, ds), d.ev, d.now, d.dbOk)
  {
    assert (ds + [d])[..|ds|] == ds;
  }

  // What one uninterrupted read of the first n entries leaves.
  function OneRead(cfg: Config, srv: Server, start: seq<Row>, taskID: string, n: nat): seq<Row>
    requires n <= |srv.ledger(taskID)|
  {
    Deliver(start, Deliveries(cfg, taskID, ParsedBills(srv.ledger(taskID)[..n]), 0))
  }

  lemma ReadOn(cfg: Config, srv: Server, start: seq<Row>, taskID: string, n: nat, upTo: nat, now: int)
    requires n <= upTo <= |srv.ledger(taskID)| && Timed(ParsedBills(srv.ledger(taskID)))
    ensures Deliver(OneRead(cfg, srv, start, taskID, n),
                    Deliveries(cfg, taskID, ParsedBills(srv.ledger(taskID)[n..upTo]), now))
         == OneRead(cfg, srv, start, taskID, upTo)
  {
    var ledger := srv.ledger(taskID);
    var a, b, c := ledger[..n], ledger[n..upTo], ledger[upTo..];
    assert ledger == a + (b + c) && ledger[..upTo] == a + b;
    BillsOfConcat(a, b + c);
    BillsOfConcat(b, c);
    BillsOfConcat(a, b);
    TimedParts(ParsedBills(a), ParsedBills(b), ParsedBills(c));
    NowIsIrrelevant(cfg, taskID, OneRead(cfg, srv, start, taskID, n), ParsedBills(b), now, 0);
    DeliveriesConcat(cfg, taskID, ParsedBills(a), ParsedBills(b), 0);
    DeliverAppend(start, Deliveries(cfg, taskID, ParsedBills(a), 0), Deliveries(cfg, taskID, ParsedBills(b), 0));
  }

  lemma TimedParts(a: seq<BillEntry>, b: seq<BillEntry>, c: seq<BillEntry>)
    requires Timed(a + (b + c))
    ensures Timed(b)
  {
    var all := a + (b + c);
    assert forall k :: 0 <= k < |b| ==> all[|a| + k] == b[k];
  }

  predicate IsOneRead(cfg: Config, srv: Server, start: seq<Row>, steps: seq<Step>, taskID: string) {
    Reached(steps, taskID) <= |srv.ledger(taskID)| &&
    Run(cfg, start, steps).outbox == OneRead(cfg, srv, start, taskID, Reached(steps, taskID))
  }

  lemma OneReadStep(cfg: Config, srv: Server, start: seq<Row>, steps: seq<Step>, step: Step, taskID: string)
    requires FromTheStart(srv) && Served(cfg, srv, start, steps + [step]) && Timed(ParsedBills(srv.ledger(taskID)))
    requires IsOneRead(cfg, srv, start, steps, taskID) && (step.Poll? ==> step.taskID == taskID)
    ensures IsOneRead(cfg, srv, start, steps + [step], taskID)
  {
    RunSnoc(cfg, start, steps, step);
    ReachedSnoc(steps, step, taskID);
    ServedFront(cfg, srv, start, steps, step);
    if step.Poll? && step.reply.Ok? {
      CursorsStayBehind(cfg, srv, start, steps, taskID);
      PollAdds(cfg, srv, start, steps, step);
      if step.upTo > Reached(steps, taskID) {
        ReadOn(cfg, srv, start, taskID, Reached(steps, taskID), step.upTo, step.now);
      }
    }
  }

  // For one task whose bills carry a time, that is the outbox of one read: same rows, same order.
  lemma {:induction false} PollsAreOneRead(cfg: Config, srv: Server, start: seq<Row>, steps: seq<Step>, taskID: string)
    requires FromTheStart(srv) && Served(cfg, srv, start, steps) && AllOf(steps, taskID)
    requires Timed(ParsedBills(srv.ledger(taskID)))
    ensures IsOneRead(cfg, srv, start, steps, taskID)
  {
    if steps == [] {
      assert srv.ledger(taskID)[..0] == [];
    } else {
      var before, step := steps[..|steps| - 1], steps[|steps| - 1];
      assert before + [step] == steps;
      ServedFront(cfg, srv, start, before, step);
      assert forall k :: 0 <= k < |before| ==> before[k] == steps[k];
      PollsAreOneRead(cfg, srv, start, before, taskID);
      OneReadStep(cfg, srv, start, before, step, taskID);
    }
  }
}
