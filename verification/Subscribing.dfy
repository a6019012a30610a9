// The subscriber loop: Next, Record, Ack, with failures of each, cancellation and restarts.
module Subscribing {
  import opened Basics
  import opened Billing
  import opened Recording

  // What one turn of the loop meets. Restart is a new Run after the old one ended or crashed.
  datatype Turn =
    | Event(ev: LedgerEvent, now: int, dbOk: bool, ackOk: bool)
    | NextFails
    | Cancelled
    | Stopped
    | Restart

  datatype Sub = Sub(outbox: seq<Row>, acked: seq<string>, running: bool)

  function Acked(acked: seq<string>, entryID: string, ackOk: bool): seq<string> {
    if ackOk then acked + [entryID] else acked
  }

  function Take(s: Sub, t: Turn): Sub {
    if t.Restart? then s.(running := true)
    else if !s.running then s
    else match t
      case NextFails => s
      case Cancelled => s.(running := false)
      case Stopped => s.(running := false)
      case Event(ev, now, dbOk, ackOk) =>
        if ev.result != "bill" then s.(acked := Acked(s.acked, ev.entryID, ackOk))
        else if RecordReply(ev, dbOk).Err? then s
        else Sub(Recorded(s.outbox, ev, now, dbOk), Acked(s.acked, ev.entryID, ackOk), true)
  }

  function Pump(s: Sub, turns: seq<Turn>): Sub {
    if turns == [] then s else Take(Pump(s, turns[..|turns| - 1]), turns[|turns| - 1])
  }

  // What the loop returns: a cancelled context is an error, a stop is not.
  function Ending(turns: seq<Turn>): Option<string>
    decreases |turns|
  {
    if turns == [] || turns[0].Stopped? then None
    else if turns[0].Cancelled? then Some("context canceled")
    else Ending(turns[1..])
  }

  class Subscriber {
    const svc: Service
    var acked: seq<string>   // the source's record of acknowledged ids

    constructor (svc: Service)
      ensures this.svc == svc && acked == []
    {
      this.svc := svc;
      acked := [];
    }

    method Run(turns: seq<Turn>) returns (error: Option<string>)
      requires forall k :: 0 <= k < |turns| ==> !turns[k].Restart?
      modifies this`acked, svc`outbox
      ensures svc.outbox == Pump(Sub(old(svc.outbox), old(acked), true), turns).outbox
      ensures acked == Pump(Sub(old(svc.outbox), old(acked), true), turns).acked
      ensures error == Ending(turns)
    {
      ghost var start := Sub(svc.outbox, acked, true);
      assert turns[0..] == turns;
      for i := 0 to |turns|
        invariant Pump(start, turns[..i]) == Sub(svc.outbox, acked, true)
        invariant Ending(turns) == Ending(turns[i..])
      {
        assert turns[..i + 1][..i] == turns[..i] && turns[i..][1..] == turns[i + 1..];
        match turns[i]
        case NextFails =>
          continue;
        case Event(ev, now, dbOk, ackOk) =>
          if ev.result != "bill" {
            if ackOk { acked := acked + [ev.entryID]; }
            continue;
          }
          var reply := svc.Record(ev, now, dbOk);
          if reply.Err? {
            continue;
          }
          if ackOk { acked := acked + [ev.entryID]; }
        case Cancelled =>
          StoppedForGood(start, turns, i + 1);
          return Some("context canceled");
        case Stopped =>
          StoppedForGood(start, turns, i + 1);
          return None;
        case Restart =>
          assert false;
      }
      assert turns[..|turns|] == turns;
      return None;
    }
  }

  lemma {:induction false} StoppedForGood(s: Sub, turns: seq<Turn>, n: nat)
    requires n <= |turns| && !Pump(s, turns[..n]).running
    requires forall k :: n <= k < |turns| ==> !turns[k].Restart?
    ensures Pump(s, turns) == Pump(s, turns[..n])
    decreases |turns|
  {
    if n == |turns| {
      assert turns[..n] == turns;
    } else {
      var m := |turns| - 1;
      assert turns[..m][..n] == turns[..n];
      StoppedForGood(s, turns[..m], n);
    }
  }

  // ---------------------------------------------------------------- acknowledged means recorded

  const FRESH: Sub := Sub([], [], true)

  // Turn k delivered a bill event that was recorded; or it acknowledged one.
  predicate LandsAt(turns: seq<Turn>, k: nat) {
    && k < |turns| && turns[k].Event? && Pump(FRESH, turns[..k]).running
    && Delivery(turns[k].ev, turns[k].now, turns[k].dbOk).Lands()
  }

  predicate AcksBillAt(turns: seq<Turn>, k: nat) {
    && k < |turns| && turns[k].Event? && turns[k].ev.result == "bill" && Pump(FRESH, turns[..k]).running
    && Pump(FRESH, turns[..k + 1]).acked == Pump(FRESH, turns[..k]).acked + [turns[k].ev.entryID]
  }

  // The deliveries that reached Record during the run.
  function Reached(turns: seq<Turn>): seq<Delivery> {
    if turns == [] then []
    else
      var n := |turns| - 1;
      Reached(turns[..n]) +
      if turns[n].Event? && Pump(FRESH, turns[..n]).running && turns[n].ev.result == "bill"
      then [Delivery(turns[n].ev, turns[n].now, turns[n].dbOk)] else []
  }

  lemma {:induction false} OutboxIsDelivered(turns: seq<Turn>)
    ensures Pump(FRESH, turns).outbox == Deliver([], Reached(turns))
  {
    if turns != [] {
      var n := |turns| - 1;
      OutboxIsDelivered(turns[..n]);
      var ds, before := Reached(turns), Reached(turns[..n]);
      if |ds| > |before| {
        assert ds[..|ds| - 1] == before;
      } else {
        assert ds == before;
      }
    }
  }

  lemma {:induction false} OutboxGrows(turns: seq<Turn>, n: nat)
    requires n <= |turns|
    ensures Pump(FRESH, turns[..n]).outbox <= Pump(FRESH, turns).outbox
    decreases |turns|
  {
    if n == |turns| {
      assert turns[..n] == turns;
    } else {
      var m := |turns| - 1;
      assert turns[..m][..n] == turns[..n];
      OutboxGrows(turns[..m], n);
    }
  }

  // In every run, with any failures and restarts, an acknowledged bill event has its row for good.
  lemma AckedIsRecorded(turns: seq<Turn>, k: nat)
    requires AcksBillAt(turns, k)
    ensures LandsAt(turns, k) && HasEntry(Pump(FRESH, turns).outbox, turns[k].ev.entryID)
  {
    var before, after := Pump(FRESH, turns[..k]), Pump(FRESH, turns[..k + 1]);
    assert turns[..k + 1][..k] == turns[..k];
    assert after == Take(before, turns[k]);
    assert |after.acked| > |before.acked|;
    var id := turns[k].ev.entryID;
    if !HasEntry(before.outbox, id) {
      assert after.outbox[|before.outbox|].ev.entryID == id;
    }
    var i :| 0 <= i < |after.outbox| && after.outbox[i].ev.entryID == id;
    OutboxGrows(turns, k + 1);
    assert Pump(FRESH, turns).outbox[i] == after.outbox[i];
  }

  // No stop and no cancellation after turn r and before turn k; turn r starts the loop, -1 the first time.
  predicate Since(turns: seq<Turn>, r: int, k: nat) {
    && k <= |turns| && -1 <= r < k && (r >= 0 ==> turns[r].Restart?)
    && forall m :: r < m < k ==> !turns[m].Cancelled? && !turns[m].Stopped?
  }

  // The loop is running before turn k.
  ghost predicate Goes(turns: seq<Turn>, k: nat) {
    exists r :: Since(turns, r, k)
  }

  lemma {:induction false} RunsIff(turns: seq<Turn>)
    ensures Pump(FRESH, turns).running <==> Goes(turns, |turns|)
  {
    if turns == [] {
      assert Since(turns, -1, 0);
    } else {
      var before, t := turns[..|turns| - 1], turns[|turns| - 1];
      assert before + [t] == turns;
      RunsIff(before);
      GoesSnoc(before, t);
    }
  }

  lemma GoesSnoc(turns: seq<Turn>, t: Turn)
    ensures Goes(turns + [t], |turns| + 1) <==> t.Restart? || (Goes(turns, |turns|) && !t.Cancelled? && !t.Stopped?)
  {
    var all, n := turns + [t], |turns|;
    assert all[n] == t && forall m :: 0 <= m < n ==> all[m] == turns[m];
    if t.Restart? {
      assert Since(all, n, n + 1);
    }
    if r :| Since(turns, r, n) {
      assert !t.Cancelled? && !t.Stopped? ==> Since(all, r, n + 1);
    }
    var end := n + 1;
    if r :| Since(all, r, end) {
      assert r < n ==> Since(turns, r, n);
    }
  }

  lemma GoesPrefix(turns: seq<Turn>, k: nat)
    requires k <= |turns|
    ensures Goes(turns[..k], k) <==> Goes(turns, k)
  {
    assert forall m :: 0 <= m < k ==> turns[..k][m] == turns[m];
    if r :| Since(turns[..k], r, k) {
      assert Since(turns, r, k);
    }
    if r :| Since(turns, r, k) {
      assert Since(turns[..k], r, k);
    }
  }

  // The event of turn k is taken: it is no bill, or it is a complete one and its INSERT gets through.
  predicate Taken(t: Turn)
    requires t.Event?
  {
    t.ev.result != "bill" ||
    (t.dbOk && t.ev.tenantID != "" && t.ev.sku != "" && t.ev.meter != "" && t.ev.entryID != "")
  }

  // What each turn acknowledges: its event, exactly if the loop is running, the event is taken and the
  // Ack gets through.
  lemma AcksIff(turns: seq<Turn>, k: nat)
    requires k < |turns|
    ensures var before, after := Pump(FRESH, turns[..k]).acked, Pump(FRESH, turns[..k + 1]).acked;
      after == if turns[k].Event? && Goes(turns, k) && turns[k].ackOk && Taken(turns[k])
               then before + [turns[k].ev.entryID] else before
  {
    assert turns[..k + 1][..k] == turns[..k];
    RunsIff(turns[..k]);
    GoesPrefix(turns, k);
  }

  // Turn k cancels, and no turn before it stops.
  predicate CancelsFirst(turns: seq<Turn>, k: nat) {
    k < |turns| && turns[k].Cancelled? && forall m :: 0 <= m < k ==> !turns[m].Stopped?
  }

  // The loop returns an error exactly if a cancellation comes before any stop.
  lemma {:induction false} EndingIff(turns: seq<Turn>)
    ensures Ending(turns).Some? <==> exists k :: CancelsFirst(turns, k)
    decreases |turns|
  {
    if turns != [] {
      var rest := turns[1..];
      EndingIff(rest);
      assert turns == [turns[0]] + rest;
      if turns[0].Cancelled? {
        assert CancelsFirst(turns, 0);
      }
      if k: nat :| CancelsFirst(rest, k) && !turns[0].Stopped? {
        forall m | 0 <= m < k + 1 ensures !turns[m].Stopped? {
          assert m > 0 ==> turns[m] == rest[m - 1];
        }
        assert CancelsFirst(turns, k + 1);
      }
      if k: nat :| CancelsFirst(turns, k) && k > 0 {
        forall m | 0 <= m < k - 1 ensures !rest[m].Stopped? {
          assert rest[m] == turns[m + 1];
        }
        assert CancelsFirst(rest, k - 1);
      }
    }
  }

  function AckedBills(turns: seq<Turn>): set<PendingEvent> {
    set k | 0 <= k < |turns| && AcksBillAt(turns, k) :: Stamped(turns[k].ev, turns[k].now)
  }

  lemma {:induction false} AckedLanded(turns: seq<Turn>)
    ensures AckedBills(turns) <= Landed(Reached(turns))
  {
    forall x | x in AckedBills(turns) ensures x in Landed(Reached(turns)) {
      var k :| 0 <= k < |turns| && AcksBillAt(turns, k) && Stamped(turns[k].ev, turns[k].now) == x;
      AckedIsRecorded(turns, k);
      LandingReached(turns, k);
    }
  }

  lemma {:induction false} LandingReached(turns: seq<Turn>, k: nat)
    requires LandsAt(turns, k)
    ensures Stamped(turns[k].ev, turns[k].now) in Landed(Reached(turns))
    decreases |turns|
  {
    var n := |turns| - 1;
    var ds, before := Reached(turns), Reached(turns[..n]);
    var x := Stamped(turns[k].ev, turns[k].now);
    if k == n {
      var last := ds[|ds| - 1];
      assert last.Lands() && last.Payload() == x;
    } else {
      assert turns[..n][..k] == turns[..k];
      LandingReached(turns[..n], k);
      var j :| 0 <= j < |before| && before[j].Lands() && before[j].Payload() == x;
      assert ds[j] == before[j];
    }
  }

  // Everything that was recorded has, in this or a later delivery, been acknowledged.
  predicate Settled(turns: seq<Turn>) {
    Landed(Reached(turns)) <= AckedBills(turns)
  }

  // Once settled, the table is the set of acknowledged bills: delivery order, duplicates, failures
  // and restarts leave no trace, provided equal ids carry equal payloads.
  lemma SettledTablesAgree(turns: seq<Turn>, others: seq<Turn>)
    requires Settled(turns) && Settled(others) && AckedBills(turns) == AckedBills(others)
    requires Consistent(Reached(turns)) && Consistent(Reached(others))
    ensures Payloads(Pump(FRESH, turns).outbox) == Payloads(Pump(FRESH, others).outbox) == AckedBills(turns)
    ensures |Pump(FRESH, turns).outbox| == |Pump(FRESH, others).outbox|
  {
    OutboxIsDelivered(turns);
    OutboxIsDelivered(others);
    AckedLanded(turns);
    AckedLanded(others);
    OrderAndMultiplicityIrrelevant(Reached(turns), Reached(others));
    PayloadsAreLanded(Reached(turns));
  }
}
