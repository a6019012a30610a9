// What following a task leaves behind: the columns of the job and the rows of the bills, in terms of
// the ledger's entries.
module Outcomes {
  import opened Basics
  import opened Billing
  import opened Recording
  import opened Jobs
  import opened Queue
  import opened LedgerTail
  import opened Workers
  import opened BillRows

  // This turn polls, and the ledger answers with these entries.
  predicate Answers(turn: Turn, entries: seq<LedgerEntry>) {
    turn.Polled? && turn.result == Ok(Scan(entries))
  }

  predicate NoEnd(entries: seq<LedgerEntry>) {
    forall m :: 0 <= m < |entries| ==> entries[m].phase !in {"complete", "failed", "cancelled"}
  }

  // The first k turns poll and find no end of the task.
  predicate Waits(turns: seq<Turn>, batches: seq<seq<LedgerEntry>>, k: nat) {
    && k <= |turns| && k <= |batches|
    && forall i :: 0 <= i < k ==> Answers(turns[i], batches[i]) && NoEnd(batches[i])
  }

  // Entry m is the first of its batch that ends the task.
  predicate EndsWith(entries: seq<LedgerEntry>, m: nat) {
    m < |entries| && entries[m].phase in {"complete", "failed", "cancelled"} && NoEnd(entries[..m])
  }

  lemma ScanOfNoEnd(entries: seq<LedgerEntry>)
    requires NoEnd(entries)
    ensures !Scan(entries).terminal
  {
    FirstEndWins(entries);
  }

  lemma ScanOfEnd(entries: seq<LedgerEntry>, m: nat)
    requires EndsWith(entries, m)
    ensures Scan(entries).terminal && Reports(entries[m], Scan(entries))
  {
    FirstEndWins(entries);
    forall k | 0 <= k < m ensures !IsEnd(entries[k]) {
      assert entries[..m][k] == entries[k];
    }
    assert FirstEnd(entries, m);
  }

  lemma {:induction false} WaitingIsSkipped(t: Table, tenantID: string, id: string, turns: seq<Turn>,
                                            batches: seq<seq<LedgerEntry>>, k: nat, now: int)
    requires Waits(turns, batches, k)
    ensures Followed(t, tenantID, id, turns, now) == Followed(t, tenantID, id, turns[k..], now)
  {
    if k == 0 {
      assert turns[0..] == turns;
    } else {
      WaitingIsSkipped(t, tenantID, id, turns, batches, k - 1, now);
      ScanOfNoEnd(batches[k - 1]);
      FollowedStep(t, tenantID, id, turns, k - 1, now);
    }
  }

  // ---------------------------------------------------------------- the job

  // The tenant's job is running.
  predicate IsRunning(t: Table, tenantID: string, id: string) {
    tenantID != "" && id in t && t[id].tenantID == tenantID && t[id].status == Running
  }

  predicate OthersStay(t: Table, u: Table, id: string) {
    u.Keys == t.Keys && forall x :: x in t && x != id ==> u[x] == t[x]
  }

  // Status, outputs and error as the end entry has them; where it has none, the old ones stay.
  predicate StoresEnd(j: Job, k: Job, e: LedgerEntry, now: int) {
    && (e.phase == "complete" ==> k.status == Succeeded)
    && (e.phase == "failed" ==> k.status == Failed)
    && (e.phase == "cancelled" ==> k.status == Cancelled)
    && k.outputs == (if e.hasData && e.end.Ok? && e.end.value.outputs.Some? then e.end.value.outputs else j.outputs)
    && (e.hasData && e.end.Err? ==> k.error == "ledgertail: malformed data: " + e.end.error)
    && (e.hasData && e.end.Ok? && e.end.value.error != "" ==> k.error == e.end.value.error)
    && (!e.hasData || (e.end.Ok? && e.end.value.error == "") ==> k.error == j.error)
    && k == j.(status := k.status, outputs := k.outputs, error := k.error, updatedAt := now)
  }

  lemma EndStores(t: Table, tenantID: string, id: string, entries: seq<LedgerEntry>, m: nat, now: int, a: Around)
    requires IsRunning(t, tenantID, id) && EndsWith(entries, m) && QuietAround(a)
    ensures var r := Scan(entries);
      var e := Attempted(t, tenantID, id, r.status, Opts(r.outputs, r.errMsg, ""), now, a);
      e.ok && OthersStay(t, e.jobs, id) && StoresEnd(t[id], e.jobs[id], entries[m], now)
  {
    var r := Scan(entries);
    ScanOfEnd(entries, m);
    QuietTransitionStores(t, tenantID, id, r.status, Opts(r.outputs, r.errMsg, ""), now, a);
  }

  // A running job whose task ends, undisturbed: the follow succeeds, and the job has the status, the
  // outputs and the error of the first end entry of the batch in which the task ended.
  lemma EndIsStored(t: Table, tenantID: string, id: string, turns: seq<Turn>, batches: seq<seq<LedgerEntry>>,
                    k: nat, m: nat, now: int)
    requires IsRunning(t, tenantID, id) && Waits(turns, batches, k) && k < |turns| && k < |batches|
    requires Answers(turns[k], batches[k]) && EndsWith(batches[k], m) && QuietAround(turns[k].around)
    ensures var e := Followed(t, tenantID, id, turns, now);
      e.ok && OthersStay(t, e.jobs, id) && StoresEnd(t[id], e.jobs[id], batches[k][m], now)
  {
    WaitingIsSkipped(t, tenantID, id, turns, batches, k, now);
    ScanOfEnd(batches[k], m);
    EndStores(t, tenantID, id, batches[k], m, now, turns[k].around);
    assert turns[k..][0] == turns[k];
  }

  // A job whose task does not end in time, undisturbed: it has failed with that error.
  lemma DeadlineIsStored(t: Table, tenantID: string, id: string, turns: seq<Turn>, batches: seq<seq<LedgerEntry>>,
                         k: nat, now: int)
    requires IsRunning(t, tenantID, id) && Waits(turns, batches, k) && k < |turns|
    requires turns[k].DeadlinePassed? && QuietAround(turns[k].around)
    ensures var e := Followed(t, tenantID, id, turns, now);
      && !e.ok && OthersStay(t, e.jobs, id)
      && e.jobs[id] == t[id].(status := Failed, error := "ledger wait exceeded", updatedAt := now)
  {
    WaitingIsSkipped(t, tenantID, id, turns, batches, k, now);
    assert turns[k..][0] == turns[k];
    QuietTransitionStores(t, tenantID, id, Failed, WAITED, now, turns[k].around);
  }

  // The tenant's job is waiting to be started.
  predicate IsQueued(t: Table, it: Item) {
    it.tenantID != "" && it.jobID in t && t[it.jobID].tenantID == it.tenantID && t[it.jobID].status == Queued
  }

  ghost predicate QuietStart(env: Env) {
    (forall t :: env.loaded(t) == t) && env.loadOk && QuietAround(env.start)
  }

  // A queued job that is dispatched, undisturbed, runs under the task id it was given; one whose
  // dispatch fails has failed with that error.
  lemma DispatchIsStored(t: Table, it: Item, env: Env)
    requires IsQueued(t, it) && QuietStart(env)
    ensures var e, j := Handled(t, it, env, false), t[it.jobID];
      && OthersStay(t, e.jobs, it.jobID)
      && (e.ok <==> env.dispatch.Ok?)
      && (env.dispatch.Err? && env.dispatch.error != "" ==>
            e.jobs[it.jobID] == j.(status := Failed, error := env.dispatch.error, updatedAt := env.now))
      && (env.dispatch.Ok? && env.dispatch.value != "" ==>
            e.jobs[it.jobID] == j.(status := Running, operatorTaskID := env.dispatch.value, updatedAt := env.now))
  {
    if env.dispatch.Err? {
      QuietTransitionStores(t, it.tenantID, it.jobID, Failed, Opts(None, env.dispatch.error, ""), env.now, env.start);
    } else {
      QuietTransitionStores(t, it.tenantID, it.jobID, Running, Opts(None, "", env.dispatch.value), env.now, env.start);
    }
  }

  // ---------------------------------------------------------------- the bills

  // The first k turns poll, and the ledger answers without an end of the task.
  predicate GoesOn(turns: seq<Turn>, k: nat) {
    && k <= |turns|
    && forall i :: 0 <= i < k ==> turns[i].Polled? && turns[i].result.Ok? && !turns[i].result.value.terminal
  }

  predicate HasBill(o: seq<Row>, fmt: Clock, b: BillEntry) {
    exists r :: 0 <= r < |o| && o[r].ev.entryID == BuildBillEntryID(fmt, b)
  }

  lemma {:induction false} ReachedIsGathered(fmt: Clock, tenantID: string, turns: seq<Turn>, k: nat, now: int)
      returns (before: seq<Delivery>)
    requires GoesOn(turns, k)
    ensures Gathered(fmt, tenantID, turns, now) == before + Gathered(fmt, tenantID, turns[k..], now)
  {
    if k == 0 {
      assert turns[0..] == turns;
      before := [];
    } else {
      before := ReachedIsGathered(fmt, tenantID, turns, k - 1, now);
      GatheredStep(fmt, tenantID, turns, k - 1, now);
      var batch := BillDeliveries(fmt, tenantID, turns[k - 1].result.value.bills, now, turns[k - 1].recorded);
      Regroup(before, batch, Gathered(fmt, tenantID, turns[k..], now));
      before := before + batch;
    }
  }

  lemma GatheredHead(fmt: Clock, tenantID: string, turns: seq<Turn>, k: nat, now: int) returns (rest: seq<Delivery>)
    requires k < |turns| && turns[k].Polled? && turns[k].result.Ok?
    ensures Gathered(fmt, tenantID, turns[k..], now)
         == BillDeliveries(fmt, tenantID, turns[k].result.value.bills, now, turns[k].recorded) + rest
  {
    GatheredStep(fmt, tenantID, turns, k, now);
    rest := if turns[k].result.value.terminal then [] else Gathered(fmt, tenantID, turns[k + 1..], now);
  }

  lemma BillKept(o: seq<Row>, p: seq<Row>, fmt: Clock, b: BillEntry)
    requires o <= p && HasBill(o, fmt, b)
    ensures HasBill(p, fmt, b)
  {
    var r :| 0 <= r < |o| && o[r].ev.entryID == BuildBillEntryID(fmt, b);
    assert p[r] == o[r];
  }

  // Every whole bill of every poll that the loop makes has its row when the loop returns, whatever
  // ends the loop and whatever becomes of the job, if its own INSERT gets through.
  lemma PolledBillHasRow(fmt: Clock, tenantID: string, outbox: seq<Row>, turns: seq<Turn>, k: nat, j: nat, now: int)
    requires GoesOn(turns, k) && k < |turns| && turns[k].Polled? && turns[k].result.Ok?
    requires j < |turns[k].result.value.bills| && turns[k].recorded(j)
    requires Whole(turns[k].result.value.bills[j], tenantID)
    ensures HasBill(Deliver(outbox, Gathered(fmt, tenantID, turns, now)), fmt, turns[k].result.value.bills[j])
  {
    var bills := turns[k].result.value.bills;
    var before := ReachedIsGathered(fmt, tenantID, turns, k, now);
    var rest := GatheredHead(fmt, tenantID, turns, k, now);
    var batch := BillDeliveries(fmt, tenantID, bills, now, turns[k].recorded);
    DeliverAppend(outbox, before, batch + rest);
    var o := Deliver(outbox, before);
    DeliverAppend(o, batch, rest);
    var r := WholeHasRow(fmt, tenantID, o, bills, j, now, turns[k].recorded);
    assert HasBill(Deliver(o, batch), fmt, bills[j]);
    DeliverGrows(Deliver(o, batch), rest);
    BillKept(Deliver(o, batch), Deliver(Deliver(o, batch), rest), fmt, bills[j]);
  }
}
