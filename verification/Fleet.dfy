// Dispatcher workers, the queue, the jobs table and customers, interleaved statement by statement.
module Fleet {
  import opened Basics
  import opened Jobs
  import opened Queue
  import JobRuns
  import Leases
  import LedgerTail

  // Why a worker is changing the job: dispatch failed or the wait ran out, the task started, the
  // ledger says it ended.
  datatype Goal = Fail | Start | Finish

  // Where one worker is in tick / handle / followTask.
  datatype Place =
    | Idle
    | Loaded(item: Item)                                              // claimed, about to read the job
    | Dispatching(item: Item)                                         // job read and not terminal
    | Moving(item: Item, to: Status, opts: Opts, goal: Goal)          // about to call Transition
    | Swapping(item: Item, expected: Status, to: Status, opts: Opts, goal: Goal) // read done, UPDATE pending
    | Following(item: Item)                                           // polling the ledger
    | Closing(item: Item, ack: bool)                                  // about to Ack or Nack

  // tickets are customers (posting, cancelling) between the read and the UPDATE of a Transition.
  // enqueued and acked record history.
  datatype Sys = Sys(jobs: Table, rows: seq<Item>, workers: map<int, Place>, tickets: map<int, JobRuns.Ticket>,
                     enqueued: seq<Item>, acked: seq<Item>)

  datatype PollOutcome = PollFails | NotYet | WaitExceeded | Entry(phase: string, opts: Opts)

  datatype Step =
    | Submit(job: Job)
    | Post(item: Item)
    | CustomerRead(c: int, tenantID: string, id: string, to: Status, opts: Opts)
    | CustomerWrite(c: int, now: int)
    | Pick(w: int, row: int, readAt: int, claimAt: int, maxAge: int)
    | Load(w: int, ok: bool)
    | Dispatch(w: int, taskID: Option<string>, error: string)
    | Read(w: int, ok: bool)
    | Write(w: int, ok: bool, rereadOk: bool, now: int)   // the UPDATE and the closing read
    | Poll(w: int, outcome: PollOutcome)
    | Close(w: int, ok: bool)
    | Die(w: int)
  {
    predicate ByWorker() { !Submit? && !Post? && !CustomerRead? && !CustomerWrite? }
  }

  const START: Sys := Sys(map[], [], map[], map[], [], [])

  // Fixed for a run: each worker's claim token, and whether a ledger poller is wired.
  datatype Config = Config(tokens: int -> string, ledger: bool)

  function At(s: Sys, w: int): Place {
    if w in s.workers then s.workers[w] else Idle
  }

  function Go(s: Sys, w: int, pc: Place): Sys {
    s.(workers := s.workers[w := pc])
  }

  // Where a worker goes when its transition has succeeded, or failed for whatever reason.
  function AfterMove(cfg: Config, item: Item, goal: Goal, ok: bool): Place {
    match goal
    case Fail => Closing(item, false)
    case Start => if !ok then Closing(item, false) else if cfg.ledger then Following(item) else Closing(item, true)
    case Finish => Closing(item, ok)
  }

  function DoWorker(cfg: Config, s: Sys, step: Step): Sys
    requires step.ByWorker()
  {
    var pc := At(s, step.w);
    match step
    case Pick(w, i, readAt, claimAt, maxAge) =>
      if pc.Idle? && Oldest(s.rows, i, readAt - maxAge) then
        var rows := Claimed(s.rows, s.rows[i].id, cfg.tokens(w), claimAt);
        Go(s.(rows := rows), w, Loaded(rows[i]))
      else s
    case Load(w, ok) =>
      if !pc.Loaded? then s
      else
        var j := Get(s.jobs, pc.item.tenantID, pc.item.jobID);
        if !ok || j.Err? then Go(s, w, Closing(pc.item, false))
        else if j.value.status.IsTerminal() then Go(s, w, Closing(pc.item, true))
        else Go(s, w, Dispatching(pc.item))
    case Dispatch(w, taskID, error) =>
      if !pc.Dispatching? then s
      else if taskID.None? then Go(s, w, Moving(pc.item, Failed, Opts(None, error, ""), Fail))
      else Go(s, w, Moving(pc.item, Running, Opts(None, "", taskID.value), Start))
    case Read(w, ok) =>
      if !pc.Moving? then s
      else
        var j := ReadFor(s.jobs, pc.item.tenantID, pc.item.jobID, pc.to);
        if !ok || j.Err? then Go(s, w, AfterMove(cfg, pc.item, pc.goal, false))
        else Go(s, w, Swapping(pc.item, j.value.status, pc.to, pc.opts, pc.goal))
    case Write(w, ok, rereadOk, now) =>
      if !pc.Swapping? then s
      else
        var it := pc.item;
        var hit := ok && Hits(s.jobs, it.tenantID, it.jobID, pc.expected);
        Go(if hit then s.(jobs := Swap(s.jobs, it.tenantID, it.jobID, pc.expected, pc.to, pc.opts, now)) else s,
           w, AfterMove(cfg, it, pc.goal, hit && rereadOk))
    case Poll(w, outcome) =>
      if !pc.Following? then s
      else (match outcome {
        case PollFails => Go(s, w, Closing(pc.item, false))
        case NotYet => s
        case WaitExceeded => Go(s, w, Moving(pc.item, Failed, Opts(None, "ledger wait exceeded", ""), Fail))
        case Entry(phase, opts) =>
          var status := LedgerTail.MapPhaseToStatus(phase);
          if status.None? then s else Go(s, w, Moving(pc.item, status.value, opts, Finish))
      })
    case Close(w, ok) =>
      if !pc.Closing? then s
      else
        var it, token := pc.item, cfg.tokens(w);
        if !ok || !Held(s.rows, it.id, token) then Go(s, w, Idle)
        else if pc.ack then Go(s.(rows := Removed(s.rows, it.id, token), acked := s.acked + [it]), w, Idle)
        else Go(s.(rows := Released(s.rows, it.id, token)), w, Idle)
    case Die(w) => Go(s, w, Idle)
  }

  function Do(cfg: Config, s: Sys, step: Step): Sys {
    match step
    case Submit(j) => if j.status == Submitted && j.id !in s.jobs then s.(jobs := s.jobs[j.id := j]) else s
    case Post(it) =>
      if Fresh(it) && !HasID(s.enqueued, it.id) then s.(rows := s.rows + [it], enqueued := s.enqueued + [it]) else s
    case CustomerRead(c, tenantID, id, to, opts) =>
      var current := ReadFor(s.jobs, tenantID, id, to);
      if current.Ok? then s.(tickets := s.tickets[c := JobRuns.Ticket(tenantID, id, current.value.status, to, opts)])
      else s.(tickets := s.tickets - {c})
    case CustomerWrite(c, now) =>
      if c in s.tickets then
        var t := s.tickets[c];
        s.(jobs := Swap(s.jobs, t.tenantID, t.id, t.expected, t.to, t.opts, now), tickets := s.tickets - {c})
      else s
    case _ => DoWorker(cfg, s, step)
  }

  function Run(cfg: Config, steps: seq<Step>): Sys {
    if steps == [] then START else Do(cfg, Run(cfg, steps[..|steps| - 1]), steps[|steps| - 1])
  }

  function Tables(cfg: Config, steps: seq<Step>): (h: seq<Table>)
    ensures |h| == |steps| + 1
  {
    if steps == [] then [START.jobs] else Tables(cfg, steps[..|steps| - 1]) + [Run(cfg, steps).jobs]
  }

  // ---------------------------------------------------------------- the jobs table

  predicate SwapsOk(s: Sys) {
    && (forall c :: c in s.tickets ==> Allowed(s.tickets[c].expected, s.tickets[c].to))
    && (forall w :: w in s.workers && s.workers[w].Swapping? ==> Allowed(s.workers[w].expected, s.workers[w].to))
  }

  predicate WorkerSwapOk(pc: Place) {
    pc.Swapping? ==> Allowed(pc.expected, pc.to)
  }

  lemma StepEvolves(cfg: Config, s: Sys, step: Step)
    requires SwapsOk(s)
    ensures SwapsOk(Do(cfg, s, step)) && Evolves(s.jobs, Do(cfg, s, step).jobs)
  {
    if step.ByWorker() {
      WorkerShape(cfg, s, step);
      WorkerJobs(cfg, s, step);
      NextSwapOk(cfg, s, step);
    } else if step.CustomerWrite? && step.c in s.tickets {
      var t := s.tickets[step.c];
      SwapEvolves(s.jobs, t.tenantID, t.id, t.expected, t.to, t.opts, step.now);
    }
  }

  lemma WorkerJobs(cfg: Config, s: Sys, step: Step)
    requires step.ByWorker() && WorkerSwapOk(At(s, step.w))
    ensures Evolves(s.jobs, DoWorker(cfg, s, step).jobs)
  {
    var pc := At(s, step.w);
    if step.Write? && pc.Swapping? {
      SwapEvolves(s.jobs, pc.item.tenantID, pc.item.jobID, pc.expected, pc.to, pc.opts, step.now);
    }
  }

  lemma NextSwapOk(cfg: Config, s: Sys, step: Step)
    requires step.ByWorker() && WorkerSwapOk(At(s, step.w))
    ensures WorkerSwapOk(At(DoWorker(cfg, s, step), step.w))
  {
  }

  // A worker step moves that worker's program counter, at most, and no ticket.
  predicate OnlyMoves(s: Sys, t: Sys, w: int) {
    t.tickets == s.tickets && (t.workers == s.workers || t.workers == s.workers[w := At(t, w)])
  }

  lemma WorkerShape(cfg: Config, s: Sys, step: Step)
    requires step.ByWorker()
    ensures OnlyMoves(s, DoWorker(cfg, s, step), step.w)
  {
    var t := DoWorker(cfg, s, step);
    match step
    case Pick(w, _, _, _, _) => assert OnlyMoves(s, t, w);
    case Load(w, _) => assert OnlyMoves(s, t, w);
    case Dispatch(w, _, _) => assert OnlyMoves(s, t, w);
    case Read(w, _) => assert OnlyMoves(s, t, w);
    case Write(w, _, _, _) => assert OnlyMoves(s, t, w);
    case Poll(w, _) => assert OnlyMoves(s, t, w);
    case Close(w, _) => assert OnlyMoves(s, t, w);
    case Die(w) => assert OnlyMoves(s, t, w);
  }

  // The workers and the customers together only ever move jobs along allowed edges.
  lemma {:induction false} FleetIsHistory(cfg: Config, steps: seq<Step>)
    ensures SwapsOk(Run(cfg, steps)) && History(Tables(cfg, steps))
    ensures Tables(cfg, steps)[|steps|] == Run(cfg, steps).jobs
  {
    if steps != [] {
      var n := |steps| - 1;
      FleetIsHistory(cfg, steps[..n]);
      StepEvolves(cfg, Run(cfg, steps[..n]), steps[n]);
      var before, h := Tables(cfg, steps[..n]), Tables(cfg, steps);
      forall k | 0 <= k < |h| - 1 ensures Evolves(h[k], h[k + 1]) {
        if k < n {
          assert Evolves(before[k], before[k + 1]);
        }
      }
    }
  }

  // ---------------------------------------------------------------- acknowledged means terminal

  predicate JobDone(t: Table, it: Item) {
    it.jobID in t && t[it.jobID].tenantID == it.tenantID && t[it.jobID].status.IsTerminal()
  }

  predicate ClosesDone(t: Table, pc: Place) {
    match pc
    case Closing(it, ack) => ack ==> JobDone(t, it)
    case Moving(_, to, _, goal) => goal == Finish ==> to.IsTerminal()
    case Swapping(_, _, to, _, goal) => goal == Finish ==> to.IsTerminal()
    case _ => true
  }

  predicate DoneInv(s: Sys) {
    && (forall w :: w in s.workers ==> ClosesDone(s.jobs, s.workers[w]))
    && (forall k :: 0 <= k < |s.acked| ==> JobDone(s.jobs, s.acked[k]))
  }

  lemma DoneStaysDone(a: Table, b: Table, it: Item)
    requires Evolves(a, b) && JobDone(a, it)
    ensures JobDone(b, it) && b[it.jobID] == a[it.jobID]
  {
  }

  // Its next program counter keeps the promise, given that the current one does.
  lemma LocalDone(cfg: Config, s: Sys, step: Step)
    requires step.ByWorker() && cfg.ledger && ClosesDone(s.jobs, At(s, step.w))
    ensures ClosesDone(DoWorker(cfg, s, step).jobs, At(DoWorker(cfg, s, step), step.w))
  {
  }

  lemma AckedBy(cfg: Config, s: Sys, step: Step)
    requires step.ByWorker()
    ensures var t := DoWorker(cfg, s, step);
      t.acked == s.acked || (At(s, step.w).Closing? && At(s, step.w).ack && t.acked == s.acked + [At(s, step.w).item])
  {
  }

  lemma DoneStep(cfg: Config, s: Sys, step: Step)
    requires cfg.ledger && SwapsOk(s) && DoneInv(s)
    ensures DoneInv(Do(cfg, s, step))
  {
    var t := Do(cfg, s, step);
    StepEvolves(cfg, s, step);
    if step.ByWorker() {
      WorkerShape(cfg, s, step);
      LocalDone(cfg, s, step);
      AckedBy(cfg, s, step);
    }
    DoneCarries(s, t);
  }

  lemma DoneCarries(s: Sys, t: Sys)
    requires DoneInv(s) && Evolves(s.jobs, t.jobs)
    requires t.acked == s.acked || exists w ::
      w in s.workers && s.workers[w].Closing? && s.workers[w].ack && t.acked == s.acked + [s.workers[w].item]
    requires t.workers == s.workers || exists w ::
      w in t.workers && t.workers == s.workers[w := t.workers[w]] && ClosesDone(t.jobs, t.workers[w])
    ensures DoneInv(t)
  {
    forall it | JobDone(s.jobs, it) ensures JobDone(t.jobs, it) {
      DoneStaysDone(s.jobs, t.jobs, it);
    }
  }

  // With a ledger wired, in every interleaving of workers, lease expiries, failures, crashes and
  // customers: an item some worker has acknowledged belongs to a terminal job.
  lemma {:induction false} AckImpliesTerminal(cfg: Config, steps: seq<Step>)
    requires cfg.ledger
    ensures DoneInv(Run(cfg, steps))
  {
    if steps != [] {
      var n := |steps| - 1;
      AckImpliesTerminal(cfg, steps[..n]);
      FleetIsHistory(cfg, steps[..n]);
      DoneStep(cfg, Run(cfg, steps[..n]), steps[n]);
    }
  }

  // And the job's record never changes again.
  lemma AckedJobIsFinal(cfg: Config, steps: seq<Step>, n: nat, k: nat)
    requires cfg.ledger && n <= |steps| && k < |Run(cfg, steps[..n]).acked|
    ensures var it := Run(cfg, steps[..n]).acked[k];
      && JobDone(Run(cfg, steps[..n]).jobs, it)
      && it.jobID in Run(cfg, steps).jobs
      && Run(cfg, steps).jobs[it.jobID] == Run(cfg, steps[..n]).jobs[it.jobID]
  {
    AckImpliesTerminal(cfg, steps[..n]);
    FleetIsHistory(cfg, steps);
    TablesAt(cfg, steps, n);
    var it := Run(cfg, steps[..n]).acked[k];
    assert JobDone(Run(cfg, steps[..n]).jobs, it);
    TerminalIsFinal(Tables(cfg, steps), it.jobID, n, |steps|);
  }

  lemma {:induction false} TablesAt(cfg: Config, steps: seq<Step>, n: nat)
    requires n <= |steps|
    ensures Tables(cfg, steps)[n] == Run(cfg, steps[..n]).jobs
    decreases |steps|
  {
    if n == |steps| {
      assert steps[..n] == steps;
      FleetIsHistory(cfg, steps);
    } else {
      var m := |steps| - 1;
      assert steps[..m][..n] == steps[..n];
      TablesAt(cfg, steps[..m], n);
    }
  }

  // ---------------------------------------------------------------- no job is stranded

  // The queue statement of a step, if it has one: the queue of a fleet run is a run of the queue.
  function EventOf(cfg: Config, s: Sys, step: Step): Option<Leases.Event> {
    if step.Post? && Fresh(step.item) && !HasID(s.enqueued, step.item.id) then Some(Leases.Enqueue(step.item))
    else if step.Pick? && At(s, step.w).Idle? && Oldest(s.rows, step.row, step.readAt - step.maxAge) then
      Some(Leases.Claim(s.rows[step.row].id, cfg.tokens(step.w), step.readAt, step.claimAt))
    else if step.Close? && At(s, step.w).Closing? && step.ok
            && Held(s.rows, At(s, step.w).item.id, cfg.tokens(step.w)) then
      var it, token := At(s, step.w).item, cfg.tokens(step.w);
      Some(if At(s, step.w).ack then Leases.Ack(it.id, token) else Leases.Nack(it.id, token))
    else None
  }

  lemma RowsByEvent(cfg: Config, s: Sys, step: Step)
    ensures var e := EventOf(cfg, s, step);
      Do(cfg, s, step).rows == if e.None? then s.rows else Leases.Do(s.rows, e.value)
  {
  }

  lemma EnqueuedByEvent(cfg: Config, s: Sys, step: Step)
    ensures var e := EventOf(cfg, s, step);
      && Do(cfg, s, step).enqueued == (if e.Some? && e.value.Enqueue? then s.enqueued + [e.value.item] else s.enqueued)
      && (e.Some? && e.value.Enqueue? ==> !HasID(s.enqueued, e.value.item.id))
  {
  }

  lemma AckedByEvent(cfg: Config, s: Sys, step: Step)
    ensures var e := EventOf(cfg, s, step);
      && Do(cfg, s, step).acked == (if e.Some? && e.value.Ack? then s.acked + [At(s, step.w).item] else s.acked)
      && (e.Some? && e.value.Ack? ==> At(s, step.w).Closing? && At(s, step.w).item.id == e.value.id)
  {
  }

  predicate Picks(s: Sys, step: Step, w: int) {
    step.Pick? && w == step.w && At(s, w).Idle? && Oldest(s.rows, step.row, step.readAt - step.maxAge)
  }

  predicate SameItem(pc: Place, next: Place) {
    !next.Idle? ==> !pc.Idle? && next.item == pc.item
  }

  lemma PickedItem(cfg: Config, s: Sys, step: Step, w: int)
    requires Picks(s, step, w)
    ensures At(DoWorker(cfg, s, step), w) == Loaded(DoWorker(cfg, s, step).rows[step.row])
    ensures |DoWorker(cfg, s, step).rows| == |s.rows|
  {
  }

  lemma OwnItem(cfg: Config, s: Sys, step: Step)
    requires step.ByWorker() && !Picks(s, step, step.w)
    ensures SameItem(At(s, step.w), At(DoWorker(cfg, s, step), step.w))
  {
  }

  // A worker that does not pick goes on with the item it had.
  lemma WorkerItem(cfg: Config, s: Sys, step: Step, w: int)
    requires !Picks(s, step, w)
    ensures SameItem(At(s, w), At(Do(cfg, s, step), w))
  {
    if step.ByWorker() {
      WorkerShape(cfg, s, step);
      if step.w == w {
        OwnItem(cfg, s, step);
      }
    }
  }

  // This item was enqueued, with this body.
  predicate Known(enqueued: seq<Item>, it: Item) {
    exists k :: 0 <= k < |enqueued| && Leases.SameBody(enqueued[k], it)
  }

  predicate AllKnown(enqueued: seq<Item>, rows: seq<Item>) {
    forall r :: 0 <= r < |rows| ==> Known(enqueued, rows[r])
  }

  predicate WorkersKnown(enqueued: seq<Item>, workers: map<int, Place>) {
    forall w :: w in workers && !workers[w].Idle? ==> Known(enqueued, workers[w].item)
  }

  predicate QueueInv(s: Sys) {
    IDsDistinct(s.enqueued) && AllKnown(s.enqueued, s.rows) && WorkersKnown(s.enqueued, s.workers)
  }

  predicate AckedBody(acked: seq<Item>, it: Item) {
    exists k :: 0 <= k < |acked| && Leases.SameBody(acked[k], it)
  }

  predicate Kept(s: Sys, it: Item) {
    Leases.Present(s.rows, it) || AckedBody(s.acked, it)
  }

  predicate KeptInv(s: Sys) {
    forall k :: 0 <= k < |s.enqueued| ==> Kept(s, s.enqueued[k])
  }

  lemma KnownGrows(a: seq<Item>, b: seq<Item>, it: Item)
    requires a <= b && Known(a, it)
    ensures Known(b, it)
  {
    var k :| 0 <= k < |a| && Leases.SameBody(a[k], it);
    assert Leases.SameBody(b[k], it);
  }

  lemma SameBodyKnown(e: seq<Item>, a: Item, b: Item)
    requires Known(e, a) && Leases.SameBody(a, b)
    ensures Known(e, b)
  {
    var k :| 0 <= k < |e| && Leases.SameBody(e[k], a);
    assert Leases.SameBody(e[k], b);
  }

  // A queue statement only brings rows that were enqueued.
  lemma EventKeepsKnown(enqueued: seq<Item>, rows: seq<Item>, e: Leases.Event)
    requires AllKnown(enqueued, rows) && (e.Enqueue? ==> Known(enqueued, e.item))
    ensures AllKnown(enqueued, Leases.Do(rows, e))
  {
    var after := Leases.Do(rows, e);
    forall r | 0 <= r < |after| ensures Known(enqueued, after[r]) {
      if e.Ack? {
        RemovedExactly(rows, e.id, e.token, after[r]);
        assert after[r] in rows;
      } else if r < |rows| {
        SameBodyKnown(enqueued, rows[r], after[r]);
      }
    }
  }

  lemma QueueStep(cfg: Config, s: Sys, step: Step)
    requires QueueInv(s)
    ensures QueueInv(Do(cfg, s, step))
  {
    var t, e := Do(cfg, s, step), EventOf(cfg, s, step);
    RowsByEvent(cfg, s, step);
    EnqueuedByEvent(cfg, s, step);
    AckedByEvent(cfg, s, step);
    forall r | 0 <= r < |s.rows| ensures Known(t.enqueued, s.rows[r]) {
      KnownGrows(s.enqueued, t.enqueued, s.rows[r]);
    }
    if e.Some? {
      if e.value.Enqueue? {
        assert Leases.SameBody(t.enqueued[|s.enqueued|], e.value.item);
      }
      EventKeepsKnown(t.enqueued, s.rows, e.value);
    }
    forall w | w in t.workers && !t.workers[w].Idle? ensures Known(t.enqueued, t.workers[w].item) {
      if Picks(s, step, w) {
        PickedItem(cfg, s, step, w);
      } else {
        WorkerItem(cfg, s, step, w);
        KnownGrows(s.enqueued, t.enqueued, s.workers[w].item);
      }
    }
  }

  lemma KnownIsUnique(e: seq<Item>, a: Item, b: Item)
    requires IDsDistinct(e) && Known(e, a) && Known(e, b) && a.id == b.id
    ensures Leases.SameBody(a, b)
  {
    var i :| 0 <= i < |e| && Leases.SameBody(e[i], a);
    var j :| 0 <= j < |e| && Leases.SameBody(e[j], b);
    assert i == j;
  }

  lemma KeptStep(cfg: Config, s: Sys, step: Step, it: Item)
    requires QueueInv(s) && Kept(s, it) && Known(s.enqueued, it)
    ensures Kept(Do(cfg, s, step), it)
  {
    var t, e := Do(cfg, s, step), EventOf(cfg, s, step);
    RowsByEvent(cfg, s, step);
    EnqueuedByEvent(cfg, s, step);
    AckedByEvent(cfg, s, step);
    if AckedBody(s.acked, it) {
      var k :| 0 <= k < |s.acked| && Leases.SameBody(s.acked[k], it);
      assert Leases.SameBody(t.acked[k], it);
    } else if e.Some? && e.value.Ack? && e.value.id == it.id {
      KnownIsUnique(s.enqueued, At(s, step.w).item, it);
      assert Leases.SameBody(t.acked[|s.acked|], it);
    } else if e.Some? {
      Leases.StillPresent(s.rows, e.value, it);
    }
  }

  lemma KeptInvStep(cfg: Config, s: Sys, step: Step)
    requires QueueInv(s) && KeptInv(s)
    ensures KeptInv(Do(cfg, s, step))
  {
    var t := Do(cfg, s, step);
    RowsByEvent(cfg, s, step);
    EnqueuedByEvent(cfg, s, step);
    AckedByEvent(cfg, s, step);
    forall k | 0 <= k < |t.enqueued| ensures Kept(t, t.enqueued[k]) {
      if k < |s.enqueued| {
        assert Leases.SameBody(s.enqueued[k], s.enqueued[k]);
        KeptStep(cfg, s, step, s.enqueued[k]);
      } else {
        assert Leases.SameBody(t.rows[|s.rows|], t.enqueued[k]);
      }
    }
  }

  lemma {:induction false} NothingVanishes(cfg: Config, steps: seq<Step>)
    ensures QueueInv(Run(cfg, steps)) && KeptInv(Run(cfg, steps))
  {
    if steps != [] {
      var n := |steps| - 1;
      NothingVanishes(cfg, steps[..n]);
      QueueStep(cfg, Run(cfg, steps[..n]), steps[n]);
      KeptInvStep(cfg, Run(cfg, steps[..n]), steps[n]);
    }
  }

  // With a ledger wired, an enqueued job is never dropped: in every reachable state its item is
  // still in the queue, or the job is terminal.
  lemma NoJobStranded(cfg: Config, steps: seq<Step>, k: nat)
    requires cfg.ledger && k < |Run(cfg, steps).enqueued|
    ensures var s := Run(cfg, steps);
      Leases.Present(s.rows, s.enqueued[k]) || JobDone(s.jobs, s.enqueued[k])
  {
    NothingVanishes(cfg, steps);
    AckImpliesTerminal(cfg, steps);
    var s := Run(cfg, steps);
    assert Kept(s, s.enqueued[k]);
    if !Leases.Present(s.rows, s.enqueued[k]) {
      assert AckedBody(s.acked, s.enqueued[k]);
      var a :| 0 <= a < |s.acked| && Leases.SameBody(s.acked[a], s.enqueued[k]);
      assert JobDone(s.jobs, s.acked[a]);
    }
  }

  // ---------------------------------------------------------------- without a ledger poller

  lemma RunSnoc(cfg: Config, steps: seq<Step>, step: Step)
    ensures Run(cfg, steps + [step]) == Do(cfg, Run(cfg, steps), step)
  {
    assert (steps + [step])[..|steps|] == steps;
  }

  const JOB: Job := Job("j", "t", "sku", Submitted, None, "", "", "", 0)
  const ITEM: Item := Item("q", "t", "j", "", "j", 0, None, None)
  const POSTED: seq<Step> := [Submit(JOB), Post(ITEM), CustomerRead(0, "t", "j", Queued, NO_OPTS), CustomerWrite(0, 0)]

  lemma PostedState(cfg: Config)
    ensures Run(cfg, POSTED) == S0
  {
    var a, b, c, d := POSTED[0], POSTED[1], POSTED[2], POSTED[3];
    RunSnoc(cfg, [], a);
    RunSnoc(cfg, [a], b);
    RunSnoc(cfg, [a, b], c);
    RunSnoc(cfg, [a, b, c], d);
    assert [] + [a] == [a] && [a] + [b] == [a, b] && [a, b] + [c] == [a, b, c] && [a, b, c] + [d] == POSTED;
    var s1 := Sys(map["j" := JOB], [], map[], map[], [], []);
    var s2 := Sys(map["j" := JOB], [ITEM], map[], map[], [ITEM], []);
    assert Run(cfg, [a]) == s1;
    assert Run(cfg, [a, b]) == s2;
    var ticket := JobRuns.Ticket("t", "j", Submitted, Queued, NO_OPTS);
    assert Run(cfg, [a, b, c]) == s2.(tickets := map[0 := ticket]);
  }

  const OPTS: Opts := Opts(None, "", "task")
  const STARTED: Job := JOB.(status := Running, operatorTaskID := "task")
  const S0: Sys := Sys(map["j" := JOB.(status := Queued)], [ITEM], map[], map[], [ITEM], [])

  // The row as worker 1 holds it, and the states its tick goes through.
  function Claim(token: string, at: int): Item { ITEM.(claimedAt := Some(at), token := Some(token)) }
  function Working(token: string, pc: Place): Sys { S0.(rows := [Claim(token, 0)], workers := map[1 := pc]) }
  function WorkingStarted(token: string, pc: Place): Sys { Working(token, pc).(jobs := map["j" := STARTED]) }
  function Acked(token: string): Sys { WorkingStarted(token, Idle).(rows := [], acked := [Claim(token, 0)]) }

  lemma PickPosted(cfg: Config)
    ensures Do(cfg, S0, Pick(1, 0, 0, 0, 0)) == Working(cfg.tokens(1), Loaded(Claim(cfg.tokens(1), 0)))
  {
    assert Oldest([ITEM], 0, 0);
    assert Claimed([ITEM], "q", cfg.tokens(1), 0) == [Claim(cfg.tokens(1), 0)];
  }

  lemma LoadPosted(cfg: Config, token: string)
    ensures Do(cfg, Working(token, Loaded(Claim(token, 0))), Load(1, true))
         == Working(token, Dispatching(Claim(token, 0)))
  {
  }

  lemma DispatchPosted(cfg: Config, token: string)
    ensures Do(cfg, Working(token, Dispatching(Claim(token, 0))), Dispatch(1, Some("task"), ""))
         == Working(token, Moving(Claim(token, 0), Running, OPTS, Start))
  {
  }

  lemma ReadStarted(cfg: Config, token: string)
    ensures Do(cfg, Working(token, Moving(Claim(token, 0), Running, OPTS, Start)), Read(1, true))
         == Working(token, Swapping(Claim(token, 0), Queued, Running, OPTS, Start))
  {
  }

  lemma WriteStarted(cfg: Config, token: string)
    requires !cfg.ledger
    ensures Do(cfg, Working(token, Swapping(Claim(token, 0), Queued, Running, OPTS, Start)), Write(1, true, true, 0))
         == WorkingStarted(token, Closing(Claim(token, 0), true))
  {
    assert Swap(S0.jobs, "t", "j", Queued, Running, OPTS, 0) == map["j" := STARTED];
  }

  lemma CloseStarted(cfg: Config)
    ensures Do(cfg, WorkingStarted(cfg.tokens(1), Closing(Claim(cfg.tokens(1), 0), true)), Close(1, true))
         == Acked(cfg.tokens(1))
  {
    var held := Claim(cfg.tokens(1), 0);
    assert Matches([held][0], "q", cfg.tokens(1)) && Held([held], "q", cfg.tokens(1));
    assert Removed([held], "q", cfg.tokens(1)) == [] by { assert [held][..0] == []; }
  }

  lemma RunTo(cfg: Config, steps: seq<Step>, s: Sys, step: Step, t: Sys)
    requires Run(cfg, steps) == s && Do(cfg, s, step) == t
    ensures Run(cfg, steps + [step]) == t
  {
    RunSnoc(cfg, steps, step);
  }

  // Without a poller the worker acknowledges a job that it has only started.
  lemma NoLedgerAcksEarly(cfg: Config)
    requires !cfg.ledger
    ensures exists steps, k ::
      0 <= k < |Run(cfg, steps).acked| && !JobDone(Run(cfg, steps).jobs, Run(cfg, steps).acked[k])
  {
    var token, held := cfg.tokens(1), Claim(cfg.tokens(1), 0);
    PostedState(cfg);
    PickPosted(cfg);
    RunTo(cfg, POSTED, S0, Pick(1, 0, 0, 0, 0), Working(token, Loaded(held)));
    var a := POSTED + [Pick(1, 0, 0, 0, 0)];
    LoadPosted(cfg, token);
    RunTo(cfg, a, Working(token, Loaded(held)), Load(1, true), Working(token, Dispatching(held)));
    var b := a + [Load(1, true)];
    DispatchPosted(cfg, token);
    RunTo(cfg, b, Working(token, Dispatching(held)), Dispatch(1, Some("task"), ""),
          Working(token, Moving(held, Running, OPTS, Start)));
    var c := b + [Dispatch(1, Some("task"), "")];
    ReadStarted(cfg, token);
    RunTo(cfg, c, Working(token, Moving(held, Running, OPTS, Start)), Read(1, true),
          Working(token, Swapping(held, Queued, Running, OPTS, Start)));
    var d := c + [Read(1, true)];
    WriteStarted(cfg, token);
    RunTo(cfg, d, Working(token, Swapping(held, Queued, Running, OPTS, Start)), Write(1, true, true, 0),
          WorkingStarted(token, Closing(held, true)));
    var e := d + [Write(1, true, true, 0)];
    CloseStarted(cfg);
    RunTo(cfg, e, WorkingStarted(token, Closing(held, true)), Close(1, true), Acked(token));
    var all := e + [Close(1, true)];
    assert Run(cfg, all).acked[0] == held && !JobDone(Run(cfg, all).jobs, held);
  }

  ghost predicate AlwaysDone(cfg: Config) {
    forall steps, k :: 0 <= k < |Run(cfg, steps).acked| ==> JobDone(Run(cfg, steps).jobs, Run(cfg, steps).acked[k])
  }

  // Acknowledged means terminal in every run if and only if a ledger poller is wired.
  lemma AckedIsDoneIff(cfg: Config)
    ensures AlwaysDone(cfg) <==> cfg.ledger
  {
    if cfg.ledger {
      forall steps, k | 0 <= k < |Run(cfg, steps).acked|
        ensures JobDone(Run(cfg, steps).jobs, Run(cfg, steps).acked[k])
      {
        AckImpliesTerminal(cfg, steps);
      }
    } else {
      NoLedgerAcksEarly(cfg);
    }
  }

  // ---------------------------------------------------------------- the queue underneath

  function Trace(cfg: Config, steps: seq<Step>): seq<Leases.Event> {
    if steps == [] then []
    else
      var n := |steps| - 1;
      var e := EventOf(cfg, Run(cfg, steps[..n]), steps[n]);
      Trace(cfg, steps[..n]) + if e.Some? then [e.value] else []
  }

  // One lease length, and a clock that does not run backwards from one claim to the next.
  predicate ClocksOk(steps: seq<Step>, maxAge: int) {
    && (forall k :: 0 <= k < |steps| && steps[k].Pick? ==>
          steps[k].readAt <= steps[k].claimAt && steps[k].maxAge == maxAge)
    && (forall j, k :: 0 <= j < k < |steps| && steps[j].Pick? && steps[k].Pick? ==> steps[j].claimAt <= steps[k].readAt)
  }

  ghost predicate TokensOk(cfg: Config) {
    forall w :: cfg.tokens(w) != ""
  }

  predicate ClaimedBefore(steps: seq<Step>, trace: seq<Leases.Event>) {
    forall k :: 0 <= k < |trace| && trace[k].Claim? ==>
      exists j :: 0 <= j < |steps| && steps[j].Pick? && steps[j].claimAt == trace[k].claimAt
  }

  predicate SameIDs(enqueued: seq<Item>, trace: seq<Leases.Event>) {
    && (forall k :: 0 <= k < |enqueued| ==> Leases.Enqueued(trace, enqueued[k].id))
    && (forall k :: 0 <= k < |trace| && trace[k].Enqueue? ==> HasID(enqueued, trace[k].item.id))
  }

  predicate TraceOk(s: Sys, steps: seq<Step>, trace: seq<Leases.Event>, maxAge: int) {
    && Leases.Legal(trace, maxAge) && Leases.Replay(trace) == s.rows
    && SameIDs(s.enqueued, trace) && ClaimedBefore(steps, trace)
  }

  lemma LegalSnoc(run: seq<Leases.Event>, e: Leases.Event, maxAge: int)
    requires Leases.Legal(run, maxAge) && Leases.Enabled(run, e, maxAge)
    ensures Leases.Legal(run + [e], maxAge)
  {
    var longer := run + [e];
    forall k | 0 <= k < |longer| ensures Leases.Enabled(longer[..k], longer[k], maxAge) {
      assert longer[..k] == run[..k];
      if k < |run| {
        assert Leases.Enabled(run[..k], run[k], maxAge);
      } else {
        assert run[..k] == run;
      }
    }
  }

  lemma SameIDsSnoc(enqueued: seq<Item>, trace: seq<Leases.Event>, e: Leases.Event)
    requires SameIDs(enqueued, trace)
    ensures SameIDs(if e.Enqueue? then enqueued + [e.item] else enqueued, trace + [e])
  {
    var more := if e.Enqueue? then enqueued + [e.item] else enqueued;
    forall k | 0 <= k < |more| ensures Leases.Enqueued(trace + [e], more[k].id) {
      if k < |enqueued| {
        assert (trace + [e])[..|trace|] == trace;
        Leases.EnqueuedGrows(trace + [e], |trace|, enqueued[k].id);
      } else {
        assert (trace + [e])[|trace|] == e;
      }
    }
    forall k | 0 <= k < |trace + [e]| && (trace + [e])[k].Enqueue? ensures HasID(more, (trace + [e])[k].item.id) {
      if k < |trace| {
        var i :| 0 <= i < |enqueued| && enqueued[i].id == trace[k].item.id;
        assert more[i] == enqueued[i];
      } else {
        assert more[|enqueued|] == e.item;
      }
    }
  }

  lemma EventEnabled(cfg: Config, steps: seq<Step>, trace: seq<Leases.Event>, maxAge: int, e: Leases.Event)
    requires steps != [] && TokensOk(cfg) && ClocksOk(steps, maxAge)
    requires TraceOk(Run(cfg, steps[..|steps| - 1]), steps[..|steps| - 1], trace, maxAge)
    requires EventOf(cfg, Run(cfg, steps[..|steps| - 1]), steps[|steps| - 1]) == Some(e)
    ensures Leases.Enabled(trace, e, maxAge)
  {
    var n := |steps| - 1;
    var s := Run(cfg, steps[..n]);
    if e.Claim? {
      assert Leases.ClaimsOldest(s.rows, e, maxAge);
      forall k | 0 <= k < |trace| && trace[k].Claim? ensures trace[k].claimAt <= e.readAt {
        var j :| 0 <= j < n && steps[..n][j].Pick? && steps[..n][j].claimAt == trace[k].claimAt;
        assert steps[j].Pick? && steps[n].Pick?;
      }
    }
  }

  lemma ClaimsCarryOver(steps: seq<Step>, trace: seq<Leases.Event>)
    requires steps != [] && ClaimedBefore(steps[..|steps| - 1], trace)
    ensures ClaimedBefore(steps, trace)
  {
    var n := |steps| - 1;
    forall k | 0 <= k < |trace| && trace[k].Claim?
      ensures exists j :: 0 <= j < |steps| && steps[j].Pick? && steps[j].claimAt == trace[k].claimAt
    {
      var j :| 0 <= j < n && steps[..n][j].Pick? && steps[..n][j].claimAt == trace[k].claimAt;
      assert steps[j].Pick?;
    }
  }

  // The queue inside a fleet run is itself a legal queue run, so everything in Leases holds of the
  // workers: one consumer per lease, nothing lost, stale holders miss.
  lemma {:induction false} FleetQueueIsLegal(cfg: Config, steps: seq<Step>, maxAge: int)
    requires TokensOk(cfg) && ClocksOk(steps, maxAge)
    ensures TraceOk(Run(cfg, steps), steps, Trace(cfg, steps), maxAge)
  {
    if steps != [] {
      var n := |steps| - 1;
      FleetQueueIsLegal(cfg, steps[..n], maxAge);
      var s, before := Run(cfg, steps[..n]), Trace(cfg, steps[..n]);
      var e := EventOf(cfg, s, steps[n]);
      RowsByEvent(cfg, s, steps[n]);
      EnqueuedByEvent(cfg, s, steps[n]);
      AckedByEvent(cfg, s, steps[n]);
      ClaimsCarryOver(steps, before);
      if e.Some? {
        EventEnabled(cfg, steps, before, maxAge, e.value);
        LegalSnoc(before, e.value, maxAge);
        SameIDsSnoc(s.enqueued, before, e.value);
        assert (before + [e.value])[..|before|] == before;
        ClaimRecorded(cfg, steps, before, e.value);
      } else {
        assert Trace(cfg, steps) == before;
      }
    }
  }

  lemma ClaimRecorded(cfg: Config, steps: seq<Step>, trace: seq<Leases.Event>, e: Leases.Event)
    requires steps != [] && ClaimedBefore(steps, trace)
    requires EventOf(cfg, Run(cfg, steps[..|steps| - 1]), steps[|steps| - 1]) == Some(e)
    ensures ClaimedBefore(steps, trace + [e])
  {
    var n, more := |steps| - 1, trace + [e];
    forall k | 0 <= k < |more| && more[k].Claim?
      ensures exists j :: 0 <= j < |steps| && steps[j].Pick? && steps[j].claimAt == more[k].claimAt
    {
      if k < |trace| {
        assert more[k] == trace[k];
      } else {
        assert steps[n].Pick? && steps[n].claimAt == e.claimAt;
      }
    }
  }

  // In terms of tokens: no second claim within a lease, unless a Nack under the holding token hit the row.
  lemma OneClaimPerLease(cfg: Config, steps: seq<Step>, maxAge: int, i: nat, j: nat)
    requires TokensOk(cfg) && ClocksOk(steps, maxAge) && i < j < |Trace(cfg, steps)|
    requires Trace(cfg, steps)[i].Claim? && Trace(cfg, steps)[j].Claim?
      && Trace(cfg, steps)[i].id == Trace(cfg, steps)[j].id
    ensures Trace(cfg, steps)[j].readAt > Trace(cfg, steps)[i].claimAt + maxAge
         || Leases.HolderNacked(Trace(cfg, steps), i, j)
  {
    FleetQueueIsLegal(cfg, steps, maxAge);
    Leases.LeaseIsExclusive(Trace(cfg, steps), maxAge, i, j);
  }

  // The lifecycle bounds hold under workers and customers alike.
  lemma FleetLifecycle(cfg: Config, steps: seq<Step>, id: string)
    ensures Changes(Tables(cfg, steps), id) <= 3 && LifecycleOk(Tables(cfg, steps), id)
  {
    FleetIsHistory(cfg, steps);
    AtMostThreeChanges(Tables(cfg, steps), id);
  }
}
