// A tick of the worker that nobody disturbs is a run of the interleaved fleet.
module WorkerRuns {
  import opened Basics
  import opened Jobs
  import opened Billing
  import opened Queue
  import opened Fleet
  import L = LedgerTail
  import W = Workers

  function Next(cfg: Config): (Sys, Step) -> Sys {
    (s: Sys, step: Step) => Do(cfg, s, step)
  }

  function DoAll(cfg: Config, s: Sys, steps: seq<Step>): Sys {
    Fold(Next(cfg), s, steps)
  }

  lemma {:induction false} RunIsDoAll(cfg: Config, steps: seq<Step>)
    ensures Run(cfg, steps) == DoAll(cfg, START, steps)
  {
    if steps != [] {
      RunIsDoAll(cfg, steps[..|steps| - 1]);
    }
  }

  lemma DoAllConcat(cfg: Config, s: Sys, a: seq<Step>, b: seq<Step>)
    ensures DoAll(cfg, s, a + b) == DoAll(cfg, DoAll(cfg, s, a), b)
  {
    FoldConcat(Next(cfg), s, a, b);
  }

  lemma RunThenDoAll(cfg: Config, before: seq<Step>, steps: seq<Step>)
    ensures Run(cfg, before + steps) == DoAll(cfg, Run(cfg, before), steps)
  {
    RunIsDoAll(cfg, before + steps);
    RunIsDoAll(cfg, before);
    FoldConcat(Next(cfg), START, before, steps);
  }

  lemma DoOne(cfg: Config, s: Sys, a: Step)
    ensures DoAll(cfg, s, [a]) == Do(cfg, s, a)
  {
    FoldOne(Next(cfg), s, a);
  }

  lemma GoGo(s: Sys, w: int, a: Place, b: Place)
    ensures Go(Go(s, w, a), w, b) == Go(s, w, b)
  {
    assert s.workers[w := a][w := b] == s.workers[w := b];
  }

  // The jobs table after this, and the worker's next place: no other part of the state moves.
  function Then(s: Sys, t: Table, w: int, pc: Place): Sys {
    Go(s.(jobs := t), w, pc)
  }

  // ---------------------------------------------------------------- a transition

  function MoveSteps(w: int, now: int): seq<Step> {
    [Read(w, true), Write(w, true, true, now)]
  }

  lemma DoTwo(cfg: Config, s: Sys, a: Step, b: Step)
    ensures DoAll(cfg, s, [a, b]) == Do(cfg, Do(cfg, s, a), b)
  {
    FoldTwo(Next(cfg), s, a, b);
  }

  // The read and the UPDATE of one transition, back to back.
  lemma MoveRuns(cfg: Config, s: Sys, w: int, it: Item, to: Status, opts: Opts, goal: Goal, now: int)
    requires At(s, w) == Moving(it, to, opts, goal)
    ensures DoAll(cfg, s, MoveSteps(w, now))
         == Then(s, Transitioned(s.jobs, it.tenantID, it.jobID, to, opts, now), w,
                 AfterMove(cfg, it, goal, ReadFor(s.jobs, it.tenantID, it.jobID, to).Ok?))
  {
    var j := ReadFor(s.jobs, it.tenantID, it.jobID, to);
    DoTwo(cfg, s, Read(w, true), Write(w, true, true, now));
    if j.Ok? {
      var pc := Swapping(it, j.value.status, to, opts, goal);
      assert Do(cfg, s, Read(w, true)) == Go(s, w, pc);
      GoGo(s.(jobs := Transitioned(s.jobs, it.tenantID, it.jobID, to, opts, now)),
           w, pc, AfterMove(cfg, it, goal, true));
    }
  }

  // ---------------------------------------------------------------- nobody else about

  ghost predicate QuietTurns(turns: seq<W.Turn>) {
    forall k :: 0 <= k < |turns| && !turns[k].CtxDone? ==> QuietAround(turns[k].around)
  }

  ghost predicate Quiet(env: W.Env) {
    && (forall t :: env.loaded(t) == t) && (forall rows :: env.queued(rows) == rows)
    && env.claimOk && env.fetchOk && env.loadOk && env.closeOk && QuietAround(env.start) && QuietTurns(env.turns)
  }

  // ---------------------------------------------------------------- following a dispatch

  function PhaseOf(s: Status): string {
    match s
    case Succeeded => "complete"
    case Failed => "failed"
    case Cancelled => "cancelled"
    case _ => ""
  }

  // What the fleet's worker does at each turn of the loop.
  function PollOf(turns: seq<W.Turn>): PollOutcome {
    if turns == [] || turns[0].CtxDone? then PollFails
    else if turns[0].DeadlinePassed? then WaitExceeded
    else if turns[0].result.Err? then PollFails
    else
      var res := turns[0].result.value;
      if res.terminal then Entry(PhaseOf(res.status), Opts(res.outputs, res.errMsg, "")) else NotYet
  }

  function FollowSteps(w: int, turns: seq<W.Turn>, now: int): seq<Step>
    decreases |turns|
  {
    match PollOf(turns)
    case PollFails => [Poll(w, PollFails)]
    case NotYet => [Poll(w, NotYet)] + FollowSteps(w, turns[1..], now)
    case WaitExceeded => [Poll(w, WaitExceeded)] + MoveSteps(w, now)
    case Entry(phase, opts) => [Poll(w, Entry(phase, opts))] + MoveSteps(w, now)
  }

  lemma PollThenMove(cfg: Config, s: Sys, w: int, it: Item, outcome: PollOutcome, to: Status, opts: Opts, goal: Goal,
                     now: int)
    requires At(s, w) == Following(it)
    requires Do(cfg, s, Poll(w, outcome)) == Go(s, w, Moving(it, to, opts, goal))
    ensures DoAll(cfg, s, [Poll(w, outcome)] + MoveSteps(w, now))
         == Then(s, Transitioned(s.jobs, it.tenantID, it.jobID, to, opts, now), w,
                 AfterMove(cfg, it, goal, ReadFor(s.jobs, it.tenantID, it.jobID, to).Ok?))
  {
    var pc := Moving(it, to, opts, goal);
    var ok := ReadFor(s.jobs, it.tenantID, it.jobID, to).Ok?;
    DoAllConcat(cfg, s, [Poll(w, outcome)], MoveSteps(w, now));
    DoOne(cfg, s, Poll(w, outcome));
    MoveRuns(cfg, Go(s, w, pc), w, it, to, opts, goal, now);
    GoGo(s.(jobs := Transitioned(s.jobs, it.tenantID, it.jobID, to, opts, now)), w, pc, AfterMove(cfg, it, goal, ok));
  }

  lemma PollEnds(cfg: Config, s: Sys, w: int, it: Item, status: Status, opts: Opts)
    requires At(s, w) == Following(it) && status.IsTerminal()
    ensures Do(cfg, s, Poll(w, Entry(PhaseOf(status), opts))) == Go(s, w, Moving(it, status, opts, Finish))
  {
    assert L.MapPhaseToStatus(PhaseOf(status)) == Some(status);
  }

  lemma PollStops(cfg: Config, s: Sys, w: int, it: Item)
    requires At(s, w) == Following(it)
    ensures DoAll(cfg, s, [Poll(w, PollFails)]) == Go(s, w, Closing(it, false))
    ensures DoAll(cfg, s, [Poll(w, NotYet)]) == s
  {
    DoOne(cfg, s, Poll(w, PollFails));
    DoOne(cfg, s, Poll(w, NotYet));
  }

  // The follow loop of the worker is a run of the fleet's worker.
  lemma {:induction false} FollowRuns(cfg: Config, s: Sys, w: int, it: Item, turns: seq<W.Turn>, now: int)
    requires At(s, w) == Following(it) && W.TurnsOk(turns) && QuietTurns(turns)
    ensures var e := W.Followed(s.jobs, it.tenantID, it.jobID, turns, now);
      DoAll(cfg, s, FollowSteps(w, turns, now)) == Then(s, e.jobs, w, Closing(it, e.ok))
    decreases |turns|
  {
    match PollOf(turns)
    case PollFails =>
      PollStops(cfg, s, w, it);
    case NotYet =>
      FollowRuns(cfg, s, w, it, turns[1..], now);
      DoAllConcat(cfg, s, [Poll(w, NotYet)], FollowSteps(w, turns[1..], now));
      PollStops(cfg, s, w, it);
    case WaitExceeded =>
      PollThenMove(cfg, s, w, it, WaitExceeded, Failed, W.WAITED, Fail, now);
      QuietAttempt(s.jobs, it.tenantID, it.jobID, Failed, W.WAITED, now, turns[0].around);
    case Entry(phase, opts) =>
      var status := turns[0].result.value.status;
      PollEnds(cfg, s, w, it, status, opts);
      PollThenMove(cfg, s, w, it, Entry(phase, opts), status, opts, Finish, now);
      QuietAttempt(s.jobs, it.tenantID, it.jobID, status, opts, now, turns[0].around);
  }

  // ---------------------------------------------------------------- handling an item

  function DispatchOf(w: int, env: W.Env): Step {
    if env.dispatch.Err? then Dispatch(w, None, env.dispatch.error) else Dispatch(w, Some(env.dispatch.value), "")
  }

  predicate Starts(t: Table, it: Item, env: W.Env) {
    env.dispatch.Ok? && ReadFor(t, it.tenantID, it.jobID, Running).Ok?
  }

  function StartOpts(env: W.Env): Opts
    requires env.dispatch.Ok?
  {
    Opts(None, "", env.dispatch.value)
  }

  function HandleSteps(t: Table, it: Item, env: W.Env, ledger: bool, w: int): seq<Step> {
    var j := Get(t, it.tenantID, it.jobID);
    if j.Err? || j.value.status.IsTerminal() then [Load(w, true)]
    else
      [Load(w, true), DispatchOf(w, env)] + MoveSteps(w, env.now)
      + if ledger && Starts(t, it, env) then FollowSteps(w, env.turns, env.now) else []
  }

  // Loading, dispatching and moving the job to running or failed.
  lemma StartRuns(cfg: Config, s: Sys, w: int, it: Item, env: W.Env, to: Status, opts: Opts, goal: Goal)
    requires At(s, w) == Loaded(it)
    requires var j := Get(s.jobs, it.tenantID, it.jobID); j.Ok? && !j.value.status.IsTerminal()
    requires Do(cfg, Go(s, w, Dispatching(it)), DispatchOf(w, env))
          == Go(Go(s, w, Dispatching(it)), w, Moving(it, to, opts, goal))
    ensures DoAll(cfg, s, [Load(w, true), DispatchOf(w, env)] + MoveSteps(w, env.now))
         == Then(s, Transitioned(s.jobs, it.tenantID, it.jobID, to, opts, env.now), w,
                 AfterMove(cfg, it, goal, ReadFor(s.jobs, it.tenantID, it.jobID, to).Ok?))
  {
    var pc, d := Moving(it, to, opts, goal), DispatchOf(w, env);
    DoAllConcat(cfg, s, [Load(w, true), d], MoveSteps(w, env.now));
    DoTwo(cfg, s, Load(w, true), d);
    GoGo(s, w, Dispatching(it), pc);
    MoveRuns(cfg, Go(s, w, pc), w, it, to, opts, goal, env.now);
    GoGo(s.(jobs := Transitioned(s.jobs, it.tenantID, it.jobID, to, opts, env.now)), w, pc,
         AfterMove(cfg, it, goal, ReadFor(s.jobs, it.tenantID, it.jobID, to).Ok?));
  }

  lemma FailRuns(cfg: Config, s: Sys, w: int, it: Item, env: W.Env)
    requires At(s, w) == Loaded(it) && env.dispatch.Err?
    requires var j := Get(s.jobs, it.tenantID, it.jobID); j.Ok? && !j.value.status.IsTerminal()
    ensures DoAll(cfg, s, [Load(w, true), DispatchOf(w, env)] + MoveSteps(w, env.now))
         == Then(s, Transitioned(s.jobs, it.tenantID, it.jobID, Failed, Opts(None, env.dispatch.error, ""), env.now), w,
                 Closing(it, false))
  {
    StartRuns(cfg, s, w, it, env, Failed, Opts(None, env.dispatch.error, ""), Fail);
  }

  lemma RunningRuns(cfg: Config, s: Sys, w: int, it: Item, env: W.Env)
    requires At(s, w) == Loaded(it) && env.dispatch.Ok?
    requires var j := Get(s.jobs, it.tenantID, it.jobID); j.Ok? && !j.value.status.IsTerminal()
    ensures DoAll(cfg, s, [Load(w, true), DispatchOf(w, env)] + MoveSteps(w, env.now))
         == Then(s, Transitioned(s.jobs, it.tenantID, it.jobID, Running, StartOpts(env), env.now), w,
                 AfterMove(cfg, it, Start, Starts(s.jobs, it, env)))
  {
    StartRuns(cfg, s, w, it, env, Running, StartOpts(env), Start);
  }

  lemma QuietHandled(t: Table, it: Item, env: W.Env, ledger: bool)
    requires Quiet(env)
    ensures var j := Get(t, it.tenantID, it.jobID);
      W.Handled(t, it, env, ledger) ==
        if j.Err? then Effect(t, false)
        else if j.value.status.IsTerminal() then Effect(t, true)
        else if env.dispatch.Err? then
          Effect(Transitioned(t, it.tenantID, it.jobID, Failed, Opts(None, env.dispatch.error, ""), env.now), false)
        else if !Starts(t, it, env) || !ledger then
          Effect(Transitioned(t, it.tenantID, it.jobID, Running, StartOpts(env), env.now), Starts(t, it, env))
        else W.Followed(Transitioned(t, it.tenantID, it.jobID, Running, StartOpts(env), env.now),
                        it.tenantID, it.jobID, env.turns, env.now)
  {
    if env.dispatch.Err? {
      QuietAttempt(t, it.tenantID, it.jobID, Failed, Opts(None, env.dispatch.error, ""), env.now, env.start);
    } else {
      QuietAttempt(t, it.tenantID, it.jobID, Running, StartOpts(env), env.now, env.start);
    }
  }

  lemma HandleRuns(cfg: Config, s: Sys, w: int, it: Item, env: W.Env)
    requires At(s, w) == Loaded(it) && W.TurnsOk(env.turns) && Quiet(env)
    ensures var e := W.Handled(s.jobs, it, env, cfg.ledger);
      DoAll(cfg, s, HandleSteps(s.jobs, it, env, cfg.ledger, w)) == Then(s, e.jobs, w, Closing(it, e.ok))
  {
    var j := Get(s.jobs, it.tenantID, it.jobID);
    var start := [Load(w, true), DispatchOf(w, env)] + MoveSteps(w, env.now);
    assert start + [] == start;
    QuietHandled(s.jobs, it, env, cfg.ledger);
    if j.Err? || j.value.status.IsTerminal() {
      DoOne(cfg, s, Load(w, true));
    } else if env.dispatch.Err? {
      FailRuns(cfg, s, w, it, env);
    } else {
      RunningRuns(cfg, s, w, it, env);
      if cfg.ledger && Starts(s.jobs, it, env) {
        FollowedRuns(cfg, s, w, it, env, start);
      }
    }
  }

  lemma FollowedRuns(cfg: Config, s: Sys, w: int, it: Item, env: W.Env, start: seq<Step>)
    requires cfg.ledger && env.dispatch.Ok? && W.TurnsOk(env.turns) && Quiet(env)
    requires var mid := Transitioned(s.jobs, it.tenantID, it.jobID, Running, StartOpts(env), env.now);
      DoAll(cfg, s, start) == Then(s, mid, w, Following(it))
    ensures var mid := Transitioned(s.jobs, it.tenantID, it.jobID, Running, StartOpts(env), env.now);
      var e := W.Followed(mid, it.tenantID, it.jobID, env.turns, env.now);
      DoAll(cfg, s, start + FollowSteps(w, env.turns, env.now)) == Then(s, e.jobs, w, Closing(it, e.ok))
  {
    var t := Transitioned(s.jobs, it.tenantID, it.jobID, Running, StartOpts(env), env.now);
    var mid, e := Then(s, t, w, Following(it)), W.Followed(t, it.tenantID, it.jobID, env.turns, env.now);
    DoAllConcat(cfg, s, start, FollowSteps(w, env.turns, env.now));
    FollowRuns(cfg, mid, w, it, env.turns, env.now);
    GoGo(s.(jobs := e.jobs), w, Following(it), Closing(it, e.ok));
  }

  // ---------------------------------------------------------------- a whole tick

  function TickSteps(cfg: Config, s: Sys, w: int, i: nat, env: W.Env, lease: int): seq<Step>
    requires i < |s.rows|
  {
    [Pick(w, i, env.readAt, env.claimAt, lease)]
    + HandleSteps(s.jobs, Taken(s.rows[i], cfg.tokens(w), env.claimAt), env, cfg.ledger, w)
    + [Close(w, true)]
  }

  lemma PickRuns(cfg: Config, s: Sys, w: int, i: nat, env: W.Env, lease: int)
    requires At(s, w).Idle? && Oldest(s.rows, i, env.readAt - lease)
    ensures var it := Taken(s.rows[i], cfg.tokens(w), env.claimAt);
      var claimed := Claimed(s.rows, it.id, cfg.tokens(w), env.claimAt);
      && Do(cfg, s, Pick(w, i, env.readAt, env.claimAt, lease)) == Go(s.(rows := claimed), w, Loaded(it))
      && Held(claimed, it.id, cfg.tokens(w))
  {
    var it := Taken(s.rows[i], cfg.tokens(w), env.claimAt);
    var claimed := Claimed(s.rows, it.id, cfg.tokens(w), env.claimAt);
    assert claimed[i] == it && Matches(claimed[i], it.id, cfg.tokens(w));
  }

  // The closing step, after handling.
  lemma CloseRuns(cfg: Config, s: Sys, w: int, it: Item, ok: bool)
    requires At(s, w) == Closing(it, ok) && Held(s.rows, it.id, cfg.tokens(w))
    ensures var t := Do(cfg, s, Close(w, true));
      && t.jobs == s.jobs && At(t, w) == Idle
      && t.rows == (if ok then Removed(s.rows, it.id, cfg.tokens(w)) else Released(s.rows, it.id, cfg.tokens(w)))
      && t.acked == (if ok then s.acked + [it] else s.acked)
  {
  }

  // From any reachable state of the fleet, a tick of worker w over row i that nobody disturbs leads
  // where the worker's own Tick says: the same queue, the same jobs table, the worker idle again.
  lemma TickIsARun(cfg: Config, before: seq<Step>, w: int, i: nat, env: W.Env, lease: int)
    requires var s := Run(cfg, before); At(s, w).Idle? && Oldest(s.rows, i, env.readAt - lease)
    requires W.TurnsOk(env.turns) && Quiet(env)
    ensures var s, t := Run(cfg, before), Run(cfg, before + TickSteps(cfg, Run(cfg, before), w, i, env, lease));
      var it := Taken(s.rows[i], cfg.tokens(w), env.claimAt);
      var claimed, e := Claimed(s.rows, it.id, cfg.tokens(w), env.claimAt), W.Handled(s.jobs, it, env, cfg.ledger);
      && t.jobs == e.jobs && At(t, w) == Idle
      && t.rows == (if e.ok then Removed(claimed, it.id, cfg.tokens(w)) else Released(claimed, it.id, cfg.tokens(w)))
      && t.acked == (if e.ok then s.acked + [it] else s.acked)
  {
    var s := Run(cfg, before);
    var it := Taken(s.rows[i], cfg.tokens(w), env.claimAt);
    var pick, handle := Pick(w, i, env.readAt, env.claimAt, lease), HandleSteps(s.jobs, it, env, cfg.ledger, w);
    RunThenDoAll(cfg, before, TickSteps(cfg, s, w, i, env, lease));
    DoAllConcat(cfg, s, [pick] + handle, [Close(w, true)]);
    DoAllConcat(cfg, s, [pick], handle);
    DoOne(cfg, s, pick);
    PickRuns(cfg, s, w, i, env, lease);
    var picked := Do(cfg, s, pick);
    HandleRuns(cfg, picked, w, it, env);
    var handled := DoAll(cfg, picked, handle);
    DoOne(cfg, handled, Close(w, true));
    CloseRuns(cfg, handled, w, it, W.Handled(s.jobs, it, env, cfg.ledger).ok);
  }

  // A tick whose read-back fails after the claim has committed is a run in which the worker picks
  // the row and dies: the row stays claimed until its lease runs out.
  lemma LostClaimIsARun(cfg: Config, before: seq<Step>, w: int, i: nat, env: W.Env, lease: int)
    requires var s := Run(cfg, before); At(s, w).Idle? && Oldest(s.rows, i, env.readAt - lease)
    ensures var s := Run(cfg, before);
      var t := Run(cfg, before + [Pick(w, i, env.readAt, env.claimAt, lease), Die(w)]);
      && t.rows == Claimed(s.rows, s.rows[i].id, cfg.tokens(w), env.claimAt)
      && t.jobs == s.jobs && t.acked == s.acked && At(t, w) == Idle
  {
    var s, pick := Run(cfg, before), Pick(w, i, env.readAt, env.claimAt, lease);
    RunThenDoAll(cfg, before, [pick, Die(w)]);
    DoTwo(cfg, s, pick, Die(w));
    PickRuns(cfg, s, w, i, env, lease);
  }

  // The worker is the fleet's worker w, with this lease.
  predicate IsWorker(cfg: Config, w: int, lease: int, worker: W.Worker) {
    worker.claimToken == cfg.tokens(w) && worker.claimLease == lease && worker.ledger == cfg.ledger
  }

  // Whatever the worker's own Tick may do to a reachable state, if nobody disturbs it, a run of the
  // fleet does: the same queue, the same jobs table, and an acknowledgement exactly if it succeeds.
  lemma TickRefines(cfg: Config, before: seq<Step>, w: int, i: nat, env: W.Env, lease: int, worker: W.Worker,
                    outbox: seq<Row>, rows': seq<Item>, jobs': Table, outbox': seq<Row>, ok: bool)
    requires IsWorker(cfg, w, lease, worker) && At(Run(cfg, before), w).Idle? && W.TurnsOk(env.turns) && Quiet(env)
    requires var s := Run(cfg, before); worker.Ticked(s.rows, s.jobs, outbox, i, env, rows', jobs', outbox', ok)
    ensures var s, t := Run(cfg, before), Run(cfg, before + TickSteps(cfg, Run(cfg, before), w, i, env, lease));
      && t.rows == rows' && t.jobs == jobs' && At(t, w) == Idle
      && t.acked == if ok then s.acked + [Taken(s.rows[i], cfg.tokens(w), env.claimAt)] else s.acked
  {
    TickIsARun(cfg, before, w, i, env, lease);
    PickRuns(cfg, Run(cfg, before), w, i, env, lease);
  }
}
