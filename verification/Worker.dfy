// One tick of the dispatcher worker, over the real queue, jobs store and outbox, with whatever the
// other users of the queue and the jobs store do between its statements.
module Workers {
  import opened Basics
  import opened Billing
  import opened Recording
  import opened Jobs
  import opened Queue
  import opened LedgerTail
  import Fleet

  // One turn of the follow loop: the context ends, the deadline has passed, or the ledger is polled;
  // `recorded` says which INSERTs of the bills get through.
  datatype Turn =
    | CtxDone
    | DeadlinePassed(around: Around)
    | Polled(result: Result<PollResult>, recorded: nat -> bool, around: Around)

  // What the worker meets outside itself. The transaction of the claim and its read-back may fail.
  // `loaded` is what others do to the jobs table before the job is loaded, `queued` what they do to
  // the queue before the item is closed.
  datatype Env = Env(readAt: int, claimAt: int, claimOk: bool, fetchOk: bool, loaded: Table -> Table, loadOk: bool,
                     dispatch: Result<string>, start: Around, turns: seq<Turn>, queued: seq<Item> -> seq<Item>,
                     closeOk: bool, now: int)

  // A poll that reports an end reports a terminal status (see LedgerTail.FirstEndWins).
  predicate TurnsOk(turns: seq<Turn>) {
    forall k :: 0 <= k < |turns| && turns[k].Polled? && turns[k].result.Ok? && turns[k].result.value.terminal ==>
      turns[k].result.value.status.IsTerminal()
  }

  // Others leave the queue's keys unique.
  ghost predicate KeepsKeys(f: seq<Item> -> seq<Item>) {
    forall rows :: IDsDistinct(rows) && KeysDistinct(rows) ==> IDsDistinct(f(rows)) && KeysDistinct(f(rows))
  }

  // The bills of the polls made before the loop ends, in order.
  function Gathered(fmt: Clock, tenantID: string, turns: seq<Turn>, now: int): seq<Delivery>
    decreases |turns|
  {
    if turns == [] || !turns[0].Polled? || turns[0].result.Err? then []
    else
      var res := turns[0].result.value;
      BillDeliveries(fmt, tenantID, res.bills, now, turns[0].recorded)
      + if res.terminal then [] else Gathered(fmt, tenantID, turns[1..], now)
  }

  const WAITED: Opts := Opts(None, "ledger wait exceeded", "")

  function Followed(t: Table, tenantID: string, id: string, turns: seq<Turn>, now: int): Effect
    decreases |turns|
  {
    if turns == [] || turns[0].CtxDone? then Effect(t, false)
    else if turns[0].DeadlinePassed? then
      Effect(Attempted(t, tenantID, id, Failed, WAITED, now, turns[0].around).jobs, false)
    else if turns[0].result.Err? then Effect(t, false)
    else
      var res := turns[0].result.value;
      if !res.terminal then Followed(t, tenantID, id, turns[1..], now)
      else Attempted(t, tenantID, id, res.status, Opts(res.outputs, res.errMsg, ""), now, turns[0].around)
  }

  // The item's job is loaded, is not terminal, and has been dispatched.
  predicate Dispatched(t: Table, it: Item, env: Env) {
    var j := Get(env.loaded(t), it.tenantID, it.jobID);
    env.loadOk && j.Ok? && !j.value.status.IsTerminal() && env.dispatch.Ok?
  }

  function Started(t: Table, it: Item, env: Env): Effect
    requires env.dispatch.Ok?
  {
    Attempted(env.loaded(t), it.tenantID, it.jobID, Running, Opts(None, "", env.dispatch.value), env.now, env.start)
  }

  function Handled(t: Table, it: Item, env: Env, ledger: bool): Effect {
    var found := env.loaded(t);
    var j := Get(found, it.tenantID, it.jobID);
    if !env.loadOk || j.Err? then Effect(found, false)
    else if j.value.status.IsTerminal() then Effect(found, true)
    else if env.dispatch.Err? then
      Effect(Attempted(found, it.tenantID, it.jobID, Failed, Opts(None, env.dispatch.error, ""),
                       env.now, env.start).jobs, false)
    else if !Started(t, it, env).ok || !ledger then Started(t, it, env)
    else Followed(Started(t, it, env).jobs, it.tenantID, it.jobID, env.turns, env.now)
  }

  // The outbox after handling: bills are gathered only while following a started task.
  function Fanned(outbox: seq<Row>, t: Table, it: Item, env: Env, fmt: Clock, ledger: bool): seq<Row> {
    if ledger && Dispatched(t, it, env) && Started(t, it, env).ok
    then Deliver(outbox, Gathered(fmt, it.tenantID, env.turns, env.now)) else outbox
  }

  // Others leave terminal jobs alone, as every history of the table does (Jobs.TerminalIsFinal).
  ghost predicate KeepsTerminal(f: Table -> Table) {
    forall t: Table, id: string :: id in t && t[id].status.IsTerminal() ==> id in f(t) && f(t)[id] == t[id]
  }

  ghost predicate TurnsKeepTerminal(turns: seq<Turn>) {
    forall k :: 0 <= k < |turns| && turns[k].Polled? ==> KeepsTerminal(turns[k].around.after)
  }

  lemma EndIsDone(t: Table, it: Item, to: Status, opts: Opts, now: int, a: Around)
    requires to.IsTerminal() && KeepsTerminal(a.after)
    requires Attempted(t, it.tenantID, it.jobID, to, opts, now, a).ok
    ensures Fleet.JobDone(Attempted(t, it.tenantID, it.jobID, to, opts, now, a).jobs, it)
  {
    var found := a.before(t);
    var expected := ReadFor(found, it.tenantID, it.jobID, to).value.status;
    var swapped := Swap(a.between(found), it.tenantID, it.jobID, expected, to, opts, now);
    assert swapped[it.jobID].status.IsTerminal();
    assert a.after(swapped)[it.jobID] == swapped[it.jobID];
  }

  lemma {:induction false} FollowedIsDone(t: Table, it: Item, turns: seq<Turn>, now: int)
    requires TurnsOk(turns) && TurnsKeepTerminal(turns) && Followed(t, it.tenantID, it.jobID, turns, now).ok
    ensures Fleet.JobDone(Followed(t, it.tenantID, it.jobID, turns, now).jobs, it)
    decreases |turns|
  {
    var res := turns[0].result.value;
    if res.terminal {
      EndIsDone(t, it, res.status, Opts(res.outputs, res.errMsg, ""), now, turns[0].around);
    } else {
      FollowedIsDone(t, it, turns[1..], now);
    }
  }

  // With a ledger wired, and whatever others do in between, the worker is content with an item only
  // if its job is then terminal.
  lemma HandledIsDone(t: Table, it: Item, env: Env)
    requires TurnsOk(env.turns) && TurnsKeepTerminal(env.turns) && Handled(t, it, env, true).ok
    ensures Fleet.JobDone(Handled(t, it, env, true).jobs, it)
  {
    if Dispatched(t, it, env) && Started(t, it, env).ok {
      FollowedIsDone(Started(t, it, env).jobs, it, env.turns, env.now);
    }
  }

  // One turn of the loop, as it stands at the head of the turns to come.
  lemma GatheredStep(fmt: Clock, tenantID: string, turns: seq<Turn>, i: nat, now: int)
    requires i < |turns|
    ensures Gathered(fmt, tenantID, turns[i..], now) ==
      if !turns[i].Polled? || turns[i].result.Err? then []
      else BillDeliveries(fmt, tenantID, turns[i].result.value.bills, now, turns[i].recorded)
           + if turns[i].result.value.terminal then [] else Gathered(fmt, tenantID, turns[i + 1..], now)
  {
    assert turns[i..][1..] == turns[i + 1..];
  }

  lemma FollowedStep(t: Table, tenantID: string, id: string, turns: seq<Turn>, i: nat, now: int)
    requires i < |turns|
    ensures turns[i].Polled? && turns[i].result.Ok? && !turns[i].result.value.terminal ==>
      Followed(t, tenantID, id, turns[i..], now) == Followed(t, tenantID, id, turns[i + 1..], now)
    ensures !(turns[i].Polled? && turns[i].result.Ok? && !turns[i].result.value.terminal) ==>
      Followed(t, tenantID, id, turns[i..], now) == Followed(t, tenantID, id, [turns[i]], now)
  {
    assert turns[i..][1..] == turns[i + 1..];
  }

  lemma Regroup(a: seq<Delivery>, b: seq<Delivery>, c: seq<Delivery>)
    ensures a + (b + c) == a + b + c && a + [] == a
  {
  }

  class Worker {
    const q: SQLiteQueue
    const js: Store
    const svc: Service
    const claimToken: string
    const claimLease: int
    const fmt: Clock
    const ledger: bool      // a ledger poller is wired

    constructor (q: SQLiteQueue, js: Store, svc: Service, claimToken: string, claimLease: int, fmt: Clock, ledger: bool)
      ensures this.q == q && this.js == js && this.svc == svc && this.claimToken == claimToken
      ensures this.claimLease == claimLease && this.fmt == fmt && this.ledger == ledger
    {
      this.q, this.js, this.svc := q, js, svc;
      this.claimToken, this.claimLease, this.fmt, this.ledger := claimToken, claimLease, fmt, ledger;
    }

    // The loop of one task: bills of every poll made go to the outbox before its outcome is stored.
    method FollowTask(tenantID: string, jobID: string, turns: seq<Turn>, now: int) returns (r: Result<()>)
      modifies js, svc`outbox
      ensures js.jobs == Followed(old(js.jobs), tenantID, jobID, turns, now).jobs
      ensures r.Ok? <==> Followed(old(js.jobs), tenantID, jobID, turns, now).ok
      ensures svc.outbox == Deliver(old(svc.outbox), Gathered(fmt, tenantID, turns, now))
    {
      ghost var all := Gathered(fmt, tenantID, turns, now);
      ghost var done: seq<Delivery> := [];
      assert turns[0..] == turns && done + all == all;
      for i := 0 to |turns|
        invariant svc.outbox == Deliver(old(svc.outbox), done)
        invariant all == done + Gathered(fmt, tenantID, turns[i..], now)
        invariant js.jobs == old(js.jobs)
        invariant Followed(js.jobs, tenantID, jobID, turns, now) == Followed(js.jobs, tenantID, jobID, turns[i..], now)
      {
        GatheredStep(fmt, tenantID, turns, i, now);
        FollowedStep(js.jobs, tenantID, jobID, turns, i, now);
        Regroup(done, [], []);
        match turns[i]
        case CtxDone =>
          return Err("context canceled");
        case DeadlinePassed(around) =>
          var _ := js.Transition(tenantID, jobID, Failed, WAITED, now, around);
          return Err("worker: ledger wait exceeded");
        case Polled(result, recorded, around) =>
          if result.Err? {
            return Err("worker: ledger poll: " + result.error);
          }
          var res := result.value;
          RecordBills(svc, fmt, tenantID, res.bills, now, recorded);
          ghost var batch := BillDeliveries(fmt, tenantID, res.bills, now, recorded);
          DeliverAppend(old(svc.outbox), done, batch);
          Regroup(batch, [], []);
          if res.terminal {
            var moved := js.Transition(tenantID, jobID, res.status, Opts(res.outputs, res.errMsg, ""), now, around);
            return if moved.Err? then Err(moved.error) else Ok(());
          }
          Regroup(done, batch, Gathered(fmt, tenantID, turns[i + 1..], now));
          done := done + batch;
      }
      Regroup(done, [], []);
      return Err("context canceled");
    }

    method Handle(item: Item, env: Env) returns (r: Result<()>)
      modifies js, svc`outbox
      ensures js.jobs == Handled(old(js.jobs), item, env, ledger).jobs
      ensures r.Ok? <==> Handled(old(js.jobs), item, env, ledger).ok
      ensures svc.outbox == Fanned(old(svc.outbox), old(js.jobs), item, env, fmt, ledger)
    {
      js.jobs := env.loaded(js.jobs);
      var j := Get(js.jobs, item.tenantID, item.jobID);
      if !env.loadOk || j.Err? {
        return Err("worker: load job");
      }
      if j.value.status.IsTerminal() {
        return Ok(());
      }
      if env.dispatch.Err? {
        var _ := js.Transition(item.tenantID, item.jobID, Failed,
                               Opts(None, env.dispatch.error, ""), env.now, env.start);
        return Err("worker: dispatch: " + env.dispatch.error);
      }
      var started := js.Transition(item.tenantID, item.jobID, Running,
                                   Opts(None, "", env.dispatch.value), env.now, env.start);
      if started.Err? {
        return Err("worker: transition running: " + started.error);
      }
      if !ledger {
        return Ok(());
      }
      r := FollowTask(item.tenantID, item.jobID, env.turns, env.now);
    }

    // Others use the queue, then the item is acknowledged or handed back.
    method Close(item: Item, ack: bool, env: Env) returns (r: Result<()>)
      requires q.Valid() && KeepsKeys(env.queued)
      modifies q
      ensures q.Valid()
      ensures q.rows == Closed(old(q.rows), item.id, ack, env)
      ensures r.Ok? <==> env.closeOk && Held(env.queued(old(q.rows)), item.id, claimToken)
    {
      q.rows := env.queued(q.rows);
      if !env.closeOk {
        return Err("queue: close");
      }
      if ack {
        r := q.Ack(item.id, claimToken);
      } else {
        r := q.Nack(item.id, claimToken);
      }
    }

    function Closed(rows: seq<Item>, id: string, ack: bool, env: Env): seq<Item> {
      var mid := env.queued(rows);
      if !env.closeOk then mid else if ack then Removed(mid, id, claimToken) else Released(mid, id, claimToken)
    }

    // What a tick does with a claimed item.
    method Serve(item: Item, env: Env) returns (r: Result<()>)
      requires q.Valid() && KeepsKeys(env.queued)
      modifies q, js, svc`outbox
      ensures q.Valid()
      ensures Served(item, old(q.rows), old(js.jobs), old(svc.outbox), env, q.rows, js.jobs, svc.outbox, r.Ok?)
    {
      var handled := Handle(item, env);
      var closed := Close(item, handled.Ok?, env);
      r := if handled.Err? then handled else closed;
    }

    // The queue, the jobs table and the outbox after this item, claimed among these rows.
    ghost predicate Served(it: Item, rows: seq<Item>, t: Table, outbox: seq<Row>, env: Env,
                           rows': seq<Item>, t': Table, outbox': seq<Row>, ok: bool)
    {
      var e := Handled(t, it, env, ledger);
      && t' == e.jobs && outbox' == Fanned(outbox, t, it, env, fmt, ledger)
      && rows' == Closed(rows, it.id, e.ok, env)
      && (ok <==> e.ok && env.closeOk && Held(env.queued(rows), it.id, claimToken))
    }

    predicate GetsItem(rows: seq<Item>, env: Env) {
      env.claimOk && !NoneEligible(rows, env.readAt - claimLease)
    }

    // A tick claims the oldest eligible item and handles it; the row goes if that returned no error
    // and the worker still holds it, and otherwise comes back unclaimed if the worker still holds it.
    method Tick(env: Env) returns (r: Result<()>)
      requires q.Valid() && claimToken != "" && KeepsKeys(env.queued)
      modifies q, js, svc`outbox
      ensures q.Valid()
      ensures !GetsItem(old(q.rows), env) ==>
        r.Err? && q.rows == old(q.rows) && js.jobs == old(js.jobs) && svc.outbox == old(svc.outbox)
      ensures GetsItem(old(q.rows), env) ==>
        exists i :: Ticked(old(q.rows), old(js.jobs), old(svc.outbox), i, env, q.rows, js.jobs, svc.outbox, r.Ok?)
    {
      var item := q.Dequeue(claimToken, env.readAt, env.claimAt, claimLease, env.claimOk, env.fetchOk);
      ghost var i := 0;
      if GetsItem(old(q.rows), env) {
        i :| Oldest(old(q.rows), i, env.readAt - claimLease)
          && Queue.Claims(old(q.rows), i, claimToken, env.claimAt, q.rows, item);
      }
      if item.Err? {
        assert GetsItem(old(q.rows), env) ==>
          Ticked(old(q.rows), old(js.jobs), old(svc.outbox), i, env, q.rows, js.jobs, svc.outbox, false);
        return Err(item.error);
      }
      r := Serve(item.value, env);
      assert Ticked(old(q.rows), old(js.jobs), old(svc.outbox), i, env, q.rows, js.jobs, svc.outbox, r.Ok?);
    }

    // From row i claimed: the queue, the jobs table and the outbox after the tick. A claim whose
    // read-back fails is left to its lease.
    ghost predicate Ticked(rows: seq<Item>, t: Table, outbox: seq<Row>, i: nat, env: Env,
                           rows': seq<Item>, t': Table, outbox': seq<Row>, ok: bool)
    {
      Oldest(rows, i, env.readAt - claimLease) &&
      var it := Taken(rows[i], claimToken, env.claimAt);
      var claimed := Claimed(rows, it.id, claimToken, env.claimAt);
      if env.fetchOk then Served(it, claimed, t, outbox, env, rows', t', outbox', ok)
      else rows' == claimed && t' == t && outbox' == outbox && !ok
    }
  }
}
