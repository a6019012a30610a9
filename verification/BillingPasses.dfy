// What whole reconcile passes do: a pass is a per-row map, it is a run of the step machine, and
// finitely many of them settle every row.
module BillingPasses {
  import opened Basics
  import opened Billing
  import opened BillingRuns

  // ---------------------------------------------------------------- poison-row isolation

  // One row after one pass, as a function of that row and of what happens to that row alone.
  function AfterPass(d: Option<Dispatcher>, threshold: int, row: Row, o: Outcome): Row {
    if !row.Waiting() || !o.writeOk then row
    else Settled(row, Verdict(PlanFor(d, row.ev), o.fault), threshold, o.now)
  }

  // The first n rows have been through the pass; the rest are untouched.
  predicate Mapped(d: Option<Dispatcher>, threshold: int, env: int -> Outcome, outbox: seq<Row>, after: seq<Row>,
                   n: nat) {
    && |after| == |outbox| && n <= |outbox|
    && (forall i :: 0 <= i < n ==> after[i] == AfterPass(d, threshold, outbox[i], env(i + 1)))
    && (forall i :: n <= i < |outbox| ==> after[i] == outbox[i])
  }

  lemma FlushRowTouchesOneRow(b: Books, d: Option<Dispatcher>, threshold: int, p: Row, o: Outcome)
    requires Dense(b.outbox) && Current(b.outbox, p)
    ensures FlushRow(b, d, threshold, p, o).outbox == b.outbox[p.id - 1 := AfterPass(d, threshold, p, o)]
  {
  }

  lemma MidIsDense(d: Option<Dispatcher>, threshold: int, env: int -> Outcome, outbox: seq<Row>, mid: seq<Row>, n: nat)
    requires Dense(outbox) && Mapped(d, threshold, env, outbox, mid, n)
    ensures Dense(mid)
  {
    forall i | 0 <= i < |mid| ensures mid[i].id == i + 1 {
      assert i < n ==> mid[i] == AfterPass(d, threshold, outbox[i], env(i + 1));
    }
  }

  lemma MappedStep(d: Option<Dispatcher>, threshold: int, env: int -> Outcome, outbox: seq<Row>, mid: Books, n: nat)
    requires n < |outbox| && Dense(outbox) && Mapped(d, threshold, env, outbox, mid.outbox, n) && outbox[n].Waiting()
    ensures Mapped(d, threshold, env, outbox, FlushRow(mid, d, threshold, outbox[n], env(n + 1)).outbox, n + 1)
  {
    MidIsDense(d, threshold, env, outbox, mid.outbox, n);
    FlushRowTouchesOneRow(mid, d, threshold, outbox[n], env(n + 1));
  }

  lemma PendingSnoc(outbox: seq<Row>, n: nat)
    requires n < |outbox|
    ensures Pending(outbox[..n + 1]) == Pending(outbox[..n]) + if outbox[n].Waiting() then [outbox[n]] else []
  {
    assert outbox[..n + 1][..n] == outbox[..n];
  }

  // Flushing the rows in `todo` has put the first n rows through the pass.
  predicate PerRow(b: Books, d: Option<Dispatcher>, threshold: int, env: int -> Outcome, todo: seq<Row>, n: nat) {
    Mapped(d, threshold, env, b.outbox, Flush(b, d, threshold, todo, env).outbox, n)
  }

  lemma NextWaiting(b: Books, d: Option<Dispatcher>, threshold: int, env: int -> Outcome, todo: seq<Row>, n: nat)
    requires Dense(b.outbox) && n < |b.outbox| && PerRow(b, d, threshold, env, todo, n) && b.outbox[n].Waiting()
    ensures PerRow(b, d, threshold, env, todo + [b.outbox[n]], n + 1)
  {
    var row, mid := b.outbox[n], Flush(b, d, threshold, todo, env);
    assert row.id == n + 1;
    assert Flush(b, d, threshold, todo + [row], env) == FlushRow(mid, d, threshold, row, env(n + 1)) by {
      FlushSnoc(b, d, threshold, todo, row, env);
    }
    MappedStep(d, threshold, env, b.outbox, mid, n);
  }

  lemma NextSettled(b: Books, d: Option<Dispatcher>, threshold: int, env: int -> Outcome, todo: seq<Row>, n: nat)
    requires n < |b.outbox| && PerRow(b, d, threshold, env, todo, n) && !b.outbox[n].Waiting()
    ensures PerRow(b, d, threshold, env, todo, n + 1)
  {
  }

  // A pass is that map over the table: no row's outcome reaches another row.
  lemma {:induction false} PassIsPerRow(b: Books, d: Option<Dispatcher>, threshold: int, env: int -> Outcome, n: nat)
    requires Dense(b.outbox) && n <= |b.outbox|
    ensures PerRow(b, d, threshold, env, Pending(b.outbox[..n]), n)
  {
    if n == 0 {
      assert b.outbox[..0] == [];
    } else {
      PassIsPerRow(b, d, threshold, env, n - 1);
      var before := Pending(b.outbox[..n - 1]);
      PendingSnoc(b.outbox, n - 1);
      if b.outbox[n - 1].Waiting() {
        NextWaiting(b, d, threshold, env, before, n - 1);
      } else {
        assert before + [] == before;
        NextSettled(b, d, threshold, env, before, n - 1);
      }
    }
  }

  lemma WholePassIsPerRow(b: Books, d: Option<Dispatcher>, threshold: int, env: int -> Outcome)
    requires Dense(b.outbox)
    ensures var after := Flush(b, d, threshold, Pending(b.outbox), env).outbox;
      Dense(after) && Mapped(d, threshold, env, b.outbox, after, |b.outbox|)
  {
    assert b.outbox[..|b.outbox|] == b.outbox;
    PassIsPerRow(b, d, threshold, env, |b.outbox|);
    var after := Flush(b, d, threshold, Pending(b.outbox), env).outbox;
    forall i | 0 <= i < |after| ensures after[i].id == i + 1 {
      assert after[i] == AfterPass(d, threshold, b.outbox[i], env(i + 1));
    }
  }

  lemma {:induction false} CutIsOfPrefix(outbox: seq<Row>, n: nat) returns (m: nat)
    ensures m <= |outbox| && Cut(Pending(outbox), n) == Pending(outbox[..m])
  {
    if |Pending(outbox)| <= n {
      assert outbox[..|outbox|] == outbox;
      m := |outbox|;
    } else {
      var front := outbox[..|outbox| - 1];
      m := CutIsOfPrefix(front, n);
      assert front[..m] == outbox[..m];
    }
  }

  // A pass whose reading broke off is that map over the rows up to some point.
  lemma CutPassIsPerRow(b: Books, d: Option<Dispatcher>, threshold: int, env: int -> Outcome, n: nat)
    requires Dense(b.outbox)
    ensures exists m: nat :: PerRow(b, d, threshold, env, Cut(Pending(b.outbox), n), m)
  {
    var m := CutIsOfPrefix(b.outbox, n);
    PassIsPerRow(b, d, threshold, env, m);
  }

  function BilledRows(outbox: seq<Row>): nat {
    if outbox == [] then 0
    else BilledRows(outbox[..|outbox| - 1]) + if outbox[|outbox| - 1].Billed() then 1 else 0
  }

  // The count a pass returns is the number of rows that it turned from unbilled to billed.
  lemma {:induction false} CountIsNewlyBilled(d: Option<Dispatcher>, threshold: int, env: int -> Outcome,
                                             outbox: seq<Row>, after: seq<Row>)
    requires Dense(outbox) && Mapped(d, threshold, env, outbox, after, |outbox|)
    ensures BilledRows(after) == BilledRows(outbox) + EmittedCount(d, Pending(outbox), env)
  {
    if outbox != [] {
      var n := |outbox| - 1;
      CountIsNewlyBilled(d, threshold, env, outbox[..n], after[..n]);
      BilledAfter(d, threshold, outbox[n], env(n + 1));
      if outbox[n].Waiting() {
        CountSnoc(d, Pending(outbox[..n]), outbox[n], env);
      } else {
        assert Pending(outbox[..n]) + [] == Pending(outbox[..n]);
      }
    }
  }

  lemma CountSnoc(d: Option<Dispatcher>, todo: seq<Row>, p: Row, env: int -> Outcome)
    ensures EmittedCount(d, todo + [p], env) == EmittedCount(d, todo, env) + if Counts(d, p, env(p.id)) then 1 else 0
  {
    assert (todo + [p])[..|todo|] == todo;
  }

  lemma BilledAfter(d: Option<Dispatcher>, threshold: int, row: Row, o: Outcome)
    ensures AfterPass(d, threshold, row, o).Billed() <==> row.Billed() || (row.Waiting() && Counts(d, row, o))
  {
  }

  lemma PassCountsNewlyBilled(b: Books, d: Option<Dispatcher>, threshold: int, env: int -> Outcome)
    requires Dense(b.outbox)
    ensures BilledRows(Flush(b, d, threshold, Pending(b.outbox), env).outbox)
         == BilledRows(b.outbox) + EmittedCount(d, Pending(b.outbox), env)
  {
    WholePassIsPerRow(b, d, threshold, env);
    CountIsNewlyBilled(d, threshold, env, b.outbox, Flush(b, d, threshold, Pending(b.outbox), env).outbox);
  }

  // One call that reaches the provider.
  datatype Call = UsageCall(usage: UsageRecord) | OneShotCall(oneShot: OneShotRecord)

  function CallOf(p: Row, plan: Result<DispatchPlan>, fault: Fault): Option<Call> {
    if plan.Err? || fault.LostBefore? then None
    else match KindOf(plan.value.kind)
      case Skip => None
      case OneShot => Some(OneShotCall(OneShotFor(p.ev, plan.value)))
      case Metered => Some(UsageCall(UsageFor(p.ev, plan.value)))
  }

  // The calls of a pass, in the order of its rows.
  function Calls(d: Option<Dispatcher>, todo: seq<Row>, env: int -> Outcome): seq<Call> {
    if todo == [] then []
    else
      var p := todo[|todo| - 1];
      var call := CallOf(p, PlanFor(d, p.ev), env(p.id).fault);
      Calls(d, todo[..|todo| - 1], env) + if call.None? then [] else [call.value]
  }

  // The provider's two logs.
  datatype Logs = Logs(usage: seq<UsageRecord>, oneShots: seq<OneShotRecord>)

  function LogsOf(b: Books): Logs { Logs(b.usage, b.oneShots) }

  function Received(logs: Logs, call: Call): Logs {
    match call
    case UsageCall(r) => logs.(usage := AddUsage(logs.usage, r))
    case OneShotCall(r) => logs.(oneShots := AddOneShot(logs.oneShots, r))
  }

  function ReceivedAll(logs: Logs, calls: seq<Call>): Logs {
    if calls == [] then logs else Received(ReceivedAll(logs, calls[..|calls| - 1]), calls[|calls| - 1])
  }

  lemma RowCall(b: Books, d: Option<Dispatcher>, threshold: int, p: Row, o: Outcome)
    ensures var call := CallOf(p, PlanFor(d, p.ev), o.fault);
      LogsOf(FlushRow(b, d, threshold, p, o)) == if call.None? then LogsOf(b) else Received(LogsOf(b), call.value)
  {
  }

  lemma ReceivedSnoc(logs: Logs, calls: seq<Call>, call: Call)
    ensures ReceivedAll(logs, calls + [call]) == Received(ReceivedAll(logs, calls), call)
  {
    assert (calls + [call])[..|calls|] == calls;
  }

  // The provider's logs after a pass are the old logs plus those calls, deduplicated, in that order.
  lemma {:induction false} CallsInOrder(b: Books, d: Option<Dispatcher>, threshold: int, todo: seq<Row>,
                                        env: int -> Outcome)
    ensures LogsOf(Flush(b, d, threshold, todo, env)) == ReceivedAll(LogsOf(b), Calls(d, todo, env))
  {
    if todo != [] {
      var n := |todo| - 1;
      var p, before := todo[n], Calls(d, todo[..n], env);
      CallsInOrder(b, d, threshold, todo[..n], env);
      FlushSnoc(b, d, threshold, todo[..n], p, env);
      assert todo[..n] + [p] == todo;
      RowCall(Flush(b, d, threshold, todo[..n], env), d, threshold, p, env(p.id));
      var call := CallOf(p, PlanFor(d, p.ev), env(p.id).fault);
      if call.Some? {
        ReceivedSnoc(LogsOf(b), before, call.value);
      } else {
        assert before + [] == before;
      }
    }
  }

  // A pass visits its rows, and so calls the provider, in ascending id order.
  lemma CallsFollowIds(b: Books, d: Option<Dispatcher>, threshold: int, env: int -> Outcome)
    requires Dense(b.outbox)
    ensures var todo := Pending(b.outbox);
      && LogsOf(Flush(b, d, threshold, todo, env)) == ReceivedAll(LogsOf(b), Calls(d, todo, env))
      && forall j, k :: 0 <= j < k < |todo| ==> todo[j].id < todo[k].id
  {
    PendingIsSnapshot(b.outbox);
    CallsInOrder(b, d, threshold, Pending(b.outbox), env);
  }

  // ---------------------------------------------------------------- a pass is a run

  // The steps one undisturbed pass takes over these rows.
  function RowSteps(d: Option<Dispatcher>, todo: seq<Row>, env: int -> Outcome): seq<Step> {
    if todo == [] then []
    else
      var p := todo[|todo| - 1];
      RowSteps(d, todo[..|todo| - 1], env)
      + [Attempt(PlanFor(d, p.ev), env(p.id).fault), Write(env(p.id).writeOk, env(p.id).now)]
  }

  function PassSteps(d: Option<Dispatcher>, threshold: int, n: nat, todo: seq<Row>, env: int -> Outcome): seq<Step> {
    [Select(threshold, n)] + RowSteps(d, todo, env) + [Return]
  }

  lemma RunAttempt(s: Sys, steps: seq<Step>, f: Books, threshold: int, todo: seq<Row>, plan: Result<DispatchPlan>,
                   fault: Fault)
    requires todo != [] && Run(s, steps) == Sys(f, Open(threshold, todo))
    ensures Run(s, steps + [Attempt(plan, fault)])
         == Sys(Emit(f, todo[0].ev, plan, fault), Settling(threshold, todo[0], todo[1..], Verdict(plan, fault)))
  {
    RunSnoc(s, steps, Attempt(plan, fault));
  }

  lemma RunWrite(s: Sys, steps: seq<Step>, f: Books, threshold: int, p: Row, rest: seq<Row>, error: Option<string>,
                 ok: bool, at: int)
    requires Run(s, steps) == Sys(f, Settling(threshold, p, rest, error))
    ensures Run(s, steps + [Write(ok, at)])
         == Sys(if ok then f.(outbox := Updated(f.outbox, Settled(p, error, threshold, at))) else f,
                Open(threshold, rest))
  {
    RunSnoc(s, steps, Write(ok, at));
  }

  // The attempt of the next row, then its UPDATE, under any plan.
  lemma RunPlanned(s: Sys, steps: seq<Step>, f: Books, threshold: int, p: Row, rest: seq<Row>,
                   plan: Result<DispatchPlan>, o: Outcome)
    requires Run(s, steps) == Sys(f, Open(threshold, [p] + rest))
    ensures var e, error := Emit(f, p.ev, plan, o.fault), Verdict(plan, o.fault);
      Run(s, steps + [Attempt(plan, o.fault)] + [Write(o.writeOk, o.now)])
         == Sys(if o.writeOk then e.(outbox := Updated(e.outbox, Settled(p, error, threshold, o.now))) else e,
                Open(threshold, rest))
  {
    TailOf(p, rest);
    RunAttempt(s, steps, f, threshold, [p] + rest, plan, o.fault);
    RunWrite(s, steps + [Attempt(plan, o.fault)], Emit(f, p.ev, plan, o.fault), threshold, p, rest,
             Verdict(plan, o.fault), o.writeOk, o.now);
  }

  lemma EmitKeepsOutbox(b: Books, ev: PendingEvent, plan: Result<DispatchPlan>, fault: Fault)
    ensures Emit(b, ev, plan, fault).outbox == b.outbox
  {
  }

  lemma RunRow(s: Sys, steps: seq<Step>, f: Books, d: Option<Dispatcher>, threshold: int, p: Row, rest: seq<Row>,
               o: Outcome)
    requires Run(s, steps) == Sys(f, Open(threshold, [p] + rest))
    ensures Run(s, steps + [Attempt(PlanFor(d, p.ev), o.fault), Write(o.writeOk, o.now)])
         == Sys(FlushRow(f, d, threshold, p, o), Open(threshold, rest))
  {
    var plan := PlanFor(d, p.ev);
    ConcatTwo(steps, Attempt(plan, o.fault), Write(o.writeOk, o.now));
    RunPlanned(s, steps, f, threshold, p, rest, plan, o);
    EmitKeepsOutbox(f, p.ev, plan, o.fault);
  }

  lemma RowStepsSnoc(d: Option<Dispatcher>, todo: seq<Row>, p: Row, env: int -> Outcome)
    ensures RowSteps(d, todo + [p], env) == RowSteps(d, todo, env)
      + [Attempt(PlanFor(d, p.ev), env(p.id).fault), Write(env(p.id).writeOk, env(p.id).now)]
  {
    assert (todo + [p])[..|todo|] == todo;
  }

  // From a pass that has selected `done + todo`, the steps of the rows in `done` flush those.
  predicate Flushes(s: Sys, b: Books, d: Option<Dispatcher>, threshold: int, env: int -> Outcome,
                    first: seq<Step>, done: seq<Row>, todo: seq<Row>)
  {
    Run(s, first + RowSteps(d, done, env)) == Sys(Flush(b, d, threshold, done, env), Open(threshold, todo))
  }

  lemma FlushesNone(s: Sys, b: Books, d: Option<Dispatcher>, threshold: int, env: int -> Outcome, first: seq<Step>,
                    todo: seq<Row>)
    requires Run(s, first) == Sys(b, Open(threshold, todo))
    ensures Flushes(s, b, d, threshold, env, first, [], todo)
  {
    assert first + [] == first;
  }

  lemma FlushesOneMore(s: Sys, b: Books, d: Option<Dispatcher>, threshold: int, env: int -> Outcome,
                       first: seq<Step>, before: seq<Row>, p: Row, todo: seq<Row>)
    requires Flushes(s, b, d, threshold, env, first, before, [p] + todo)
    ensures Flushes(s, b, d, threshold, env, first, before + [p], todo)
  {
    var steps := first + RowSteps(d, before, env);
    var last := [Attempt(PlanFor(d, p.ev), env(p.id).fault), Write(env(p.id).writeOk, env(p.id).now)];
    RunRow(s, steps, Flush(b, d, threshold, before, env), d, threshold, p, todo, env(p.id));
    assert first + RowSteps(d, before + [p], env) == steps + last by {
      RowStepsSnoc(d, before, p, env);
    }
    FlushSnoc(b, d, threshold, before, p, env);
  }

  lemma {:induction false} RowStepsFlush(s: Sys, b: Books, d: Option<Dispatcher>, threshold: int, env: int -> Outcome,
                                         first: seq<Step>, done: seq<Row>, todo: seq<Row>)
    requires Run(s, first) == Sys(b, Open(threshold, done + todo))
    ensures Flushes(s, b, d, threshold, env, first, done, todo)
    decreases |done|
  {
    if done == [] {
      assert done + todo == todo;
      FlushesNone(s, b, d, threshold, env, first, todo);
    } else {
      var before, p := done[..|done| - 1], done[|done| - 1];
      assert before + [p] == done && before + ([p] + todo) == done + todo;
      RowStepsFlush(s, b, d, threshold, env, first, before, [p] + todo);
      FlushesOneMore(s, b, d, threshold, env, first, before, p, todo);
    }
  }

  lemma RunSelect(b: Books, threshold: int, n: nat)
    ensures Run(Sys(b, Idle), [Select(threshold, n)]) == Sys(b, Open(threshold, Cut(Pending(b.outbox), n) + []))
  {
    var select := Select(threshold, n);
    RunSnoc(Sys(b, Idle), [], select);
    assert [] + [select] == [select];
    assert Cut(Pending(b.outbox), n) + [] == Cut(Pending(b.outbox), n);
  }

  // Reconcile, as one call, is a run of the step machine, however far its reading gets: what holds
  // of every run holds of it.
  lemma PassIsARun(b: Books, d: Option<Dispatcher>, threshold: int, n: nat, env: int -> Outcome)
    ensures var todo := Cut(Pending(b.outbox), n);
      Run(Sys(b, Idle), PassSteps(d, threshold, n, todo, env)) == Sys(Flush(b, d, threshold, todo, env), Idle)
  {
    var todo, select := Cut(Pending(b.outbox), n), Select(threshold, n);
    RunSelect(b, threshold, n);
    RowStepsFlush(Sys(b, Idle), b, d, threshold, env, [select], todo, []);
    RunSnoc(Sys(b, Idle), [select] + RowSteps(d, todo, env), Return);
  }

  // ---------------------------------------------------------------- dead letters

  predicate LetterOk(threshold: int, row: Row) {
    && !(row.Billed() && row.Dead()) && 0 <= row.failureCount <= threshold
    && (row.Dead() <==> row.failureCount == threshold)
  }

  predicate LettersOk(threshold: int, outbox: seq<Row>) {
    forall i :: 0 <= i < |outbox| ==> LetterOk(threshold, outbox[i])
  }

  predicate SameThreshold(threshold: int, pass: Pass) {
    match pass
    case Idle => true
    case Open(t, _) => t == threshold
    case Settling(t, _, _, _) => t == threshold
  }

  predicate ConstantThreshold(threshold: int, steps: seq<Step>) {
    forall k :: 0 <= k < |steps| && steps[k].Select? ==> steps[k].threshold == threshold
  }

  lemma SettledLetter(threshold: int, p: Row, error: Option<string>, now: int)
    requires LetterOk(threshold, p) && p.Waiting()
    ensures LetterOk(threshold, Settled(p, error, threshold, now))
  {
  }

  lemma LettersStep(threshold: int, s: Sys, step: Step)
    requires threshold >= 1 && Dense(s.books.outbox) && Snapshotted(s)
    && LettersOk(threshold, s.books.outbox) && SameThreshold(threshold, s.pass)
    requires step.Select? ==> step.threshold == threshold
    ensures LettersOk(threshold, Do(s, step).books.outbox) && SameThreshold(threshold, Do(s, step).pass)
  {
    match step
    case Record(ev, now, dbOk) =>
    case Select(_, _) =>
    case Attempt(_, _) =>
    case Write(ok, at) =>
      if s.pass.Settling? && ok {
        var p, row := s.pass.p, Settled(s.pass.p, s.pass.error, threshold, at);
        WriteTouchesOneRow(s.books.outbox, p, s.pass.rest, row);
        SettledLetter(threshold, p, s.pass.error, at);
      }
    case Return =>
    case Crash =>
  }

  // Under one threshold, in every run, whatever fails: no row is both billed and dead-lettered,
  // and a row is dead-lettered exactly when its failure count has reached the threshold.
  lemma {:induction false} DeadLettersAtThreshold(threshold: int, steps: seq<Step>)
    requires threshold >= 1 && ConstantThreshold(threshold, steps)
    ensures LettersOk(threshold, Run(START, steps).books.outbox)
    ensures SameThreshold(threshold, Run(START, steps).pass)
  {
    if steps != [] {
      var n := |steps| - 1;
      assert forall k :: 0 <= k < n ==> steps[..n][k] == steps[k];
      DeadLettersAtThreshold(threshold, steps[..n]);
      RunSnapshotted(steps[..n]);
      LettersStep(threshold, Run(START, steps[..n]), steps[n]);
    }
  }

  // ---------------------------------------------------------------- quiescence

  datatype PassEnv = PassEnv(dispatcher: Option<Dispatcher>, outcomes: int -> Outcome)

  function Passes(b: Books, threshold: int, envs: seq<PassEnv>): Books {
    if envs == [] then b
    else
      var before := Passes(b, threshold, envs[..|envs| - 1]);
      var last := envs[|envs| - 1];
      Flush(before, last.dispatcher, threshold, Pending(before.outbox), last.outcomes)
  }

  ghost predicate WritesSucceed(env: PassEnv) {
    forall id :: env.outcomes(id).writeOk
  }

  predicate FailedAtLeast(outbox: seq<Row>, k: nat) {
    forall i :: 0 <= i < |outbox| ==> outbox[i].Waiting() ==> outbox[i].failureCount >= k
  }

  lemma RowCounts(d: Option<Dispatcher>, threshold: int, row: Row, o: Outcome, k: nat)
    requires LetterOk(threshold, row) && (row.Waiting() ==> row.failureCount >= k) && o.writeOk
    ensures var after := AfterPass(d, threshold, row, o);
      LetterOk(threshold, after) && (after.Waiting() ==> after.failureCount >= k + 1)
  {
    if row.Waiting() {
      SettledLetter(threshold, row, Verdict(PlanFor(d, row.ev), o.fault), o.now);
    }
  }

  lemma OnePassCounts(b: Books, threshold: int, env: PassEnv, k: nat)
    requires Dense(b.outbox) && LettersOk(threshold, b.outbox) && FailedAtLeast(b.outbox, k) && WritesSucceed(env)
    ensures var o := Flush(b, env.dispatcher, threshold, Pending(b.outbox), env.outcomes).outbox;
      Dense(o) && LettersOk(threshold, o) && |o| == |b.outbox| && FailedAtLeast(o, k + 1)
  {
    var o := Flush(b, env.dispatcher, threshold, Pending(b.outbox), env.outcomes).outbox;
    WholePassIsPerRow(b, env.dispatcher, threshold, env.outcomes);
    forall i | 0 <= i < |o| ensures LetterOk(threshold, o[i]) && (o[i].Waiting() ==> o[i].failureCount >= k + 1) {
      assert o[i] == AfterPass(env.dispatcher, threshold, b.outbox[i], env.outcomes(i + 1));
      RowCounts(env.dispatcher, threshold, b.outbox[i], env.outcomes(i + 1), k);
    }
  }

  // After k passes with working writes every row is settled or has failed at least k times.
  lemma {:induction false} EachPassCounts(b: Books, threshold: int, envs: seq<PassEnv>)
    requires Dense(b.outbox) && LettersOk(threshold, b.outbox)
    requires forall k :: 0 <= k < |envs| ==> WritesSucceed(envs[k])
    ensures var o := Passes(b, threshold, envs).outbox;
      Dense(o) && LettersOk(threshold, o) && |o| == |b.outbox| && FailedAtLeast(o, |envs|)
  {
    if envs != [] {
      var n := |envs| - 1;
      EachPassCounts(b, threshold, envs[..n]);
      OnePassCounts(Passes(b, threshold, envs[..n]), threshold, envs[n], n);
    } else {
      assert forall i :: 0 <= i < |b.outbox| ==> LetterOk(threshold, b.outbox[i]);
    }
  }

  predicate AllSettled(outbox: seq<Row>) {
    forall i :: 0 <= i < |outbox| ==> outbox[i].Billed() || outbox[i].Dead()
  }

  // So from any reachable state, after any crashes and failures, at most `threshold` passes with
  // working writes settle every row, whatever the dispatcher and the backend do.
  lemma Quiesces(threshold: int, steps: seq<Step>, envs: seq<PassEnv>)
    requires threshold >= 1 && ConstantThreshold(threshold, steps)
    requires (forall k :: 0 <= k < |envs| ==> WritesSucceed(envs[k])) && |envs| >= threshold
    ensures var b := Run(START, steps).books;
      |Passes(b, threshold, envs).outbox| == |b.outbox| && AllSettled(Passes(b, threshold, envs).outbox)
  {
    var b := Run(START, steps).books;
    RunSnapshotted(steps);
    DeadLettersAtThreshold(threshold, steps);
    EachPassCounts(b, threshold, envs);
    var o := Passes(b, threshold, envs).outbox;
    assert forall i :: 0 <= i < |o| ==> LetterOk(threshold, o[i]);
  }

  predicate AllFailed(outbox: seq<Row>, k: nat) {
    forall i :: 0 <= i < |outbox| ==> outbox[i].Waiting() && outbox[i].failureCount == k
  }

  ghost predicate ProviderDown(env: PassEnv) {
    env.dispatcher.None? && forall id :: env.outcomes(id).writeOk && env.outcomes(id).fault.LostBefore?
  }

  lemma RowWhileDown(threshold: int, row: Row, o: Outcome)
    requires row.Waiting() && row.failureCount + 1 < threshold && o.writeOk && o.fault.LostBefore?
    ensures var after := AfterPass(None, threshold, row, o);
      after.Waiting() && after.failureCount == row.failureCount + 1
  {
  }

  lemma PassWhileDown(b: Books, threshold: int, env: PassEnv, k: nat)
    requires k + 1 < threshold && Dense(b.outbox) && AllFailed(b.outbox, k) && ProviderDown(env)
    ensures var o := Flush(b, env.dispatcher, threshold, Pending(b.outbox), env.outcomes).outbox;
      Dense(o) && |o| == |b.outbox| && AllFailed(o, k + 1)
  {
    WholePassIsPerRow(b, None, threshold, env.outcomes);
    var o := Flush(b, env.dispatcher, threshold, Pending(b.outbox), env.outcomes).outbox;
    forall i | 0 <= i < |o| ensures o[i].Waiting() && o[i].failureCount == k + 1 {
      assert o[i] == AfterPass(None, threshold, b.outbox[i], env.outcomes(i + 1));
      RowWhileDown(threshold, b.outbox[i], env.outcomes(i + 1));
    }
  }

  // With the provider down, any smaller number of passes leaves every fresh row waiting: the bound
  // cannot be lowered.
  lemma {:induction false} BoundIsTight(b: Books, threshold: int, envs: seq<PassEnv>)
    requires |envs| < threshold && Dense(b.outbox) && AllFailed(b.outbox, 0)
    requires forall k :: 0 <= k < |envs| ==> ProviderDown(envs[k])
    ensures var o := Passes(b, threshold, envs).outbox;
      Dense(o) && |o| == |b.outbox| && AllFailed(o, |envs|)
  {
    if envs != [] {
      var n := |envs| - 1;
      BoundIsTight(b, threshold, envs[..n]);
      PassWhileDown(Passes(b, threshold, envs[..n]), threshold, envs[n], n);
    }
  }
}
