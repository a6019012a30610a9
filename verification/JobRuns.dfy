// Any number of callers of Transition, each split into its read and its guarded UPDATE.
module JobRuns {
  import opened Jobs

  // A caller between its read and its UPDATE.
  datatype Ticket = Ticket(tenantID: string, id: string, expected: Status, to: Status, opts: Opts)

  datatype Sys = Sys(jobs: Table, tickets: map<int, Ticket>)

  datatype Step =
    | Insert(job: Job)
    | Read(caller: int, tenantID: string, id: string, to: Status, opts: Opts)
    | Update(caller: int, now: int)
    | GiveUp(caller: int)

  const START: Sys := Sys(map[], map[])

  function Do(s: Sys, step: Step): Sys {
    match step
    case Insert(j) => if j.status == Submitted && j.id !in s.jobs then s.(jobs := s.jobs[j.id := j]) else s
    case Read(c, tenantID, id, to, opts) =>
      var current := ReadFor(s.jobs, tenantID, id, to);
      if current.Ok? then s.(tickets := s.tickets[c := Ticket(tenantID, id, current.value.status, to, opts)])
      else s.(tickets := s.tickets - {c})
    case Update(c, now) =>
      if c in s.tickets then
        var t := s.tickets[c];
        Sys(Swap(s.jobs, t.tenantID, t.id, t.expected, t.to, t.opts, now), s.tickets - {c})
      else s
    case GiveUp(c) => s.(tickets := s.tickets - {c})
  }

  function Run(s: Sys, steps: seq<Step>): Sys {
    if steps == [] then s else Do(Run(s, steps[..|steps| - 1]), steps[|steps| - 1])
  }

  // The tables a run goes through, the empty one first.
  function Tables(steps: seq<Step>): (h: seq<Table>)
    ensures |h| == |steps| + 1
  {
    if steps == [] then [START.jobs] else Tables(steps[..|steps| - 1]) + [Run(START, steps).jobs]
  }

  predicate TicketsOk(s: Sys) {
    forall c :: c in s.tickets ==> Allowed(s.tickets[c].expected, s.tickets[c].to)
  }

  lemma DoEvolves(s: Sys, step: Step)
    requires TicketsOk(s)
    ensures Evolves(s.jobs, Do(s, step).jobs) && TicketsOk(Do(s, step))
  {
    if step.Update? && step.caller in s.tickets {
      var t := s.tickets[step.caller];
      SwapEvolves(s.jobs, t.tenantID, t.id, t.expected, t.to, t.opts, step.now);
    }
  }

  // Whatever the interleaving, the table follows allowed edges only.
  lemma {:induction false} RunIsHistory(steps: seq<Step>)
    ensures TicketsOk(Run(START, steps)) && History(Tables(steps))
    ensures Tables(steps)[|steps|] == Run(START, steps).jobs
  {
    if steps != [] {
      var n := |steps| - 1;
      RunIsHistory(steps[..n]);
      DoEvolves(Run(START, steps[..n]), steps[n]);
      var h := Tables(steps);
      assert forall k :: 0 <= k <= n ==> h[k] == Tables(steps[..n])[k];
      forall k | 0 <= k < |h| - 1 ensures Evolves(h[k], h[k + 1]) {
        if k < n {
          assert Evolves(Tables(steps[..n])[k], Tables(steps[..n])[k + 1]);
        }
      }
    }
  }

  // At most three changes and one terminal write, in every run.
  lemma LifecycleHolds(steps: seq<Step>, id: string)
    requires id in Run(START, steps).jobs
    ensures Changes(Tables(steps), id) <= 3
    ensures TerminalWrites(Tables(steps), id) == if Run(START, steps).jobs[id].status.IsTerminal() then 1 else 0
  {
    RunIsHistory(steps);
    assert Tables(steps)[|Tables(steps)| - 1] == Run(START, steps).jobs;
    AtMostThreeChanges(Tables(steps), id);
  }

  // The status, outputs and error of a terminal job are final.
  lemma TerminalStays(steps: seq<Step>, k: nat, m: nat, id: string)
    requires k <= m <= |steps| && id in Tables(steps)[k] && Tables(steps)[k][id].status.IsTerminal()
    ensures id in Tables(steps)[m] && Tables(steps)[m][id] == Tables(steps)[k][id]
  {
    RunIsHistory(steps);
    TerminalIsFinal(Tables(steps), id, k, m);
  }

  // ---------------------------------------------------------------- racing callers

  // This caller's UPDATE would apply now.
  predicate Wins(s: Sys, caller: int) {
    caller in s.tickets &&
    var t := s.tickets[caller];
    Hits(s.jobs, t.tenantID, t.id, t.expected)
  }

  // An UPDATE that applies to this job on the strength of having read this status.
  predicate Leaves(s: Sys, step: Step, id: string, from: Status) {
    step.Update? && Wins(s, step.caller) && s.tickets[step.caller].id == id && s.tickets[step.caller].expected == from
  }

  function WinCount(steps: seq<Step>, id: string, from: Status): nat {
    if steps == [] then 0
    else
      var n := |steps| - 1;
      WinCount(steps[..n], id, from) + if Leaves(Run(START, steps[..n]), steps[n], id, from) then 1 else 0
  }

  // The job has had this status, now or before.
  predicate Been(steps: seq<Step>, id: string, from: Status) {
    steps != [] && (Been(steps[..|steps| - 1], id, from) || StatusIs(Run(START, steps), id, from))
  }

  predicate StatusIs(s: Sys, id: string, status: Status) {
    id in s.jobs && s.jobs[id].status == status
  }

  lemma RunSnoc(steps: seq<Step>, step: Step)
    ensures Run(START, steps + [step]) == Do(Run(START, steps), step)
  {
    assert (steps + [step])[..|steps|] == steps;
  }

  lemma BeenSnoc(steps: seq<Step>, step: Step, id: string, from: Status)
    ensures Been(steps + [step], id, from) <==> Been(steps, id, from) || StatusIs(Do(Run(START, steps), step), id, from)
  {
    RunSnoc(steps, step);
    assert (steps + [step])[..|steps|] == steps;
  }

  lemma CountSnoc(steps: seq<Step>, step: Step, id: string, from: Status)
    ensures WinCount(steps + [step], id, from) ==
      WinCount(steps, id, from) + if Leaves(Run(START, steps), step, id, from) then 1 else 0
  {
    assert (steps + [step])[..|steps|] == steps;
  }

  // A status that has been left is not found again: the job has moved on from it.
  predicate MovedOn(steps: seq<Step>, id: string, from: Status) {
    var s := Run(START, steps);
    && (StatusIs(s, id, from) ==> Been(steps, id, from))
    && (Been(steps, id, from) ==> id in s.jobs && (s.jobs[id].status == from || Rank(s.jobs[id].status) > Rank(from)))
  }

  predicate CountsOk(steps: seq<Step>, id: string, from: Status) {
    && MovedOn(steps, id, from)
    && WinCount(steps, id, from) == if Been(steps, id, from) && !StatusIs(Run(START, steps), id, from) then 1 else 0
  }

  lemma MovedOnStep(steps: seq<Step>, step: Step, id: string, from: Status)
    requires MovedOn(steps, id, from) && TicketsOk(Run(START, steps))
    ensures MovedOn(steps + [step], id, from)
  {
    var s := Run(START, steps);
    RunSnoc(steps, step);
    BeenSnoc(steps, step, id, from);
    DoEvolves(s, step);
    if id in s.jobs {
      EdgeAdvances(s.jobs, Do(s, step).jobs, id);
    }
  }

  // What one step does to the status of a job: it leaves a status exactly when an UPDATE that read it applies.
  lemma LeavesIff(s: Sys, step: Step, id: string, from: Status)
    requires TicketsOk(s) && StatusIs(s, id, from)
    ensures Leaves(s, step, id, from) <==> !StatusIs(Do(s, step), id, from)
  {
  }

  lemma CountsStep(steps: seq<Step>, step: Step, id: string, from: Status)
    requires CountsOk(steps, id, from) && TicketsOk(Run(START, steps))
    ensures CountsOk(steps + [step], id, from)
  {
    var s := Run(START, steps);
    MovedOnStep(steps, step, id, from);
    CountSnoc(steps, step, id, from);
    BeenSnoc(steps, step, id, from);
    RunSnoc(steps, step);
    DoEvolves(s, step);
    if StatusIs(s, id, from) {
      LeavesIff(s, step, id, from);
    } else if Been(steps, id, from) {
      EdgeAdvances(s.jobs, Do(s, step).jobs, id);
    }
  }

  // Every status that a job has had and left was left by exactly one UPDATE: whatever comes in
  // between and whatever the clock, at most one of the callers that read the same status succeeds.
  lemma {:induction false} EachStatusLeftOnce(steps: seq<Step>, id: string, from: Status)
    ensures CountsOk(steps, id, from)
  {
    if steps != [] {
      var before, step := steps[..|steps| - 1], steps[|steps| - 1];
      assert before + [step] == steps;
      EachStatusLeftOnce(before, id, from);
      RunIsHistory(before);
      CountsStep(before, step, id, from);
    }
  }

  // A ticket was read: its job exists for that tenant and has had that status.
  predicate TicketRead(steps: seq<Step>, c: int) {
    var s := Run(START, steps);
    c in s.tickets ==>
      var t := s.tickets[c];
      t.id in s.jobs && s.jobs[t.id].tenantID == t.tenantID && Been(steps, t.id, t.expected)
  }

  lemma TicketReadStep(steps: seq<Step>, step: Step, c: int)
    requires TicketRead(steps, c) && TicketsOk(Run(START, steps))
    requires forall id, from :: MovedOn(steps, id, from)
    ensures TicketRead(steps + [step], c)
  {
    var s := Run(START, steps);
    RunSnoc(steps, step);
    DoEvolves(s, step);
    var u := Do(s, step);
    if c in u.tickets {
      BeenSnoc(steps, step, u.tickets[c].id, u.tickets[c].expected);
    }
  }

  lemma {:induction false} TicketsAreRead(steps: seq<Step>, c: int)
    ensures TicketRead(steps, c)
  {
    if steps != [] {
      var before, step := steps[..|steps| - 1], steps[|steps| - 1];
      assert before + [step] == steps;
      TicketsAreRead(before, c);
      RunIsHistory(before);
      forall id, from ensures MovedOn(before, id, from) {
        EachStatusLeftOnce(before, id, from);
      }
      TicketReadStep(before, step, c);
    }
  }

  // A caller's UPDATE applies if and only if no other UPDATE has applied on the strength of the same
  // read: the first of the racers wins and every later one misses, whatever happens in between.
  lemma FirstUpdateWins(steps: seq<Step>, c: int)
    requires c in Run(START, steps).tickets
    ensures var t := Run(START, steps).tickets[c];
      Wins(Run(START, steps), c) <==> WinCount(steps, t.id, t.expected) == 0
  {
    var t := Run(START, steps).tickets[c];
    TicketsAreRead(steps, c);
    EachStatusLeftOnce(steps, t.id, t.expected);
  }
}
