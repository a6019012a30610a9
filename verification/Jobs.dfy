// The job lifecycle: a compare-and-set over the jobs table, and what any interleaving of its
// callers can do to one job.
module Jobs {
  import opened Basics

  // Unknown stands for a status string outside the six known ones.
  datatype Status = Submitted | Queued | Running | Succeeded | Failed | Cancelled | Unknown(name: string)
  {
    predicate IsTerminal() { this == Succeeded || this == Failed || this == Cancelled }
    predicate Valid() { !Unknown? }
  }

  predicate Allowed(from: Status, to: Status) {
    match from
    case Submitted => to == Queued || to == Cancelled || to == Failed
    case Queued => to == Running || to == Cancelled || to == Failed
    case Running => to == Succeeded || to == Failed || to == Cancelled
    case _ => false
  }

  datatype Job = Job(id: string, tenantID: string, sku: string, status: Status, outputs: Option<string>,
                     error: string, idempotencyKey: string, operatorTaskID: string, updatedAt: int)

  type Table = map<string, Job>

  // The optional columns a transition sets; None, "" leave a column alone.
  datatype Opts = Opts(outputs: Option<string>, error: string, operatorTaskID: string)

  const NO_OPTS: Opts := Opts(None, "", "")

  function Get(t: Table, tenantID: string, id: string): Result<Job> {
    if tenantID == "" then Err("jobs: empty tenant_id")
    else if id in t && t[id].tenantID == tenantID then Ok(t[id])
    else Err("jobs: not found")
  }

  // The first half of Transition: everything before the UPDATE.
  function ReadFor(t: Table, tenantID: string, id: string, to: Status): Result<Job> {
    if !to.Valid() then Err("jobs: invalid target state")
    else
      var current := Get(t, tenantID, id);
      if current.Err? then current
      else if !Allowed(current.value.status, to) then Err("jobs: invalid transition")
      else current
  }

  function Moved(j: Job, to: Status, opts: Opts, now: int): Job {
    j.(status := to, updatedAt := now,
       operatorTaskID := if opts.operatorTaskID != "" then opts.operatorTaskID else j.operatorTaskID,
       outputs := if opts.outputs.Some? then opts.outputs else j.outputs,
       error := if opts.error != "" then opts.error else j.error)
  }

  // UPDATE ... WHERE tenant_id = ? AND id = ? AND status = expected
  predicate Hits(t: Table, tenantID: string, id: string, expected: Status) {
    id in t && t[id].tenantID == tenantID && t[id].status == expected
  }

  function Swap(t: Table, tenantID: string, id: string, expected: Status, to: Status, opts: Opts, now: int): Table {
    if Hits(t, tenantID, id, expected) then t[id := Moved(t[id], to, opts, now)] else t
  }

  // The table after an undisturbed transition, which fails exactly when its read does.
  function Transitioned(t: Table, tenantID: string, id: string, to: Status, opts: Opts, now: int): Table {
    var current := ReadFor(t, tenantID, id, to);
    if current.Err? then t else Swap(t, tenantID, id, current.value.status, to, opts, now)
  }

  // What happens around one Transition: how others change the table before its read, between its read
  // and its UPDATE, and between that and its closing read, and which of the three get through.
  datatype Around = Around(before: Table -> Table, readOk: bool, between: Table -> Table, updateOk: bool,
                           after: Table -> Table, rereadOk: bool)

  // The jobs table when a call returns, and whether it returns without an error.
  datatype Effect = Effect(jobs: Table, ok: bool)

  // One Transition among other callers.
  function Attempted(t: Table, tenantID: string, id: string, to: Status, opts: Opts, now: int, a: Around): Effect {
    var found := a.before(t);
    var current := ReadFor(found, tenantID, id, to);
    if !a.readOk || current.Err? then Effect(found, false)
    else
      var mid, expected := a.between(found), current.value.status;
      if !a.updateOk || !Hits(mid, tenantID, id, expected) then Effect(mid, false)
      else
        var last := a.after(Swap(mid, tenantID, id, expected, to, opts, now));
        Effect(last, a.rereadOk && Get(last, tenantID, id).Ok?)
  }

  predicate HasKey(t: Table, tenantID: string, key: string, id: string) {
    id in t && t[id].tenantID == tenantID && t[id].idempotencyKey == key
  }

  // At most one job per tenant and idempotency key, and every job is filed under its own id.
  predicate TableOk(t: Table) {
    && (forall id :: id in t ==> t[id].id == id)
    && (forall a, b :: a in t && b in t && a != b && t[a].tenantID == t[b].tenantID && t[a].idempotencyKey != "" ==>
          t[a].idempotencyKey != t[b].idempotencyKey)
  }

  // A job is already filed under this tenant's idempotency key.
  ghost predicate KeyTaken(t: Table, tenantID: string, key: string) {
    key != "" && exists id :: HasKey(t, tenantID, key, id)
  }

  class Store {
    var jobs: Table

    constructor ()
      ensures jobs == map[] && TableOk(jobs)
    {
      jobs := map[];
    }

    // `freshID` is the random id drawn for the new row; the lookup and the INSERT may fail.
    method Submit(tenantID: string, sku: string, key: string, freshID: string, now: int, lookupOk: bool, insertOk: bool)
        returns (r: Result<Job>, created: bool)
      requires TableOk(jobs) && freshID !in jobs
      modifies this
      ensures TableOk(jobs)
      ensures r.Err? <==>
        tenantID == "" || (key != "" && !lookupOk) || (!old(KeyTaken(jobs, tenantID, key)) && !insertOk)
      ensures created <==> r.Ok? && !old(KeyTaken(jobs, tenantID, key))
      ensures created ==> r.value == Job(freshID, tenantID, sku, Submitted, None, "", key, "", now)
      ensures created ==> jobs == old(jobs)[freshID := r.value]
      ensures !created ==> jobs == old(jobs)
      ensures r.Ok? && !created ==>
        && r.value.id in jobs && r.value == jobs[r.value.id]
        && r.value.tenantID == tenantID && r.value.idempotencyKey == key != ""
    {
      if tenantID == "" {
        return Err("jobs: empty tenant_id"), false;
      }
      if key != "" {
        if !lookupOk {
          return Err("jobs: lookup"), false;
        }
        if id :| id in jobs && HasKey(jobs, tenantID, key, id) {
          return Ok(jobs[id]), false;
        }
      }
      if !insertOk {
        return Err("jobs: insert"), false;
      }
      var j := Job(freshID, tenantID, sku, Submitted, None, "", key, "", now);
      jobs := jobs[freshID := j];
      return Ok(j), true;
    }

    method Transition(tenantID: string, id: string, to: Status, opts: Opts, now: int,
                      a: Around) returns (r: Result<Job>)
      modifies this
      ensures var e := Attempted(old(jobs), tenantID, id, to, opts, now, a);
        jobs == e.jobs && (r.Ok? <==> e.ok)
      ensures r.Ok? ==> id in jobs && r.value == jobs[id] && r.value.tenantID == tenantID
      ensures a.readOk && ReadFor(a.before(old(jobs)), tenantID, id, to).Err? ==>
        r == ReadFor(a.before(old(jobs)), tenantID, id, to)
    {
      jobs := a.before(jobs);
      if !to.Valid() {
        return Err("jobs: invalid target state");
      }
      if !a.readOk {
        return Err("jobs: get");
      }
      var current := Get(jobs, tenantID, id);
      if current.Err? {
        return current;
      }
      if !Allowed(current.value.status, to) {
        return Err("jobs: invalid transition");
      }
      var expected := current.value.status;
      jobs := a.between(jobs);
      if !a.updateOk {
        return Err("jobs: update");
      }
      if !(id in jobs && jobs[id].tenantID == tenantID && jobs[id].status == expected) {
        return Err("jobs: transition lost race");
      }
      jobs := jobs[id := Moved(jobs[id], to, opts, now)];
      jobs := a.after(jobs);
      if !a.rereadOk {
        return Err("jobs: get");
      }
      return Get(jobs, tenantID, id);
    }
  }

  // ---------------------------------------------------------------- what a transition stores

  // The edges of the lifecycle: an open job moves to the next stage, or fails, or is cancelled.
  lemma AllowedIff(from: Status, to: Status)
    ensures Allowed(from, to) <==>
      && from.Valid() && !from.IsTerminal() && to.Valid()
      && (to == Failed || to == Cancelled || Rank(to) == Rank(from) + 1)
  {
  }

  // Column by column, from one row to the next.
  predicate Stores(j: Job, k: Job, to: Status, opts: Opts, now: int) {
    && k.status == to && k.updatedAt == now
    && (opts.outputs.Some? ==> k.outputs == opts.outputs) && (opts.outputs.None? ==> k.outputs == j.outputs)
    && (opts.error != "" ==> k.error == opts.error) && (opts.error == "" ==> k.error == j.error)
    && (opts.operatorTaskID != "" ==> k.operatorTaskID == opts.operatorTaskID)
    && (opts.operatorTaskID == "" ==> k.operatorTaskID == j.operatorTaskID)
    && k.id == j.id && k.tenantID == j.tenantID && k.sku == j.sku && k.idempotencyKey == j.idempotencyKey
  }

  // u is t with this one job updated.
  predicate Applies(t: Table, u: Table, id: string, to: Status, opts: Opts, now: int) {
    && u.Keys == t.Keys && id in t && Stores(t[id], u[id], to, opts, now)
    && forall other :: other in t && other != id ==> u[other] == t[other]
  }

  // The UPDATE applies exactly to the tenant's job in the expected status, and sets these columns.
  lemma SwapStores(t: Table, tenantID: string, id: string, expected: Status, to: Status, opts: Opts, now: int)
    ensures var u := Swap(t, tenantID, id, expected, to, opts, now);
      if id in t && t[id].tenantID == tenantID && t[id].status == expected then Applies(t, u, id, to, opts, now)
      else u == t
  {
  }

  // Nobody acts around the transition, and its statements get through.
  ghost predicate QuietAround(a: Around) {
    && (forall t :: a.before(t) == t && a.between(t) == t && a.after(t) == t)
    && a.readOk && a.updateOk && a.rereadOk
  }

  lemma QuietAttempt(t: Table, tenantID: string, id: string, to: Status, opts: Opts, now: int, a: Around)
    requires QuietAround(a)
    ensures Attempted(t, tenantID, id, to, opts, now, a)
         == Effect(Transitioned(t, tenantID, id, to, opts, now), ReadFor(t, tenantID, id, to).Ok?)
  {
  }

  // Undisturbed, a transition of the tenant's own job along an edge stores what it is given, and every
  // other transition leaves the table alone and fails.
  lemma QuietTransitionStores(t: Table, tenantID: string, id: string, to: Status, opts: Opts, now: int, a: Around)
    requires QuietAround(a)
    ensures var e := Attempted(t, tenantID, id, to, opts, now, a);
      if tenantID != "" && id in t && t[id].tenantID == tenantID && Allowed(t[id].status, to)
      then e.ok && Applies(t, e.jobs, id, to, opts, now)
      else !e.ok && e.jobs == t
  {
    QuietAttempt(t, tenantID, id, to, opts, now, a);
    AllowedHere(t, tenantID, id, to);
    if id in t {
      SwapStores(t, tenantID, id, t[id].status, to, opts, now);
    }
  }

  lemma AllowedHere(t: Table, tenantID: string, id: string, to: Status)
    ensures ReadFor(t, tenantID, id, to).Ok? <==>
      tenantID != "" && id in t && t[id].tenantID == tenantID && Allowed(t[id].status, to)
    ensures ReadFor(t, tenantID, id, to).Ok? ==> ReadFor(t, tenantID, id, to).value == t[id]
  {
    if id in t {
      AllowedIff(t[id].status, to);
    }
  }

  // When a transition among others succeeds, and what else it may leave behind: the table as the others
  // have it before the UPDATE, or the updated one as they have it after.
  lemma AttemptedIff(t: Table, tenantID: string, id: string, to: Status, opts: Opts, now: int, a: Around)
    ensures var e, found := Attempted(t, tenantID, id, to, opts, now, a), a.before(t);
      var mid := a.between(found);
      var may :=
        a.readOk && tenantID != "" && id in found && found[id].tenantID == tenantID && Allowed(found[id].status, to);
      var hits := may && a.updateOk && id in mid && mid[id].tenantID == tenantID && mid[id].status == found[id].status;
      && (e.ok <==> hits && a.rereadOk && id in e.jobs && e.jobs[id].tenantID == tenantID)
      && (!may ==> e.jobs == found)
      && (may && !hits ==> e.jobs == mid)
      && (hits ==> exists u :: Applies(mid, u, id, to, opts, now) && e.jobs == a.after(u))
  {
    var found := a.before(t);
    var mid := a.between(found);
    AllowedHere(found, tenantID, id, to);
    if id in found {
      SwapStores(mid, tenantID, id, found[id].status, to, opts, now);
    }
  }

  // Among others, the one change that a successful transition makes itself is that of its UPDATE.
  lemma TransitionStores(t: Table, tenantID: string, id: string, to: Status, opts: Opts, now: int, a: Around)
    requires Attempted(t, tenantID, id, to, opts, now, a).ok
    ensures var mid := a.between(a.before(t));
      && id in a.before(t) && id in mid && Allowed(a.before(t)[id].status, to)
      && mid[id].tenantID == tenantID && mid[id].status == a.before(t)[id].status
      && exists u ::
           Applies(mid, u, id, to, opts, now) && Attempted(t, tenantID, id, to, opts, now, a).jobs == a.after(u)
  {
    var mid := a.between(a.before(t));
    AllowedHere(a.before(t), tenantID, id, to);
    var expected := a.before(t)[id].status;
    SwapStores(mid, tenantID, id, expected, to, opts, now);
    assert Applies(mid, Swap(mid, tenantID, id, expected, to, opts, now), id, to, opts, now);
  }

  // ---------------------------------------------------------------- any history of the table

  predicate SameJob(a: Job, b: Job) {
    a.id == b.id && a.tenantID == b.tenantID && a.sku == b.sku && a.idempotencyKey == b.idempotencyKey
  }

  // From one table to the next, a job is untouched or follows one allowed edge; new jobs are submitted.
  predicate Evolves(a: Table, b: Table) {
    && (forall id :: id in a ==>
          id in b && (b[id] == a[id] || (SameJob(a[id], b[id]) && Allowed(a[id].status, b[id].status))))
    && (forall id :: id in b && id !in a ==> b[id].status == Submitted)
  }

  predicate History(h: seq<Table>) {
    |h| > 0 && h[0] == map[] && forall k :: 0 <= k < |h| - 1 ==> Evolves(h[k], h[k + 1])
  }

  function Rank(s: Status): nat {
    match s
    case Submitted => 0
    case Queued => 1
    case Running => 2
    case _ => 3
  }

  // How often the stored status of a job changed, and how often it became terminal.
  function Changes(h: seq<Table>, id: string): nat {
    if |h| < 2 then 0
    else
      var n := |h| - 1;
      Changes(h[..n], id) + if id in h[n - 1] && id in h[n] && h[n][id] != h[n - 1][id] then 1 else 0
  }

  function TerminalWrites(h: seq<Table>, id: string): nat {
    if |h| < 2 then 0
    else
      var n := |h| - 1;
      TerminalWrites(h[..n], id) +
      if id in h[n - 1] && id in h[n] && h[n][id] != h[n - 1][id] && h[n][id].status.IsTerminal() then 1 else 0
  }

  predicate LifecycleOk(h: seq<Table>, id: string)
    requires |h| > 0
  {
    var last := h[|h| - 1];
    if id !in last then Changes(h, id) == 0 && TerminalWrites(h, id) == 0
    else
      && Changes(h, id) <= Rank(last[id].status) && last[id].status.Valid()
      && TerminalWrites(h, id) == if last[id].status.IsTerminal() then 1 else 0
  }

  lemma HistoryPrefix(h: seq<Table>, n: nat)
    requires History(h) && 0 < n <= |h|
    ensures History(h[..n])
  {
    forall k | 0 <= k < n - 1 ensures Evolves(h[..n][k], h[..n][k + 1]) {
      assert Evolves(h[k], h[k + 1]);
    }
  }

  // A job changes at most three times, and exactly one write makes it terminal if it is terminal.
  lemma {:induction false} AtMostThreeChanges(h: seq<Table>, id: string)
    requires History(h)
    ensures LifecycleOk(h, id) && Changes(h, id) <= 3
  {
    var n := |h| - 1;
    if n >= 1 {
      HistoryPrefix(h, n);
      AtMostThreeChanges(h[..n], id);
      assert Evolves(h[n - 1], h[n]);
      assert h[..n][|h[..n]| - 1] == h[n - 1];
    }
  }

  // Once terminal, the whole record never changes again.
  lemma {:induction false} TerminalIsFinal(h: seq<Table>, id: string, k: nat, m: nat)
    requires History(h) && k <= m < |h| && id in h[k] && h[k][id].status.IsTerminal()
    ensures id in h[m] && h[m][id] == h[k][id]
    decreases m
  {
    if k < m {
      TerminalIsFinal(h, id, k, m - 1);
      assert Evolves(h[m - 1], h[m]);
    }
  }

  predicate Advanced(a: Job, b: Job) {
    SameJob(a, b) && (b == a || Rank(b.status) > Rank(a.status))
  }

  lemma EdgeAdvances(a: Table, b: Table, id: string)
    requires Evolves(a, b) && id in a
    ensures id in b && Advanced(a[id], b[id])
  {
  }

  // A stored status never comes back once it has been left.
  lemma {:induction false} RankNeverFalls(h: seq<Table>, id: string, k: nat, m: nat)
    requires History(h) && k <= m < |h| && id in h[k]
    ensures id in h[m] && Advanced(h[k][id], h[m][id])
    decreases m
  {
    if k < m {
      RankNeverFalls(h, id, k, m - 1);
      EdgeAdvances(h[m - 1], h[m], id);
    }
  }

  predicate Visited(h: seq<Table>, id: string, m: nat, s: Status)
    requires m < |h|
  {
    exists k :: 0 <= k <= m && id in h[k] && h[k][id].status == s
  }

  lemma VisitedGrows(h: seq<Table>, id: string, m: nat, s: Status)
    requires m + 1 < |h| && Visited(h, id, m, s)
    ensures Visited(h, id, m + 1, s)
  {
    var k :| 0 <= k <= m && id in h[k] && h[k][id].status == s;
    assert 0 <= k <= m + 1;
  }

  // Where a job has been, given where it is.
  predicate PathOk(h: seq<Table>, id: string, m: nat)
    requires m < |h| && id in h[m]
  {
    var s := h[m][id].status;
    && Visited(h, id, m, Submitted)
    && (s == Running || s == Succeeded ==> Visited(h, id, m, Queued))
    && (s == Succeeded ==> Visited(h, id, m, Running))
  }

  lemma PathGoesOn(h: seq<Table>, id: string, m: nat)
    requires m + 1 < |h| && id in h[m] && Evolves(h[m], h[m + 1]) && PathOk(h, id, m)
    ensures PathOk(h, id, m + 1)
  {
    forall s | Visited(h, id, m, s) ensures Visited(h, id, m + 1, s) {
      VisitedGrows(h, id, m, s);
    }
    assert Visited(h, id, m, h[m][id].status);
  }

  // No short cuts: a job that succeeded was submitted, queued and running before.
  lemma {:induction false} SuccessRanItsCourse(h: seq<Table>, id: string, m: nat)
    requires History(h) && m < |h| && id in h[m]
    ensures PathOk(h, id, m)
  {
    assert Evolves(h[m - 1], h[m]);
    if id in h[m - 1] {
      SuccessRanItsCourse(h, id, m - 1);
      PathGoesOn(h, id, m - 1);
    }
  }

  lemma SwapEvolves(t: Table, tenantID: string, id: string, expected: Status, to: Status, opts: Opts, now: int)
    requires Allowed(expected, to)
    ensures Evolves(t, Swap(t, tenantID, id, expected, to, opts, now))
  {
  }
}
