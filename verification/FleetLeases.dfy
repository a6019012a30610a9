// Leases among workers: who is handed an item, and exactly when one worker's lease is its own.
module FleetLeases {
  import opened Basics
  import opened Queue
  import opened Fleet
  import Leases

  // Step k hands the item to worker w.
  predicate HandsTo(cfg: Config, steps: seq<Step>, k: nat, w: int, id: string) {
    k < |steps| &&
    var s := Run(cfg, steps[..k]);
    Picks(s, steps[k], w) && s.rows[steps[k].row].id == id
  }

  // Worker w gives the item back while it holds it.
  predicate GivesBack(cfg: Config, s: Sys, step: Step, w: int, id: string) {
    && step.Close? && step.w == w && step.ok && At(s, w).Closing? && !At(s, w).ack
    && At(s, w).item.id == id && Held(s.rows, id, cfg.tokens(w))
  }

  predicate GaveBack(cfg: Config, steps: seq<Step>, i: nat, j: nat, w: int, id: string)
    requires j <= |steps|
  {
    exists m :: i < m < j && GivesBack(cfg, Run(cfg, steps[..m]), steps[m], w, id)
  }

  ghost predicate OwnTokens(cfg: Config) {
    forall v, w :: cfg.tokens(v) == cfg.tokens(w) ==> v == w
  }

  // ---------------------------------------------------------------- within a lease

  lemma ShownAfterPick(cfg: Config, s: Sys, step: Step, w: int)
    requires Picks(s, step, w)
    ensures Leases.ShowsClaim(Do(cfg, s, step).rows, s.rows[step.row].id, cfg.tokens(w), step.claimAt)
  {
  }

  // One step of anyone keeps the row under the claim, unless the holder gives the item back.
  lemma ShownAfterStep(cfg: Config, s: Sys, step: Step, w: int, id: string, at: int)
    requires OwnTokens(cfg) && HasID(s.enqueued, id) && Leases.ShowsClaim(s.rows, id, cfg.tokens(w), at)
    requires !GivesBack(cfg, s, step, w, id) && (step.Pick? ==> step.readAt - step.maxAge <= at)
    ensures Leases.ShowsClaim(Do(cfg, s, step).rows, id, cfg.tokens(w), at)
  {
    var e := EventOf(cfg, s, step);
    RowsByEvent(cfg, s, step);
    EnqueuedByEvent(cfg, s, step);
    if e.Some? {
      match e.value
      case Enqueue(it) =>
      case Claim(x, _, readAt, _) =>
        assert s.rows[step.row].id == x && Eligible(s.rows[step.row], step.readAt - step.maxAge);
      case Ack(x, t) =>
        var after := Leases.Do(s.rows, e.value);
        forall r | 0 <= r < |after| && after[r].id == id
          ensures after[r].claimedAt == Some(at) && after[r].token == Some(cfg.tokens(w))
        {
          RemovedExactly(s.rows, x, t, after[r]);
        }
      case Nack(x, t) =>
        forall r | 0 <= r < |s.rows| && s.rows[r].id == id ensures !Matches(s.rows[r], x, t) {
        }
    }
  }

  lemma EnqueuedStays(cfg: Config, s: Sys, step: Step, id: string)
    requires HasID(s.enqueued, id)
    ensures HasID(Do(cfg, s, step).enqueued, id)
  {
    EnqueuedByEvent(cfg, s, step);
    var k :| 0 <= k < |s.enqueued| && s.enqueued[k].id == id;
    assert Do(cfg, s, step).enqueued[k].id == id;
  }

  lemma RowWasEnqueued(cfg: Config, steps: seq<Step>, r: nat)
    requires r < |Run(cfg, steps).rows|
    ensures HasID(Run(cfg, steps).enqueued, Run(cfg, steps).rows[r].id)
  {
    NothingVanishes(cfg, steps);
    var s := Run(cfg, steps);
    assert Known(s.enqueued, s.rows[r]);
    var k :| 0 <= k < |s.enqueued| && Leases.SameBody(s.enqueued[k], s.rows[r]);
    assert s.enqueued[k].id == s.rows[r].id;
  }

  // Step m neither gives the item back nor picks past the lease that began at `at`.
  predicate Harmless(cfg: Config, steps: seq<Step>, m: nat, w: int, id: string, at: int)
    requires m < |steps|
  {
    && !GivesBack(cfg, Run(cfg, steps[..m]), steps[m], w, id)
    && (steps[m].Pick? ==> steps[m].readAt - steps[m].maxAge <= at)
  }

  predicate Shown(cfg: Config, steps: seq<Step>, n: nat, w: int, id: string, at: int)
    requires n <= |steps|
  {
    HasID(Run(cfg, steps[..n]).enqueued, id) && Leases.ShowsClaim(Run(cfg, steps[..n]).rows, id, cfg.tokens(w), at)
  }

  lemma RunStep(cfg: Config, steps: seq<Step>, n: nat)
    requires n < |steps|
    ensures Run(cfg, steps[..n + 1]) == Do(cfg, Run(cfg, steps[..n]), steps[n])
  {
    PrefixSnoc(steps, n);
    RunSnoc(cfg, steps[..n], steps[n]);
  }

  lemma ShownFirst(cfg: Config, steps: seq<Step>, i: nat, w: int, id: string)
    requires HandsTo(cfg, steps, i, w, id)
    ensures Shown(cfg, steps, i + 1, w, id, steps[i].claimAt)
  {
    RunStep(cfg, steps, i);
    RowWasEnqueued(cfg, steps[..i], steps[i].row);
    EnqueuedStays(cfg, Run(cfg, steps[..i]), steps[i], id);
    ShownAfterPick(cfg, Run(cfg, steps[..i]), steps[i], w);
  }

  lemma ShownNext(cfg: Config, steps: seq<Step>, m: nat, w: int, id: string, at: int)
    requires OwnTokens(cfg) && m < |steps| && Shown(cfg, steps, m, w, id, at) && Harmless(cfg, steps, m, w, id, at)
    ensures Shown(cfg, steps, m + 1, w, id, at)
  {
    RunStep(cfg, steps, m);
    EnqueuedStays(cfg, Run(cfg, steps[..m]), steps[m], id);
    ShownAfterStep(cfg, Run(cfg, steps[..m]), steps[m], w, id, at);
  }

  lemma {:induction false} ShownThroughLease(cfg: Config, steps: seq<Step>, i: nat, n: nat, w: int, id: string, at: int)
    requires OwnTokens(cfg) && i < n <= |steps| && Shown(cfg, steps, i + 1, w, id, at)
    requires forall m :: i < m < n ==> Harmless(cfg, steps, m, w, id, at)
    ensures Shown(cfg, steps, n, w, id, at)
    decreases n
  {
    if n > i + 1 {
      ShownThroughLease(cfg, steps, i, n - 1, w, id, at);
      ShownNext(cfg, steps, n - 1, w, id, at);
    }
  }

  // ---------------------------------------------------------------- one worker a lease

  // Worker v is handed an item after worker w was: w's lease has run out, or w gave the item back.
  ghost predicate InTurn(cfg: Config, steps: seq<Step>, maxAge: int, i: nat, j: nat, w: int, v: int, id: string) {
    ClocksOk(steps, maxAge) && i < j && HandsTo(cfg, steps, i, w, id) && HandsTo(cfg, steps, j, v, id) ==>
      steps[j].readAt > steps[i].claimAt + maxAge || GaveBack(cfg, steps, i, j, w, id)
  }

  // With a token for each worker, no second worker is handed an item during its holder's lease
  // unless that worker itself closed without acknowledging, while it held the item.
  lemma OneWorkerPerLease(cfg: Config, steps: seq<Step>, maxAge: int, i: nat, j: nat, w: int, v: int, id: string)
    requires OwnTokens(cfg)
    ensures InTurn(cfg, steps, maxAge, i, j, w, v, id)
  {
    if ClocksOk(steps, maxAge) && i < j && HandsTo(cfg, steps, i, w, id) && HandsTo(cfg, steps, j, v, id)
       && steps[j].readAt <= steps[i].claimAt + maxAge && !GaveBack(cfg, steps, i, j, w, id)
    {
      forall m | i < m < j ensures Harmless(cfg, steps, m, w, id, steps[i].claimAt) {
        assert steps[m].Pick? ==> steps[m].claimAt <= steps[j].readAt;
      }
      ShownFirst(cfg, steps, i, w, id);
      ShownThroughLease(cfg, steps, i, j, w, id, steps[i].claimAt);
    }
  }

  // ---------------------------------------------------------------- a shared token

  // Worker a fails to load and lets its lease run out; worker b is handed the item; a's late Nack,
  // under the shared token, releases b's claim; and a is handed the item within b's lease.
  function StaleNack(a: int, b: int, maxAge: int): seq<Step> {
    [Post(ITEM), Pick(a, 0, 0, 0, maxAge), Load(a, false), Pick(b, 0, maxAge + 1, maxAge + 1, maxAge), Close(a, true),
     Pick(a, 0, maxAge + 1, maxAge + 1, maxAge)]
  }

  function Queued(it: Item, workers: map<int, Place>): Sys {
    Sys(map[], [it], workers, map[], [ITEM], [])
  }

  lemma PostRuns(cfg: Config)
    ensures Run(cfg, [Post(ITEM)]) == Queued(ITEM, map[])
  {
    RunSnoc(cfg, [], Post(ITEM));
    assert [] + [Post(ITEM)] == [Post(ITEM)];
  }

  lemma PickOnly(cfg: Config, it: Item, workers: map<int, Place>, w: int, at: int, maxAge: int)
    requires it.id == "q" && Eligible(it, at - maxAge) && (w in workers ==> workers[w].Idle?)
    requires it.(claimedAt := None, token := None) == ITEM
    ensures Picks(Queued(it, workers), Pick(w, 0, at, at, maxAge), w)
    ensures var held := Fleet.Claim(cfg.tokens(w), at);
      Do(cfg, Queued(it, workers), Pick(w, 0, at, at, maxAge)) == Queued(held, workers[w := Loaded(held)])
  {
    assert Oldest([it], 0, at - maxAge);
    assert Claimed([it], "q", cfg.tokens(w), at) == [Fleet.Claim(cfg.tokens(w), at)];
  }

  lemma LateNack(cfg: Config, workers: map<int, Place>, a: int, token: string, at: int, mine: Item)
    requires a in workers && workers[a] == Closing(mine, false) && mine.id == "q" && cfg.tokens(a) == token
    ensures Do(cfg, Queued(Fleet.Claim(token, at), workers), Close(a, true)) == Queued(ITEM, workers[a := Idle])
  {
    var held := Fleet.Claim(token, at);
    assert Matches([held][0], "q", token) && Held([held], "q", token);
    assert Released([held], "q", token) == [ITEM];
  }

  function Mine(cfg: Config, a: int): Item { Fleet.Claim(cfg.tokens(a), 0) }
  function Theirs(cfg: Config, b: int, maxAge: int): Item { Fleet.Claim(cfg.tokens(b), maxAge + 1) }

  // The states of that run: a has failed to load, b has been handed the item, a's Nack has hit.
  lemma LoadedLate(cfg: Config, a: int, b: int, maxAge: int)
    ensures Run(cfg, StaleNack(a, b, maxAge)[..3]) == Queued(Mine(cfg, a), map[a := Closing(Mine(cfg, a), false)])
  {
    var steps, mine := StaleNack(a, b, maxAge), Mine(cfg, a);
    PostRuns(cfg);
    assert steps[..1] == [Post(ITEM)] && map[][a := Loaded(mine)] == map[a := Loaded(mine)];
    RunStep(cfg, steps, 1);
    PickOnly(cfg, ITEM, map[], a, 0, maxAge);
    RunStep(cfg, steps, 2);
    assert Do(cfg, Queued(mine, map[a := Loaded(mine)]), Load(a, false))
        == Queued(mine, map[a := Closing(mine, false)]);
  }

  lemma HandedOn(cfg: Config, a: int, b: int, maxAge: int)
    requires a != b
    ensures Run(cfg, StaleNack(a, b, maxAge)[..4])
         == Queued(Theirs(cfg, b, maxAge), map[a := Closing(Mine(cfg, a), false), b := Loaded(Theirs(cfg, b, maxAge))])
  {
    var steps, mine, theirs := StaleNack(a, b, maxAge), Mine(cfg, a), Theirs(cfg, b, maxAge);
    LoadedLate(cfg, a, b, maxAge);
    RunStep(cfg, steps, 3);
    PickOnly(cfg, mine, map[a := Closing(mine, false)], b, maxAge + 1, maxAge);
    assert map[a := Closing(mine, false)][b := Loaded(theirs)] == map[a := Closing(mine, false), b := Loaded(theirs)];
  }

  lemma NackedLate(cfg: Config, a: int, b: int, maxAge: int)
    requires a != b && cfg.tokens(a) == cfg.tokens(b)
    ensures Run(cfg, StaleNack(a, b, maxAge)[..5])
         == Queued(ITEM, map[a := Idle, b := Loaded(Theirs(cfg, b, maxAge))])
  {
    var steps, mine, theirs := StaleNack(a, b, maxAge), Mine(cfg, a), Theirs(cfg, b, maxAge);
    var workers := map[a := Closing(mine, false), b := Loaded(theirs)];
    HandedOn(cfg, a, b, maxAge);
    RunStep(cfg, steps, 4);
    LateNack(cfg, workers, a, cfg.tokens(a), maxAge + 1, mine);
    assert workers[a := Idle] == map[a := Idle, b := Loaded(theirs)];
  }

  lemma SharedTokenBreaks(cfg: Config, a: int, b: int, maxAge: int)
    requires a != b && cfg.tokens(a) == cfg.tokens(b) && maxAge >= 0
    ensures !InTurn(cfg, StaleNack(a, b, maxAge), maxAge, 3, 5, b, a, "q")
  {
    var steps, mine := StaleNack(a, b, maxAge), Mine(cfg, a);
    LoadedLate(cfg, a, b, maxAge);
    NackedLate(cfg, a, b, maxAge);
    PickOnly(cfg, mine, map[a := Closing(mine, false)], b, maxAge + 1, maxAge);
    PickOnly(cfg, ITEM, map[a := Idle, b := Loaded(Theirs(cfg, b, maxAge))], a, maxAge + 1, maxAge);
    assert HandsTo(cfg, steps, 3, b, "q") && HandsTo(cfg, steps, 5, a, "q");
    assert !GaveBack(cfg, steps, 3, 5, b, "q") by {
      assert steps[4] == Close(a, true);
    }
  }

  ghost predicate AlwaysInTurn(cfg: Config, maxAge: int) {
    forall steps, i: nat, j: nat, w, v, id :: InTurn(cfg, steps, maxAge, i, j, w, v, id)
  }

  // For any lease length, leases belong to workers in every run if and only if no two workers share
  // a claim token.
  lemma LeaseIsOwnIff(cfg: Config, maxAge: int)
    requires maxAge >= 0
    ensures AlwaysInTurn(cfg, maxAge) <==> OwnTokens(cfg)
  {
    if OwnTokens(cfg) {
      forall steps, i: nat, j: nat, w, v, id ensures InTurn(cfg, steps, maxAge, i, j, w, v, id) {
        OneWorkerPerLease(cfg, steps, maxAge, i, j, w, v, id);
      }
    } else {
      var a, b :| cfg.tokens(a) == cfg.tokens(b) && a != b;
      SharedTokenBreaks(cfg, a, b, maxAge);
    }
  }
}
