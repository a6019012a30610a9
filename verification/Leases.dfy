// Lease safety over every run of the queue.
module Leases {
  import opened Basics
  import opened Queue

  // One committed statement each. An Ack or Nack that matches no row is a run event too.
  datatype Event =
    | Enqueue(item: Item)
    | Claim(id: string, token: string, readAt: int, claimAt: int)
    | Ack(id: string, token: string)
    | Nack(id: string, token: string)

  function Do(rows: seq<Item>, e: Event): seq<Item> {
    match e
    case Enqueue(it) => rows + [it]
    case Claim(id, token, _, at) => Claimed(rows, id, token, at)
    case Ack(id, token) => Removed(rows, id, token)
    case Nack(id, token) => Released(rows, id, token)
  }

  function Replay(run: seq<Event>): seq<Item> {
    if run == [] then [] else Do(Replay(run[..|run| - 1]), run[|run| - 1])
  }

  predicate Enqueued(run: seq<Event>, id: string) {
    exists k :: 0 <= k < |run| && run[k].Enqueue? && run[k].item.id == id
  }

  predicate ClaimsOldest(rows: seq<Item>, e: Event, maxAge: int)
    requires e.Claim?
  {
    exists i :: 0 <= i < |rows| && Oldest(rows, i, e.readAt - maxAge) && rows[i].id == e.id
  }

  // Random ids never repeat, a claim takes the oldest eligible row, and the clock does not run
  // backwards from one claim to the next.
  predicate Enabled(run: seq<Event>, e: Event, maxAge: int) {
    match e
    case Enqueue(it) => Fresh(it) && !Enqueued(run, it.id)
    case Claim(id, token, readAt, claimAt) =>
      && token != "" && readAt <= claimAt && ClaimsOldest(Replay(run), e, maxAge)
      && forall k :: 0 <= k < |run| && run[k].Claim? ==> run[k].claimAt <= readAt
    case _ => true
  }

  predicate Legal(run: seq<Event>, maxAge: int) {
    forall k :: 0 <= k < |run| ==> Enabled(run[..k], run[k], maxAge)
  }

  lemma LegalPrefix(run: seq<Event>, maxAge: int, n: nat)
    requires Legal(run, maxAge) && n <= |run|
    ensures Legal(run[..n], maxAge)
  {
    forall k | 0 <= k < n ensures Enabled(run[..n][..k], run[..n][k], maxAge) {
      assert run[..n][..k] == run[..k];
      assert Enabled(run[..k], run[k], maxAge);
    }
  }

  // The token that holds an item: that of its latest claim, unless that claimant let go of it.
  function Holder(run: seq<Event>, id: string): Option<string> {
    if run == [] then None
    else
      var before := Holder(run[..|run| - 1], id);
      match run[|run| - 1]
      case Claim(x, token, _, _) => if x == id then Some(token) else before
      case Nack(x, token) => if x == id && before == Some(token) then None else before
      case _ => before
  }

  predicate RowsFollow(run: seq<Event>, rows: seq<Item>) {
    IDsDistinct(rows) && forall i :: 0 <= i < |rows| ==> RowFollows(run, rows[i])
  }

  lemma ClaimedWasEnqueued(run: seq<Event>, n: nat, maxAge: int)
    requires Legal(run, maxAge) && n < |run| && run[n].Claim?
    ensures Enqueued(run[..n], run[n].id)
    decreases n, 2
  {
    LegalPrefix(run, maxAge, n);
    RowsAreHeld(run[..n], maxAge);
    assert Enabled(run[..n], run[n], maxAge);
    var rows := Replay(run[..n]);
    var i :| 0 <= i < |rows| && Oldest(rows, i, run[n].readAt - maxAge) && rows[i].id == run[n].id;
  }

  lemma {:induction false} NeverEnqueuedNeverHeld(run: seq<Event>, id: string, maxAge: int)
    requires Legal(run, maxAge) && !Enqueued(run, id)
    ensures Holder(run, id).None?
    decreases |run|, 0
  {
    if run != [] {
      var n := |run| - 1;
      LegalPrefix(run, maxAge, n);
      if Enqueued(run[..n], id) {
        EnqueuedGrows(run, n, id);
      }
      NeverEnqueuedNeverHeld(run[..n], id, maxAge);
      if run[n].Claim? {
        ClaimedWasEnqueued(run, n, maxAge);
      }
    }
  }

  lemma EnqueuedGrows(run: seq<Event>, n: nat, id: string)
    requires n <= |run| && Enqueued(run[..n], id)
    ensures Enqueued(run, id)
  {
    var k :| 0 <= k < n && run[..n][k].Enqueue? && run[..n][k].item.id == id;
    assert run[k].Enqueue? && run[k].item.id == id;
  }

  // One row of the table against the run behind it.
  predicate RowFollows(run: seq<Event>, it: Item) {
    Enqueued(run, it.id) && it.token == Holder(run, it.id) && (it.token.None? <==> it.claimedAt.None?)
  }

  lemma HolderSnoc(run: seq<Event>, e: Event, id: string)
    ensures Holder(run + [e], id) ==
      if e.Claim? && e.id == id then Some(e.token)
      else if e.Nack? && e.id == id && Holder(run, id) == Some(e.token) then None
      else Holder(run, id)
  {
    assert (run + [e])[..|run|] == run;
  }

  // What a statement other than an insert does to a row it keeps.
  function Touched(it: Item, e: Event): Item {
    if e.Claim? && it.id == e.id then it.(claimedAt := Some(e.claimAt), token := Some(e.token))
    else if e.Nack? && Matches(it, e.id, e.token) then it.(claimedAt := None, token := None)
    else it
  }

  lemma TouchedFollows(run: seq<Event>, it: Item, e: Event)
    requires RowFollows(run, it)
    ensures RowFollows(run + [e], Touched(it, e))
  {
    assert (run + [e])[..|run|] == run;
    EnqueuedGrows(run + [e], |run|, it.id);
    HolderSnoc(run, e, it.id);
  }

  lemma RowsAreTouched(rows: seq<Item>, e: Event, it: Item)
    requires it in Do(rows, e) && !e.Enqueue?
    ensures exists old' :: old' in rows && it == Touched(old', e)
  {
    if e.Ack? {
      RemovedExactly(rows, e.id, e.token, it);
      assert Touched(it, e) == it;
    } else {
      var i :| 0 <= i < |rows| && Do(rows, e)[i] == it;
      assert Touched(rows[i], e) == it;
    }
  }

  lemma NewRowFollows(run: seq<Event>, it: Item, maxAge: int)
    requires Legal(run, maxAge) && Fresh(it) && !Enqueued(run, it.id)
    ensures RowFollows(run + [Enqueue(it)], it)
    decreases |run|, 3
  {
    NeverEnqueuedNeverHeld(run, it.id, maxAge);
    HolderSnoc(run, Enqueue(it), it.id);
    assert (run + [Enqueue(it)])[|run|] == Enqueue(it);
  }

  lemma DoKeepsIDs(run: seq<Event>, rows: seq<Item>, e: Event)
    requires RowsFollow(run, rows) && (e.Enqueue? ==> !Enqueued(run, e.item.id))
    ensures IDsDistinct(Do(rows, e))
  {
    if e.Ack? {
      RemovedKeepsIDs(rows, e.id, e.token);
    } else if e.Enqueue? {
      assert forall i :: 0 <= i < |rows| ==> RowFollows(run, rows[i]);
    }
  }

  // The table always shows the current holder of every row.
  lemma {:induction false} RowsAreHeld(run: seq<Event>, maxAge: int)
    requires Legal(run, maxAge)
    ensures RowsFollow(run, Replay(run))
    decreases |run|, 1
  {
    if run != [] {
      var n := |run| - 1;
      var e, rows := run[n], Replay(run[..n]);
      LegalPrefix(run, maxAge, n);
      RowsAreHeld(run[..n], maxAge);
      assert Enabled(run[..n], e, maxAge) && run[..n] + [e] == run;
      DoKeepsIDs(run[..n], rows, e);
      forall i | 0 <= i < |Do(rows, e)| ensures RowFollows(run, Do(rows, e)[i]) {
        var it := Do(rows, e)[i];
        if e.Enqueue? && i == |rows| {
          NewRowFollows(run[..n], it, maxAge);
        } else if e.Enqueue? {
          TouchedFollows(run[..n], rows[i], e);
        } else {
          RowsAreTouched(rows, e, it);
          var old' :| old' in rows && it == Touched(old', e);
          TouchedFollows(run[..n], old', e);
        }
      }
    }
  }

  // ---------------------------------------------------------------- one consumer per lease

  // Between its claim at i and k, the holder gave the item back while it still held it.
  predicate HolderNacked(run: seq<Event>, i: nat, k: nat)
    requires i < k <= |run| && run[i].Claim?
  {
    exists m :: i < m < k && NackHits(run, m, run[i].id, run[i].token)
  }

  predicate NackHits(run: seq<Event>, m: nat, id: string, token: string)
    requires m < |run|
  {
    run[m] == Nack(id, token) && Held(Replay(run[..m]), id, token)
  }

  predicate ClaimsWithin(run: seq<Event>, i: nat, k: nat, bound: int)
    requires k <= |run|
  {
    forall m :: i < m < k && run[m].Claim? ==> run[m].readAt <= bound
  }

  predicate ShowsClaim(rows: seq<Item>, id: string, token: string, at: int) {
    forall r :: 0 <= r < |rows| && rows[r].id == id ==> rows[r].claimedAt == Some(at) && rows[r].token == Some(token)
  }

  // Within the lease, and until its holder lets go, the row shows that claim.
  lemma {:induction false} HeldThroughLease(run: seq<Event>, maxAge: int, i: nat, k: nat)
    requires Legal(run, maxAge) && i < k <= |run| && run[i].Claim? && !HolderNacked(run, i, k)
    requires ClaimsWithin(run, i, k, run[i].claimAt + maxAge)
    ensures ShowsClaim(Replay(run[..k]), run[i].id, run[i].token, run[i].claimAt)
    decreases k
  {
    var n := k - 1;
    assert run[..k][..n] == run[..n] && run[..k][n] == run[n];
    var id, token, at := run[i].id, run[i].token, run[i].claimAt;
    if i < n {
      if m :| i < m < n && NackHits(run, m, id, token) {
        assert HolderNacked(run, i, k);
      }
      HeldThroughLease(run, maxAge, i, n);
      HeldThroughStep(run, maxAge, i, n);
    }
  }

  lemma HeldThroughStep(run: seq<Event>, maxAge: int, i: nat, n: nat)
    requires Legal(run, maxAge) && i < n < |run| && run[i].Claim? && !NackHits(run, n, run[i].id, run[i].token)
    requires run[n].Claim? ==> run[n].readAt <= run[i].claimAt + maxAge
    requires ShowsClaim(Replay(run[..n]), run[i].id, run[i].token, run[i].claimAt)
    ensures ShowsClaim(Do(Replay(run[..n]), run[n]), run[i].id, run[i].token, run[i].claimAt)
  {
    var id, token, at := run[i].id, run[i].token, run[i].claimAt;
    var before, after := Replay(run[..n]), Do(Replay(run[..n]), run[n]);
    assert Enabled(run[..n], run[n], maxAge);
    match run[n]
    case Enqueue(it) =>
      ClaimedWasEnqueued(run, i, maxAge);
      assert run[..n][..i] == run[..i];
      EnqueuedGrows(run[..n], i, id);
    case Claim(x, _, readAt, _) =>
      var r :| 0 <= r < |before| && Oldest(before, r, readAt - maxAge) && before[r].id == x;
    case Ack(x, t) =>
      forall r | 0 <= r < |after| && after[r].id == id
        ensures after[r].claimedAt == Some(at) && after[r].token == Some(token)
      {
        RemovedExactly(before, x, t, after[r]);
      }
    case Nack(x, t) =>
      forall r | 0 <= r < |before| && before[r].id == id ensures !Matches(before[r], x, t) {
        if Matches(before[r], x, t) {
          assert Held(before, id, token);
        }
      }
  }

  // Two claims of one item: the second comes after the first one's lease has run out, unless the
  // first holder gave the item back in between.
  lemma LeaseIsExclusive(run: seq<Event>, maxAge: int, i: nat, j: nat)
    requires Legal(run, maxAge) && i < j < |run|
    requires run[i].Claim? && run[j].Claim? && run[i].id == run[j].id
    ensures run[j].readAt > run[i].claimAt + maxAge || HolderNacked(run, i, j)
  {
    if !HolderNacked(run, i, j) {
      assert Enabled(run[..j], run[j], maxAge);
      var rows := Replay(run[..j]);
      var r :| 0 <= r < |rows| && Oldest(rows, r, run[j].readAt - maxAge) && rows[r].id == run[j].id;
      if run[j].readAt <= run[i].claimAt + maxAge {
        forall m | i < m < j && run[m].Claim? ensures run[m].readAt <= run[i].claimAt + maxAge {
          assert Enabled(run[..m], run[m], maxAge);
          assert run[..j][m] == run[m];
        }
        HeldThroughLease(run, maxAge, i, j);
      }
    }
  }

  // ---------------------------------------------------------------- stale holders

  lemma OnlyHolderMatches(run: seq<Event>, maxAge: int, id: string, token: string)
    requires Legal(run, maxAge) && Holder(run, id) != Some(token)
    ensures !Held(Replay(run), id, token)
  {
    RowsAreHeld(run, maxAge);
    var rows := Replay(run);
    forall i | 0 <= i < |rows| ensures !Matches(rows[i], id, token) {
      assert RowFollows(run, rows[i]);
    }
  }

  // An Ack or Nack under a token that does not hold the item changes nothing.
  lemma StaleHolderMisses(run: seq<Event>, maxAge: int, id: string, token: string)
    requires Legal(run, maxAge) && Holder(run, id) != Some(token)
    ensures !Held(Replay(run), id, token)
    ensures Do(Replay(run), Ack(id, token)) == Replay(run) && Do(Replay(run), Nack(id, token)) == Replay(run)
  {
    OnlyHolderMatches(run, maxAge, id, token);
    NoneRemoved(Replay(run), id, token);
    NoneReleased(Replay(run), id, token);
  }

  // Once someone else has claimed the item, the earlier claimant is stale until it claims again.
  lemma {:induction false} ReclaimMakesStale(run: seq<Event>, j: nat, token: string)
    requires j < |run| && run[j].Claim? && run[j].token != token
    requires forall k :: j < k < |run| && run[k].Claim? && run[k].id == run[j].id ==> run[k].token != token
    ensures Holder(run, run[j].id) != Some(token)
    decreases |run|
  {
    var n := |run| - 1;
    if j < n {
      ReclaimMakesStale(run[..n], j, token);
    }
  }

  // ---------------------------------------------------------------- leases end

  // Row r is free, and no free row was enqueued before it.
  predicate FirstFree(rows: seq<Item>, r: nat, readAt: int, maxAge: int)
    requires r < |rows|
  {
    && Free(rows[r], readAt, maxAge)
    && forall k :: 0 <= k < |rows| && Free(rows[k], readAt, maxAge) ==> rows[r].enqueuedAt <= rows[k].enqueuedAt
  }

  // At any time of any run, an item can be handed out if and only if it is unclaimed or its lease ran
  // out, and none such was enqueued before it; then the new claimant holds it.
  lemma ClaimableIff(run: seq<Event>, maxAge: int, r: nat, token: string, readAt: int, claimAt: int)
    requires Legal(run, maxAge) && r < |Replay(run)| && token != "" && readAt <= claimAt
    requires forall k :: 0 <= k < |run| && run[k].Claim? ==> run[k].claimAt <= readAt
    ensures var next := run + [Claim(Replay(run)[r].id, token, readAt, claimAt)];
      && (Legal(next, maxAge) <==> FirstFree(Replay(run), r, readAt, maxAge))
      && Holder(next, Replay(run)[r].id) == Some(token)
      && Replay(next)[r] == Replay(run)[r].(claimedAt := Some(claimAt), token := Some(token))
  {
    var rows := Replay(run);
    var e := Claim(rows[r].id, token, readAt, claimAt);
    var next := run + [e];
    assert next[..|run|] == run && next[|run|] == e;
    HolderSnoc(run, e, rows[r].id);
    RowsAreHeld(run, maxAge);
    forall i | 0 <= i < |rows| && rows[i].id == rows[r].id ensures i == r {
    }
    OldestIff(rows, r, readAt, maxAge);
    assert ClaimsOldest(rows, e, maxAge) <==> FirstFree(rows, r, readAt, maxAge);
    if FirstFree(rows, r, readAt, maxAge) {
      forall k | 0 <= k < |next| ensures Enabled(next[..k], next[k], maxAge) {
        assert k < |run| ==> next[..k] == run[..k] && Enabled(run[..k], run[k], maxAge);
      }
    }
    if Legal(next, maxAge) {
      assert Enabled(next[..|run|], next[|run|], maxAge);
    }
  }

  // ---------------------------------------------------------------- nothing is lost

  predicate SameBody(a: Item, b: Item) {
    a.id == b.id && a.tenantID == b.tenantID && a.jobID == b.jobID && a.payload == b.payload
    && a.key == b.key && a.enqueuedAt == b.enqueuedAt
  }

  predicate Present(rows: seq<Item>, it: Item) {
    exists r :: 0 <= r < |rows| && SameBody(rows[r], it)
  }

  // Event k acknowledged the item under the token that held it.
  predicate AckedByHolder(run: seq<Event>, k: nat, id: string)
    requires k < |run|
  {
    run[k].Ack? && run[k].id == id && Holder(run[..k], id) == Some(run[k].token)
  }

  predicate Gone(run: seq<Event>, i: nat, id: string) {
    exists k :: i < k < |run| && AckedByHolder(run, k, id)
  }

  lemma StillPresent(before: seq<Item>, e: Event, it: Item)
    requires Present(before, it)
    requires e.Ack? && e.id == it.id ==> !Held(before, e.id, e.token)
    ensures Present(Do(before, e), it)
  {
    var r :| 0 <= r < |before| && SameBody(before[r], it);
    var after := Do(before, e);
    if e.Ack? {
      RemovedExactly(before, e.id, e.token, before[r]);
      assert before[r] in after;
      var q :| 0 <= q < |after| && after[q] == before[r];
      assert SameBody(after[q], it);
    } else {
      assert SameBody(after[r], it);
    }
  }

  lemma GoneStays(run: seq<Event>, n: nat, i: nat, id: string)
    requires n <= |run| && Gone(run[..n], i, id)
    ensures Gone(run, i, id)
  {
    var k :| i < k < n && AckedByHolder(run[..n], k, id);
    assert run[..n][..k] == run[..k];
    assert AckedByHolder(run, k, id);
  }

  predicate AcksAsHolder(run: seq<Event>, e: Event, id: string) {
    e.Ack? && e.id == id && Holder(run, id) == Some(e.token)
  }

  lemma NextEvent(run: seq<Event>, maxAge: int, e: Event, it: Item)
    requires Legal(run, maxAge) && Present(Replay(run), it) && !AcksAsHolder(run, e, it.id)
    ensures Present(Do(Replay(run), e), it)
  {
    if e.Ack? && e.id == it.id {
      StaleHolderMisses(run, maxAge, it.id, e.token);
    }
    StillPresent(Replay(run), e, it);
  }

  // Every enqueued item is in the queue unchanged, or its latest claimant acknowledged it.
  lemma {:induction false} NothingIsLost(run: seq<Event>, maxAge: int, i: nat)
    requires Legal(run, maxAge) && i < |run| && run[i].Enqueue?
    ensures Present(Replay(run), run[i].item) || Gone(run, i, run[i].item.id)
    decreases |run|
  {
    var n := |run| - 1;
    var it := run[i].item;
    LegalPrefix(run, maxAge, n);
    if i == n {
      var before := Replay(run[..n]);
      assert Replay(run) == before + [it];
      assert SameBody((before + [it])[|before|], it);
    } else {
      NothingIsLost(run[..n], maxAge, i);
      if Gone(run[..n], i, it.id) {
        GoneStays(run, n, i, it.id);
      } else if AcksAsHolder(run[..n], run[n], it.id) {
        assert AckedByHolder(run, n, it.id);
      } else {
        NextEvent(run[..n], maxAge, run[n], it);
      }
    }
  }
}
