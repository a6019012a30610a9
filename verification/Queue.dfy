// The durable queue: claims with leases, and what every run of its operations guarantees.
module Queue {
  import opened Basics

  datatype Item = Item(id: string, tenantID: string, jobID: string, payload: string, key: string,
                       enqueuedAt: int, claimedAt: Option<int>, token: Option<string>)

  predicate Fresh(it: Item) { it.claimedAt.None? && it.token.None? }

  predicate HasID(rows: seq<Item>, id: string) {
    exists i :: 0 <= i < |rows| && rows[i].id == id
  }

  // claimed_at IS NULL OR claimed_at < expiry
  predicate Eligible(it: Item, expiry: int) {
    it.claimedAt.None? || it.claimedAt.value < expiry
  }

  predicate NoneEligible(rows: seq<Item>, expiry: int) {
    forall k :: 0 <= k < |rows| ==> !Eligible(rows[k], expiry)
  }

  // rows[i] may be the answer of ORDER BY enqueued_at LIMIT 1 over the eligible rows.
  predicate Oldest(rows: seq<Item>, i: int, expiry: int) {
    && 0 <= i < |rows| && Eligible(rows[i], expiry)
    && forall k :: 0 <= k < |rows| && Eligible(rows[k], expiry) ==> rows[i].enqueuedAt <= rows[k].enqueuedAt
  }

  lemma {:induction false} OldestExists(rows: seq<Item>, expiry: int)
    requires exists k :: 0 <= k < |rows| && Eligible(rows[k], expiry)
    ensures exists i :: Oldest(rows, i, expiry)
  {
    var n := |rows| - 1;
    if k :| 0 <= k < n && Eligible(rows[k], expiry) {
      assert Eligible(rows[..n][k], expiry);
      OldestExists(rows[..n], expiry);
      var i :| Oldest(rows[..n], i, expiry);
      assert forall m :: 0 <= m < n ==> rows[..n][m] == rows[m];
      if Eligible(rows[n], expiry) && rows[n].enqueuedAt < rows[i].enqueuedAt {
        assert Oldest(rows, n, expiry);
      } else {
        assert Oldest(rows, i, expiry);
      }
    } else {
      assert Oldest(rows, n, expiry);
    }
  }

  // A row may be handed out if nobody has claimed it, or if more than a lease has gone by since.
  predicate Free(it: Item, readAt: int, maxAge: int) {
    it.claimedAt.None? || readAt - it.claimedAt.value > maxAge
  }

  // The row of this id may be handed out, and none that may be was enqueued before it.
  predicate Offered(rows: seq<Item>, id: string, readAt: int, maxAge: int) {
    exists i :: 0 <= i < |rows| && rows[i].id == id && Free(rows[i], readAt, maxAge)
      && forall k :: 0 <= k < |rows| && Free(rows[k], readAt, maxAge) ==> rows[i].enqueuedAt <= rows[k].enqueuedAt
  }

  // First in, first out, over the rows that are unclaimed or whose lease ran out; nothing to hand out
  // means that every row is under an unexpired claim.
  lemma OldestIff(rows: seq<Item>, i: int, readAt: int, maxAge: int)
    ensures Oldest(rows, i, readAt - maxAge) <==>
      && 0 <= i < |rows| && Free(rows[i], readAt, maxAge)
      && forall k :: 0 <= k < |rows| && Free(rows[k], readAt, maxAge) ==> rows[i].enqueuedAt <= rows[k].enqueuedAt
    ensures NoneEligible(rows, readAt - maxAge) <==>
      forall k :: 0 <= k < |rows| ==> rows[k].claimedAt.Some? && readAt <= rows[k].claimedAt.value + maxAge
  {
    assert forall k :: 0 <= k < |rows| ==> (Eligible(rows[k], readAt - maxAge) <==> Free(rows[k], readAt, maxAge));
  }

  // ---------------------------------------------------------------- the statements

  predicate Matches(it: Item, id: string, token: string) {
    it.id == id && it.token == Some(token)
  }

  predicate Held(rows: seq<Item>, id: string, token: string) {
    exists i :: 0 <= i < |rows| && Matches(rows[i], id, token)
  }

  function Taken(it: Item, token: string, at: int): Item {
    it.(claimedAt := Some(at), token := Some(token))
  }

  function Claimed(rows: seq<Item>, id: string, token: string, at: int): (r: seq<Item>)
    ensures |r| == |rows|
  {
    seq(|rows|, i requires 0 <= i < |rows| =>
      if rows[i].id == id then Taken(rows[i], token, at) else rows[i])
  }

  function Released(rows: seq<Item>, id: string, token: string): (r: seq<Item>)
    ensures |r| == |rows|
  {
    seq(|rows|, i requires 0 <= i < |rows| =>
      if Matches(rows[i], id, token) then rows[i].(claimedAt := None, token := None) else rows[i])
  }

  function Removed(rows: seq<Item>, id: string, token: string): seq<Item> {
    if rows == [] then []
    else
      var n := |rows| - 1;
      Removed(rows[..n], id, token) + if Matches(rows[n], id, token) then [] else [rows[n]]
  }

  // Row i is claimed; a reply hands it out as it then stands.
  predicate Claims(rows: seq<Item>, i: nat, token: string, at: int, rows': seq<Item>, r: Result<Item>)
    requires i < |rows|
  {
    && rows' == Claimed(rows, rows[i].id, token, at)
    && (r.Ok? ==> r.value in rows' && r.value == Taken(rows[i], token, at))
  }

  predicate IDsDistinct(rows: seq<Item>) {
    forall i, j :: 0 <= i < j < |rows| ==> rows[i].id != rows[j].id
  }

  lemma {:induction false} RemovedExactly(rows: seq<Item>, id: string, token: string, it: Item)
    ensures it in Removed(rows, id, token) <==> it in rows && !Matches(it, id, token)
  {
    if rows != [] {
      var n := |rows| - 1;
      RemovedExactly(rows[..n], id, token, it);
      assert rows == rows[..n] + [rows[n]];
    }
  }

  lemma NotHeldBefore(rows: seq<Item>, n: nat, id: string, token: string)
    requires n < |rows| && !Held(rows, id, token)
    ensures !Held(rows[..n], id, token) && !Matches(rows[n], id, token)
  {
    forall i | 0 <= i < n ensures !Matches(rows[..n][i], id, token) {
      assert rows[..n][i] == rows[i];
    }
  }

  lemma {:induction false} NoneRemoved(rows: seq<Item>, id: string, token: string)
    requires !Held(rows, id, token)
    ensures Removed(rows, id, token) == rows
  {
    if rows != [] {
      var n := |rows| - 1;
      NotHeldBefore(rows, n, id, token);
      NoneRemoved(rows[..n], id, token);
      assert rows == rows[..n] + [rows[n]];
    }
  }

  lemma NoneReleased(rows: seq<Item>, id: string, token: string)
    requires !Held(rows, id, token)
    ensures Released(rows, id, token) == rows
  {
    assert forall i :: 0 <= i < |rows| ==> !Matches(rows[i], id, token);
  }

  lemma {:induction false} RemovedKeepsIDs(rows: seq<Item>, id: string, token: string)
    requires IDsDistinct(rows)
    ensures IDsDistinct(Removed(rows, id, token))
  {
    if rows != [] {
      var n := |rows| - 1;
      RemovedKeepsIDs(rows[..n], id, token);
      var kept := Removed(rows[..n], id, token);
      forall i | 0 <= i < |kept| ensures kept[i].id != rows[n].id {
        RemovedExactly(rows[..n], id, token, kept[i]);
        var k :| 0 <= k < n && rows[..n][k] == kept[i];
        assert rows[k] == kept[i];
      }
    }
  }

  predicate SameKey(it: Item, tenantID: string, key: string) {
    it.tenantID == tenantID && it.key == key
  }

  predicate KeyTaken(rows: seq<Item>, tenantID: string, key: string) {
    key != "" && exists i :: 0 <= i < |rows| && SameKey(rows[i], tenantID, key)
  }

  predicate Clash(a: Item, b: Item) {
    a.key != "" && a.key == b.key && a.tenantID == b.tenantID
  }

  // The unique index on (tenant_id, idempotency_key), which skips empty keys.
  predicate KeysDistinct(rows: seq<Item>) {
    forall i, j :: 0 <= i < j < |rows| ==> !Clash(rows[i], rows[j])
  }

  class SQLiteQueue {
    var rows: seq<Item>

    ghost predicate Valid() reads this {
      IDsDistinct(rows) && KeysDistinct(rows)
    }

    constructor ()
      ensures rows == [] && Valid()
    {
      rows := [];
    }

    // `freshID` is the random id drawn for the new row; the lookup and the INSERT may fail.
    method Enqueue(tenantID: string, jobID: string, payload: string, key: string, freshID: string, now: int,
                   lookupOk: bool, insertOk: bool) returns (r: Result<Item>, created: bool)
      requires Valid() && !HasID(rows, freshID)
      modifies this
      ensures Valid()
      ensures r.Err? <==>
        tenantID == "" || jobID == "" || (key != "" && !lookupOk) || (!old(KeyTaken(rows, tenantID, key)) && !insertOk)
      ensures created <==> r.Ok? && !old(KeyTaken(rows, tenantID, key))
      ensures created ==> r.value == Item(freshID, tenantID, jobID, payload, key, now, None, None)
      ensures created ==> rows == old(rows) + [r.value]
      ensures !created ==> rows == old(rows)
      ensures r.Ok? && !created ==> r.value in rows && r.value.tenantID == tenantID && r.value.key == key != ""
    {
      if tenantID == "" || jobID == "" {
        return Err("queue: tenant_id and job_id required"), false;
      }
      if key != "" {
        if !lookupOk {
          return Err("queue: lookup"), false;
        }
        if i :| 0 <= i < |rows| && SameKey(rows[i], tenantID, key) {
          return Ok(rows[i]), false;
        }
      }
      if !insertOk {
        return Err("queue: insert"), false;
      }
      var it := Item(freshID, tenantID, jobID, payload, key, now, None, None);
      rows := rows + [it];
      return Ok(it), true;
    }

    // Two clock readings: one for the expiry bound, a later one for the claim. The transaction may
    // fail as a whole; a read-back that fails after its commit leaves the row claimed all the same.
    method Dequeue(token: string, readAt: int, claimAt: int, maxAge: int, claimOk: bool, fetchOk: bool)
        returns (r: Result<Item>)
      requires Valid()
      modifies this
      ensures Valid()
      ensures r.Ok? <==> token != "" && claimOk && fetchOk && !NoneEligible(old(rows), readAt - maxAge)
      ensures r.Ok? ==> Offered(old(rows), r.value.id, readAt, maxAge)
      ensures token == "" || !claimOk || NoneEligible(old(rows), readAt - maxAge) ==> rows == old(rows)
      ensures !(token == "" || !claimOk || NoneEligible(old(rows), readAt - maxAge)) ==>
        exists i | Oldest(old(rows), i, readAt - maxAge) :: Claims(old(rows), i, token, claimAt, rows, r)
    {
      if token == "" {
        return Err("queue: empty claim token");
      }
      if !claimOk {
        return Err("queue: begin");
      }
      var expiry := readAt - maxAge;
      if NoneEligible(rows, expiry) {
        return Err("queue: empty");
      }
      OldestExists(rows, expiry);
      var i :| 0 <= i < |rows| && Oldest(rows, i, expiry);
      OldestIff(rows, i, readAt, maxAge);
      rows := Claimed(rows, rows[i].id, token, claimAt);
      r := if fetchOk then Ok(rows[i]) else Err("queue: get");
      assert Claims(old(rows), i, token, claimAt, rows, r);
    }

    method Ack(id: string, token: string) returns (r: Result<()>)
      requires Valid()
      modifies this
      ensures Valid()
      ensures rows == Removed(old(rows), id, token)
      ensures r.Ok? <==> old(Held(rows, id, token))
    {
      RemovedKeepsIDs(rows, id, token);
      RemovedKeepsKeys(rows, id, token);
      if !Held(rows, id, token) {
        NoneRemoved(rows, id, token);
        return Err("queue: claim mismatch");
      }
      rows := Removed(rows, id, token);
      return Ok(());
    }

    method Nack(id: string, token: string) returns (r: Result<()>)
      requires Valid()
      modifies this
      ensures Valid()
      ensures rows == Released(old(rows), id, token)
      ensures r.Ok? <==> old(Held(rows, id, token))
    {
      if !Held(rows, id, token) {
        NoneReleased(rows, id, token);
        return Err("queue: claim mismatch");
      }
      rows := Released(rows, id, token);
      return Ok(());
    }

    method Depth() returns (n: nat)
      ensures n == |rows|
    {
      n := |rows|;
    }
  }

  lemma {:induction false} RemovedKeepsKeys(rows: seq<Item>, id: string, token: string)
    requires KeysDistinct(rows)
    ensures KeysDistinct(Removed(rows, id, token))
  {
    if rows != [] {
      var n := |rows| - 1;
      RemovedKeepsKeys(rows[..n], id, token);
      var kept := Removed(rows[..n], id, token);
      forall i | 0 <= i < |kept| ensures !Clash(kept[i], rows[n]) {
        RemovedExactly(rows[..n], id, token, kept[i]);
        var k :| 0 <= k < n && rows[..n][k] == kept[i];
        assert rows[k] == kept[i];
      }
    }
  }
}
