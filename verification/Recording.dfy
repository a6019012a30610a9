// What any sequence of deliveries leaves in the outbox. Both producers, the ledger subscriber and
// the dispatcher worker, reach the table only through Record.
module Recording {
  import opened Basics
  import opened Billing

  // One call of Record: the event, the clock, and whether the INSERT gets through.
  datatype Delivery = Delivery(ev: LedgerEvent, now: int, dbOk: bool)
  {
    predicate Lands() { ev.result == "bill" && Complete(ev) && dbOk }
    function Payload(): PendingEvent { Stamped(ev, now) }
  }

  function Deliver(outbox: seq<Row>, ds: seq<Delivery>): seq<Row> {
    if ds == [] then outbox
    else
      var n := |ds| - 1;
      Recorded(Deliver(outbox, ds[..n]), ds[n].ev, ds[n].now, ds[n].dbOk)
  }

  // ds[k] is the first delivery under this id that lands.
  predicate FirstLanding(ds: seq<Delivery>, k: nat, entryID: string) {
    && k < |ds| && ds[k].Lands() && ds[k].ev.entryID == entryID
    && forall m :: 0 <= m < k && ds[m].Lands() ==> ds[m].ev.entryID != entryID
  }

  predicate Source(ds: seq<Delivery>, k: nat, row: Row) {
    FirstLanding(ds, k, row.ev.entryID) && row.ev == ds[k].Payload() && row.taskID == ds[k].ev.taskID
  }

  predicate FromFirst(ds: seq<Delivery>, row: Row) {
    exists k :: 0 <= k < |ds| && Source(ds, k, row)
  }

  // No row from n on repeats an id of an earlier row.
  predicate OneRowEach(o: seq<Row>, n: nat) {
    forall i, j :: 0 <= i < j < |o| && n <= j ==> o[i].ev.entryID != o[j].ev.entryID
  }

  predicate AllFromFirst(ds: seq<Delivery>, o: seq<Row>, n: nat) {
    forall i :: n <= i < |o| ==> FromFirst(ds, o[i])
  }

  predicate NoneMissing(ds: seq<Delivery>, o: seq<Row>) {
    forall k :: 0 <= k < |ds| && ds[k].Lands() ==> HasEntry(o, ds[k].ev.entryID)
  }

  // The old rows stay; there is one new row per distinct new id that landed, and each is the first
  // landing under its id.
  predicate Explained(start: seq<Row>, ds: seq<Delivery>, o: seq<Row>) {
    start <= o && OneRowEach(o, |start|) && AllFromFirst(ds, o, |start|) && NoneMissing(ds, o)
  }

  lemma SourceStays(ds: seq<Delivery>, d: Delivery, row: Row)
    requires FromFirst(ds, row)
    ensures FromFirst(ds + [d], row)
  {
    var k :| 0 <= k < |ds| && Source(ds, k, row);
    assert Source(ds + [d], k, row);
  }

  lemma NewRowIsFirst(ds: seq<Delivery>, d: Delivery, o: seq<Row>, row: Row)
    requires NoneMissing(ds, o) && d.Lands() && !HasEntry(o, d.ev.entryID)
    requires row.ev == d.Payload() && row.taskID == d.ev.taskID
    ensures FromFirst(ds + [d], row)
  {
    var es, n := ds + [d], |ds|;
    assert es[n] == d;
    forall m | 0 <= m < n && es[m].Lands() ensures es[m].ev.entryID != d.ev.entryID {
      assert HasEntry(o, ds[m].ev.entryID);
    }
    assert Source(es, n, row);
  }

  lemma EntryStays(o: seq<Row>, row: Row, entryID: string)
    requires HasEntry(o, entryID) || row.ev.entryID == entryID
    ensures HasEntry(o + [row], entryID)
  {
    if HasEntry(o, entryID) {
      var i :| 0 <= i < |o| && o[i].ev.entryID == entryID;
      assert (o + [row])[i].ev.entryID == entryID;
    } else {
      assert (o + [row])[|o|].ev.entryID == entryID;
    }
  }

  lemma RecordExplained(start: seq<Row>, ds: seq<Delivery>, d: Delivery, o: seq<Row>)
    requires Explained(start, ds, o)
    ensures Explained(start, ds + [d], Recorded(o, d.ev, d.now, d.dbOk))
  {
    var after, es := Recorded(o, d.ev, d.now, d.dbOk), ds + [d];
    forall i | |start| <= i < |after| ensures FromFirst(es, after[i]) {
      if i < |o| {
        SourceStays(ds, d, o[i]);
      } else {
        NewRowIsFirst(ds, d, o, after[i]);
      }
    }
    forall k | 0 <= k < |es| && es[k].Lands() ensures HasEntry(after, es[k].ev.entryID) {
      assert k < |ds| ==> es[k] == ds[k];
      if |after| > |o| {
        EntryStays(o, after[|o|], es[k].ev.entryID);
        assert after == o + [after[|o|]];
      }
    }
  }

  // One row per distinct id that landed, carrying the payload that landed first, over any table.
  lemma {:induction false} FirstWins(start: seq<Row>, ds: seq<Delivery>)
    ensures Explained(start, ds, Deliver(start, ds))
  {
    if ds != [] {
      var before, d := ds[..|ds| - 1], ds[|ds| - 1];
      assert before + [d] == ds;
      FirstWins(start, before);
      RecordExplained(start, before, d, Deliver(start, before));
    }
  }

  // Redelivering ids that are already in the table changes nothing.
  lemma {:induction false} RedeliveryAddsNothing(outbox: seq<Row>, ds: seq<Delivery>)
    requires forall k :: 0 <= k < |ds| && ds[k].Lands() ==> HasEntry(outbox, ds[k].ev.entryID)
    ensures Deliver(outbox, ds) == outbox
  {
    if ds != [] {
      var n := |ds| - 1;
      assert forall k :: 0 <= k < n ==> ds[..n][k] == ds[k];
      RedeliveryAddsNothing(outbox, ds[..n]);
    }
  }

  lemma {:induction false} DeliverAppend(outbox: seq<Row>, ds: seq<Delivery>, more: seq<Delivery>)
    ensures Deliver(outbox, ds + more) == Deliver(Deliver(outbox, ds), more)
  {
    if more == [] {
      assert ds + more == ds;
    } else {
      var n := |more| - 1;
      DeliverAppend(outbox, ds, more[..n]);
      assert (ds + more)[..|ds| + n] == ds + more[..n];
    }
  }

  lemma {:induction false} DeliverGrows(outbox: seq<Row>, ds: seq<Delivery>)
    ensures outbox <= Deliver(outbox, ds)
  {
    if ds != [] {
      DeliverGrows(outbox, ds[..|ds| - 1]);
    }
  }

  function Payloads(outbox: seq<Row>): set<PendingEvent> {
    set i | 0 <= i < |outbox| :: outbox[i].ev
  }

  function Landed(ds: seq<Delivery>): set<PendingEvent> {
    set k | 0 <= k < |ds| && ds[k].Lands() :: ds[k].Payload()
  }

  // Equal ids carry equal payloads.
  predicate Consistent(ds: seq<Delivery>) {
    forall j, k | 0 <= j < |ds| && 0 <= k < |ds| && ds[j].Lands() && ds[k].Lands() ::
      ds[j].ev.entryID == ds[k].ev.entryID ==> ds[j].Payload() == ds[k].Payload()
  }

  lemma RowPayloadLanded(ds: seq<Delivery>, row: Row)
    requires FromFirst(ds, row)
    ensures row.ev in Landed(ds)
  {
    var k :| 0 <= k < |ds| && Source(ds, k, row);
    assert ds[k].Lands();
  }

  lemma LandedIsARow(ds: seq<Delivery>, o: seq<Row>, k: nat)
    requires Consistent(ds) && Explained([], ds, o) && k < |ds| && ds[k].Lands()
    ensures ds[k].Payload() in Payloads(o)
  {
    assert HasEntry(o, ds[k].ev.entryID);
    var i :| 0 <= i < |o| && o[i].ev.entryID == ds[k].ev.entryID;
    assert FromFirst(ds, o[i]);
    var m :| 0 <= m < |ds| && Source(ds, m, o[i]);
    assert ds[m].Payload() == ds[k].Payload();
  }

  // With consistent payloads the table holds exactly the payloads that landed, whatever the order
  // and multiplicity of the deliveries.
  lemma PayloadsAreLanded(ds: seq<Delivery>)
    requires Consistent(ds)
    ensures Payloads(Deliver([], ds)) == Landed(ds)
  {
    FirstWins([], ds);
    var o := Deliver([], ds);
    forall x | x in Payloads(o) ensures x in Landed(ds) {
      var i :| 0 <= i < |o| && o[i].ev == x;
      RowPayloadLanded(ds, o[i]);
    }
    forall x | x in Landed(ds) ensures x in Payloads(o) {
      var k :| 0 <= k < |ds| && ds[k].Lands() && ds[k].Payload() == x;
      LandedIsARow(ds, o, k);
    }
  }

  lemma OrderAndMultiplicityIrrelevant(ds: seq<Delivery>, es: seq<Delivery>)
    requires Consistent(ds) && Consistent(es) && Landed(ds) == Landed(es)
    ensures Payloads(Deliver([], ds)) == Payloads(Deliver([], es))
    ensures |Deliver([], ds)| == |Deliver([], es)|
  {
    PayloadsAreLanded(ds);
    PayloadsAreLanded(es);
    RowsAreCounted(ds);
    RowsAreCounted(es);
  }

  lemma RowsAreCounted(ds: seq<Delivery>)
    ensures |Payloads(Deliver([], ds))| == |Deliver([], ds)|
  {
    FirstWins([], ds);
    var o := Deliver([], ds);
    var events := seq(|o|, i requires 0 <= i < |o| => o[i].ev);
    forall i, j | 0 <= i < j < |events| ensures events[i] != events[j] {
      assert o[i].ev.entryID != o[j].ev.entryID;
    }
    DistinctCardinality(events);
    assert ToSet(events) == Payloads(o) by {
      forall x | x in Payloads(o) ensures x in events {
        var i :| 0 <= i < |o| && o[i].ev == x;
        assert events[i] == x;
      }
    }
  }
}
