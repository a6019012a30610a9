// From an entry of the operator ledger to its row in the outbox, field by field.
module BillRows {
  import opened Basics
  import opened Billing
  import opened Recording
  import opened LedgerTail

  // The time by which a bill is identified, and the one it is billed for.
  predicate IdentifiedAt(b: BillEntry, t: Option<int>) {
    (b.ts.Some? ==> t == b.ts) && (b.ts.None? ==> t == b.data.occurredAt)
  }

  predicate BilledAt(b: BillEntry, now: int, t: int) {
    && (b.data.occurredAt.Some? ==> t == b.data.occurredAt.value)
    && (b.data.occurredAt.None? && b.ts.Some? ==> t == b.ts.value)
    && (b.data.occurredAt.None? && b.ts.None? ==> t == now)
  }

  // A bill that Record takes for a job of this tenant.
  predicate Whole(b: BillEntry, jobTenant: string) {
    (b.tenantID != "" || jobTenant != "") && b.data.sku != "" && b.data.meter != ""
  }

  // The row of a bill: its own tenant, or that of the job where it names none.
  ghost predicate IsRowOf(row: Row, fmt: Clock, jobTenant: string, b: BillEntry, now: int) {
    && row.ev.tenantID == (if b.tenantID != "" then b.tenantID else jobTenant) && row.taskID == b.taskID
    && row.ev.sku == b.data.sku && row.ev.meter == b.data.meter && row.ev.units == b.data.units
    && BilledAt(b, now, row.ev.ts)
    && (forall t :: IdentifiedAt(b, t) ==>
          row.ev.entryID == b.taskID + ":" + fmt(t) + ":" + b.data.sku + ":" + b.data.meter)
  }

  lemma IDText(fmt: Clock, b: BillEntry, t: Option<int>)
    requires IdentifiedAt(b, t)
    ensures BuildBillEntryID(fmt, b) == b.taskID + ":" + fmt(t) + ":" + b.data.sku + ":" + b.data.meter
    ensures BuildBillEntryID(fmt, b) != ""
  {
  }

  lemma WholeLands(fmt: Clock, jobTenant: string, b: BillEntry, now: int)
    requires Whole(b, jobTenant)
    ensures Delivery(BillEvent(fmt, jobTenant, b), now, true).Lands()
  {
    IDText(fmt, b, StampOf(b));
  }

  lemma EventFields(fmt: Clock, jobTenant: string, b: BillEntry, now: int, row: Row)
    requires row.ev == Stamped(BillEvent(fmt, jobTenant, b), now) && row.taskID == BillEvent(fmt, jobTenant, b).taskID
    ensures IsRowOf(row, fmt, jobTenant, b, now)
  {
    forall t | IdentifiedAt(b, t)
      ensures row.ev.entryID == b.taskID + ":" + fmt(t) + ":" + b.data.sku + ":" + b.data.meter
    {
      IDText(fmt, b, t);
    }
  }

  // Bill i of the batch is new: neither the outbox nor an earlier bill of the batch has its id.
  predicate New(fmt: Clock, outbox: seq<Row>, bills: seq<BillEntry>, i: nat)
    requires i < |bills|
  {
    && (forall r :: 0 <= r < |outbox| ==> outbox[r].ev.entryID != BuildBillEntryID(fmt, bills[i]))
    && (forall k :: 0 <= k < i ==> BuildBillEntryID(fmt, bills[k]) != BuildBillEntryID(fmt, bills[i]))
  }

  lemma RowOfFirst(start: seq<Row>, ds: seq<Delivery>, i: nat, o: seq<Row>) returns (r: nat)
    requires Explained(start, ds, o) && i < |ds| && ds[i].Lands()
    requires forall k :: 0 <= k < |start| ==> start[k].ev.entryID != ds[i].ev.entryID
    requires forall k :: 0 <= k < i ==> ds[k].ev.entryID != ds[i].ev.entryID
    ensures |start| <= r < |o| && o[r].ev == ds[i].Payload() && o[r].taskID == ds[i].ev.taskID
  {
    assert HasEntry(o, ds[i].ev.entryID);
    r :| 0 <= r < |o| && o[r].ev.entryID == ds[i].ev.entryID;
    assert FromFirst(ds, o[r]);
    var k :| 0 <= k < |ds| && Source(ds, k, o[r]);
    assert k == i;
  }

  // A new bill whose INSERT gets through becomes a row with its tenant, SKU, meter, units and times.
  lemma BillBecomesRow(fmt: Clock, jobTenant: string, outbox: seq<Row>, bills: seq<BillEntry>, i: nat, now: int,
                       dbOk: nat -> bool) returns (r: nat)
    requires i < |bills| && Whole(bills[i], jobTenant) && dbOk(i) && New(fmt, outbox, bills, i)
    ensures var after := Deliver(outbox, BillDeliveries(fmt, jobTenant, bills, now, dbOk));
      |outbox| <= r < |after| && IsRowOf(after[r], fmt, jobTenant, bills[i], now)
  {
    var ds := BillDeliveries(fmt, jobTenant, bills, now, dbOk);
    FirstWins(outbox, ds);
    WholeLands(fmt, jobTenant, bills[i], now);
    forall k | 0 <= k < i ensures ds[k].ev.entryID != ds[i].ev.entryID {
      assert ds[k].ev == BillEvent(fmt, jobTenant, bills[k]) && ds[i].ev == BillEvent(fmt, jobTenant, bills[i]);
    }
    r := RowOfFirst(outbox, ds, i, Deliver(outbox, ds));
    EventFields(fmt, jobTenant, bills[i], now, Deliver(outbox, ds)[r]);
  }

  lemma WholeHasRow(fmt: Clock, jobTenant: string, outbox: seq<Row>, bills: seq<BillEntry>, i: nat, now: int,
                    dbOk: nat -> bool) returns (r: nat)
    requires i < |bills| && Whole(bills[i], jobTenant) && dbOk(i)
    ensures var after := Deliver(outbox, BillDeliveries(fmt, jobTenant, bills, now, dbOk));
      r < |after| && after[r].ev.entryID == BuildBillEntryID(fmt, bills[i])
  {
    var ds := BillDeliveries(fmt, jobTenant, bills, now, dbOk);
    FirstWins(outbox, ds);
    WholeLands(fmt, jobTenant, bills[i], now);
    var after := Deliver(outbox, ds);
    assert ds[i].Lands() && HasEntry(after, ds[i].ev.entryID);
    r :| 0 <= r < |after| && after[r].ev.entryID == ds[i].ev.entryID;
  }

  // Rows p and q are different, and carry the ids of these two bills, by the times of their envelopes.
  predicate RowsOfBoth(o: seq<Row>, fmt: Clock, b: BillEntry, c: BillEntry, p: nat, q: nat) {
    && p < |o| && q < |o| && p != q
    && o[p].ev.entryID == b.taskID + ":" + fmt(b.ts) + ":" + b.data.sku + ":" + b.data.meter
    && o[q].ev.entryID == c.taskID + ":" + fmt(c.ts) + ":" + c.data.sku + ":" + c.data.meter
  }

  // Two bills of one batch whose envelopes carry different times have a row each, over any outbox.
  lemma TwoTimesTwoRows(fmt: Clock, jobTenant: string, outbox: seq<Row>, bills: seq<BillEntry>, i: nat, j: nat,
                        now: int, dbOk: nat -> bool)
    requires ClockOk(fmt) && i < |bills| && j < |bills| && PlainBill(bills[i]) && PlainBill(bills[j])
    requires Whole(bills[i], jobTenant) && Whole(bills[j], jobTenant) && dbOk(i) && dbOk(j)
    requires bills[i].ts.Some? && bills[j].ts.Some? && bills[i].ts != bills[j].ts
    ensures exists p, q ::
      RowsOfBoth(Deliver(outbox, BillDeliveries(fmt, jobTenant, bills, now, dbOk)), fmt, bills[i], bills[j], p, q)
  {
    var p := WholeHasRow(fmt, jobTenant, outbox, bills, i, now, dbOk);
    var q := WholeHasRow(fmt, jobTenant, outbox, bills, j, now, dbOk);
    BillIDsAgreeIff(fmt, bills[i], bills[j]);
    IDText(fmt, bills[i], bills[i].ts);
    IDText(fmt, bills[j], bills[j].ts);
    assert RowsOfBoth(Deliver(outbox, BillDeliveries(fmt, jobTenant, bills, now, dbOk)), fmt, bills[i], bills[j], p, q);
  }
}
