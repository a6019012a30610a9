// Exactly-once charging over every run, and exactly which tenant ids it rests on.
module ExactlyOnce {
  import opened Basics
  import opened Billing
  import opened BillingRuns
  import opened Recording

  function UsageCount(log: seq<UsageRecord>, key: string): nat {
    if log == [] then 0
    else UsageCount(log[..|log| - 1], key) + if log[|log| - 1].idemKey == key then 1 else 0
  }

  function OneShotCount(log: seq<OneShotRecord>, key: string): nat {
    if log == [] then 0
    else OneShotCount(log[..|log| - 1], key) + if log[|log| - 1].idemKey == key then 1 else 0
  }

  // Everything the provider holds against one row.
  function Charges(b: Books, ev: PendingEvent): nat {
    UsageCount(b.usage, UsageKey(ev)) + OneShotCount(b.oneShots, OneShotKey(ev))
  }

  lemma {:induction false} UsageCounted(log: seq<UsageRecord>, key: string)
    requires UsageDistinct(log)
    ensures UsageCount(log, key) == if HasUsage(log, key) then 1 else 0
  {
    if log != [] {
      var n := |log| - 1;
      UsageCounted(log[..n], key);
      if HasUsage(log[..n], key) {
        var i :| 0 <= i < n && log[..n][i].idemKey == key;
        assert log[i].idemKey == key;
      } else {
        assert forall i :: 0 <= i < n ==> log[..n][i] == log[i];
      }
    }
  }

  lemma {:induction false} OneShotCounted(log: seq<OneShotRecord>, key: string)
    requires OneShotDistinct(log)
    ensures OneShotCount(log, key) == if HasOneShot(log, key) then 1 else 0
  {
    if log != [] {
      var n := |log| - 1;
      OneShotCounted(log[..n], key);
      if HasOneShot(log[..n], key) {
        var i :| 0 <= i < n && log[..n][i].idemKey == key;
        assert log[i].idemKey == key;
      } else {
        assert forall i :: 0 <= i < n ==> log[..n][i] == log[i];
      }
    }
  }

  // ---------------------------------------------------------------- idempotency keys

  predicate TagsDistinct(outbox: seq<Row>) {
    forall i, j :: 0 <= i < j < |outbox| ==> Tag(outbox[i].ev) != Tag(outbox[j].ev)
  }

  lemma SameKeySameTag(e: PendingEvent, f: PendingEvent)
    ensures UsageKey(e) == UsageKey(f) <==> Tag(e) == Tag(f)
    ensures OneShotKey(e) == OneShotKey(f) <==> Tag(e) == Tag(f)
  {
    assert UsageKey(e)[|"usage:"|..] == Tag(e) && UsageKey(f)[|"usage:"|..] == Tag(f);
    assert OneShotKey(e)[|"oneshot:"|..] == Tag(e) && OneShotKey(f)[|"oneshot:"|..] == Tag(f);
  }

  // Two tenants can produce the same key if and only if one tenant id, closed by ':', begins the other.
  lemma CollisionIff(t: string, u: string)
    requires t != u
    ensures (exists e: string, f: string :: t + ":" + e == u + ":" + f) <==> (t + ":" <= u || u + ":" <= t)
  {
    if e: string, f: string :| t + ":" + e == u + ":" + f {
      var w := t + ":" + e;
      assert w[..|t|] == t && w[|t|] == ':' && w[..|u|] == u && w[|u|] == ':';
      if |t| < |u| {
        assert t + ":" == w[..|t| + 1] == u[..|t| + 1];
      } else if |u| < |t| {
        assert u + ":" == w[..|u| + 1] == t[..|u| + 1];
      }
    }
    if t + ":" <= u {
      var e := u[|t| + 1..] + ":";
      assert t + ":" + e == u + ":" + "";
    } else if u + ":" <= t {
      var f := t[|u| + 1..] + ":";
      assert t + ":" + "" == u + ":" + f;
    }
  }

  // One tenant id, closed by ':', begins the other.
  predicate Begins(t: string, u: string) {
    t != "" && t != u && t + ":" <= u
  }

  // No tenant id of the set does that to another: in particular, ids without ':' do not.
  predicate Apart(tenants: set<string>) {
    forall t, u :: t in tenants && u in tenants ==> !Begins(t, u)
  }

  lemma ColonInside(t: string, u: string)
    requires t + ":" <= u
    ensures ':' in u
  {
    assert u[|t|] == (t + ":")[|t|];
  }

  lemma PlainTenantsAreApart(tenants: set<string>)
    requires forall t :: t in tenants ==> ':' !in t
    ensures Apart(tenants)
  {
    forall t, u | t in tenants && u in tenants ensures !Begins(t, u) {
      if t + ":" <= u {
        ColonInside(t, u);
      }
    }
  }

  predicate TenantsFrom(outbox: seq<Row>, tenants: set<string>) {
    forall i :: 0 <= i < |outbox| ==>
      outbox[i].ev.tenantID in tenants && outbox[i].ev.tenantID != "" && outbox[i].ev.sku != ""
  }

  lemma ApartGivesDistinctTags(outbox: seq<Row>, tenants: set<string>)
    requires TenantsFrom(outbox, tenants) && Apart(tenants) && EntriesDistinct(outbox)
    ensures TagsDistinct(outbox)
  {
    forall i, j | 0 <= i < j < |outbox| ensures Tag(outbox[i].ev) != Tag(outbox[j].ev) {
      var e, f := outbox[i].ev, outbox[j].ev;
      if e.tenantID == f.tenantID {
        assert Tag(e)[|e.tenantID| + 1..] == e.entryID && Tag(f)[|f.tenantID| + 1..] == f.entryID;
      } else if Tag(e) == Tag(f) {
        CollisionIff(e.tenantID, f.tenantID);
      }
    }
  }

  // Every event that the outbox takes comes from these tenants.
  predicate RecordsFrom(steps: seq<Step>, tenants: set<string>) {
    forall k :: 0 <= k < |steps| && steps[k].Record? && Complete(steps[k].ev) ==> steps[k].ev.tenantID in tenants
  }

  lemma {:induction false} RowsComeFrom(steps: seq<Step>, tenants: set<string>)
    requires RecordsFrom(steps, tenants)
    ensures TenantsFrom(Run(START, steps).books.outbox, tenants)
  {
    if steps != [] {
      var n := |steps| - 1;
      assert forall k :: 0 <= k < n ==> steps[..n][k] == steps[k];
      RowsComeFrom(steps[..n], tenants);
      RunSnapshotted(steps[..n]);
      SnapshotStep(Run(START, steps[..n]), steps[n]);
    }
  }

  // ---------------------------------------------------------------- the main result

  // No SKU may get both a metered and a one-shot plan. The two have separate keys and logs.
  ghost predicate OneCharge(kinds: Kinds) {
    forall sku :: sku != "" ==> !(Metered in kinds(sku) && OneShot in kinds(sku))
  }

  predicate OwnCharges(kinds: Kinds, b: Books, row: Row) {
    && (forall a :: 0 <= a < |b.usage| && b.usage[a].idemKey == UsageKey(row.ev) ==> BacksUsage(kinds, row, b.usage[a]))
    && (forall a :: 0 <= a < |b.oneShots| && b.oneShots[a].idemKey == OneShotKey(row.ev) ==>
          BacksOneShot(kinds, row, b.oneShots[a]))
  }

  predicate ChargedOnce(kinds: Kinds, b: Books, row: Row) {
    && Charges(b, row.ev) <= 1
    && (row.Billed() && Skip !in kinds(row.ev.sku) ==> Charges(b, row.ev) == 1)
    && (kinds(row.ev.sku) <= {Skip} ==> Charges(b, row.ev) == 0)
    && OwnCharges(kinds, b, row)
  }

  // With distinct tags, a charge under a row's key is that row's.
  lemma UsageIsOwn(kinds: Kinds, b: Books, i: nat, a: nat)
    requires Backed(kinds, b) && TagsDistinct(b.outbox) && i < |b.outbox| && a < |b.usage|
    requires b.usage[a].idemKey == UsageKey(b.outbox[i].ev)
    ensures BacksUsage(kinds, b.outbox[i], b.usage[a])
  {
    assert UsageBacked(kinds, b.outbox, b.usage[a]);
    var j :| 0 <= j < |b.outbox| && BacksUsage(kinds, b.outbox[j], b.usage[a]);
    SameKeySameTag(b.outbox[i].ev, b.outbox[j].ev);
  }

  lemma OneShotIsOwn(kinds: Kinds, b: Books, i: nat, a: nat)
    requires Backed(kinds, b) && TagsDistinct(b.outbox) && i < |b.outbox| && a < |b.oneShots|
    requires b.oneShots[a].idemKey == OneShotKey(b.outbox[i].ev)
    ensures BacksOneShot(kinds, b.outbox[i], b.oneShots[a])
  {
    assert OneShotBacked(kinds, b.outbox, b.oneShots[a]);
    var j :| 0 <= j < |b.outbox| && BacksOneShot(kinds, b.outbox[j], b.oneShots[a]);
    SameKeySameTag(b.outbox[i].ev, b.outbox[j].ev);
  }

  lemma ChargesAreOwn(kinds: Kinds, b: Books, i: nat)
    requires Backed(kinds, b) && TagsDistinct(b.outbox) && i < |b.outbox|
    ensures OwnCharges(kinds, b, b.outbox[i])
  {
    forall a | 0 <= a < |b.usage| && b.usage[a].idemKey == UsageKey(b.outbox[i].ev)
      ensures BacksUsage(kinds, b.outbox[i], b.usage[a])
    {
      UsageIsOwn(kinds, b, i, a);
    }
    forall a | 0 <= a < |b.oneShots| && b.oneShots[a].idemKey == OneShotKey(b.outbox[i].ev)
      ensures BacksOneShot(kinds, b.outbox[i], b.oneShots[a])
    {
      OneShotIsOwn(kinds, b, i, a);
    }
  }

  lemma RowChargedOnce(kinds: Kinds, s: Sys, i: nat)
    requires Inv(kinds, s) && TagsDistinct(s.books.outbox) && i < |s.books.outbox|
    requires OneCharge(kinds) && s.books.outbox[i].ev.sku != ""
    ensures ChargedOnce(kinds, s.books, s.books.outbox[i])
  {
    var b, row := s.books, s.books.outbox[i];
    UsageCounted(b.usage, UsageKey(row.ev));
    OneShotCounted(b.oneShots, OneShotKey(row.ev));
    ChargesAreOwn(kinds, b, i);
  }

  predicate EveryRowOnce(kinds: Kinds, b: Books) {
    forall i :: 0 <= i < |b.outbox| ==> ChargedOnce(kinds, b, b.outbox[i])
  }

  // Over any run from the empty pipeline whose tenants are apart and whose SKUs keep to one way of
  // charging, every row has at most one charge, a billed row exactly one (unless its plan may be
  // skip) with the recorded units, and the provider holds nothing that no row accounts for.
  lemma ChargesExactlyOnce(kinds: Kinds, steps: seq<Step>, tenants: set<string>)
    requires Honest(kinds, START, steps) && RecordsFrom(steps, tenants) && Apart(tenants) && OneCharge(kinds)
    ensures Backed(kinds, Run(START, steps).books) && EveryRowOnce(kinds, Run(START, steps).books)
  {
    var s := Run(START, steps);
    RunKeeps(kinds, START, steps);
    RowsComeFrom(steps, tenants);
    ApartGivesDistinctTags(s.books.outbox, tenants);
    forall i | 0 <= i < |s.books.outbox| ensures ChargedOnce(kinds, s.books, s.books.outbox[i]) {
      RowChargedOnce(kinds, s, i);
    }
  }

  // The Record steps of a run, as deliveries.
  function Deliveries(steps: seq<Step>): seq<Delivery> {
    if steps == [] then []
    else
      var n := |steps| - 1;
      Deliveries(steps[..n]) + if steps[n].Record? then [Delivery(steps[n].ev, steps[n].now, steps[n].dbOk)] else []
  }

  // Passes, failed writes and crashes never touch payloads: every row of every run still holds
  // what was first recorded under its entry id.
  lemma {:induction false} PayloadsAreFirstRecorded(steps: seq<Step>)
    ensures var s := Run(START, steps);
      SamePayloads(Deliver([], Deliveries(steps)), s.books.outbox)
  {
    if steps != [] {
      var n := |steps| - 1;
      PayloadsAreFirstRecorded(steps[..n]);
      var s := Run(START, steps[..n]);
      RunSnapshotted(steps[..n]);
      SnapshotStep(s, steps[n]);
      if steps[n].Record? {
        var ds := Deliveries(steps);
        assert ds[..|ds| - 1] == Deliveries(steps[..n]);
        SameEntries(Deliver([], Deliveries(steps[..n])), s.books.outbox, steps[n].ev.entryID);
      } else {
        assert Deliveries(steps) == Deliveries(steps[..n]);
      }
    }
  }

  lemma SameEntries(o: seq<Row>, p: seq<Row>, entryID: string)
    requires SamePayloads(o, p)
    ensures HasEntry(o, entryID) == HasEntry(p, entryID)
  {
    if HasEntry(o, entryID) {
      var i :| 0 <= i < |o| && o[i].ev.entryID == entryID;
      assert p[i].ev.entryID == entryID;
    }
  }

  lemma FirstRecordedWins(steps: seq<Step>, i: nat)
    requires i < |Run(START, steps).books.outbox|
    ensures FromFirst(Deliveries(steps), Run(START, steps).books.outbox[i])
  {
    PayloadsAreFirstRecorded(steps);
    FirstWins([], Deliveries(steps));
    var o := Deliver([], Deliveries(steps));
    assert FromFirst(Deliveries(steps), o[i]);
    var k :| 0 <= k < |Deliveries(steps)| && Source(Deliveries(steps), k, o[i]);
    assert Source(Deliveries(steps), k, Run(START, steps).books.outbox[i]);
  }

  // ---------------------------------------------------------------- why tenant ids matter

  function RowKeys(outbox: seq<Row>): seq<string> {
    seq(|outbox|, i requires 0 <= i < |outbox| => UsageKey(outbox[i].ev))
  }

  function Keys(log: seq<UsageRecord>): seq<string> {
    seq(|log|, i requires 0 <= i < |log| => log[i].idemKey)
  }

  predicate AllBilledMetered(kinds: Kinds, outbox: seq<Row>) {
    forall i :: 0 <= i < |outbox| ==> outbox[i].Billed() && kinds(outbox[i].ev.sku) <= {Metered}
  }

  lemma ChargeIsOfARow(kinds: Kinds, b: Books, a: nat)
    requires Backed(kinds, b) && a < |b.usage|
    ensures b.usage[a].idemKey in RowKeys(b.outbox)
  {
    assert UsageBacked(kinds, b.outbox, b.usage[a]);
    var i :| 0 <= i < |b.outbox| && BacksUsage(kinds, b.outbox[i], b.usage[a]);
    assert RowKeys(b.outbox)[i] == b.usage[a].idemKey;
  }

  lemma RowHasACharge(kinds: Kinds, b: Books, i: nat)
    requires BilledCharged(kinds, b) && AllBilledMetered(kinds, b.outbox) && i < |b.outbox|
    ensures UsageKey(b.outbox[i].ev) in Keys(b.usage)
  {
    assert b.outbox[i].Billed() && Charged(kinds, b, b.outbox[i].ev);
    var a :| 0 <= a < |b.usage| && b.usage[a].idemKey == UsageKey(b.outbox[i].ev);
    assert Keys(b.usage)[a] == b.usage[a].idemKey;
  }

  lemma ChargesMatchRows(kinds: Kinds, s: Sys)
    requires Inv(kinds, s) && AllBilledMetered(kinds, s.books.outbox)
    ensures ToSet(Keys(s.books.usage)) == ToSet(RowKeys(s.books.outbox))
  {
    var b := s.books;
    var keys, rowKeys := Keys(b.usage), RowKeys(b.outbox);
    forall k | k in keys ensures k in rowKeys {
      var a :| 0 <= a < |keys| && keys[a] == k;
      ChargeIsOfARow(kinds, b, a);
    }
    forall k | k in rowKeys ensures k in keys {
      var i :| 0 <= i < |rowKeys| && rowKeys[i] == k;
      RowHasACharge(kinds, b, i);
    }
  }

  lemma RowKeysDistinctIff(outbox: seq<Row>)
    ensures Distinct(RowKeys(outbox)) <==> TagsDistinct(outbox)
  {
    var keys := RowKeys(outbox);
    forall i, j | 0 <= i < j < |outbox| ensures keys[i] == keys[j] <==> Tag(outbox[i].ev) == Tag(outbox[j].ev) {
      SameKeySameTag(outbox[i].ev, outbox[j].ev);
    }
  }

  // Once every row of a metered outbox is billed, the provider holds one charge a row if and only
  // if no two rows share a tag; otherwise it holds fewer, and some billed row was never charged.
  lemma EveryRowChargedIff(kinds: Kinds, steps: seq<Step>)
    requires Honest(kinds, START, steps)
    requires AllBilledMetered(kinds, Run(START, steps).books.outbox)
    ensures var b := Run(START, steps).books;
      |b.usage| <= |b.outbox| && (|b.usage| == |b.outbox| <==> TagsDistinct(b.outbox))
  {
    var s := Run(START, steps);
    RunKeeps(kinds, START, steps);
    ChargesMatchRows(kinds, s);
    var keys, rowKeys := Keys(s.books.usage), RowKeys(s.books.outbox);
    DistinctCardinality(keys);
    AtMostLength(rowKeys);
    RowKeysDistinctIff(s.books.outbox);
    if Distinct(rowKeys) {
      DistinctCardinality(rowKeys);
    } else {
      RepeatShrinks(rowKeys);
    }
  }

  const METERED: Kinds := _ => {Metered}
  const PLAIN: Result<DispatchPlan> := Ok(DispatchPlan("metered", "", "", 0, ""))
  const TWO_ROW_PASS: seq<Step> :=
    [Select(1, 2), Attempt(PLAIN, NoFault), Write(true, 0), Attempt(PLAIN, NoFault), Write(true, 0)]

  function DoAll(s: Sys, steps: seq<Step>): Sys
    decreases |steps|
  {
    if steps == [] then s else DoAll(Do(s, steps[0]), steps[1..])
  }

  lemma {:induction false} RunThenDoAll(before: seq<Step>, steps: seq<Step>)
    ensures Run(START, before + steps) == DoAll(Run(START, before), steps)
    decreases |steps|
  {
    if steps == [] {
      assert before + steps == before;
    } else {
      RunSnoc(START, before, steps[0]);
      RunThenDoAll(before + [steps[0]], steps[1..]);
      assert before + [steps[0]] + steps[1..] == before + steps;
    }
  }

  lemma TwoRowPassLoses(p: Row, q: Row)
    requires p.id == 1 && q.id == 2 && p.Waiting() && q.Waiting() && UsageKey(p.ev) == UsageKey(q.ev) != ""
    ensures var b := DoAll(Sys(Books([p, q], [], []), Idle), TWO_ROW_PASS).books;
      LosesACharge(b) && b.outbox[0].ev == p.ev && b.outbox[1].ev == q.ev
  {
    assert Pending([p, q]) == [p, q] by {
      assert [p][..0] == [] && [p, q][..1] == [p];
      assert Pending([p]) == [p];
    }
    var s0 := Sys(Books([p, q], [], []), Idle);
    var s1 := Sys(s0.books, Open(1, [p, q]));
    var charge := UsageFor(p.ev, PLAIN.value);
    var paid := p.(billedAt := Some(0));
    var s2 := Sys(Books([p, q], [charge], []), Settling(1, p, [q], None));
    var s3 := Sys(Books([paid, q], [charge], []), Open(1, [q]));
    var s4 := Sys(s3.books, Settling(1, q, [], None));
    assert Do(s0, Select(1, 2)) == s1;
    assert Do(s1, Attempt(PLAIN, NoFault)) == s2;
    assert Do(s2, Write(true, 0)) == s3;
    assert Do(s3, Attempt(PLAIN, NoFault)) == s4 by {
      assert [charge][0].idemKey == UsageKey(q.ev);
      assert [q][1..] == [];
    }
    var w := Write(true, 0);
    var t := Attempt(PLAIN, NoFault);
    assert TWO_ROW_PASS[1..] == [t, w, t, w] && [t, w, t, w][1..] == [w, t, w]
      && [w, t, w][1..] == [t, w] && [t, w][1..] == [w];
    assert DoAll(s4, [w]) == DoAll(Do(s4, w), []);
    assert DoAll(s3, [t, w]) == DoAll(s4, [w]);
    assert DoAll(s2, [w, t, w]) == DoAll(s3, [t, w]);
    assert DoAll(s1, [t, w, t, w]) == DoAll(s2, [w, t, w]);
  }

  function FreshRow(id: int, e: LedgerEvent): Row {
    Row(id, Stamped(e, 0), e.taskID, None, 0, "", None, None)
  }

  predicate Billable(e: LedgerEvent) {
    e.result == "bill" && Complete(e)
  }

  lemma TwoRecords(e: LedgerEvent, f: LedgerEvent)
    requires Billable(e) && Billable(f) && e.entryID != f.entryID
    ensures Run(START, [Record(e, 0, true), Record(f, 0, true)])
         == Sys(Books([FreshRow(1, e), FreshRow(2, f)], [], []), Idle)
  {
    var r, t := Record(e, 0, true), Record(f, 0, true);
    var p := FreshRow(1, e);
    assert [] + [r] == [r] && [r] + [t] == [r, t];
    RunSnoc(START, [], r);
    assert Recorded([], e, 0, true) == [p];
    RunSnoc(START, [r], t);
    assert !HasEntry([p], f.entryID);
  }

  function LosingRun(e: LedgerEvent, f: LedgerEvent): seq<Step> {
    [Record(e, 0, true), Record(f, 0, true)] + TWO_ROW_PASS
  }

  // Two rows are billed, and the provider holds one charge, that of the first.
  predicate LosesACharge(b: Books) {
    && |b.outbox| == 2 && b.outbox[0].Billed() && b.outbox[1].Billed() && b.oneShots == []
    && b.usage == [UsageFor(b.outbox[0].ev, PLAIN.value)] && b.usage[0].idemKey == UsageKey(b.outbox[1].ev)
  }

  // And sharing a tag is possible: any two complete events with one tag but different entry ids
  // lead to a run that bills both rows and charges one.
  lemma SharedTagLosesACharge(e: LedgerEvent, f: LedgerEvent)
    requires Billable(e) && Billable(f) && e.entryID != f.entryID
    requires Tag(Stamped(e, 0)) == Tag(Stamped(f, 0))
    ensures Honest(METERED, START, LosingRun(e, f))
    ensures var b := Run(START, LosingRun(e, f)).books;
      LosesACharge(b) && b.outbox[0].ev == Stamped(e, 0) && b.outbox[1].ev == Stamped(f, 0)
  {
    TwoRecords(e, f);
    RunThenDoAll([Record(e, 0, true), Record(f, 0, true)], TWO_ROW_PASS);
    SameKeySameTag(Stamped(e, 0), Stamped(f, 0));
    TwoRowPassLoses(FreshRow(1, e), FreshRow(2, f));
    PlainPlansAreHonest(START, LosingRun(e, f));
  }

  lemma {:induction false} PlainPlansAreHonest(s: Sys, steps: seq<Step>)
    requires forall k :: 0 <= k < |steps| && steps[k].Attempt? ==> steps[k].plan == PLAIN
    ensures Honest(METERED, s, steps)
  {
    if steps != [] {
      PlainPlansAreHonest(s, steps[..|steps| - 1]);
    }
  }

  // ---------------------------------------------------------------- exactly when it is exactly once

  function BillFrom(tenantID: string, entryID: string, sku: string): LedgerEvent {
    LedgerEvent(entryID, "", tenantID, sku, "bill", 0, "meter", Some(0))
  }

  lemma LostForTenant(kinds: Kinds, b: Books)
    requires LosesACharge(b) && b.outbox[0].ev.tenantID != b.outbox[1].ev.tenantID
    ensures !EveryRowOnce(kinds, b)
  {
    assert !BacksUsage(kinds, b.outbox[1], b.usage[0]);
    assert !ChargedOnce(kinds, b, b.outbox[1]);
  }

  // Tenants that are not apart have an honest run that loses a charge.
  lemma BeginningLoses(t: string, u: string)
    requires Begins(t, u)
    ensures exists steps ::
      && Honest(METERED, START, steps) && RecordsFrom(steps, {t, u})
      && !EveryRowOnce(METERED, Run(START, steps).books)
  {
    var rest := u[|t| + 1..];
    var e, f := BillFrom(t, rest + ":x", "sku"), BillFrom(u, "x", "sku");
    assert u == t + ":" + rest;
    assert t + ":" + (rest + ":x") == u + ":" + "x";
    SharedTagLosesACharge(e, f);
    LostForTenant(METERED, Run(START, LosingRun(e, f)).books);
    assert RecordsFrom(LosingRun(e, f), {t, u});
  }

  // In every run with these plans over these tenants, every row is charged once.
  ghost predicate AlwaysOnce(kinds: Kinds, tenants: set<string>) {
    forall steps: seq<Step> ::
      Honest(kinds, START, steps) && RecordsFrom(steps, tenants) ==> EveryRowOnce(kinds, Run(START, steps).books)
  }

  lemma ApartIsAlwaysOnce(kinds: Kinds, tenants: set<string>)
    requires Apart(tenants) && OneCharge(kinds)
    ensures AlwaysOnce(kinds, tenants)
  {
    forall steps: seq<Step> | Honest(kinds, START, steps) && RecordsFrom(steps, tenants)
      ensures EveryRowOnce(kinds, Run(START, steps).books)
    {
      ChargesExactlyOnce(kinds, steps, tenants);
    }
  }

  // With one way of charging a SKU, charging is exactly once in all runs over a set of tenants if and
  // only if the tenants are apart.
  lemma ExactlyOnceIff(tenants: set<string>)
    ensures (forall kinds: Kinds :: OneCharge(kinds) ==> AlwaysOnce(kinds, tenants)) <==> Apart(tenants)
  {
    if Apart(tenants) {
      forall kinds: Kinds | OneCharge(kinds) ensures AlwaysOnce(kinds, tenants) {
        ApartIsAlwaysOnce(kinds, tenants);
      }
    } else {
      var t, u :| t in tenants && u in tenants && Begins(t, u);
      BeginningLoses(t, u);
      var steps :| Honest(METERED, START, steps) && RecordsFrom(steps, {t, u})
        && !EveryRowOnce(METERED, Run(START, steps).books);
      assert RecordsFrom(steps, tenants);
      assert OneCharge(METERED) && !AlwaysOnce(METERED, tenants);
    }
  }

  // ---------------------------------------------------------------- why the kind of plan matters

  function Dies(plan: DispatchPlan): seq<Step> {
    [Select(1, 1), Attempt(Ok(plan), NoFault), Crash]
  }

  function Restarted(plan: DispatchPlan): seq<Step> {
    [Select(1, 1), Attempt(Ok(plan), NoFault), Write(true, 0)]
  }

  // The process dies between the first emit and the UPDATE; after the restart, the same row gets
  // another plan.
  function DoubleRun(e: LedgerEvent, first: DispatchPlan, second: DispatchPlan): seq<Step> {
    [Record(e, 0, true)] + Dies(first) + Restarted(second)
  }

  // One billed row, charged once in each log.
  predicate ChargesTwice(b: Books) {
    && |b.outbox| == 1 && b.outbox[0].Billed()
    && |b.usage| == 1 && b.usage[0].idemKey == UsageKey(b.outbox[0].ev)
    && |b.oneShots| == 1 && b.oneShots[0].idemKey == OneShotKey(b.outbox[0].ev)
  }

  function EmittedOnce(p: Row, plan: DispatchPlan): Sys {
    Sys(Books([p], [UsageFor(p.ev, plan)], []), Idle)
  }

  lemma PendingOne(p: Row)
    requires p.Waiting()
    ensures Pending([p]) == [p] && [p][1..] == []
  {
    assert [p][..0] == [];
  }

  lemma EmitThenDie(p: Row, plan: DispatchPlan)
    requires p.id == 1 && p.Waiting() && KindOf(plan.kind) == Metered
    ensures Do(Do(Do(Sys(Books([p], [], []), Idle), Select(1, 1)), Attempt(Ok(plan), NoFault)), Crash)
         == EmittedOnce(p, plan)
  {
    PendingOne(p);
  }

  lemma EmitAgain(p: Row, first: DispatchPlan, plan: DispatchPlan)
    requires p.id == 1 && p.Waiting() && KindOf(plan.kind) == OneShot
    ensures ChargesTwice(
      Do(Do(Do(EmittedOnce(p, first), Select(1, 1)), Attempt(Ok(plan), NoFault)), Write(true, 0)).books)
  {
    PendingOne(p);
    var emitted := Do(Do(EmittedOnce(p, first), Select(1, 1)), Attempt(Ok(plan), NoFault));
    assert emitted.pass == Settling(1, p, [], None);
    assert emitted.books.oneShots == AddOneShot([], OneShotFor(p.ev, plan));
  }

  lemma DoThree(s: Sys, a: Step, b: Step, c: Step)
    ensures DoAll(s, [a, b, c]) == Do(Do(Do(s, a), b), c)
  {
    assert [a, b, c][1..] == [b, c] && [b, c][1..] == [c] && [c][1..] == [];
    assert DoAll(Do(Do(s, a), b), [c]) == DoAll(Do(Do(Do(s, a), b), c), []);
    assert DoAll(Do(s, a), [b, c]) == DoAll(Do(Do(s, a), b), [c]);
  }

  lemma OneRecord(e: LedgerEvent)
    requires Billable(e)
    ensures Run(START, [Record(e, 0, true)]) == Sys(Books([FreshRow(1, e)], [], []), Idle)
  {
    RunSnoc(START, [], Record(e, 0, true));
    assert [] + [Record(e, 0, true)] == [Record(e, 0, true)];
  }

  // A metered plan, then a one-shot plan: the row is charged under both.
  lemma RestartDoubles(e: LedgerEvent, first: DispatchPlan, second: DispatchPlan)
    requires Billable(e) && KindOf(first.kind) == Metered && KindOf(second.kind) == OneShot
    ensures ChargesTwice(Run(START, DoubleRun(e, first, second)).books)
  {
    var p, r, die, restart := FreshRow(1, e), [Record(e, 0, true)], Dies(first), Restarted(second);
    OneRecord(e);
    RunThenDoAll(r, die);
    RunThenDoAll(r + die, restart);
    DoThree(Run(START, r), die[0], die[1], die[2]);
    EmitThenDie(p, first);
    DoThree(EmittedOnce(p, first), restart[0], restart[1], restart[2]);
    EmitAgain(p, first, second);
  }

  predicate RecordsOnly(steps: seq<Step>, e: LedgerEvent) {
    forall k :: 0 <= k < |steps| && steps[k].Record? ==> steps[k].ev == e && steps[k].now == 0
  }

  // Where only one event is recorded, every attempt is for that event.
  lemma {:induction false} OneEventRows(steps: seq<Step>, e: LedgerEvent)
    requires RecordsOnly(steps, e)
    ensures forall i :: 0 <= i < |Run(START, steps).books.outbox| ==>
      Run(START, steps).books.outbox[i].ev == Stamped(e, 0)
  {
    if steps != [] {
      var before, step := steps[..|steps| - 1], steps[|steps| - 1];
      assert forall k :: 0 <= k < |before| ==> before[k] == steps[k];
      OneEventRows(before, e);
      RunSnapshotted(before);
      SnapshotStep(Run(START, before), step);
    }
  }

  lemma AttemptIsFor(steps: seq<Step>, e: LedgerEvent)
    requires RecordsOnly(steps, e)
    ensures var s := Run(START, steps);
      s.pass.Open? && s.pass.todo != [] ==> s.pass.todo[0].ev == Stamped(e, 0)
  {
    OneEventRows(steps, e);
    RunSnapshotted(steps);
    var s := Run(START, steps);
    if s.pass.Open? && s.pass.todo != [] {
      assert Current(s.books.outbox, s.pass.todo[0]);
    }
  }

  predicate PlansFit(kinds: Kinds, steps: seq<Step>, ev: PendingEvent) {
    forall k :: 0 <= k < |steps| && steps[k].Attempt? ==> Fits(kinds, ev, steps[k].plan)
  }

  lemma {:induction false} OneEventIsHonest(kinds: Kinds, steps: seq<Step>, e: LedgerEvent)
    requires RecordsOnly(steps, e) && PlansFit(kinds, steps, Stamped(e, 0))
    ensures Honest(kinds, START, steps)
  {
    if steps != [] {
      var before := steps[..|steps| - 1];
      assert forall k :: 0 <= k < |before| ==> before[k] == steps[k];
      OneEventIsHonest(kinds, before, e);
      AttemptIsFor(before, e);
    }
  }

  lemma TwiceIsNotOnce(kinds: Kinds, b: Books)
    requires ChargesTwice(b)
    ensures !EveryRowOnce(kinds, b)
  {
    var ev := b.outbox[0].ev;
    assert UsageDistinct(b.usage) && OneShotDistinct(b.oneShots);
    UsageCounted(b.usage, UsageKey(ev));
    OneShotCounted(b.oneShots, OneShotKey(ev));
    assert !ChargedOnce(kinds, b, b.outbox[0]);
  }


  lemma BothKindsDouble(kinds: Kinds, tenants: set<string>, t: string, sku: string)
    requires t in tenants && t != "" && sku != "" && Metered in kinds(sku) && OneShot in kinds(sku)
    ensures !AlwaysOnce(kinds, tenants)
  {
    var e := BillFrom(t, "x", sku);
    var steps := DoubleRun(e, PLAIN.value, DispatchPlan("oneshot", "", "", 0, ""));
    OneEventIsHonest(kinds, steps, e);
    RestartDoubles(e, PLAIN.value, DispatchPlan("oneshot", "", "", 0, ""));
    TwiceIsNotOnce(kinds, Run(START, steps).books);
    assert RecordsFrom(steps, tenants);
  }

  // Over tenants that are apart, charging is exactly once in all runs if and only if no SKU may get
  // both a metered and a one-shot plan.
  lemma KindsIff(kinds: Kinds, tenants: set<string>, t: string)
    requires Apart(tenants) && t in tenants && t != ""
    ensures AlwaysOnce(kinds, tenants) <==> OneCharge(kinds)
  {
    if OneCharge(kinds) {
      ApartIsAlwaysOnce(kinds, tenants);
    } else {
      var sku :| sku != "" && Metered in kinds(sku) && OneShot in kinds(sku);
      BothKindsDouble(kinds, tenants, t, sku);
    }
  }
}
