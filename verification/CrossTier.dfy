// Agreement between the hot log, the object store and the tamper detector over whole runs.
module CrossTier {
  import opened Basics
  import opened Audit
  import opened ColdTier
  import T = TamperDetect
  import R = TamperReport

  // RolledBack is an insert whose transaction rolls back: the id is spent, no row is written.
  datatype Step = Append(c: Content, fault: Fault, now: int) | RolledBack

  function Do(cfg: Config, s: Tier, step: Step): Tier {
    match step
    case Append(c, fault, now) => Appended(cfg, s, c, fault, now)
    case RolledBack => s.(nextID := s.nextID + 1)
  }

  function Run(cfg: Config, steps: seq<Step>): Tier {
    if steps == [] then EMPTY else Do(cfg, Run(cfg, steps[..|steps| - 1]), steps[|steps| - 1])
  }

  ghost predicate Sound(h: Hasher) {
    NeverEmpty(h) && PlainHashes(h)
  }

  // ---------------------------------------------------------------- what every append keeps

  // An object of the store is some row's canonical bytes, under that row's key.
  predicate Holds(cfg: Config, t: seq<Entry>, key: string, o: Object) {
    exists k :: 0 <= k < |t| && HoldsRow(cfg, t[k], key, o)
  }

  predicate HoldsRow(cfg: Config, e: Entry, key: string, o: Object) {
    key == KeyOf(cfg.day, e) && o.body == CanonicalOf(cfg.h, e) && o.etag == cfg.h.sha(o.body)
  }

  predicate RowOk(cfg: Config, e: Entry) {
    && e.hash == cfg.h.sha(CanonicalOf(cfg.h, e))
    && (e.s3etag != "" ==> e.s3etag == e.hash)
  }

  predicate IDsOk(t: seq<Entry>, nextID: int) {
    && (forall k :: 0 <= k < |t| ==> 1 <= t[k].id < nextID)
    && (forall j, k :: 0 <= j < k < |t| ==> t[j].id < t[k].id)
  }

  predicate RowsOk(cfg: Config, t: seq<Entry>) {
    forall k :: 0 <= k < |t| ==> RowOk(cfg, t[k])
  }

  predicate ObjectsOk(cfg: Config, t: seq<Entry>, objects: Objects) {
    forall key :: key in objects ==> Holds(cfg, t, key, objects[key])
  }

  predicate Inv(cfg: Config, s: Tier) {
    && Verifies(cfg.h, s.table) && IDsOk(s.table, s.nextID) && s.nextID >= 1
    && RowsOk(cfg, s.table) && ObjectsOk(cfg, s.table, s.objects) && s.lockHits == 0
  }

  // A new row's key is not in the store: its hash is new, and the key tells the hash.
  lemma KeyIsNew(cfg: Config, s: Tier, e: Entry)
    requires Inv(cfg, s) && Sound(cfg.h) && Verifies(cfg.h, s.table + [e])
    requires CollisionFree(cfg.h, s.table + [e], s.table + [e])
    ensures KeyOf(cfg.day, e) !in s.objects
  {
    var t, key := s.table + [e], KeyOf(cfg.day, e);
    if key in s.objects {
      assert Holds(cfg, s.table, key, s.objects[key]);
      var k :| 0 <= k < |s.table| && HoldsRow(cfg, s.table[k], key, s.objects[key]);
      assert t[k] == s.table[k] && t[|s.table|] == e;
      assert LinkOk(cfg.h, t, k) && LinkOk(cfg.h, t, |s.table|);
      KeyTellsHash(cfg.day, e, t[k]);
      SharedHashSharedPast(cfg.h, t, t, k, |s.table|);
    }
  }

  // The row that an append writes, and the two tiers after it, when its key is new.
  function RowFor(cfg: Config, s: Tier, c: Content, fault: Fault): Entry {
    Sealed(cfg, NextEntry(cfg.h, s.table, c, s.nextID), fault)
  }

  function Grown(cfg: Config, s: Tier, e: Entry, fault: Fault, now: int): Tier {
    Tier(s.table + [e], s.nextID + 1, Stored(cfg, s.objects, e, fault, now), s.lockHits)
  }

  lemma SameRowsSeparate(h: Hasher, t: seq<Entry>, e: Entry, f: Entry)
    requires SameRow(e, f) && CollisionFree(h, t + [e], t + [e])
    ensures CollisionFree(h, t + [f], t + [f])
  {
    var a, b := t + [e], t + [f];
    forall i, j | 0 <= i < |b| && 0 <= j < |b| ensures Separated(h, b[i], b[j]) {
      assert Separated(h, a[i], a[j]);
    }
  }

  lemma RowLinks(cfg: Config, s: Tier, c: Content, fault: Fault)
    requires Verifies(cfg.h, s.table)
    ensures Verifies(cfg.h, s.table + [RowFor(cfg, s, c, fault)])
  {
    var e := NextEntry(cfg.h, s.table, c, s.nextID);
    AppendKeepsVerifying(cfg.h, s.table, c, s.nextID);
    EtagsDoNotMatter(cfg.h, s.table + [e], s.table + [RowFor(cfg, s, c, fault)]);
  }

  lemma AppendGrows(cfg: Config, s: Tier, c: Content, fault: Fault, now: int)
    requires Inv(cfg, s) && Sound(cfg.h) && Inserts(c, fault)
    requires var t := Appended(cfg, s, c, fault, now).table; CollisionFree(cfg.h, t, t)
    ensures Appended(cfg, s, c, fault, now) == Grown(cfg, s, RowFor(cfg, s, c, fault), fault, now)
    ensures Verifies(cfg.h, s.table + [RowFor(cfg, s, c, fault)])
    ensures KeyOf(cfg.day, RowFor(cfg, s, c, fault)) !in s.objects
  {
    var e, row := NextEntry(cfg.h, s.table, c, s.nextID), RowFor(cfg, s, c, fault);
    RowLinks(cfg, s, c, fault);
    if cfg.streaming && Locked(s.objects, KeyOf(cfg.day, e), now) {
      SameRowsSeparate(cfg.h, s.table, e, row);
    }
    KeyIsNew(cfg, s, row);
  }

  lemma HoldsGrows(cfg: Config, t: seq<Entry>, e: Entry, key: string, o: Object)
    requires Holds(cfg, t, key, o) || HoldsRow(cfg, e, key, o)
    ensures Holds(cfg, t + [e], key, o)
  {
    if Holds(cfg, t, key, o) {
      var k :| 0 <= k < |t| && HoldsRow(cfg, t[k], key, o);
      assert HoldsRow(cfg, (t + [e])[k], key, o);
    } else {
      assert HoldsRow(cfg, (t + [e])[|t|], key, o);
    }
  }

  lemma ObjectsGrow(cfg: Config, s: Tier, e: Entry, fault: Fault, now: int)
    requires ObjectsOk(cfg, s.table, s.objects)
    ensures ObjectsOk(cfg, s.table + [e], Stored(cfg, s.objects, e, fault, now))
  {
    var objects := Stored(cfg, s.objects, e, fault, now);
    forall key | key in objects ensures Holds(cfg, s.table + [e], key, objects[key]) {
      HoldsGrows(cfg, s.table, e, key, objects[key]);
    }
  }

  lemma AppendKeeps(cfg: Config, s: Tier, c: Content, fault: Fault, now: int)
    requires Inv(cfg, s) && Sound(cfg.h)
    requires var t := Appended(cfg, s, c, fault, now).table; CollisionFree(cfg.h, t, t)
    ensures Inv(cfg, Appended(cfg, s, c, fault, now))
  {
    if Inserts(c, fault) {
      AppendGrows(cfg, s, c, fault, now);
      ObjectsGrow(cfg, s, RowFor(cfg, s, c, fault), fault, now);
    }
  }

  lemma {:induction false} TableGrows(cfg: Config, steps: seq<Step>, n: nat)
    requires n <= |steps|
    ensures Run(cfg, steps[..n]).table <= Run(cfg, steps).table
    decreases |steps|
  {
    if n == |steps| {
      assert steps[..n] == steps;
    } else {
      var m := |steps| - 1;
      assert steps[..m][..n] == steps[..n];
      TableGrows(cfg, steps[..m], n);
    }
  }

  lemma CollisionFreePrefix(h: Hasher, a: seq<Entry>, b: seq<Entry>)
    requires CollisionFree(h, b, b) && a <= b
    ensures CollisionFree(h, a, a)
  {
    forall i, j | 0 <= i < |a| && 0 <= j < |a| ensures Separated(h, a[i], a[j]) {
      assert Separated(h, b[i], b[j]);
    }
  }

  // Over any run of appends, whatever fails: the table verifies, every stored object is a row's
  // canonical bytes, and no put ever meets an existing object.
  lemma {:induction false} AppendsKeepTiers(cfg: Config, steps: seq<Step>)
    requires Sound(cfg.h) && CollisionFree(cfg.h, Run(cfg, steps).table, Run(cfg, steps).table)
    ensures Inv(cfg, Run(cfg, steps))
  {
    if steps != [] {
      var n := |steps| - 1;
      TableGrows(cfg, steps, n);
      CollisionFreePrefix(cfg.h, Run(cfg, steps[..n]).table, Run(cfg, steps).table);
      AppendsKeepTiers(cfg, steps[..n]);
      if steps[n].Append? {
        AppendKeeps(cfg, Run(cfg, steps[..n]), steps[n].c, steps[n].fault, steps[n].now);
      }
    }
  }

  // ---------------------------------------------------------------- the detector over the store

  function MetaOf(e: Entry): T.RowMeta {
    T.RowMeta(e.id, e.content.tenantID, e.content.ts, e.hash, e.s3etag)
  }

  function Metas(t: seq<Entry>): (rows: seq<T.RowMeta>)
    ensures |rows| == |t|
  {
    seq(|t|, i requires 0 <= i < |t| => MetaOf(t[i]))
  }

  // A fault-free cold tier over these objects.
  function Reader(cfg: Config, objects: Objects): T.Cold {
    T.Cold((id, key) => if key in objects then T.Etag(objects[key].etag) else T.NotFound,
           (id, key) => if key in objects then T.Body(objects[key].body) else T.Absent,
           (tenantID, ts, hash) => WormKey(cfg.day, tenantID, ts, hash),
           cfg.h.sha)
  }

  predicate Gone(cfg: Config, objects: Objects, e: Entry) {
    KeyOf(cfg.day, e) !in objects
  }

  predicate Altered(cfg: Config, objects: Objects, e: Entry) {
    KeyOf(cfg.day, e) in objects && objects[KeyOf(cfg.day, e)].body != CanonicalOf(cfg.h, e)
  }

  // The store reports the true ETag of what it holds, or none; and no body it holds collides with
  // the bytes of the row filed under that key.
  predicate Honest(cfg: Config, t: seq<Entry>, objects: Objects) {
    && (forall key :: key in objects ==> objects[key].etag == "" || objects[key].etag == cfg.h.sha(objects[key].body))
    && (forall k :: 0 <= k < |t| && KeyOf(cfg.day, t[k]) in objects ==>
          NoClash(cfg, t[k], objects[KeyOf(cfg.day, t[k])].body))
  }

  predicate NoClash(cfg: Config, e: Entry, body: string) {
    cfg.h.sha(body) == cfg.h.sha(CanonicalOf(cfg.h, e)) ==> body == CanonicalOf(cfg.h, e)
  }

  // The detector's finding for a row says exactly what happened to its object.
  predicate Tells(cfg: Config, objects: Objects, e: Entry) {
    var f := T.FastCheck(Reader(cfg, objects), MetaOf(e));
    && (f.None? <==> !Gone(cfg, objects, e) && !Altered(cfg, objects, e))
    && (f.Some? && f.value.kind == T.MissingObject <==> Gone(cfg, objects, e))
    && (f.Some? && f.value.kind == T.HashMismatch <==> Altered(cfg, objects, e))
  }

  lemma FindingTells(cfg: Config, objects: Objects, e: Entry)
    requires RowOk(cfg, e)
    requires KeyOf(cfg.day, e) in objects ==>
      && NoClash(cfg, e, objects[KeyOf(cfg.day, e)].body)
      && (objects[KeyOf(cfg.day, e)].etag == ""
          || objects[KeyOf(cfg.day, e)].etag == cfg.h.sha(objects[KeyOf(cfg.day, e)].body))
    ensures Tells(cfg, objects, e)
  {
  }

  function CountRows(p: Entry -> bool, t: seq<Entry>): nat {
    if t == [] then 0 else CountRows(p, t[..|t| - 1]) + if p(t[|t| - 1]) then 1 else 0
  }

  function CountGone(cfg: Config, objects: Objects, t: seq<Entry>): nat {
    CountRows(e => Gone(cfg, objects, e), t)
  }

  function CountAltered(cfg: Config, objects: Objects, t: seq<Entry>): nat {
    CountRows(e => Altered(cfg, objects, e), t)
  }

  predicate AllTell(cfg: Config, objects: Objects, t: seq<Entry>) {
    forall k :: 0 <= k < |t| ==> Tells(cfg, objects, t[k])
  }

  // The rows with this property are those whose check has this kind.
  predicate Marks(c: T.Cold, p: Entry -> bool, t: seq<Entry>, kind: T.Kind) {
    forall k :: 0 <= k < |t| ==> (R.FoundAs(c, MetaOf(t[k]), kind) <==> p(t[k]))
  }

  lemma MetasSnoc(t: seq<Entry>, e: Entry)
    ensures Metas(t + [e]) == Metas(t) + [MetaOf(e)]
  {
  }

  predicate CountsAs(c: T.Cold, p: Entry -> bool, t: seq<Entry>, kind: T.Kind) {
    R.CountKind(R.AllFindings(Some(c), Metas(t)), kind) == CountRows(p, t)
  }

  lemma CountStep(c: T.Cold, p: Entry -> bool, t: seq<Entry>, e: Entry, kind: T.Kind)
    requires kind != T.RowidGap && (R.FoundAs(c, MetaOf(e), kind) <==> p(e))
    requires CountsAs(c, p, t, kind)
    ensures CountsAs(c, p, t + [e], kind)
  {
    MetasSnoc(t, e);
    R.KindSnoc(c, Metas(t), MetaOf(e), kind);
    assert (t + [e])[..|t|] == t;
  }

  lemma MarksFront(c: T.Cold, p: Entry -> bool, t: seq<Entry>, e: Entry, kind: T.Kind)
    requires Marks(c, p, t + [e], kind)
    ensures Marks(c, p, t, kind) && (R.FoundAs(c, MetaOf(e), kind) <==> p(e))
  {
    var all := t + [e];
    assert all[|t|] == e && forall k :: 0 <= k < |t| ==> all[k] == t[k];
  }

  lemma {:induction false} FindingsCount(c: T.Cold, p: Entry -> bool, t: seq<Entry>, kind: T.Kind)
    requires kind != T.RowidGap && Marks(c, p, t, kind)
    ensures CountsAs(c, p, t, kind)
  {
    if t == [] {
      assert Metas(t) == [];
    } else {
      var before, e := t[..|t| - 1], t[|t| - 1];
      assert before + [e] == t;
      MarksFront(c, p, before, e, kind);
      FindingsCount(c, p, before, kind);
      CountStep(c, p, before, e, kind);
    }
  }

  lemma MetasAscend(t: seq<Entry>, nextID: int)
    requires IDsOk(t, nextID)
    ensures T.Ascending(Metas(t)) && T.Above(Metas(t), 0) == Metas(t)
  {
    AllAbove(Metas(t));
  }

  lemma {:induction false} AllAbove(rows: seq<T.RowMeta>)
    requires forall k :: 0 <= k < |rows| ==> rows[k].id > 0
    ensures T.Above(rows, 0) == rows
  {
    if rows != [] {
      AllAbove(rows[..|rows| - 1]);
    }
  }

  // A fault-free pass over a table.
  function PassOver(cfg: Config, t: seq<Entry>, objects: Objects): T.Tally {
    T.ScanAll(T.BEGIN, Some(Reader(cfg, objects)), T.Above(Metas(t), 0)).tally
  }

  lemma AllRowsTell(cfg: Config, s: Tier, objects: Objects)
    requires Inv(cfg, s) && Honest(cfg, s.table, objects)
    ensures AllTell(cfg, objects, s.table)
  {
    forall k | 0 <= k < |s.table| ensures Tells(cfg, objects, s.table[k]) {
      FindingTells(cfg, objects, s.table[k]);
    }
  }

  lemma NeverReadError(cfg: Config, objects: Objects, t: seq<Entry>)
    ensures R.NeverFound(Reader(cfg, objects), Metas(t), T.ReadError)
  {
  }

  lemma CountersTell(cfg: Config, objects: Objects, t: seq<Entry>)
    requires AllTell(cfg, objects, t)
    ensures var fs := R.AllFindings(Some(Reader(cfg, objects)), Metas(t));
      && R.CountKind(fs, T.MissingObject) == CountGone(cfg, objects, t)
      && R.CountKind(fs, T.HashMismatch) == CountAltered(cfg, objects, t)
      && R.CountKind(fs, T.ReadError) == 0
  {
    var c := Reader(cfg, objects);
    FindingsCount(c, e => Gone(cfg, objects, e), t, T.MissingObject);
    FindingsCount(c, e => Altered(cfg, objects, e), t, T.HashMismatch);
    NeverReadError(cfg, objects, t);
    R.ZeroMeansNever(c, Metas(t), T.ReadError);
  }

  // After any run of appends and any later change to the stored objects, a fault-free pass over all
  // the rows counts exactly the rows whose object is absent, and those whose object is altered.
  lemma PassFindsExactly(cfg: Config, steps: seq<Step>, objects: Objects)
    requires Sound(cfg.h) && CollisionFree(cfg.h, Run(cfg, steps).table, Run(cfg, steps).table)
    requires Honest(cfg, Run(cfg, steps).table, objects)
    ensures var t := Run(cfg, steps).table;
      var tally := PassOver(cfg, t, objects);
      && tally.missing == CountGone(cfg, objects, t) && tally.mismatches == CountAltered(cfg, objects, t)
      && tally.readErrors == 0 && tally.rowsScanned == |t| && tally.gaps == |R.GapStarts(Metas(t))|
      && AllTell(cfg, objects, t)
  {
    AppendsKeepTiers(cfg, steps);
    var s := Run(cfg, steps);
    MetasAscend(s.table, s.nextID);
    AllRowsTell(cfg, s, objects);
    CountersTell(cfg, objects, s.table);
    R.ReportAccounts(Some(Reader(cfg, objects)), Metas(s.table));
    R.RowidGapsCountsRuns(Some(Reader(cfg, objects)), Metas(s.table));
  }

  // ---------------------------------------------------------------- nothing disturbed

  predicate Undisturbed(steps: seq<Step>) {
    forall k :: 0 <= k < |steps| ==> steps[k].Append? && steps[k].fault.NoFault?
  }

  // Every row's object is in place, and ids are dense.
  predicate Complete(cfg: Config, s: Tier) {
    AllInPlace(cfg, s.table, s.objects) && Dense(s.table) && s.nextID == |s.table| + 1
  }

  predicate AllInPlace(cfg: Config, t: seq<Entry>, objects: Objects) {
    forall k :: 0 <= k < |t| ==> InPlace(cfg, objects, t[k])
  }

  predicate Dense(t: seq<Entry>) {
    forall k :: 0 <= k < |t| ==> t[k].id == k + 1
  }

  predicate InPlace(cfg: Config, objects: Objects, e: Entry) {
    KeyOf(cfg.day, e) in objects && objects[KeyOf(cfg.day, e)].body == CanonicalOf(cfg.h, e)
  }

  lemma PutKeepsPlaces(cfg: Config, s: Tier, e: Entry, now: int)
    requires cfg.streaming && AllInPlace(cfg, s.table, s.objects) && KeyOf(cfg.day, e) !in s.objects
    ensures AllInPlace(cfg, s.table + [e], Stored(cfg, s.objects, e, NoFault, now))
  {
    var t, objects := s.table + [e], Stored(cfg, s.objects, e, NoFault, now);
    forall k | 0 <= k < |t| ensures InPlace(cfg, objects, t[k]) {
      if k < |s.table| {
        assert InPlace(cfg, s.objects, s.table[k]);
      }
    }
  }

  lemma CompleteStep(cfg: Config, s: Tier, c: Content, now: int)
    requires cfg.streaming && Inv(cfg, s) && Complete(cfg, s) && Sound(cfg.h)
    requires var t := Appended(cfg, s, c, NoFault, now).table; CollisionFree(cfg.h, t, t)
    ensures Complete(cfg, Appended(cfg, s, c, NoFault, now))
  {
    if Wanted(c) {
      AppendGrows(cfg, s, c, NoFault, now);
      PutKeepsPlaces(cfg, s, RowFor(cfg, s, c, NoFault), now);
    }
  }

  lemma {:induction false} UndisturbedIsComplete(cfg: Config, steps: seq<Step>)
    requires Sound(cfg.h) && CollisionFree(cfg.h, Run(cfg, steps).table, Run(cfg, steps).table)
    requires cfg.streaming && Undisturbed(steps)
    ensures Complete(cfg, Run(cfg, steps))
  {
    if steps != [] {
      var n := |steps| - 1;
      TableGrows(cfg, steps, n);
      CollisionFreePrefix(cfg.h, Run(cfg, steps[..n]).table, Run(cfg, steps).table);
      assert forall k :: 0 <= k < n ==> steps[..n][k] == steps[k];
      UndisturbedIsComplete(cfg, steps[..n]);
      AppendsKeepTiers(cfg, steps[..n]);
      CompleteStep(cfg, Run(cfg, steps[..n]), steps[n].c, steps[n].now);
    }
  }

  lemma DenseHasNoGaps(rows: seq<T.RowMeta>)
    requires forall k :: 0 <= k < |rows| ==> rows[k].id == k + 1
    ensures R.GapStarts(rows) == {}
  {
    forall i | 0 <= i < |rows| - 1 ensures rows[i].id + 1 in R.IDs(rows) {
      assert rows[i + 1].id == rows[i].id + 1;
    }
  }

  lemma {:induction false} NothingGone(cfg: Config, objects: Objects, t: seq<Entry>)
    requires AllInPlace(cfg, t, objects)
    ensures CountGone(cfg, objects, t) == 0 && CountAltered(cfg, objects, t) == 0
  {
    if t != [] {
      var n := |t| - 1;
      assert InPlace(cfg, objects, t[n]);
      forall k | 0 <= k < n ensures InPlace(cfg, objects, t[..n][k]) {
        assert InPlace(cfg, objects, t[k]);
      }
      NothingGone(cfg, objects, t[..n]);
    }
  }

  lemma StoreIsHonest(cfg: Config, s: Tier)
    requires Inv(cfg, s) && Complete(cfg, s)
    ensures Honest(cfg, s.table, s.objects)
  {
    forall key | key in s.objects ensures s.objects[key].etag == cfg.h.sha(s.objects[key].body) {
      assert Holds(cfg, s.table, key, s.objects[key]);
    }
    forall k | 0 <= k < |s.table| ensures NoClash(cfg, s.table[k], s.objects[KeyOf(cfg.day, s.table[k])].body) {
      assert InPlace(cfg, s.objects, s.table[k]);
    }
  }

  predicate HashesDiffer(t: seq<Entry>) {
    forall i, j :: 0 <= i < j < |t| ==> t[i].hash != t[j].hash
  }

  lemma CompleteIsClean(cfg: Config, steps: seq<Step>)
    requires Sound(cfg.h) && CollisionFree(cfg.h, Run(cfg, steps).table, Run(cfg, steps).table)
    requires Inv(cfg, Run(cfg, steps)) && Complete(cfg, Run(cfg, steps))
    ensures PassOver(cfg, Run(cfg, steps).table, Run(cfg, steps).objects).Clean()
  {
    var s := Run(cfg, steps);
    StoreIsHonest(cfg, s);
    PassFindsExactly(cfg, steps, s.objects);
    NothingGone(cfg, s.objects, s.table);
    DenseHasNoGaps(Metas(s.table));
  }

  // After any sequence of successful appends: the hashes are distinct, no put met an existing key,
  // Verify is content, and the detector's pass is clean.
  lemma SuccessfulAppendsAreClean(cfg: Config, steps: seq<Step>)
    requires Sound(cfg.h) && CollisionFree(cfg.h, Run(cfg, steps).table, Run(cfg, steps).table)
    requires cfg.streaming && Undisturbed(steps)
    ensures Verifies(cfg.h, Run(cfg, steps).table) && Run(cfg, steps).lockHits == 0
    ensures HashesDiffer(Run(cfg, steps).table)
    ensures PassOver(cfg, Run(cfg, steps).table, Run(cfg, steps).objects).Clean()
  {
    AppendsKeepTiers(cfg, steps);
    UndisturbedIsComplete(cfg, steps);
    HashesDistinct(cfg.h, Run(cfg, steps).table);
    CompleteIsClean(cfg, steps);
  }

  // ---------------------------------------------------------------- a rewritten table

  predicate IsPrefix(u: seq<Entry>, t: seq<Entry>) {
    |u| <= |t| && forall k :: 0 <= k < |u| ==> SameRow(u[k], t[k])
  }

  // A row whose key is in the store has the hash of an original row.
  lemma FiledRowIsOriginal(cfg: Config, s: Tier, u: seq<Entry>)
    requires Inv(cfg, s) && Sound(cfg.h) && u != [] && Verifies(cfg.h, u) && CollisionFree(cfg.h, u, s.table)
    requires KeyOf(cfg.day, u[|u| - 1]) in s.objects
    ensures IsPrefix(u, s.table)
  {
    var e, key := u[|u| - 1], KeyOf(cfg.day, u[|u| - 1]);
    assert Holds(cfg, s.table, key, s.objects[key]);
    var j :| 0 <= j < |s.table| && HoldsRow(cfg, s.table[j], key, s.objects[key]);
    assert LinkOk(cfg.h, u, |u| - 1) && LinkOk(cfg.h, s.table, j);
    KeyTellsHash(cfg.day, e, s.table[j]);
    SharedHashSharedPast(cfg.h, u, s.table, |u| - 1, j);
  }

  lemma MissingMeansGone(cfg: Config, objects: Objects, e: Entry)
    ensures R.FoundAs(Reader(cfg, objects), MetaOf(e), T.MissingObject) <==> Gone(cfg, objects, e)
  {
  }

  // The pass reads every row with a positive id, and only rows of the table.
  lemma LastIsScanned(u: seq<Entry>)
    requires u != [] && u[|u| - 1].id > 0
    ensures T.Above(Metas(u), 0) != []
    ensures T.Above(Metas(u), 0)[|T.Above(Metas(u), 0)| - 1] == MetaOf(u[|u| - 1])
  {
  }

  lemma {:induction false} AboveIsFromTable(rows: seq<T.RowMeta>, after: int, r: T.RowMeta)
    requires r in T.Above(rows, after)
    ensures r in rows
  {
    var n := |rows| - 1;
    if r in T.Above(rows[..n], after) {
      AboveIsFromTable(rows[..n], after, r);
    }
  }

  lemma PassMissing(cfg: Config, u: seq<Entry>, objects: Objects)
    ensures PassOver(cfg, u, objects).missing == 0 <==>
      R.NeverFound(Reader(cfg, objects), T.Above(Metas(u), 0), T.MissingObject)
  {
    R.ReportAccounts(Some(Reader(cfg, objects)), T.Above(Metas(u), 0));
    R.ZeroMeansNever(Reader(cfg, objects), T.Above(Metas(u), 0), T.MissingObject);
  }

  // Rewrite the hot table in any way, all hashes recomputed so that it verifies: if a fault-free pass
  // over the untouched store finds no object missing, the table is a prefix of the original log.
  lemma RewriteIsPrefix(cfg: Config, steps: seq<Step>, u: seq<Entry>)
    requires Sound(cfg.h) && CollisionFree(cfg.h, Run(cfg, steps).table, Run(cfg, steps).table)
    requires Verifies(cfg.h, u) && CollisionFree(cfg.h, u, Run(cfg, steps).table)
    requires u != [] ==> u[|u| - 1].id > 0
    requires PassOver(cfg, u, Run(cfg, steps).objects).missing == 0
    ensures IsPrefix(u, Run(cfg, steps).table)
  {
    if u != [] {
      var s := Run(cfg, steps);
      AppendsKeepTiers(cfg, steps);
      PassMissing(cfg, u, s.objects);
      LastIsScanned(u);
      MissingMeansGone(cfg, s.objects, u[|u| - 1]);
      FiledRowIsOriginal(cfg, s, u);
    }
  }

  lemma PrefixIsFiled(cfg: Config, s: Tier, u: seq<Entry>)
    requires AllInPlace(cfg, s.table, s.objects) && IsPrefix(u, s.table)
    ensures R.NeverFound(Reader(cfg, s.objects), T.Above(Metas(u), 0), T.MissingObject)
  {
    var rows := T.Above(Metas(u), 0);
    forall k | 0 <= k < |rows| ensures !R.FoundAs(Reader(cfg, s.objects), rows[k], T.MissingObject) {
      assert rows[k] in rows;
      AboveIsFromTable(Metas(u), 0, rows[k]);
      var i :| 0 <= i < |u| && MetaOf(u[i]) == rows[k];
      assert SameRow(u[i], s.table[i]) && InPlace(cfg, s.objects, s.table[i]);
      MissingMeansGone(cfg, s.objects, u[i]);
    }
  }

  // After successful appends that is exact: the pass misses nothing if and only if the rewritten
  // table is a prefix, so only a cut tail can hide behind a verifying table.
  lemma RewriteSeenIff(cfg: Config, steps: seq<Step>, u: seq<Entry>)
    requires Sound(cfg.h) && CollisionFree(cfg.h, Run(cfg, steps).table, Run(cfg, steps).table)
    requires cfg.streaming && Undisturbed(steps)
    requires Verifies(cfg.h, u) && CollisionFree(cfg.h, u, Run(cfg, steps).table)
    requires u != [] ==> u[|u| - 1].id > 0
    ensures PassOver(cfg, u, Run(cfg, steps).objects).missing == 0 <==> IsPrefix(u, Run(cfg, steps).table)
  {
    if PassOver(cfg, u, Run(cfg, steps).objects).missing == 0 {
      RewriteIsPrefix(cfg, steps, u);
    }
    if IsPrefix(u, Run(cfg, steps).table) {
      UndisturbedIsComplete(cfg, steps);
      PrefixIsFiled(cfg, Run(cfg, steps), u);
      PassMissing(cfg, u, Run(cfg, steps).objects);
    }
  }

  // The condition on ids is needed: rows without a positive id are never scanned.
  lemma UnscannedIsClean(cfg: Config, u: seq<Entry>, objects: Objects)
    requires forall k :: 0 <= k < |u| ==> u[k].id <= 0
    ensures PassOver(cfg, u, objects).Clean()
  {
    T.NoneAbove(Metas(u), 0);
  }

  // ---------------------------------------------------------------- rolled-back appends

  predicate InsertsAt(steps: seq<Step>, i: int) {
    0 <= i < |steps| && steps[i].Append? && Inserts(steps[i].c, steps[i].fault)
  }

  predicate RollsBackAt(steps: seq<Step>, j: int) {
    0 <= j < |steps| && steps[j].RolledBack?
  }

  ghost predicate Inserted(steps: seq<Step>) {
    exists i :: InsertsAt(steps, i)
  }

  // An id was spent on a rollback after some row was inserted.
  ghost predicate SpentAfter(steps: seq<Step>) {
    exists i, j :: i < j && InsertsAt(steps, i) && RollsBackAt(steps, j)
  }

  // A rollback lies between two inserted rows.
  ghost predicate Straddled(steps: seq<Step>) {
    exists i, j, k :: i < j < k && InsertsAt(steps, i) && RollsBackAt(steps, j) && InsertsAt(steps, k)
  }

  // Some row does not follow its predecessor's id.
  ghost predicate Torn(t: seq<Entry>) {
    exists i :: R.GapAfter(Metas(t), i)
  }

  // The id after the last row's has been spent.
  predicate Ahead(s: Tier) {
    s.table != [] && s.nextID != s.table[|s.table| - 1].id + 1
  }

  // What the tiers show of the rollbacks so far.
  ghost predicate Shows(s: Tier, steps: seq<Step>) {
    && s.nextID >= 1 && IDsOk(s.table, s.nextID)
    && (s.table != [] <==> Inserted(steps))
    && (Torn(s.table) || Ahead(s) <==> SpentAfter(steps))
    && (Torn(s.table) <==> Straddled(steps))
  }

  lemma StepsSnoc(steps: seq<Step>, step: Step, i: int)
    ensures InsertsAt(steps + [step], i) <==>
      InsertsAt(steps, i) || (i == |steps| && InsertsAt([step], 0))
    ensures RollsBackAt(steps + [step], i) <==> RollsBackAt(steps, i) || (i == |steps| && step.RolledBack?)
  {
  }

  lemma SpentSnoc(steps: seq<Step>, step: Step)
    ensures SpentAfter(steps + [step]) <==>
      SpentAfter(steps) || (step.RolledBack? && Inserted(steps))
  {
    var all := steps + [step];
    if i, j :| i < j && InsertsAt(all, i) && RollsBackAt(all, j) {
      StepsSnoc(steps, step, i);
      StepsSnoc(steps, step, j);
    }
    if i, j :| i < j && InsertsAt(steps, i) && RollsBackAt(steps, j) {
      StepsSnoc(steps, step, i);
      StepsSnoc(steps, step, j);
    }
    if i :| step.RolledBack? && InsertsAt(steps, i) {
      StepsSnoc(steps, step, i);
      StepsSnoc(steps, step, |steps|);
    }
  }

  lemma StraddledSnoc(steps: seq<Step>, step: Step)
    ensures Straddled(steps + [step]) <==> Straddled(steps) || (InsertsAt([step], 0) && SpentAfter(steps))
  {
    var all := steps + [step];
    if i, j, k :| i < j < k && InsertsAt(all, i) && RollsBackAt(all, j) && InsertsAt(all, k) {
      StepsSnoc(steps, step, i);
      StepsSnoc(steps, step, j);
      StepsSnoc(steps, step, k);
    }
    if i, j, k :| i < j < k && InsertsAt(steps, i) && RollsBackAt(steps, j) && InsertsAt(steps, k) {
      StepsSnoc(steps, step, i);
      StepsSnoc(steps, step, j);
      StepsSnoc(steps, step, k);
    }
    if i, j :| InsertsAt([step], 0) && i < j && InsertsAt(steps, i) && RollsBackAt(steps, j) {
      StepsSnoc(steps, step, i);
      StepsSnoc(steps, step, j);
      StepsSnoc(steps, step, |steps|);
    }
  }

  lemma InsertedSnoc(steps: seq<Step>, step: Step)
    ensures Inserted(steps + [step]) <==> Inserted(steps) || InsertsAt([step], 0)
  {
    if i :| InsertsAt(steps + [step], i) {
      StepsSnoc(steps, step, i);
    }
    if i :| InsertsAt(steps, i) {
      StepsSnoc(steps, step, i);
    }
    if InsertsAt([step], 0) {
      StepsSnoc(steps, step, |steps|);
    }
  }

  lemma TornSnoc(t: seq<Entry>, e: Entry)
    ensures Torn(t + [e]) <==> Torn(t) || (t != [] && e.id != t[|t| - 1].id + 1)
  {
    var all := t + [e];
    if i :| R.GapAfter(Metas(all), i) {
      assert i < |t| - 1 ==> R.GapAfter(Metas(t), i);
    }
    if i :| R.GapAfter(Metas(t), i) {
      assert R.GapAfter(Metas(all), i);
    }
    if t != [] && e.id != t[|t| - 1].id + 1 {
      assert R.GapAfter(Metas(all), |t| - 1);
    }
  }

  // An append that inserts adds one row under the next id, wherever its put ends up.
  lemma InsertedRow(cfg: Config, s: Tier, c: Content, fault: Fault, now: int) returns (e: Entry)
    requires Inserts(c, fault)
    ensures Appended(cfg, s, c, fault, now).table == s.table + [e] && e.id == s.nextID
    ensures Appended(cfg, s, c, fault, now).nextID == s.nextID + 1
  {
    e := NextEntry(cfg.h, s.table, c, s.nextID);
    if !(cfg.streaming && Locked(s.objects, KeyOf(cfg.day, e), now)) {
      e := Sealed(cfg, e, fault);
    }
  }

  // Only an insert closes what a rollback has opened.
  lemma ShowsInsert(s: Tier, e: Entry, after: Tier, steps: seq<Step>, step: Step)
    requires Shows(s, steps) && InsertsAt([step], 0)
    requires after.table == s.table + [e] && e.id == s.nextID && after.nextID == s.nextID + 1
    ensures Shows(after, steps + [step])
  {
    InsertedSnoc(steps, step);
    SpentSnoc(steps, step);
    StraddledSnoc(steps, step);
    TornSnoc(s.table, e);
  }

  lemma ShowsStep(cfg: Config, s: Tier, steps: seq<Step>, step: Step)
    requires Shows(s, steps)
    ensures Shows(Do(cfg, s, step), steps + [step])
  {
    if InsertsAt([step], 0) {
      var e := InsertedRow(cfg, s, step.c, step.fault, step.now);
      ShowsInsert(s, e, Do(cfg, s, step), steps, step);
    } else {
      InsertedSnoc(steps, step);
      SpentSnoc(steps, step);
      StraddledSnoc(steps, step);
    }
  }

  // Ids ascend in every run, with no condition on the hashes.
  lemma {:induction false} RunShows(cfg: Config, steps: seq<Step>)
    ensures Shows(Run(cfg, steps), steps)
  {
    if steps != [] {
      var before, step := steps[..|steps| - 1], steps[|steps| - 1];
      assert before + [step] == steps;
      RunShows(cfg, before);
      ShowsStep(cfg, Run(cfg, before), before, step);
    }
  }

  lemma TornIsCounted(cfg: Config, t: seq<Entry>, nextID: int, objects: Objects)
    requires IDsOk(t, nextID)
    ensures PassOver(cfg, t, objects).gaps > 0 <==> Torn(t)
  {
    MetasAscend(t, nextID);
    R.RowidGapsCountsRuns(Some(Reader(cfg, objects)), Metas(t));
    R.GapStartsIff(Metas(t));
  }

  // After any run of appends, whatever fails and whatever has become of the objects since: a pass
  // counts a gap if and only if a rollback lies between two inserted rows.
  lemma GapsSeenIff(cfg: Config, steps: seq<Step>, objects: Objects)
    ensures PassOver(cfg, Run(cfg, steps).table, objects).gaps > 0 <==> Straddled(steps)
  {
    RunShows(cfg, steps);
    TornIsCounted(cfg, Run(cfg, steps).table, Run(cfg, steps).nextID, objects);
  }

  lemma StraddledGrows(a: seq<Step>, b: seq<Step>)
    requires a <= b && Straddled(a)
    ensures Straddled(b)
  {
    var i, j, k :| i < j < k && InsertsAt(a, i) && RollsBackAt(a, j) && InsertsAt(a, k);
    assert InsertsAt(b, i) && RollsBackAt(b, j) && InsertsAt(b, k);
  }

  // Once a pass counts a gap, no later pass is clean, whatever is appended and whatever the store.
  lemma GapIsForever(cfg: Config, steps: seq<Step>, n: nat, earlier: Objects, objects: Objects)
    requires n <= |steps| && PassOver(cfg, Run(cfg, steps[..n]).table, earlier).gaps > 0
    ensures PassOver(cfg, Run(cfg, steps).table, objects).gaps > 0
    ensures !PassOver(cfg, Run(cfg, steps).table, objects).Clean()
  {
    GapsSeenIff(cfg, steps[..n], earlier);
    GapsSeenIff(cfg, steps, objects);
    StraddledGrows(steps[..n], steps);
  }

  // A rolled-back insert after some row and before another leaves such a gap for good.
  lemma RollbackLeavesGap(
    cfg: Config, steps: seq<Step>, c: Content, fault: Fault, now: int, more: seq<Step>, objects: Objects)
    requires Run(cfg, steps).table != [] && Inserts(c, fault)
    ensures var t := Run(cfg, steps + [RolledBack, Append(c, fault, now)] + more).table;
      PassOver(cfg, t, objects).gaps > 0 && !PassOver(cfg, t, objects).Clean()
  {
    var all := steps + [RolledBack, Append(c, fault, now)] + more;
    RunShows(cfg, steps);
    GapsSeenIff(cfg, all, objects);
    var i :| InsertsAt(steps, i);
    assert InsertsAt(all, i) && RollsBackAt(all, |steps|) && InsertsAt(all, |steps| + 1);
  }
}
