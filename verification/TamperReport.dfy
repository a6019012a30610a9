// What the detector's report means: accounting of findings, gaps, and the HEAD-first check.
module TamperReport {
  import opened Basics
  import opened TamperDetect

  // ---------------------------------------------------------------- the full list of findings

  function ToSeq(f: Option<Finding>): seq<Finding> {
    if f.None? then [] else [f.value]
  }

  function RowFindings(cold: Option<Cold>, prev: Option<int>, r: RowMeta): seq<Finding> {
    (if prev.None? then [] else ToSeq(GapFinding(prev.value, r)))
    + if cold.None? then [] else ToSeq(FastCheck(cold.value, r))
  }

  function LastID(rows: seq<RowMeta>): Option<int> {
    if rows == [] then None else Some(rows[|rows| - 1].id)
  }

  // Every finding of a pass, uncapped.
  function AllFindings(cold: Option<Cold>, rows: seq<RowMeta>): seq<Finding> {
    if rows == [] then []
    else
      var n := |rows| - 1;
      AllFindings(cold, rows[..n]) + RowFindings(cold, LastID(rows[..n]), rows[n])
  }

  function CountKind(fs: seq<Finding>, kind: Kind): nat {
    if fs == [] then 0
    else CountKind(fs[..|fs| - 1], kind) + if fs[|fs| - 1].kind == kind then 1 else 0
  }

  function FirstFindings(fs: seq<Finding>): seq<Finding> {
    if |fs| <= MAX_FINDINGS then fs else fs[..MAX_FINDINGS]
  }

  // The tally is the capped list with exact counters.
  predicate Accounts(t: Tally, fs: seq<Finding>) {
    && t.findings == FirstFindings(fs)
    && t.missing == CountKind(fs, MissingObject) && t.mismatches == CountKind(fs, HashMismatch)
    && t.gaps == CountKind(fs, RowidGap) && t.readErrors == CountKind(fs, ReadError)
    && t.Total() == |fs|
  }

  lemma NoteAccounts(t: Tally, fs: seq<Finding>, f: Option<Finding>)
    requires Accounts(t, fs)
    ensures Accounts(Note(t, f), fs + ToSeq(f))
    ensures Note(t, f).rowsScanned == t.rowsScanned
  {
    if f.Some? {
      assert (fs + [f.value])[..|fs|] == fs;
    } else {
      assert fs + ToSeq(f) == fs;
    }
  }

  predicate IDsAscending(fs: seq<Finding>) {
    forall i, j :: 0 <= i < j < |fs| ==> fs[i].rowID < fs[j].rowID
  }

  function GapOf(prev: Option<int>, r: RowMeta): Option<Finding> {
    if prev.None? then None else GapFinding(prev.value, r)
  }

  function CheckOf(cold: Option<Cold>, r: RowMeta): Option<Finding> {
    if cold.None? then None else FastCheck(cold.value, r)
  }

  function Counted(t: Tally): Tally {
    t.(rowsScanned := t.rowsScanned + 1)
  }

  lemma ScanRowNotes(s: Scan, cold: Option<Cold>, r: RowMeta)
    ensures ScanRow(s, cold, r) == Scan(Note(Note(Counted(s.tally), GapOf(s.prev, r)), CheckOf(cold, r)), Some(r.id))
  {
  }

  predicate ScanAccounts(s: Scan, rows: seq<RowMeta>, fs: seq<Finding>) {
    Accounts(s.tally, fs) && s.tally.rowsScanned == |rows| && s.prev == LastID(rows)
  }

  lemma RowAccounts(s: Scan, cold: Option<Cold>, before: seq<RowMeta>, r: RowMeta, fs: seq<Finding>)
    requires ScanAccounts(s, before, fs)
    ensures ScanAccounts(ScanRow(s, cold, r), before + [r], fs + RowFindings(cold, LastID(before), r))
  {
    ScanRowNotes(s, cold, r);
    var gap, check := GapOf(s.prev, r), CheckOf(cold, r);
    NoteAccounts(Counted(s.tally), fs, gap);
    NoteAccounts(Note(Counted(s.tally), gap), fs + ToSeq(gap), check);
    assert fs + ToSeq(gap) + ToSeq(check) == fs + RowFindings(cold, LastID(before), r);
  }

  // Counters are exact, Findings is the first 256 of the full list, and one pass scans every row.
  lemma {:induction false} ReportAccounts(cold: Option<Cold>, rows: seq<RowMeta>)
    ensures ScanAccounts(ScanAll(BEGIN, cold, rows), rows, AllFindings(cold, rows))
  {
    if rows != [] {
      var before, r := rows[..|rows| - 1], rows[|rows| - 1];
      assert before + [r] == rows;
      ReportAccounts(cold, before);
      RowAccounts(ScanAll(BEGIN, cold, before), cold, before, r, AllFindings(cold, before));
    }
  }

  // All of these findings name a row id in this range.
  predicate Between(fs: seq<Finding>, low: int, high: int) {
    forall i :: 0 <= i < |fs| ==> low < fs[i].rowID <= high
  }

  lemma AscendConcat(a: seq<Finding>, b: seq<Finding>, low: int, mid: int, high: int)
    requires IDsAscending(a) && IDsAscending(b) && Between(a, low, mid) && Between(b, mid, high) && low <= mid <= high
    ensures IDsAscending(a + b) && Between(a + b, low, high)
  {
  }

  // What one row adds lies after its predecessor: first the gap, then the row itself.
  lemma RowFindingsAscend(cold: Option<Cold>, prev: int, r: RowMeta)
    requires prev < r.id
    ensures IDsAscending(RowFindings(cold, Some(prev), r)) && Between(RowFindings(cold, Some(prev), r), prev, r.id)
  {
    CheckNamesRow(cold, r);
  }

  lemma {:induction false} FindingsAscend(cold: Option<Cold>, rows: seq<RowMeta>)
    requires Ascending(rows) && rows != []
    ensures IDsAscending(AllFindings(cold, rows))
      && Between(AllFindings(cold, rows), rows[0].id - 1, rows[|rows| - 1].id)
  {
    var n := |rows| - 1;
    if n == 0 {
      CheckNamesRow(cold, rows[0]);
      assert rows[..0] == [];
    } else {
      FindingsAscend(cold, rows[..n]);
      RowFindingsAscend(cold, rows[n - 1].id, rows[n]);
      AscendConcat(AllFindings(cold, rows[..n]), RowFindings(cold, Some(rows[n - 1].id), rows[n]),
                   rows[0].id - 1, rows[n - 1].id, rows[n].id);
    }
  }

  lemma FindingsInOrder(cold: Option<Cold>, rows: seq<RowMeta>)
    requires Ascending(rows)
    ensures IDsAscending(AllFindings(cold, rows))
  {
    if rows != [] {
      FindingsAscend(cold, rows);
    }
  }

  lemma CheckNamesRow(cold: Option<Cold>, r: RowMeta)
    ensures cold.Some? && FastCheck(cold.value, r).Some? ==> FastCheck(cold.value, r).value.rowID == r.id
  {
  }

  lemma AccountsClean(t: Tally, fs: seq<Finding>)
    requires Accounts(t, fs) && IDsAscending(fs)
    ensures (t.Clean() <==> t.findings == []) && (t.Clean() <==> fs == [])
    ensures |t.findings| == if t.Total() < MAX_FINDINGS then t.Total() else MAX_FINDINGS
    ensures IDsAscending(t.findings)
  {
  }

  // A pass is clean if and only if it found nothing at all, capped or not; Findings holds
  // min(256, sum of the counters) findings in strictly ascending row order.
  lemma CleanIffNoFindings(cold: Option<Cold>, rows: seq<RowMeta>)
    requires Ascending(rows)
    ensures var t := ScanAll(BEGIN, cold, rows).tally;
      && (t.Clean() <==> t.findings == []) && (t.Clean() <==> AllFindings(cold, rows) == [])
      && |t.findings| == (if t.Total() < MAX_FINDINGS then t.Total() else MAX_FINDINGS)
      && IDsAscending(t.findings)
  {
    ReportAccounts(cold, rows);
    FindingsInOrder(cold, rows);
    AccountsClean(ScanAll(BEGIN, cold, rows).tally, AllFindings(cold, rows));
  }

  // ---------------------------------------------------------------- gaps

  function IDs(rows: seq<RowMeta>): set<int> {
    set i | 0 <= i < |rows| :: rows[i].id
  }

  // The first ids of the maximal runs of absent ids strictly inside the table: absent, and just
  // after a row that is not the last.
  function GapStarts(rows: seq<RowMeta>): set<int> {
    set i | 0 <= i < |rows| - 1 && rows[i].id + 1 !in IDs(rows) :: rows[i].id + 1
  }

  predicate GapAfter(rows: seq<RowMeta>, i: int) {
    0 <= i < |rows| - 1 && rows[i + 1].id != rows[i].id + 1
  }

  // Ids ascend, so the id after a row is absent exactly when the next row does not carry it.
  lemma NextIDAbsent(rows: seq<RowMeta>, i: nat)
    requires Ascending(rows) && i < |rows| - 1
    ensures rows[i].id + 1 !in IDs(rows) <==> GapAfter(rows, i)
  {
    if rows[i].id + 1 in IDs(rows) {
      var k :| 0 <= k < |rows| && rows[k].id == rows[i].id + 1;
      assert rows[i].id < rows[i + 1].id;
    } else {
      assert rows[i + 1].id in IDs(rows);
    }
  }

  lemma GapStartsIff(rows: seq<RowMeta>)
    requires Ascending(rows)
    ensures |GapStarts(rows)| > 0 <==> exists i :: GapAfter(rows, i)
  {
    if i :| GapAfter(rows, i) {
      NextIDAbsent(rows, i);
      assert rows[i].id + 1 in GapStarts(rows);
    }
    if |GapStarts(rows)| > 0 {
      var g :| g in GapStarts(rows);
      var i :| 0 <= i < |rows| - 1 && rows[i].id + 1 !in IDs(rows) && rows[i].id + 1 == g;
      NextIDAbsent(rows, i);
    }
  }

  // The gaps as the scan meets them, row by row.
  function GapsMet(rows: seq<RowMeta>): set<int> {
    if |rows| < 2 then {}
    else
      var n := |rows| - 1;
      GapsMet(rows[..n]) + if rows[n].id != rows[n - 1].id + 1 then {rows[n - 1].id + 1} else {}
  }

  lemma {:induction false} GapsMetMembers(rows: seq<RowMeta>, g: int)
    requires Ascending(rows)
    ensures g in GapsMet(rows) <==> exists i :: GapAfter(rows, i) && rows[i].id + 1 == g
    ensures g in GapsMet(rows) ==> g < rows[|rows| - 1].id
  {
    if |rows| >= 2 {
      var n := |rows| - 1;
      GapsMetMembers(rows[..n], g);
      if i :| GapAfter(rows[..n], i) && rows[..n][i].id + 1 == g {
        assert GapAfter(rows, i) && rows[i].id + 1 == g;
      }
      if i :| GapAfter(rows, i) && rows[i].id + 1 == g {
        if i < n - 1 {
          assert GapAfter(rows[..n], i) && rows[..n][i].id + 1 == g;
        }
      }
      if rows[n].id != rows[n - 1].id + 1 && rows[n - 1].id + 1 == g {
        assert GapAfter(rows, n - 1);
      }
    }
  }

  lemma GapsMetAreStarts(rows: seq<RowMeta>)
    requires Ascending(rows)
    ensures GapsMet(rows) == GapStarts(rows)
  {
    forall g | g in GapsMet(rows) ensures g in GapStarts(rows) {
      GapsMetMembers(rows, g);
      var i :| GapAfter(rows, i) && rows[i].id + 1 == g;
      NextIDAbsent(rows, i);
    }
    forall g | g in GapStarts(rows) ensures g in GapsMet(rows) {
      var i :| 0 <= i < |rows| - 1 && rows[i].id + 1 !in IDs(rows) && rows[i].id + 1 == g;
      NextIDAbsent(rows, i);
      GapsMetMembers(rows, g);
    }
  }

  lemma CountOne(f: Option<Finding>, kind: Kind)
    ensures CountKind(ToSeq(f), kind) == if f.Some? && f.value.kind == kind then 1 else 0
  {
    if f.Some? {
      assert [f.value][..0] == [];
    }
  }

  lemma GapIsNew(before: seq<RowMeta>, r: RowMeta)
    requires before != [] && Ascending(before) && r.id != before[|before| - 1].id + 1
    ensures GapsMet(before + [r]) == GapsMet(before) + {before[|before| - 1].id + 1}
    ensures before[|before| - 1].id + 1 !in GapsMet(before)
  {
    assert (before + [r])[..|before|] == before;
    GapsMetMembers(before, before[|before| - 1].id + 1);
  }

  lemma NoGapHere(before: seq<RowMeta>, r: RowMeta)
    requires before == [] || r.id == before[|before| - 1].id + 1
    ensures GapsMet(before + [r]) == GapsMet(before)
  {
    assert (before + [r])[..|before|] == before;
  }

  predicate GapsCounted(rows: seq<RowMeta>) {
    CountKind(AllFindings(None, rows), RowidGap) == |GapsMet(rows)|
  }

  lemma GapsStep(before: seq<RowMeta>, r: RowMeta)
    requires Ascending(before) && GapsCounted(before)
    ensures GapsCounted(before + [r])
  {
    var fs, gap := AllFindings(None, before), GapOf(LastID(before), r);
    FindingsSnoc(None, before, r);
    assert RowFindings(None, LastID(before), r) == ToSeq(gap);
    CountConcat(fs, ToSeq(gap), RowidGap);
    CountOne(gap, RowidGap);
    if gap.Some? {
      GapIsNew(before, r);
    } else {
      NoGapHere(before, r);
    }
  }

  lemma {:induction false} GapsAreCounted(rows: seq<RowMeta>)
    requires Ascending(rows)
    ensures GapsCounted(rows)
  {
    if rows != [] {
      var before, r := rows[..|rows| - 1], rows[|rows| - 1];
      assert before + [r] == rows;
      GapsAreCounted(before);
      GapsStep(before, r);
    }
  }

  lemma CountConcat(a: seq<Finding>, b: seq<Finding>, kind: Kind)
    ensures CountKind(a + b, kind) == CountKind(a, kind) + CountKind(b, kind)
    decreases |b|
  {
    if b == [] {
      assert a + b == a;
    } else {
      var n := |b| - 1;
      CountConcat(a, b[..n], kind);
      assert (a + b)[..|a| + n] == a + b[..n];
    }
  }

  lemma CheckHasNoGap(cold: Option<Cold>, r: RowMeta)
    ensures CountKind(ToSeq(CheckOf(cold, r)), RowidGap) == 0
  {
    CountOne(CheckOf(cold, r), RowidGap);
  }

  lemma RowGaps(cold: Option<Cold>, prev: Option<int>, r: RowMeta)
    ensures CountKind(RowFindings(cold, prev, r), RowidGap) == CountKind(RowFindings(None, prev, r), RowidGap)
  {
    var gap, check := ToSeq(GapOf(prev, r)), ToSeq(CheckOf(cold, r));
    CountConcat(gap, check, RowidGap);
    CheckHasNoGap(cold, r);
    assert RowFindings(cold, prev, r) == gap + check;
    assert RowFindings(None, prev, r) == gap;
  }

  // The cold tier never adds or hides a gap.
  lemma {:induction false} GapsIgnoreColdTier(cold: Option<Cold>, rows: seq<RowMeta>)
    ensures CountKind(AllFindings(cold, rows), RowidGap) == CountKind(AllFindings(None, rows), RowidGap)
  {
    if rows != [] {
      var n := |rows| - 1;
      var prev := LastID(rows[..n]);
      GapsIgnoreColdTier(cold, rows[..n]);
      RowGaps(cold, prev, rows[n]);
      CountConcat(AllFindings(cold, rows[..n]), RowFindings(cold, prev, rows[n]), RowidGap);
      CountConcat(AllFindings(None, rows[..n]), RowFindings(None, prev, rows[n]), RowidGap);
    }
  }

  // RowidGaps is the number of maximal runs of absent ids between the least and the greatest id.
  lemma RowidGapsCountsRuns(cold: Option<Cold>, rows: seq<RowMeta>)
    requires Ascending(rows)
    ensures ScanAll(BEGIN, cold, rows).tally.gaps == |GapStarts(rows)|
  {
    ReportAccounts(cold, rows);
    GapsAreCounted(rows);
    GapsMetAreStarts(rows);
    GapsIgnoreColdTier(cold, rows);
  }

  // ---------------------------------------------------------------- counting one kind of finding

  predicate FoundAs(c: Cold, r: RowMeta, kind: Kind) {
    FastCheck(c, r).Some? && FastCheck(c, r).value.kind == kind
  }

  lemma FindingsSnoc(cold: Option<Cold>, rows: seq<RowMeta>, r: RowMeta)
    ensures AllFindings(cold, rows + [r]) == AllFindings(cold, rows) + RowFindings(cold, LastID(rows), r)
  {
    assert (rows + [r])[..|rows|] == rows;
  }

  // A row adds one finding of a kind other than a gap exactly when its check has that kind.
  lemma RowKind(c: Cold, prev: Option<int>, r: RowMeta, kind: Kind)
    requires kind != RowidGap
    ensures CountKind(RowFindings(Some(c), prev, r), kind) == if FoundAs(c, r, kind) then 1 else 0
  {
    var gap, check := GapOf(prev, r), CheckOf(Some(c), r);
    assert RowFindings(Some(c), prev, r) == ToSeq(gap) + ToSeq(check);
    CountConcat(ToSeq(gap), ToSeq(check), kind);
    CountOne(gap, kind);
    CountOne(check, kind);
  }

  lemma KindSnoc(c: Cold, rows: seq<RowMeta>, r: RowMeta, kind: Kind)
    requires kind != RowidGap
    ensures CountKind(AllFindings(Some(c), rows + [r]), kind)
         == CountKind(AllFindings(Some(c), rows), kind) + if FoundAs(c, r, kind) then 1 else 0
  {
    FindingsSnoc(Some(c), rows, r);
    RowKind(c, LastID(rows), r, kind);
    CountConcat(AllFindings(Some(c), rows), RowFindings(Some(c), LastID(rows), r), kind);
  }

  predicate NeverFound(c: Cold, rows: seq<RowMeta>, kind: Kind) {
    forall k :: 0 <= k < |rows| ==> !FoundAs(c, rows[k], kind)
  }

  lemma NeverFoundSnoc(c: Cold, rows: seq<RowMeta>, r: RowMeta, kind: Kind)
    ensures NeverFound(c, rows + [r], kind) <==> NeverFound(c, rows, kind) && !FoundAs(c, r, kind)
  {
    var all := rows + [r];
    assert all[|rows|] == r && forall k :: 0 <= k < |rows| ==> all[k] == rows[k];
  }

  predicate ZeroIffNever(c: Cold, rows: seq<RowMeta>, kind: Kind) {
    CountKind(AllFindings(Some(c), rows), kind) == 0 <==> NeverFound(c, rows, kind)
  }

  lemma ZeroSnoc(c: Cold, rows: seq<RowMeta>, r: RowMeta, kind: Kind)
    requires kind != RowidGap && ZeroIffNever(c, rows, kind)
    ensures ZeroIffNever(c, rows + [r], kind)
  {
    KindSnoc(c, rows, r, kind);
    NeverFoundSnoc(c, rows, r, kind);
  }

  // A counter is zero exactly when no row's check had that kind.
  lemma {:induction false} ZeroMeansNever(c: Cold, rows: seq<RowMeta>, kind: Kind)
    requires kind != RowidGap
    ensures ZeroIffNever(c, rows, kind)
  {
    if rows != [] {
      var before, r := rows[..|rows| - 1], rows[|rows| - 1];
      assert before + [r] == rows;
      ZeroMeansNever(c, before, kind);
      ZeroSnoc(c, before, r, kind);
    }
  }

  // ---------------------------------------------------------------- HEAD first

  // The replies for a row come from one stored object: GET is faithful, HEAD may fail but does not lie.
  predicate Faithful(c: Cold, r: RowMeta, stored: Option<string>, etagOf: string -> string) {
    var key := c.keyFn(r.tenantID, r.ts, r.hash);
    && c.get(r.id, key) == (if stored.None? then Absent else Body(stored.value))
    && (c.head(r.id, key) == HeadError
        || c.head(r.id, key) == if stored.None? then NotFound else Etag(etagOf(stored.value)))
  }

  // The fast check differs from the slow one in exactly one case: HEAD answers with the recorded
  // ETag for a body that does not hash to the recorded hash.
  lemma FastDiffersIff(c: Cold, r: RowMeta, stored: Option<string>, etagOf: string -> string)
    requires Faithful(c, r, stored, etagOf)
    ensures FastCheck(c, r) != SlowCheck(c, r) <==>
      && r.s3etag != "" && stored.Some? && etagOf(stored.value) == r.s3etag && c.sha(stored.value) != r.hash
      && c.head(r.id, c.keyFn(r.tenantID, r.ts, r.hash)) != HeadError
  {
  }

  // The recorded ETag is that of the bytes the recorded hash was taken from.
  predicate EtagRecorded(c: Cold, r: RowMeta, canonical: string, etagOf: string -> string) {
    c.sha(canonical) == r.hash && (r.s3etag != "" ==> r.s3etag == etagOf(canonical))
  }

  // So with a recorded ETag and no ETag collision, HEAD-first is as good as GET-and-rehash.
  lemma FastIsSlow(c: Cold, r: RowMeta, stored: Option<string>, canonical: string, etagOf: string -> string)
    requires Faithful(c, r, stored, etagOf) && EtagRecorded(c, r, canonical, etagOf)
    requires stored.Some? && etagOf(stored.value) == etagOf(canonical) ==> stored.value == canonical
    ensures FastCheck(c, r) == SlowCheck(c, r)
    ensures FastCheck(c, r).None? <==> stored.Some? && c.sha(stored.value) == r.hash
    ensures stored.None? <==> FastCheck(c, r).Some? && FastCheck(c, r).value.kind == MissingObject
  {
    FastDiffersIff(c, r, stored, etagOf);
  }
}
