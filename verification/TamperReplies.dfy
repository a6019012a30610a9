// What the replies of the cold tier make a pass report: each counter in terms of HEAD, GET, the
// digest and the key alone, transient faults included.
module TamperReplies {
  import opened Basics
  import opened TamperDetect
  import opened TamperReport

  // The row has an ETag, and HEAD answers either that there is no such object, or with that ETag.
  predicate HeadSettles(c: Cold, r: RowMeta) {
    var reply := c.head(r.id, c.keyFn(r.tenantID, r.ts, r.hash));
    r.s3etag != "" && (reply == NotFound || reply == Etag(r.s3etag))
  }

  predicate Confirmed(c: Cold, r: RowMeta) {
    r.s3etag != "" && c.head(r.id, c.keyFn(r.tenantID, r.ts, r.hash)) == Etag(r.s3etag)
  }

  // GET is asked, and this is its reply.
  predicate Fetches(c: Cold, r: RowMeta, reply: GetReply) {
    !HeadSettles(c, r) && c.get(r.id, c.keyFn(r.tenantID, r.ts, r.hash)) == reply
  }

  predicate Unreadable(c: Cold, r: RowMeta) {
    !HeadSettles(c, r) && c.get(r.id, c.keyFn(r.tenantID, r.ts, r.hash)).GetError?
  }

  predicate Lost(c: Cold, r: RowMeta) {
    || (r.s3etag != "" && c.head(r.id, c.keyFn(r.tenantID, r.ts, r.hash)) == NotFound)
    || Fetches(c, r, Absent)
  }

  predicate Changed(c: Cold, r: RowMeta) {
    var reply := c.get(r.id, c.keyFn(r.tenantID, r.ts, r.hash));
    !HeadSettles(c, r) && reply.Body? && c.sha(reply.body) != r.hash
  }

  // HEAD returned the recorded ETag, or GET returned a body that hashes to the recorded hash.
  predicate Intact(c: Cold, r: RowMeta) {
    var reply := c.get(r.id, c.keyFn(r.tenantID, r.ts, r.hash));
    Confirmed(c, r) || (!HeadSettles(c, r) && reply.Body? && c.sha(reply.body) == r.hash)
  }

  // The rows that a finding of this kind is for.
  function Troubled(c: Cold, kind: Kind): RowMeta -> bool {
    match kind
    case MissingObject => r => Lost(c, r)
    case HashMismatch => r => Changed(c, r)
    case ReadError => r => Unreadable(c, r)
    case RowidGap => _ => false
  }

  // ---------------------------------------------------------------- one row

  lemma CheckTells(c: Cold, r: RowMeta, kind: Kind)
    requires kind != RowidGap
    ensures FoundAs(c, r, kind) <==> Troubled(c, kind)(r)
    ensures FastCheck(c, r).None? <==> Intact(c, r)
  {
  }

  // A finding names its row, its tenant, and what was asked for, expected and met.
  predicate Names(c: Cold, r: RowMeta, f: Finding) {
    var key := c.keyFn(r.tenantID, r.ts, r.hash);
    var reply := c.get(r.id, key);
    && f.rowID == r.id && f.tenantID == r.tenantID && f.detail.Key? && f.detail.key == key
    && match f.kind
       case MissingObject => Lost(c, r) && f.detail.expectedHash == r.hash
       case HashMismatch => Changed(c, r) && f.detail.expectedHash == r.hash && f.detail.got == c.sha(reply.body)
       case ReadError => Unreadable(c, r) && f.detail.got == reply.error
       case RowidGap => false
  }

  lemma CheckNames(c: Cold, r: RowMeta)
    ensures FastCheck(c, r).Some? ==> Names(c, r, FastCheck(c, r).value)
  {
  }

  // A gap names the first absent id and the next present one.
  predicate NamesGap(rows: seq<RowMeta>, k: int, f: Finding) {
    && 0 < k < |rows| && f.kind == RowidGap && rows[k].id != rows[k - 1].id + 1
    && f.rowID == rows[k - 1].id + 1 && f.detail == Gap(rows[k - 1].id + 1, rows[k].id)
  }

  predicate Explained(c: Cold, rows: seq<RowMeta>, f: Finding) {
    exists k :: 0 <= k < |rows| && (Names(c, rows[k], f) || NamesGap(rows, k, f))
  }

  predicate AllExplained(c: Cold, rows: seq<RowMeta>, fs: seq<Finding>) {
    forall i :: 0 <= i < |fs| ==> Explained(c, rows, fs[i])
  }

  lemma ExplainedGrows(c: Cold, rows: seq<RowMeta>, r: RowMeta, f: Finding)
    requires Explained(c, rows, f)
    ensures Explained(c, rows + [r], f)
  {
    var all := rows + [r];
    var k :| 0 <= k < |rows| && (Names(c, rows[k], f) || NamesGap(rows, k, f));
    assert all[k] == rows[k] && (NamesGap(rows, k, f) ==> NamesGap(all, k, f));
  }

  lemma NewExplained(c: Cold, rows: seq<RowMeta>, r: RowMeta)
    ensures AllExplained(c, rows + [r], RowFindings(Some(c), LastID(rows), r))
  {
    var all, k := rows + [r], |rows|;
    CheckNames(c, r);
    assert all[k] == r;
    assert LastID(rows).Some? && GapFinding(LastID(rows).value, r).Some? ==>
      NamesGap(all, k, GapFinding(LastID(rows).value, r).value);
  }

  // Every finding of a pass, capped or not, is explained by a row it scanned and the replies for it.
  lemma {:induction false} FindingsExplained(c: Cold, rows: seq<RowMeta>)
    ensures AllExplained(c, rows, AllFindings(Some(c), rows))
  {
    if rows != [] {
      var before, r := rows[..|rows| - 1], rows[|rows| - 1];
      assert before + [r] == rows;
      FindingsExplained(c, before);
      NewExplained(c, before, r);
      FindingsSnoc(Some(c), before, r);
      var fs := AllFindings(Some(c), before);
      forall i | 0 <= i < |fs| ensures Explained(c, rows, fs[i]) {
        ExplainedGrows(c, before, r, fs[i]);
      }
    }
  }

  // ---------------------------------------------------------------- a whole pass

  // The row ids of the findings of one kind, and the ids of the rows with a property, in order.
  function NamedRows(fs: seq<Finding>, kind: Kind): seq<int> {
    if fs == [] then []
    else
      var f := fs[|fs| - 1];
      NamedRows(fs[..|fs| - 1], kind) + if f.kind == kind then [f.rowID] else []
  }

  function IDsWhere(p: RowMeta -> bool, rows: seq<RowMeta>): seq<int> {
    if rows == [] then []
    else
      var r := rows[|rows| - 1];
      IDsWhere(p, rows[..|rows| - 1]) + if p(r) then [r.id] else []
  }

  lemma {:induction false} NamedCount(fs: seq<Finding>, kind: Kind)
    ensures |NamedRows(fs, kind)| == CountKind(fs, kind)
  {
    if fs != [] {
      NamedCount(fs[..|fs| - 1], kind);
    }
  }

  lemma {:induction false} NamedConcat(a: seq<Finding>, b: seq<Finding>, kind: Kind)
    ensures NamedRows(a + b, kind) == NamedRows(a, kind) + NamedRows(b, kind)
  {
    if b == [] {
      assert a + b == a;
    } else {
      var n := |b| - 1;
      assert (a + b)[..|a| + n] == a + b[..n];
      NamedConcat(a, b[..n], kind);
    }
  }

  lemma NamedOne(f: Option<Finding>, kind: Kind)
    ensures NamedRows(ToSeq(f), kind) == if f.Some? && f.value.kind == kind then [f.value.rowID] else []
  {
    if f.Some? {
      assert [f.value][..0] == [];
    }
  }

  lemma RowNames(c: Cold, prev: Option<int>, r: RowMeta, kind: Kind)
    requires kind != RowidGap
    ensures NamedRows(RowFindings(Some(c), prev, r), kind) == if Troubled(c, kind)(r) then [r.id] else []
  {
    var gap, check := GapOf(prev, r), CheckOf(Some(c), r);
    assert RowFindings(Some(c), prev, r) == ToSeq(gap) + ToSeq(check);
    NamedConcat(ToSeq(gap), ToSeq(check), kind);
    NamedOne(gap, kind);
    NamedOne(check, kind);
    CheckTells(c, r, kind);
    CheckNamesRow(Some(c), r);
  }

  // The findings of this kind name exactly the rows they are for, in order.
  predicate NamesThem(c: Cold, rows: seq<RowMeta>, kind: Kind) {
    NamedRows(AllFindings(Some(c), rows), kind) == IDsWhere(Troubled(c, kind), rows)
  }

  lemma NamesSnoc(c: Cold, rows: seq<RowMeta>, r: RowMeta, kind: Kind)
    requires kind != RowidGap && NamesThem(c, rows, kind)
    ensures NamesThem(c, rows + [r], kind)
  {
    FindingsSnoc(Some(c), rows, r);
    NamedConcat(AllFindings(Some(c), rows), RowFindings(Some(c), LastID(rows), r), kind);
    RowNames(c, LastID(rows), r, kind);
    assert (rows + [r])[..|rows|] == rows;
  }

  lemma NamesNone(c: Cold, kind: Kind)
    ensures NamesThem(c, [], kind)
  {
  }

  lemma {:induction false} FindingsNameRows(c: Cold, rows: seq<RowMeta>, kind: Kind)
    requires kind != RowidGap
    ensures NamesThem(c, rows, kind)
  {
    if rows == [] {
      NamesNone(c, kind);
    } else {
      var before, r := rows[..|rows| - 1], rows[|rows| - 1];
      assert before + [r] == rows;
      FindingsNameRows(c, before, kind);
      NamesSnoc(c, before, r, kind);
    }
  }

  lemma {:induction false} NoneWhere(p: RowMeta -> bool, rows: seq<RowMeta>)
    ensures IDsWhere(p, rows) == [] <==> forall k :: 0 <= k < |rows| ==> !p(rows[k])
  {
    if rows != [] {
      var n := |rows| - 1;
      NoneWhere(p, rows[..n]);
      assert forall k :: 0 <= k < n ==> rows[..n][k] == rows[k];
      assert rows[n] == rows[|rows| - 1];
    }
  }

  // Whatever HEAD and GET answer: the counters of a pass are the numbers of rows that are lost, that
  // changed, and that could not be read, and the findings of each kind name exactly those rows.
  lemma RepliesAreCounted(c: Cold, rows: seq<RowMeta>)
    ensures var t, fs := ScanAll(BEGIN, Some(c), rows).tally, AllFindings(Some(c), rows);
      && t.readErrors == |NamedRows(fs, ReadError)| && NamesThem(c, rows, ReadError)
      && t.missing == |NamedRows(fs, MissingObject)| && NamesThem(c, rows, MissingObject)
      && t.mismatches == |NamedRows(fs, HashMismatch)| && NamesThem(c, rows, HashMismatch)
  {
    ReportAccounts(Some(c), rows);
    forall kind: Kind | kind != RowidGap
      ensures |NamedRows(AllFindings(Some(c), rows), kind)| == CountKind(AllFindings(Some(c), rows), kind)
      ensures NamesThem(c, rows, kind)
    {
      FindingsNameRows(c, rows, kind);
      NamedCount(AllFindings(Some(c), rows), kind);
    }
  }

  predicate AllIntact(c: Cold, rows: seq<RowMeta>) {
    forall k :: 0 <= k < |rows| ==> Intact(c, rows[k])
  }

  lemma IntactIff(c: Cold, r: RowMeta)
    ensures Intact(c, r) <==> !Unreadable(c, r) && !Lost(c, r) && !Changed(c, r)
  {
  }

  lemma AllIntactIff(c: Cold, rows: seq<RowMeta>)
    ensures AllIntact(c, rows) <==>
      && IDsWhere(Troubled(c, ReadError), rows) == [] && IDsWhere(Troubled(c, MissingObject), rows) == []
      && IDsWhere(Troubled(c, HashMismatch), rows) == []
  {
    NoneWhere(Troubled(c, ReadError), rows);
    NoneWhere(Troubled(c, MissingObject), rows);
    NoneWhere(Troubled(c, HashMismatch), rows);
    forall k | 0 <= k < |rows|
      ensures Intact(c, rows[k]) <==> !Unreadable(c, rows[k]) && !Lost(c, rows[k]) && !Changed(c, rows[k])
    {
      IntactIff(c, rows[k]);
    }
  }

  predicate Consecutive(rows: seq<RowMeta>) {
    forall k :: 0 < k < |rows| ==> rows[k].id == rows[k - 1].id + 1
  }

  // Each row with a positive id is intact, and no id between two of them is absent.
  predicate Sound(c: Cold, table: seq<RowMeta>) {
    && (forall k :: 0 <= k < |table| && table[k].id > 0 ==> Intact(c, table[k]))
    && (forall k :: 0 < k < |table| && table[k - 1].id > 0 ==> table[k].id == table[k - 1].id + 1)
  }

  // The rows above a cursor are those from index k on.
  predicate SplitsAt(table: seq<RowMeta>, after: int, k: nat) {
    && k <= |table| && Above(table, after) == table[k..]
    && forall i :: 0 <= i < |table| ==> (table[i].id > after <==> k <= i)
  }

  lemma SplitSnoc(table: seq<RowMeta>, r: RowMeta, after: int, k: nat)
    requires SplitsAt(table, after, k) && Ascending(table + [r])
    ensures SplitsAt(table + [r], after, if r.id > after then k else |table| + 1)
  {
    var all := table + [r];
    assert all[..|table|] == table && all[|table|] == r;
    if r.id > after {
      assert table[k..] + [r] == all[k..];
    } else {
      assert forall i :: 0 <= i < |table| ==> all[i].id < all[|table|].id;
    }
  }

  lemma {:induction false} AboveIsSuffixOf(table: seq<RowMeta>, after: int) returns (k: nat)
    requires Ascending(table)
    ensures SplitsAt(table, after, k)
  {
    if table == [] {
      k := 0;
    } else {
      var before, r := table[..|table| - 1], table[|table| - 1];
      assert before + [r] == table;
      k := AboveIsSuffixOf(before, after);
      SplitSnoc(before, r, after, k);
      k := if r.id > after then k else |table|;
    }
  }

  lemma NoGapsIff(cold: Option<Cold>, rows: seq<RowMeta>)
    requires Ascending(rows)
    ensures ScanAll(BEGIN, cold, rows).tally.gaps == 0 <==> Consecutive(rows)
  {
    RowidGapsCountsRuns(cold, rows);
    GapStartsIff(rows);
    if i :| GapAfter(rows, i) {
      assert rows[i + 1].id != rows[i + 1 - 1].id + 1;
    }
    if k :| 0 < k < |rows| && rows[k].id != rows[k - 1].id + 1 {
      assert GapAfter(rows, k - 1);
    }
  }

  lemma SoundIffSuffix(c: Cold, table: seq<RowMeta>, k: nat)
    requires k <= |table| && forall i :: 0 <= i < |table| ==> (table[i].id > 0 <==> k <= i)
    ensures Sound(c, table) <==> AllIntact(c, table[k..]) && Consecutive(table[k..])
  {
    var rows := table[k..];
    if Sound(c, table) {
      forall i | 0 < i < |rows| ensures rows[i].id == rows[i - 1].id + 1 {
        assert table[k + i - 1].id > 0;
      }
    }
    if AllIntact(c, rows) && Consecutive(rows) {
      forall i | 0 <= i < |table| && table[i].id > 0 ensures Intact(c, table[i]) {
        assert rows[i - k] == table[i];
      }
      forall i | 0 < i < |table| && table[i - 1].id > 0 ensures table[i].id == table[i - 1].id + 1 {
        assert rows[i - k] == table[i] && rows[i - k - 1] == table[i - 1];
      }
    }
  }

  // A pass is clean if and only if every row with a positive id is intact and none is missing between
  // two of them: no fault of the cold tier can make it clean.
  lemma CleanIffSound(c: Cold, table: seq<RowMeta>)
    requires Ascending(table)
    ensures ScanAll(BEGIN, Some(c), Above(table, 0)).tally.Clean() <==> Sound(c, table)
  {
    var k := AboveIsSuffixOf(table, 0);
    RepliesAreCounted(c, table[k..]);
    AllIntactIff(c, table[k..]);
    NoGapsIff(Some(c), table[k..]);
    SoundIffSuffix(c, table, k);
  }
}
