// The tamper detector: a paged scan with a HEAD-first check of each row and a bounded report.
module TamperDetect {
  import opened Basics

  const MAX_FINDINGS: nat := 256
  const MAX_SAMPLE_ROW_IDS: nat := 50
  const DEFAULT_BATCH_SIZE: nat := 1000

  datatype RowMeta = RowMeta(id: int, tenantID: string, ts: int, hash: string, s3etag: string)

  datatype Kind = MissingObject | HashMismatch | RowidGap | ReadError

  // The values that the formatted Detail string carries.
  datatype Detail = Key(key: string, expectedHash: string, got: string) | Gap(expectedID: int, present: int)

  datatype Finding = Finding(rowID: int, tenantID: string, kind: Kind, detail: Detail)

  datatype HeadReply = HeadError | NotFound | Etag(etag: string)
  datatype GetReply = Body(body: string) | Absent | GetError(error: string)

  // The cold tier as one pass meets it. A row is probed at most once with each call, so replies
  // indexed by row cover every behaviour, transient faults included.
  datatype Cold = Cold(head: (int, string) -> HeadReply, get: (int, string) -> GetReply,
                       keyFn: (string, int, string) -> string, sha: string -> string)

  datatype Tally = Tally(rowsScanned: nat, missing: nat, mismatches: nat, gaps: nat, readErrors: nat,
                         findings: seq<Finding>)
  {
    predicate Clean() { missing == 0 && mismatches == 0 && gaps == 0 && readErrors == 0 }
    function Total(): nat { missing + mismatches + gaps + readErrors }
  }

  const EMPTY: Tally := Tally(0, 0, 0, 0, 0, [])

  // ---------------------------------------------------------------- one row, as a value

  // GET the object and rehash it.
  function SlowCheck(c: Cold, r: RowMeta): Option<Finding> {
    var key := c.keyFn(r.tenantID, r.ts, r.hash);
    match c.get(r.id, key)
    case Absent => Some(Finding(r.id, r.tenantID, MissingObject, Key(key, r.hash, "")))
    case GetError(e) => Some(Finding(r.id, r.tenantID, ReadError, Key(key, "", e)))
    case Body(b) =>
      if c.sha(b) != r.hash then Some(Finding(r.id, r.tenantID, HashMismatch, Key(key, r.hash, c.sha(b)))) else None
  }

  // HEAD first, when the row has an ETag to compare with.
  function FastCheck(c: Cold, r: RowMeta): Option<Finding> {
    var key := c.keyFn(r.tenantID, r.ts, r.hash);
    if r.s3etag == "" then SlowCheck(c, r)
    else match c.head(r.id, key)
      case HeadError => SlowCheck(c, r)
      case NotFound => Some(Finding(r.id, r.tenantID, MissingObject, Key(key, r.hash, "")))
      case Etag(e) => if e == r.s3etag then None else SlowCheck(c, r)
  }

  function GapFinding(prev: int, r: RowMeta): Option<Finding> {
    if r.id != prev + 1 then Some(Finding(prev + 1, "", RowidGap, Gap(prev + 1, r.id))) else None
  }

  function Note(t: Tally, f: Option<Finding>): Tally {
    if f.None? then t
    else
      var kept := if |t.findings| >= MAX_FINDINGS then t.findings else t.findings + [f.value];
      match f.value.kind
      case MissingObject => t.(missing := t.missing + 1, findings := kept)
      case HashMismatch => t.(mismatches := t.mismatches + 1, findings := kept)
      case RowidGap => t.(gaps := t.gaps + 1, findings := kept)
      case ReadError => t.(readErrors := t.readErrors + 1, findings := kept)
  }

  // ---------------------------------------------------------------- the unpaged fold

  // prev is None until the first row of the run has been seen.
  datatype Scan = Scan(tally: Tally, prev: Option<int>)

  function ScanRow(s: Scan, cold: Option<Cold>, r: RowMeta): Scan {
    var counted := s.tally.(rowsScanned := s.tally.rowsScanned + 1);
    var gapped := if s.prev.None? then counted else Note(counted, GapFinding(s.prev.value, r));
    Scan(if cold.None? then gapped else Note(gapped, FastCheck(cold.value, r)), Some(r.id))
  }

  function Visit(cold: Option<Cold>): (Scan, RowMeta) -> Scan {
    (s: Scan, r: RowMeta) => ScanRow(s, cold, r)
  }

  function ScanAll(s: Scan, cold: Option<Cold>, rows: seq<RowMeta>): Scan {
    Fold(Visit(cold), s, rows)
  }

  const BEGIN: Scan := Scan(EMPTY, None)

  predicate Ascending(rows: seq<RowMeta>) {
    forall i, j :: 0 <= i < j < |rows| ==> rows[i].id < rows[j].id
  }

  // WHERE id > after ORDER BY id, over a table kept in primary-key order.
  function Above(table: seq<RowMeta>, after: int): seq<RowMeta> {
    if table == [] then []
    else
      var n := |table| - 1;
      Above(table[..n], after) + if table[n].id > after then [table[n]] else []
  }

  function Page(table: seq<RowMeta>, after: int, limit: nat): seq<RowMeta> {
    var rows := Above(table, after);
    if |rows| <= limit then rows else rows[..limit]
  }

  function Limit(batchSize: int): (limit: nat)
    ensures limit > 0 && (batchSize > 0 ==> limit == batchSize) && (batchSize <= 0 ==> limit == 1000)
  {
    if batchSize <= 0 then DEFAULT_BATCH_SIZE else batchSize
  }

  // Some page query of the pass fails, given that the first one from here is number n: a pass asks
  // for another page after every full one.
  function PassFails(table: seq<RowMeta>, after: int, limit: nat, queryFails: nat -> bool, n: nat): bool
    requires Ascending(table) && limit > 0
    decreases |Above(table, after)|
  {
    queryFails(n) ||
    var rows := Page(table, after, limit);
    |rows| == limit && (FullPageShrinks(table, after, limit);
                        PassFails(table, rows[limit - 1].id, limit, queryFails, n + 1))
  }

  // The paged scan as a function: page after page until one is short or a query fails.
  function Paged(table: seq<RowMeta>, cold: Option<Cold>, after: int, limit: nat, queryFails: nat -> bool, n: nat,
                 s: Scan): Option<Scan>
    requires Ascending(table) && limit > 0
    decreases |Above(table, after)|
  {
    if queryFails(n) then None
    else
      var rows := Page(table, after, limit);
      var next := ScanAll(s, cold, rows);
      if |rows| < limit then Some(next)
      else
        FullPageShrinks(table, after, limit);
        Paged(table, cold, rows[limit - 1].id, limit, queryFails, n + 1, next)
  }

  // What is above the k-th row above a cursor.
  lemma AboveRow(table: seq<RowMeta>, after: int, k: nat)
    requires Ascending(table) && k < |Above(table, after)|
    ensures Above(table, Above(table, after)[k].id) == Above(table, after)[k + 1..]
  {
    var rows := Above(table, after);
    var id := rows[k].id;
    assert id > after && Ascending(rows) by {
      AboveMembers(table, after);
      assert rows[k] in rows;
    }
    AboveOfAbove(table, after, id);
    AboveIsSuffix(rows, k);
  }

  lemma SplitAt(rows: seq<RowMeta>, k: nat)
    requires k <= |rows|
    ensures rows == rows[..k] + rows[k..]
  {
  }

  lemma PageThenRest(table: seq<RowMeta>, after: int, limit: nat)
    requires Ascending(table) && 0 < limit == |Page(table, after, limit)|
    ensures Above(table, after) == Page(table, after, limit) + Above(table, Page(table, after, limit)[limit - 1].id)
  {
    AboveRow(table, after, limit - 1);
    SplitAt(Above(table, after), limit);
  }

  lemma FullPageShrinks(table: seq<RowMeta>, after: int, limit: nat)
    requires Ascending(table) && 0 < limit == |Page(table, after, limit)|
    ensures |Above(table, Page(table, after, limit)[limit - 1].id)| < |Above(table, after)|
  {
    PageThenRest(table, after, limit);
  }

  lemma PagedStep(table: seq<RowMeta>, cold: Option<Cold>, after: int, limit: nat, queryFails: nat -> bool, n: nat,
                  s: Scan)
    requires Ascending(table) && limit > 0 && !queryFails(n)
    ensures |Page(table, after, limit)| <= limit
    ensures |Page(table, after, limit)| < limit ==>
      Paged(table, cold, after, limit, queryFails, n, s) == Some(ScanAll(s, cold, Page(table, after, limit)))
    ensures |Page(table, after, limit)| == limit ==>
      var rows := Page(table, after, limit);
      && |Above(table, rows[limit - 1].id)| < |Above(table, after)|
      && Paged(table, cold, after, limit, queryFails, n, s)
           == Paged(table, cold, rows[limit - 1].id, limit, queryFails, n + 1, ScanAll(s, cold, rows))
  {
    if |Page(table, after, limit)| == limit {
      FullPageShrinks(table, after, limit);
    }
  }

  // Paging refines one pass: the same tally as a single fold over the rows, in particular for gaps
  // that straddle two pages, whatever the page size.
  lemma {:induction false} PagingRefines(table: seq<RowMeta>, cold: Option<Cold>, after: int, limit: nat,
                                         queryFails: nat -> bool, n: nat, s: Scan)
    requires Ascending(table) && limit > 0
    ensures Paged(table, cold, after, limit, queryFails, n, s) ==
      if PassFails(table, after, limit, queryFails, n) then None else Some(ScanAll(s, cold, Above(table, after)))
    decreases |Above(table, after)|
  {
    var rows := Page(table, after, limit);
    if !queryFails(n) && |rows| == limit {
      FullPageShrinks(table, after, limit);
      PagingRefines(table, cold, rows[limit - 1].id, limit, queryFails, n + 1, ScanAll(s, cold, rows));
      PageThenRest(table, after, limit);
      FoldConcat(Visit(cold), s, rows, Above(table, rows[limit - 1].id));
    }
  }

  // ---------------------------------------------------------------- the detector

  class Report {
    var rowsScanned: nat
    var missingObjects: nat
    var hashMismatches: nat
    var rowidGaps: nat
    var readErrors: nat
    var findings: seq<Finding>
    const coldTierEnabled: bool

    constructor (coldTierEnabled: bool)
      ensures Value() == EMPTY && this.coldTierEnabled == coldTierEnabled
    {
      rowsScanned, missingObjects, hashMismatches, rowidGaps, readErrors := 0, 0, 0, 0, 0;
      findings := [];
      this.coldTierEnabled := coldTierEnabled;
    }

    function Value(): Tally
      reads this
    {
      Tally(rowsScanned, missingObjects, hashMismatches, rowidGaps, readErrors, findings)
    }

    method AppendFinding(f: Finding)
      modifies this`findings
      ensures findings == if |old(findings)| >= 256 then old(findings) else old(findings) + [f]
    {
      if |findings| >= MAX_FINDINGS {
        return;
      }
      findings := findings + [f];
    }
  }

  class Detector {
    const table: seq<RowMeta>       // audit_log in primary-key order
    const cold: Option<Cold>        // None is continuity-only mode
    const batchSize: int
    var lastClean: Option<int>
    var sent: seq<Payload>          // what the alerter has been handed

    constructor (table: seq<RowMeta>, cold: Option<Cold>, batchSize: int)
      ensures this.table == table && this.cold == cold && this.batchSize == batchSize
      ensures lastClean == None && sent == []
    {
      this.table, this.cold, this.batchSize := table, cold, batchSize;
      lastClean, sent := None, [];
    }

    method CheckRow(c: Cold, r: RowMeta, rep: Report)
      modifies rep
      ensures rep.Value() == old(Note(rep.Value(), FastCheck(c, r)))
    {
      var key := c.keyFn(r.tenantID, r.ts, r.hash);
      if r.s3etag != "" {
        match c.head(r.id, key)
        case HeadError =>
        case NotFound =>
          rep.missingObjects := rep.missingObjects + 1;
          rep.AppendFinding(Finding(r.id, r.tenantID, MissingObject, Key(key, r.hash, "")));
          return;
        case Etag(e) =>
          if e == r.s3etag {
            return;
          }
      }
      match c.get(r.id, key)
      case Absent =>
        rep.missingObjects := rep.missingObjects + 1;
        rep.AppendFinding(Finding(r.id, r.tenantID, MissingObject, Key(key, r.hash, "")));
      case GetError(e) =>
        rep.readErrors := rep.readErrors + 1;
        rep.AppendFinding(Finding(r.id, r.tenantID, ReadError, Key(key, "", e)));
      case Body(body) =>
        var got := c.sha(body);
        if got != r.hash {
          rep.hashMismatches := rep.hashMismatches + 1;
          rep.AppendFinding(Finding(r.id, r.tenantID, HashMismatch, Key(key, r.hash, got)));
        }
    }

    // One row of the scan; `prev` is the pair of the source's firstRow and prevID.
    method ScanOne(r: RowMeta, prev: Option<int>, rep: Report) returns (prev': Option<int>)
      modifies rep
      ensures Scan(rep.Value(), prev') == ScanRow(Scan(old(rep.Value()), prev), cold, r)
    {
      ghost var before := Scan(rep.Value(), prev);
      rep.rowsScanned := rep.rowsScanned + 1;
      assert rep.Value() == before.tally.(rowsScanned := before.tally.rowsScanned + 1);
      if prev.Some? && r.id != prev.value + 1 {
        rep.rowidGaps := rep.rowidGaps + 1;
        rep.AppendFinding(Finding(prev.value + 1, "", RowidGap, Gap(prev.value + 1, r.id)));
      }
      ghost var gap := if prev.None? then None else GapFinding(prev.value, r);
      assert rep.Value() == Note(before.tally.(rowsScanned := before.tally.rowsScanned + 1), gap);
      prev' := Some(r.id);
      if cold.Some? {
        CheckRow(cold.value, r, rep);
      }
    }

    method ScanBatch(afterID: int, limit: nat, prev: Option<int>, rep: Report)
        returns (fetched: nat, newLastID: int, prev': Option<int>)
      modifies rep
      ensures var rows := Page(table, afterID, limit);
        && fetched == |rows| && (rows != [] ==> newLastID == rows[|rows| - 1].id)
        && Scan(rep.Value(), prev') == ScanAll(Scan(old(rep.Value()), prev), cold, rows)
    {
      var rows := Page(table, afterID, limit);
      ghost var start := Scan(rep.Value(), prev);
      fetched, newLastID, prev' := 0, 0, prev;
      for i := 0 to |rows|
        invariant fetched == i && (i > 0 ==> newLastID == rows[i - 1].id)
        invariant Scan(rep.Value(), prev') == ScanAll(start, cold, rows[..i])
      {
        assert rows[..i + 1][..i] == rows[..i];
        fetched := fetched + 1;
        newLastID := rows[i].id;
        prev' := ScanOne(rows[i], prev', rep);
      }
      assert rows[..|rows|] == rows;
    }

    // One pass. `queryFails(n)` says whether the n-th page query fails. The pass terminates, fails
    // exactly when a query it makes fails, and otherwise reports what a single fold over the rows
    // with positive ids reports.
    method Check(queryFails: nat -> bool) returns (r: Result<Report>)
      requires Ascending(table)
      ensures r.Err? <==> PassFails(table, 0, Limit(batchSize), queryFails, 0)
      ensures r.Err? ==> r.error == QUERY_ERROR
      ensures r.Ok? ==> fresh(r.value) && r.value.coldTierEnabled == cold.Some?
      ensures r.Ok? ==> r.value.Value() == ScanAll(BEGIN, cold, Above(table, 0)).tally
    {
      var rep := new Report(cold.Some?);
      var lastID := 0;
      var prev: Option<int> := None;
      var limit := Limit(batchSize);
      var pages: nat := 0;
      ghost var goal := Paged(table, cold, 0, limit, queryFails, 0, BEGIN);
      while true
        invariant Paged(table, cold, lastID, limit, queryFails, pages, Scan(rep.Value(), prev)) == goal
        decreases |Above(table, lastID)|
      {
        if queryFails(pages) {
          PagingRefines(table, cold, 0, limit, queryFails, 0, BEGIN);
          return Err(QUERY_ERROR);
        }
        PagedStep(table, cold, lastID, limit, queryFails, pages, Scan(rep.Value(), prev));
        var fetched, newLastID, prev' := ScanBatch(lastID, limit, prev, rep);
        pages := pages + 1;
        prev := prev';
        if fetched == 0 {
          break;
        }
        lastID := newLastID;
        if fetched < limit {
          break;
        }
      }
      PagingRefines(table, cold, 0, limit, queryFails, 0, BEGIN);
      return Ok(rep);
    }

    // One alert if a query failed or the pass is unclean, none if it is clean.
    method RunOnce(queryFails: nat -> bool, now: int)
      requires Ascending(table)
      modifies this
      ensures var t := ScanAll(BEGIN, cold, Above(table, 0)).tally;
        if PassFails(table, 0, Limit(batchSize), queryFails, 0) then
          sent == old(sent) + [FailurePayload()] && lastClean == old(lastClean)
        else if t.Clean() then sent == old(sent) && lastClean == Some(now)
        else sent == old(sent) + [SummaryPayload(t, cold.Some?, None)] && lastClean == old(lastClean)
    {
      var payload: Option<Payload> := None;
      var rep := Check(queryFails);
      if rep.Err? {
        payload := Some(SummaryPayload(EMPTY.(readErrors := 1), false, Some(rep.error)));
      } else if rep.value.Value().Clean() {
        lastClean := Some(now);
      } else {
        payload := Some(SummaryPayload(rep.value.Value(), rep.value.coldTierEnabled, None));
      }
      if payload.Some? {
        sent := sent + [payload.value];
      }
    }
  }

  const QUERY_ERROR: string := "tamperdetect: query audit_log"

  // The synthetic report of a pass that could not read the table.
  function FailurePayload(): (p: Payload)
    ensures p.scanError == Some("tamperdetect: query audit_log") && p.tally.readErrors == 1 && p.sampleRowIDs == []
  {
    SummaryPayload(EMPTY.(readErrors := 1), false, Some(QUERY_ERROR))
  }

  datatype Payload = Payload(tally: Tally, totalFindings: nat, coldTierEnabled: bool, sampleRowIDs: seq<int>,
                             sampleTruncated: bool, scanError: Option<string>)

  function SummaryPayload(t: Tally, coldTierEnabled: bool, scanError: Option<string>): (p: Payload)
    ensures |p.sampleRowIDs| <= MAX_SAMPLE_ROW_IDS && |p.sampleRowIDs| <= p.totalFindings == |t.findings|
    ensures p.sampleTruncated <==> |p.sampleRowIDs| < p.totalFindings
    ensures forall i :: 0 <= i < |p.sampleRowIDs| ==> p.sampleRowIDs[i] == t.findings[i].rowID
    ensures |t.findings| > 50 ==> |p.sampleRowIDs| == 50
    ensures p.tally == t && p.coldTierEnabled == coldTierEnabled && p.scanError == scanError
  {
    var total := |t.findings|;
    var sampleLen := if total > MAX_SAMPLE_ROW_IDS then MAX_SAMPLE_ROW_IDS else total;
    Payload(t, total, coldTierEnabled, seq(sampleLen, i requires 0 <= i < sampleLen => t.findings[i].rowID),
            total > MAX_SAMPLE_ROW_IDS, scanError)
  }

  // ---------------------------------------------------------------- rows above a cursor

  lemma {:induction false} AboveMembers(table: seq<RowMeta>, after: int)
    requires Ascending(table)
    ensures Ascending(Above(table, after))
    ensures forall r :: r in Above(table, after) <==> r in table && r.id > after
  {
    if table != [] {
      var n := |table| - 1;
      AboveMembers(table[..n], after);
      assert table == table[..n] + [table[n]];
      var before := Above(table[..n], after);
      forall i | 0 <= i < |before| ensures before[i].id < table[n].id {
        assert before[i] in before;
        var k :| 0 <= k < n && table[..n][k] == before[i];
        assert table[k].id < table[n].id;
      }
    }
  }

  // Rows above a later cursor are a suffix of the rows above an earlier one.
  lemma {:induction false} AboveOfAbove(table: seq<RowMeta>, after: int, cursor: int)
    requires Ascending(table) && after <= cursor
    ensures Above(Above(table, after), cursor) == Above(table, cursor)
  {
    if table != [] {
      var n := |table| - 1;
      AboveOfAbove(table[..n], after, cursor);
      var before, all := Above(table[..n], after), Above(table, after);
      if table[n].id > after {
        assert all[..|all| - 1] == before;
      } else {
        assert all == before;
      }
    }
  }

  lemma {:induction false} AboveIsSuffix(rows: seq<RowMeta>, k: nat)
    requires Ascending(rows) && k < |rows|
    ensures Above(rows, rows[k].id) == rows[k + 1..]
    decreases |rows|
  {
    var n := |rows| - 1;
    if k == n {
      assert forall i :: 0 <= i < |rows| ==> rows[i].id <= rows[k].id;
      NoneAbove(rows, rows[k].id);
    } else {
      assert rows[..n][k] == rows[k];
      AboveIsSuffix(rows[..n], k);
      assert rows[k + 1..] == rows[..n][k + 1..] + [rows[n]];
    }
  }

  lemma {:induction false} NoneAbove(rows: seq<RowMeta>, cursor: int)
    requires forall i :: 0 <= i < |rows| ==> rows[i].id <= cursor
    ensures Above(rows, cursor) == []
  {
    if rows != [] {
      NoneAbove(rows[..|rows| - 1], cursor);
    }
  }
}
