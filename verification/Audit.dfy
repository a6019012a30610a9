// The audit hash chain: what Append builds, what Verify finds, and exactly which altered tables
// still verify.
module Audit {
  import opened Basics

  datatype Content = Content(tenantID: string, userID: string, action: string, target: string, ts: int,
                             ip: string, userAgent: string)

  // id and the stored ETag are not part of what is hashed.
  datatype Entry = Entry(id: int, content: Content, prevHash: string, hash: string, s3etag: string)

  datatype Canonical = Canonical(content: Content, prevHash: string)

  // Canonical JSON and SHA-256 in hex, as functions.
  datatype Hasher = Hasher(encode: Canonical -> string, sha: string -> string)

  function CanonicalBytes(h: Hasher, c: Content, prevHash: string): string {
    h.encode(Canonical(c, prevHash))
  }

  function HashOf(h: Hasher, c: Content, prevHash: string): string {
    h.sha(CanonicalBytes(h, c, prevHash))
  }

  ghost predicate NeverEmpty(h: Hasher) {
    forall s :: h.sha(s) != ""
  }

  // No two different values that these tables hash collide: a statement about the encoder and the
  // digest alone, over all that a row's hash is to cover.
  predicate CollisionFree(h: Hasher, a: seq<Entry>, b: seq<Entry>) {
    forall i, j :: 0 <= i < |a| && 0 <= j < |b| ==> Separated(h, a[i], b[j])
  }

  predicate Separated(h: Hasher, e: Entry, f: Entry) {
    var x, y := Canonical(e.content, e.prevHash), Canonical(f.content, f.prevHash);
    h.sha(h.encode(x)) == h.sha(h.encode(y)) ==> x == y
  }

  function LastHash(t: seq<Entry>): string {
    if t == [] then "" else t[|t| - 1].hash
  }

  // Row k follows its predecessor and carries its own hash.
  predicate LinkOk(h: Hasher, t: seq<Entry>, k: nat)
    requires k < |t|
  {
    && t[k].prevHash == LastHash(t[..k])
    && t[k].hash == h.sha(h.encode(Canonical(t[k].content, t[k].prevHash)))
  }

  predicate Verifies(h: Hasher, t: seq<Entry>) {
    forall k :: 0 <= k < |t| ==> LinkOk(h, t, k)
  }

  predicate FirstBreak(h: Hasher, t: seq<Entry>, k: nat) {
    k < |t| && !LinkOk(h, t, k) && forall m :: 0 <= m < k ==> LinkOk(h, t, m)
  }

  method Verify(h: Hasher, t: seq<Entry>) returns (id: int, error: Option<string>)
    ensures error.None? <==> Verifies(h, t)
    ensures error.None? ==> id == 0
    ensures error.Some? ==> exists k: nat :: FirstBreak(h, t, k) && id == t[k].id
  {
    var prev := "";
    for i := 0 to |t|
      invariant prev == LastHash(t[..i])
      invariant forall m :: 0 <= m < i ==> LinkOk(h, t, m)
    {
      var e := t[i];
      if e.prevHash != prev {
        assert FirstBreak(h, t, i);
        return e.id, Some("audit: chain break (prev_hash mismatch)");
      }
      if HashOf(h, e.content, e.prevHash) != e.hash {
        assert FirstBreak(h, t, i);
        return e.id, Some("audit: chain break (hash mismatch)");
      }
      prev := e.hash;
    }
    return 0, None;
  }

  // ---------------------------------------------------------------- exactly which tables verify

  // The chain hash of a list of contents.
  function ChainHash(h: Hasher, cs: seq<Content>): string {
    if cs == [] then "" else HashOf(h, cs[|cs| - 1], ChainHash(h, cs[..|cs| - 1]))
  }

  function Contents(t: seq<Entry>): (cs: seq<Content>)
    ensures |cs| == |t|
  {
    seq(|t|, i requires 0 <= i < |t| => t[i].content)
  }

  // Row k carries the chain hashes of the contents before it and up to it.
  predicate ChainAt(h: Hasher, t: seq<Entry>, k: nat)
    requires k < |t|
  {
    t[k].prevHash == ChainHash(h, Contents(t[..k])) && t[k].hash == ChainHash(h, Contents(t[..k + 1]))
  }

  lemma ChainUnfolds(h: Hasher, t: seq<Entry>, k: nat)
    requires k < |t|
    ensures ChainHash(h, Contents(t[..k + 1])) == HashOf(h, t[k].content, ChainHash(h, Contents(t[..k])))
  {
    assert Contents(t[..k + 1])[..k] == Contents(t[..k]);
  }

  lemma {:induction false} LinksGiveChain(h: Hasher, t: seq<Entry>, k: nat)
    requires Verifies(h, t) && k < |t|
    ensures ChainAt(h, t, k)
  {
    assert LinkOk(h, t, k);
    ChainUnfolds(h, t, k);
    if k > 0 {
      LinksGiveChain(h, t, k - 1);
    }
  }

  // A table verifies if and only if each row's two hashes are the chain hashes of the contents up
  // to it: the contents decide everything else that is checked.
  lemma VerifiesIff(h: Hasher, t: seq<Entry>)
    ensures Verifies(h, t) <==> forall k :: 0 <= k < |t| ==> ChainAt(h, t, k)
  {
    if Verifies(h, t) {
      forall k | 0 <= k < |t| ensures ChainAt(h, t, k) {
        LinksGiveChain(h, t, k);
      }
    }
    if forall k :: 0 <= k < |t| ==> ChainAt(h, t, k) {
      forall k | 0 <= k < |t| ensures LinkOk(h, t, k) {
        assert ChainAt(h, t, k);
        ChainUnfolds(h, t, k);
        if k > 0 {
          assert ChainAt(h, t, k - 1);
        }
      }
    }
  }

  predicate SameRow(e: Entry, f: Entry) {
    e.content == f.content && e.prevHash == f.prevHash && e.hash == f.hash
  }

  // One shared hash, anywhere in two verifying tables, means the same position and the same past.
  lemma {:induction false} SharedHashSharedPast(h: Hasher, a: seq<Entry>, b: seq<Entry>, i: nat, j: nat)
    requires Verifies(h, a) && Verifies(h, b) && CollisionFree(h, a, b) && NeverEmpty(h)
    requires i < |a| && j < |b| && a[i].hash == b[j].hash
    ensures i == j && forall k :: 0 <= k <= i ==> SameRow(a[k], b[k])
  {
    assert LinkOk(h, a, i) && LinkOk(h, b, j);
    assert Separated(h, a[i], b[j]);
    if i > 0 { assert LinkOk(h, a, i - 1); }
    if j > 0 { assert LinkOk(h, b, j - 1); }
    if i > 0 && j > 0 {
      assert LastHash(a[..i]) == a[i - 1].hash && LastHash(b[..j]) == b[j - 1].hash;
      SharedHashSharedPast(h, a, b, i - 1, j - 1);
    }
  }

  // Two verifying tables with one final hash are the same log.
  lemma SameLastHashSameLog(h: Hasher, a: seq<Entry>, b: seq<Entry>)
    requires Verifies(h, a) && Verifies(h, b) && CollisionFree(h, a, b) && NeverEmpty(h)
    ensures LastHash(a) == LastHash(b) <==> |a| == |b| && forall k :: 0 <= k < |a| ==> SameRow(a[k], b[k])
  {
    if a != [] { assert LinkOk(h, a, |a| - 1); }
    if b != [] { assert LinkOk(h, b, |b| - 1); }
    if a != [] && b != [] && LastHash(a) == LastHash(b) {
      SharedHashSharedPast(h, a, b, |a| - 1, |b| - 1);
    }
    if |a| == |b| && a != [] && forall k :: 0 <= k < |a| ==> SameRow(a[k], b[k]) {
      assert SameRow(a[|a| - 1], b[|a| - 1]);
    }
  }

  // Once two verifying tables differ at a row, no later hash of the one occurs in the other.
  lemma DivergenceIsForever(h: Hasher, a: seq<Entry>, b: seq<Entry>, k: nat, i: nat, j: nat)
    requires Verifies(h, a) && Verifies(h, b) && CollisionFree(h, a, b) && NeverEmpty(h)
    requires k < |a| && k < |b| && a[k].content != b[k].content && k <= i < |a| && j < |b|
    ensures a[i].hash != b[j].hash
  {
    if a[i].hash == b[j].hash {
      SharedHashSharedPast(h, a, b, i, j);
    }
  }

  // ---------------------------------------------------------------- deletions

  predicate Picks(p: seq<nat>, n: nat) {
    && (forall k :: 0 <= k < |p| ==> p[k] < n)
    && (forall j, k :: 0 <= j < k < |p| ==> p[j] < p[k])
  }

  function Subtable(t: seq<Entry>, p: seq<nat>): (s: seq<Entry>)
    requires Picks(p, |t|)
    ensures |s| == |p| && forall k :: 0 <= k < |p| ==> s[k] == t[p[k]]
  {
    seq(|p|, k requires 0 <= k < |p| => t[p[k]])
  }

  // Deleting rows of a verifying table leaves a verifying one if and only if only the tail went.
  lemma SubtableVerifiesIff(h: Hasher, t: seq<Entry>, p: seq<nat>)
    requires Verifies(h, t) && CollisionFree(h, t, t) && NeverEmpty(h) && Picks(p, |t|)
    ensures Verifies(h, Subtable(t, p)) <==> forall k :: 0 <= k < |p| ==> p[k] == k
  {
    var s := Subtable(t, p);
    if Verifies(h, s) {
      assert CollisionFree(h, s, t) by {
        forall i, j | 0 <= i < |s| && 0 <= j < |t| ensures Separated(h, s[i], t[j]) {
          assert Separated(h, t[p[i]], t[j]);
        }
      }
      forall k | 0 <= k < |p| ensures p[k] == k {
        SharedHashSharedPast(h, s, t, k, p[k]);
      }
    }
    if forall k :: 0 <= k < |p| ==> p[k] == k {
      forall k | 0 <= k < |s| ensures LinkOk(h, s, k) {
        assert p[k] == k;
        assert LinkOk(h, t, k);
        forall m | 0 <= m < k ensures s[m] == t[m] {
          assert p[m] == m;
        }
        assert s[..k] == t[..k];
      }
    }
  }

  // ---------------------------------------------------------------- edits of one row

  // New content under the old hashes: Verify stops at exactly that row.
  lemma EditIsCaught(h: Hasher, t: seq<Entry>, k: nat, c: Content)
    requires Verifies(h, t) && k < |t| && c != t[k].content
    requires CollisionFree(h, t, t[k := t[k].(content := c)])
    ensures FirstBreak(h, t[k := t[k].(content := c)], k)
  {
    var u := t[k := t[k].(content := c)];
    assert LinkOk(h, t, k) && Separated(h, t[k], u[k]);
    forall m | 0 <= m < k ensures LinkOk(h, u, m) {
      assert LinkOk(h, t, m) && u[..m] == t[..m];
    }
  }

  function Rehashed(h: Hasher, t: seq<Entry>, k: nat, c: Content): seq<Entry>
    requires k < |t|
  {
    t[k := t[k].(content := c, hash := HashOf(h, c, t[k].prevHash))]
  }

  // New content with its own hash recomputed: Verify stops at the next row, if there is one; an
  // edit of the last row goes unseen.
  lemma RehashedEditIsCaughtNext(h: Hasher, t: seq<Entry>, k: nat, c: Content)
    requires Verifies(h, t) && k < |t| && c != t[k].content && CollisionFree(h, t, Rehashed(h, t, k, c))
    ensures k + 1 < |t| ==> FirstBreak(h, Rehashed(h, t, k, c), k + 1)
    ensures Verifies(h, Rehashed(h, t, k, c)) <==> k + 1 == |t|
  {
    var u := Rehashed(h, t, k, c);
    assert LinkOk(h, t, k) && Separated(h, t[k], u[k]);
    forall m | 0 <= m <= k ensures LinkOk(h, u, m) {
      assert LinkOk(h, t, m) && u[..m] == t[..m];
    }
    if k + 1 < |t| {
      assert LinkOk(h, t, k + 1);
      assert LastHash(u[..k + 1]) == u[k].hash && LastHash(t[..k + 1]) == t[k].hash;
      assert !LinkOk(h, u, k + 1);
    }
  }

  // ---------------------------------------------------------------- Append extends the chain

  function NextEntry(h: Hasher, t: seq<Entry>, c: Content, id: int): Entry {
    Entry(id, c, LastHash(t), HashOf(h, c, LastHash(t)), "")
  }

  lemma AppendKeepsVerifying(h: Hasher, t: seq<Entry>, c: Content, id: int)
    requires Verifies(h, t)
    ensures Verifies(h, t + [NextEntry(h, t, c, id)])
  {
    var u := t + [NextEntry(h, t, c, id)];
    forall k | 0 <= k < |u| ensures LinkOk(h, u, k) {
      assert u[..k] == t[..k];
      if k < |t| {
        assert LinkOk(h, t, k);
      } else {
        assert t[..k] == t;
      }
    }
  }

  // In a verifying table all hashes are distinct.
  lemma HashesDistinct(h: Hasher, t: seq<Entry>)
    requires Verifies(h, t) && CollisionFree(h, t, t) && NeverEmpty(h)
    ensures forall i, j :: 0 <= i < j < |t| ==> t[i].hash != t[j].hash
  {
    forall i, j | 0 <= i < j < |t| ensures t[i].hash != t[j].hash {
      if t[i].hash == t[j].hash {
        SharedHashSharedPast(h, t, t, i, j);
      }
    }
  }

  // ---------------------------------------------------------------- backfill of unhashed rows

  // The first rows after the backfill has passed them, and the hash it will chain the next one to.
  datatype Filling = Filling(rows: seq<Entry>, prev: string)

  // Unhashed rows are chained to one another, beginning at the last row's hash; hashed rows are skipped.
  function Fill(h: Hasher, t: seq<Entry>, k: nat): Filling
    requires k <= |t|
  {
    if k == 0 then Filling([], LastHash(t))
    else
      var f, e := Fill(h, t, k - 1), t[k - 1];
      if e.hash != "" then Filling(f.rows + [e], f.prev)
      else
        var hash := HashOf(h, e.content, f.prev);
        Filling(f.rows + [e.(prevHash := f.prev, hash := hash)], hash)
  }

  function Backfilled(h: Hasher, t: seq<Entry>): seq<Entry> {
    Fill(h, t, |t|).rows
  }

  // u is t with the rows before k backfilled.
  predicate FilledUpTo(h: Hasher, t: seq<Entry>, k: nat, u: seq<Entry>) {
    k <= |t| && u == Fill(h, t, k).rows + t[k..]
  }

  // Stops at the first UPDATE that fails, which leaves the table half backfilled.
  method BackfillChain(h: Hasher, t: seq<Entry>, updateOk: nat -> bool) returns (u: seq<Entry>, error: Option<string>)
    ensures error.None? ==> u == Backfilled(h, t)
    ensures error.Some? ==> exists k: nat :: k < |t| && FilledUpTo(h, t, k, u) && t[k].hash == "" && !updateOk(k)
    ensures error.None? <==> forall k: nat :: k < |t| && t[k].hash == "" ==> updateOk(k)
  {
    var prev := LastHash(t);
    u := [];
    for i := 0 to |t|
      invariant Fill(h, t, i) == Filling(u, prev)
      invariant forall k: nat :: k < i && t[k].hash == "" ==> updateOk(k)
    {
      if t[i].hash != "" {
        u := u + [t[i]];
        continue;
      }
      if !updateOk(i) {
        u := u + t[i..];
        assert FilledUpTo(h, t, i, u);
        return u, Some("audit: backfill");
      }
      var hash := HashOf(h, t[i].content, prev);
      u := u + [t[i].(prevHash := prev, hash := hash)];
      prev := hash;
    }
    return u, None;
  }

  predicate OnlyHashes(e: Entry, f: Entry) {
    && f.id == e.id && f.content == e.content && f.s3etag == e.s3etag
    && (e.hash != "" ==> f == e)
  }

  lemma {:induction false} FillLength(h: Hasher, t: seq<Entry>, k: nat)
    requires k <= |t|
    ensures |Fill(h, t, k).rows| == k
  {
    if k > 0 {
      FillLength(h, t, k - 1);
    }
  }

  // Row i of the result, whatever comes after it.
  predicate RowFilled(h: Hasher, t: seq<Entry>, i: nat, f: Entry)
    requires i < |t|
  {
    && OnlyHashes(t[i], f)
    && (t[i].hash == "" ==> f.prevHash == Fill(h, t, i).prev && f.hash == HashOf(h, f.content, f.prevHash))
  }

  lemma {:induction false} RowIsFilled(h: Hasher, t: seq<Entry>, k: nat, i: nat)
    requires i < k <= |t|
    ensures |Fill(h, t, k).rows| == k && RowFilled(h, t, i, Fill(h, t, k).rows[i])
    decreases k
  {
    FillLength(h, t, k);
    FillLength(h, t, k - 1);
    if i < k - 1 {
      RowIsFilled(h, t, k - 1, i);
    }
  }

  // No id, content or ETag changes, and no hashed row changes at all.
  lemma BackfillKeepsContents(h: Hasher, t: seq<Entry>)
    ensures |Backfilled(h, t)| == |t|
    ensures forall i :: 0 <= i < |t| ==> OnlyHashes(t[i], Backfilled(h, t)[i])
  {
    FillLength(h, t, |t|);
    forall i | 0 <= i < |t| ensures OnlyHashes(t[i], Backfilled(h, t)[i]) {
      RowIsFilled(h, t, |t|, i);
    }
  }

  // The last unhashed row before i, or -1.
  function LastUnhashed(t: seq<Entry>, i: nat): (d: int)
    requires i <= |t|
    ensures -1 <= d < i
    ensures d >= 0 ==> t[d].hash == ""
  {
    if i == 0 then -1 else if t[i - 1].hash == "" then i - 1 else LastUnhashed(t, i - 1)
  }

  lemma {:induction false} PrevIs(h: Hasher, t: seq<Entry>, i: nat, n: nat)
    requires i <= n <= |t|
    ensures |Fill(h, t, n).rows| == n
    ensures Fill(h, t, i).prev ==
      if LastUnhashed(t, i) < 0 then LastHash(t) else Fill(h, t, n).rows[LastUnhashed(t, i)].hash
    decreases i
  {
    FillLength(h, t, n);
    if i > 0 {
      if t[i - 1].hash == "" {
        RowIsFilled(h, t, n, i - 1);
      } else {
        PrevIs(h, t, i - 1, n);
      }
    }
  }

  predicate Legacy(t: seq<Entry>) {
    forall k :: 0 <= k < |t| ==> t[k].hash == ""
  }

  predicate FillsWell(h: Hasher, t: seq<Entry>) {
    Verifies(h, Backfilled(h, t)) && CollisionFree(h, Backfilled(h, t), Backfilled(h, t))
  }

  // The hash an unhashed row is chained to is that of the row before it.
  lemma ChainedToLast(h: Hasher, t: seq<Entry>, m: nat)
    requires FillsWell(h, t) && m < |t| && t[m].hash == ""
    ensures |Backfilled(h, t)| == |t| && Fill(h, t, m).prev == LastHash(Backfilled(h, t)[..m])
  {
    BackfillKeepsContents(h, t);
    RowIsFilled(h, t, |t|, m);
    assert LinkOk(h, Backfilled(h, t), m);
  }

  lemma PredecessorUnhashed(h: Hasher, t: seq<Entry>, m: nat)
    requires FillsWell(h, t) && NeverEmpty(h) && 0 < m < |t| && t[m].hash == ""
    ensures t[m - 1].hash == ""
  {
    var u := Backfilled(h, t);
    ChainedToLast(h, t, m);
    PrevIs(h, t, m, |t|);
    assert LastHash(u[..m]) == u[m - 1].hash;
    HashesDistinct(h, u);
    if LastUnhashed(t, m) < 0 {
      assert LinkOk(h, u, m - 1);
      BackfillKeepsContents(h, t);
    }
  }

  // In a verifying result, an unhashed row has only unhashed rows before it, and the last row was unhashed.
  lemma {:induction false} UnhashedBefore(h: Hasher, t: seq<Entry>, m: nat)
    requires FillsWell(h, t) && NeverEmpty(h) && m < |t| && t[m].hash == ""
    ensures LastHash(t) == "" && forall i :: 0 <= i <= m ==> t[i].hash == ""
  {
    if m == 0 {
      ChainedToLast(h, t, 0);
    } else {
      PredecessorUnhashed(h, t, m);
      UnhashedBefore(h, t, m - 1);
    }
  }

  lemma {:induction false} LegacyFills(h: Hasher, t: seq<Entry>, k: nat)
    requires Legacy(t) && k <= |t|
    ensures Verifies(h, Fill(h, t, k).rows) && LastHash(Fill(h, t, k).rows) == Fill(h, t, k).prev
  {
    if k > 0 {
      LegacyFills(h, t, k - 1);
      var f, e := Fill(h, t, k - 1), t[k - 1];
      AppendKeepsVerifying(h, f.rows, e.content, e.id);
      EtagsDoNotMatter(h, f.rows + [NextEntry(h, f.rows, e.content, e.id)], Fill(h, t, k).rows);
    }
  }

  lemma {:induction false} NothingToFill(h: Hasher, t: seq<Entry>, k: nat)
    requires k <= |t| && forall i :: 0 <= i < |t| ==> t[i].hash != ""
    ensures Fill(h, t, k).rows == t[..k]
  {
    if k > 0 {
      NothingToFill(h, t, k - 1);
    }
  }

  // The backfill leaves a verifying table if and only if every row was unhashed, or none was and the
  // table verified: a half-finished backfill cannot be completed by running it again.
  lemma BackfillVerifiesIff(h: Hasher, t: seq<Entry>)
    requires CollisionFree(h, Backfilled(h, t), Backfilled(h, t)) && NeverEmpty(h)
    ensures Verifies(h, Backfilled(h, t)) <==>
      Legacy(t) || (Verifies(h, t) && forall k :: 0 <= k < |t| ==> t[k].hash != "")
  {
    if Verifies(h, Backfilled(h, t)) {
      if m :| 0 <= m < |t| && t[m].hash == "" {
        UnhashedBefore(h, t, m);
        UnhashedBefore(h, t, |t| - 1);
      } else {
        NothingToFill(h, t, |t|);
        assert t[..|t|] == t;
      }
    }
    if Legacy(t) {
      LegacyFills(h, t, |t|);
    } else if forall k :: 0 <= k < |t| ==> t[k].hash != "" {
      NothingToFill(h, t, |t|);
      assert t[..|t|] == t;
    }
  }

  // Verify reads neither ids nor ETags.
  lemma EtagsDoNotMatter(h: Hasher, a: seq<Entry>, b: seq<Entry>)
    requires |a| == |b| && (forall k :: 0 <= k < |a| ==> SameRow(a[k], b[k])) && Verifies(h, a)
    ensures Verifies(h, b)
  {
    forall k | 0 <= k < |b| ensures LinkOk(h, b, k) {
      assert LinkOk(h, a, k) && SameRow(a[k], b[k]);
      if k > 0 {
        assert SameRow(a[k - 1], b[k - 1]);
      }
    }
  }
}
