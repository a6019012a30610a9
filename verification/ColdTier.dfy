// The audit log over its two tiers: SQLite rows chained by hash, and a write-once object store
// keyed by that hash.
module ColdTier {
  import opened Basics
  import opened Audit

  datatype Object = Object(body: string, etag: string, retentionTill: int)
  type Objects = map<string, Object>

  // The UTC calendar day of a timestamp, as text.
  type Calendar = int -> string

  function WormKey(day: Calendar, tenantID: string, ts: int, hash: string): string {
    "audit/" + tenantID + "/" + day(ts) + "/" + hash + ".json"
  }

  function KeyOf(day: Calendar, e: Entry): string {
    WormKey(day, e.content.tenantID, e.content.ts, e.hash)
  }

  // Hex has no slash.
  ghost predicate PlainHashes(h: Hasher) {
    forall s :: '/' !in h.sha(s)
  }

  lemma LastSegment(a: string, u: string, b: string, v: string)
    requires '/' !in u && '/' !in v && a + "/" + u == b + "/" + v
    ensures u == v
  {
    var w := a + "/" + u;
    assert w[|a|] == '/' && w[|b|] == '/';
    assert w[|a| + 1..] == u && w[|b| + 1..] == v;
  }

  // Objects of different hashes never share a key, whatever the tenant ids contain.
  lemma KeyTellsHash(day: Calendar, e: Entry, f: Entry)
    requires KeyOf(day, e) == KeyOf(day, f) && '/' !in e.hash && '/' !in f.hash
    ensures e.hash == f.hash
  {
    var a := "audit/" + e.content.tenantID + "/" + day(e.content.ts);
    var b := "audit/" + f.content.tenantID + "/" + day(f.content.ts);
    assert KeyOf(day, e) == a + "/" + (e.hash + ".json");
    assert KeyOf(day, f) == b + "/" + (f.hash + ".json");
    LastSegment(a, e.hash + ".json", b, f.hash + ".json");
    assert (e.hash + ".json")[..|e.hash|] == e.hash && (f.hash + ".json")[..|f.hash|] == f.hash;
  }

  predicate NoSlash(s: string) { '/' !in s }

  lemma MiddleSegment(a: string, x: string, b: string, y: string)
    requires '/' !in a && '/' !in b && a + "/" + x == b + "/" + y
    ensures a == b && x == y
  {
    SplitUnique('/', a, x, b, y);
  }

  // A key lies under its tenant, and tells tenant, day and hash where none of them has a slash.
  lemma KeyTellsAll(day: Calendar, e: Entry, f: Entry)
    requires NoSlash(e.content.tenantID) && NoSlash(day(e.content.ts)) && NoSlash(e.hash)
    requires NoSlash(f.content.tenantID) && NoSlash(day(f.content.ts)) && NoSlash(f.hash)
    ensures KeyOf(day, e) == KeyOf(day, f) <==>
      e.content.tenantID == f.content.tenantID && day(e.content.ts) == day(f.content.ts) && e.hash == f.hash
    ensures "audit/" + e.content.tenantID + "/" <= KeyOf(day, e)
  {
    var k, l := KeyOf(day, e), KeyOf(day, f);
    var x, y := day(e.content.ts) + "/" + (e.hash + ".json"), day(f.content.ts) + "/" + (f.hash + ".json");
    assert k == "audit/" + (e.content.tenantID + "/" + x) && l == "audit/" + (f.content.tenantID + "/" + y);
    assert k == ("audit/" + e.content.tenantID + "/") + x;
    if k == l {
      assert k[6..] == e.content.tenantID + "/" + x && l[6..] == f.content.tenantID + "/" + y;
      MiddleSegment(e.content.tenantID, x, f.content.tenantID, y);
      MiddleSegment(day(e.content.ts), e.hash + ".json", day(f.content.ts), f.hash + ".json");
      KeyTellsHash(day, e, f);
    }
  }

  predicate Locked(objects: Objects, key: string, now: int) {
    key in objects && now < objects[key].retentionTill
  }

  class MockWORMStreamer {
    const retention: int
    const h: Hasher
    const day: Calendar
    var objects: Objects

    constructor (retention: int, h: Hasher, day: Calendar)
      ensures objects == map[] && this.retention == retention && this.h == h && this.day == day
    {
      this.retention, this.h, this.day := retention, h, day;
      objects := map[];
    }

    // Write-once inside the retention window: a retained object survives every put.
    method PutEntry(e: Entry, canonical: string, now: int) returns (r: Result<string>)
      modifies this
      ensures r.Err? <==> Locked(old(objects), KeyOf(day, e), now)
      ensures r.Err? ==> objects == old(objects)
      ensures r.Ok? ==> r.value == h.sha(canonical)
      ensures r.Ok? ==> objects == old(objects)[KeyOf(day, e) := Object(canonical, r.value, now + retention)]
      ensures forall k :: k in old(objects) && now < old(objects)[k].retentionTill ==>
        k in objects && objects[k] == old(objects)[k]
    {
      var key := KeyOf(day, e);
      if key in objects && now < objects[key].retentionTill {
        return Err("audit: object-lock retention prevents overwrite");
      }
      var etag := h.sha(canonical);
      objects := objects[key := Object(canonical, etag, now + retention)];
      return Ok(etag);
    }

    method TamperPut(key: string, body: string, now: int) returns (r: Result<()>)
      modifies this
      ensures r.Err? <==> Locked(old(objects), key, now)
      ensures objects == if r.Err? then old(objects) else old(objects)[key := Object(body, "", 0)]
      ensures forall k :: k in old(objects) && now < old(objects)[k].retentionTill ==>
        k in objects && objects[k] == old(objects)[k]
    {
      if key in objects && now < objects[key].retentionTill {
        return Err("audit: object-lock retention prevents overwrite");
      }
      objects := objects[key := Object(body, "", 0)];
      return Ok(());
    }
  }

  // ---------------------------------------------------------------- Append

  // How an append can be disturbed. A failed put may still have stored the object.
  datatype Fault = NoFault | ReadFails | InsertFails | PutFails(stored: bool) | EtagFails

  // Both tiers, the id counter, and how many puts met a retained object.
  datatype Tier = Tier(table: seq<Entry>, nextID: int, objects: Objects, lockHits: nat)

  const EMPTY: Tier := Tier([], 1, map[], 0)

  // The fixed surroundings of a log: hashing, the calendar, the retention window, and whether a
  // streamer to the cold tier is wired.
  datatype Config = Config(h: Hasher, day: Calendar, retention: int, streaming: bool)

  function CanonicalOf(h: Hasher, e: Entry): string {
    CanonicalBytes(h, e.content, e.prevHash)
  }

  predicate Wanted(c: Content) { c.tenantID != "" && c.action != "" }

  // The append reaches its INSERT, and that succeeds.
  predicate Inserts(c: Content, fault: Fault) {
    Wanted(c) && !fault.ReadFails? && !fault.InsertFails?
  }

  // The row after its put: only a stored ETag is added to it.
  function Sealed(cfg: Config, e: Entry, fault: Fault): Entry {
    if cfg.streaming && fault.NoFault? then e.(s3etag := cfg.h.sha(CanonicalOf(cfg.h, e))) else e
  }

  function Stored(cfg: Config, objects: Objects, e: Entry, fault: Fault, now: int): Objects {
    if !cfg.streaming || (fault.PutFails? && !fault.stored) then objects
    else
      var body := CanonicalOf(cfg.h, e);
      objects[KeyOf(cfg.day, e) := Object(body, cfg.h.sha(body), now + cfg.retention)]
  }

  function Appended(cfg: Config, s: Tier, c: Content, fault: Fault, now: int): Tier {
    if !Inserts(c, fault) then s
    else
      var e := NextEntry(cfg.h, s.table, c, s.nextID);
      if cfg.streaming && Locked(s.objects, KeyOf(cfg.day, e), now)
      then Tier(s.table + [e], s.nextID + 1, s.objects, s.lockHits + 1)
      else Tier(s.table + [Sealed(cfg, e, fault)], s.nextID + 1, Stored(cfg, s.objects, e, fault, now), s.lockHits)
  }

  // The append returns no error: without a streamer, its INSERT is all there is.
  predicate Succeeds(cfg: Config, s: Tier, c: Content, fault: Fault, now: int) {
    Inserts(c, fault) && (cfg.streaming ==> fault.NoFault? && Appended(cfg, s, c, fault, now).lockHits == s.lockHits)
  }

  // What an append leaves, whatever fails: nothing if it is refused or fails before its row is written;
  // else one row more, with the next id, the given content, the hash of the last row, the digest of the
  // two, and that digest as the ETag if all went well; and the hashed bytes under the row's key, unless
  // the put did not get through or met an object that is still retained.
  lemma AppendLeaves(cfg: Config, s: Tier, c: Content, fault: Fault, now: int)
    ensures var prev := if s.table == [] then "" else s.table[|s.table| - 1].hash;
      var bytes := cfg.h.encode(Canonical(c, prev));
      var hash := cfg.h.sha(bytes);
      var key := "audit/" + c.tenantID + "/" + cfg.day(c.ts) + "/" + hash + ".json";
      var written := c.tenantID != "" && c.action != "" && fault != ReadFails && fault != InsertFails;
      var retained := cfg.streaming && key in s.objects && now < s.objects[key].retentionTill;
      var sealed := cfg.streaming && fault == NoFault && !retained;
      var t := Appended(cfg, s, c, fault, now);
      && (Succeeds(cfg, s, c, fault, now) <==> written && (cfg.streaming ==> sealed))
      && (!written ==> t == s)
      && (written ==>
            && t.table == s.table + [Entry(s.nextID, c, prev, hash, if sealed then hash else "")]
            && t.nextID == s.nextID + 1 && t.lockHits == s.lockHits + (if retained then 1 else 0)
            && t.objects == if !cfg.streaming || retained || fault == PutFails(false) then s.objects
                            else s.objects[key := Object(bytes, hash, now + cfg.retention)])
  {
  }

  class Log {
    const cfg: Config
    const streamer: MockWORMStreamer?
    var table: seq<Entry>
    var nextID: int

    constructor (cfg: Config, streamer: MockWORMStreamer?)
      requires cfg.streaming <==> streamer != null
      requires streamer != null ==>
        streamer.h == cfg.h && streamer.day == cfg.day && streamer.retention == cfg.retention
      ensures Valid() && table == [] && nextID == 1 && this.cfg == cfg && this.streamer == streamer
    {
      this.cfg, this.streamer := cfg, streamer;
      table, nextID := [], 1;
    }

    ghost predicate Valid() reads this {
      && nextID >= 1 && (cfg.streaming <==> streamer != null)
      && (streamer != null ==> streamer.h == cfg.h && streamer.day == cfg.day && streamer.retention == cfg.retention)
    }

    ghost function Tiers(): Tier reads this, streamer {
      Tier(table, nextID, if streamer == null then map[] else streamer.objects, 0)
    }

    // The mutex makes one call of Append atomic with respect to the others. A zero timestamp has
    // been replaced by the clock. `fault` is what befalls the SELECT, the INSERT, the put or the UPDATE.
    method Append(c: Content, fault: Fault, now: int) returns (error: Option<string>)
      requires Valid() && forall s :: cfg.h.sha(s) != ""
      modifies this, streamer
      ensures Valid()
      ensures var after := Appended(cfg, old(Tiers()), c, fault, now);
        Tiers() == after.(lockHits := 0)
      ensures error.None? <==> Succeeds(cfg, old(Tiers()), c, fault, now)
    {
      if c.tenantID == "" || c.action == "" {
        return Some("audit: tenant_id and action required");
      }
      if fault.ReadFails? {
        return Some("audit: lastHash");
      }
      var prev := LastHash(table);
      var canonical := CanonicalBytes(cfg.h, c, prev);
      var hash := cfg.h.sha(canonical);
      if fault.InsertFails? {
        return Some("audit: insert");
      }
      var e := Entry(nextID, c, prev, hash, "");
      table := table + [e];
      nextID := nextID + 1;
      if streamer == null {
        return None;
      }
      if fault.PutFails? {
        if fault.stored {
          var _ := streamer.PutEntry(e, canonical, now);
        }
        return Some("audit: stream");
      }
      var put := streamer.PutEntry(e, canonical, now);
      if put.Err? {
        return Some("audit: stream: " + put.error);
      }
      if put.value != "" && e.id > 0 {
        if fault.EtagFails? {
          return Some("audit: persist etag");
        }
        table := table[|table| - 1 := e.(s3etag := put.value)];
        assert table == old(table) + [e.(s3etag := put.value)];
      }
      return None;
    }
  }
}
