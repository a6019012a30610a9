// The usage meter map: written by the Go handler, read back by the TypeScript dashboard.
module Meters {
  import opened Basics
  import opened Catalog

  const JOBS: string := ":jobs"
  const COST: string := ":cost_cents"
  const TOTAL_JOBS: string := "total_jobs"
  const TOTAL_COST: string := "total_cost_cents"

  // ---------------------------------------------------------------- sums over a Go map

  // The sum of f over a finite set, whatever the order.
  ghost function Sum(f: string -> int, keys: set<string>): int {
    if keys == {} then 0
    else
      var k :| k in keys;
      f(k) + Sum(f, keys - {k})
  }

  lemma {:induction false} SumPicks(f: string -> int, keys: set<string>, x: string)
    requires x in keys
    ensures Sum(f, keys) == f(x) + Sum(f, keys - {x})
    decreases |keys|
  {
    var k :| k in keys && Sum(f, keys) == f(k) + Sum(f, keys - {k});
    if k != x {
      SumPicks(f, keys - {k}, x);
      SumPicks(f, keys - {x}, k);
      assert keys - {k} - {x} == keys - {x} - {k};
    }
  }

  function Units(raw: map<string, int>): string -> int {
    (sku: string) => if sku in raw then raw[sku] else 0
  }

  // ---------------------------------------------------------------- the encoder

  // Zero for a SKU that is not registered.
  function CostForSKU(registry: Registry, sku: string, jobs: int): int {
    match registry(sku)
    case None => 0
    case Some(s) =>
      if s.model == "metered" then jobs * s.baseCents
      else if s.model == "monthly_subscription" then s.baseCents
      else 0
  }

  function Costs(registry: Registry, raw: map<string, int>): string -> int {
    (sku: string) => if sku in raw then CostForSKU(registry, sku, raw[sku]) else 0
  }

  // The per-SKU meters of these SKUs, and nothing else.
  ghost predicate SkuMeters(registry: Registry, raw: map<string, int>, keys: set<string>, meters: map<string, int>) {
    && (forall sku :: sku in keys && sku in raw ==> MeterOf(registry, raw, sku, meters))
    && (forall k :: k in meters ==> exists sku :: sku in keys && (k == sku + JOBS || k == sku + COST))
  }

  predicate MeterOf(registry: Registry, raw: map<string, int>, sku: string, meters: map<string, int>)
    requires sku in raw
  {
    && sku + JOBS in meters && meters[sku + JOBS] == raw[sku]
    && sku + COST in meters && meters[sku + COST] == CostForSKU(registry, sku, raw[sku])
  }

  // What the handler's map says about the raw counts.
  ghost predicate Encodes(registry: Registry, raw: map<string, int>, meters: map<string, int>) {
    && SkuMeters(registry, raw, raw.Keys, meters - {TOTAL_JOBS, TOTAL_COST})
    && TOTAL_JOBS in meters && meters[TOTAL_JOBS] == Sum(Units(raw), raw.Keys)
    && TOTAL_COST in meters && meters[TOTAL_COST] == Sum(Costs(registry, raw), raw.Keys)
  }

  lemma KeysApart(sku: string, other: string)
    ensures sku + JOBS == other + JOBS <==> sku == other
    ensures sku + COST == other + COST <==> sku == other
    ensures sku + JOBS != other + COST
    ensures sku + JOBS !in {TOTAL_JOBS, TOTAL_COST} && sku + COST !in {TOTAL_JOBS, TOTAL_COST}
  {
    assert (sku + JOBS)[..|sku|] == sku && (other + JOBS)[..|other|] == other;
    assert (sku + COST)[..|sku|] == sku && (other + COST)[..|other|] == other;
    var j, c := sku + JOBS, other + COST;
    assert j[|j| - 5] == ':' && c[|c| - 5] == 'c';
    assert TOTAL_JOBS[|TOTAL_JOBS| - 5] == '_' && TOTAL_COST[|TOTAL_COST| - 5] == 'c';
    var d := sku + COST;
    assert d[|d| - 11] == ':' && TOTAL_COST[|TOTAL_COST| - 11] == '_' && d[|d| - 1] == 's';
    assert d[|d| - 5] == 'c';
  }

  lemma MeterAdded(registry: Registry, raw: map<string, int>, keys: set<string>, meters: map<string, int>, sku: string)
    requires SkuMeters(registry, raw, keys, meters) && sku in raw && sku !in keys
    ensures SkuMeters(registry, raw, keys + {sku},
                      meters[sku + JOBS := raw[sku]][sku + COST := CostForSKU(registry, sku, raw[sku])])
  {
    var after := meters[sku + JOBS := raw[sku]][sku + COST := CostForSKU(registry, sku, raw[sku])];
    forall other | other in keys + {sku} && other in raw ensures MeterOf(registry, raw, other, after) {
      KeysApart(sku, other);
      KeysApart(other, sku);
      if other != sku {
        assert MeterOf(registry, raw, other, meters);
      }
    }
    forall k | k in after ensures exists x :: x in keys + {sku} && (k == x + JOBS || k == x + COST) {
      if k in meters {
        var x :| x in keys && (k == x + JOBS || k == x + COST);
        assert x in keys + {sku};
      } else {
        assert sku in keys + {sku};
      }
    }
  }

  lemma NoTotals(registry: Registry, raw: map<string, int>, keys: set<string>, meters: map<string, int>)
    requires SkuMeters(registry, raw, keys, meters)
    ensures TOTAL_JOBS !in meters && TOTAL_COST !in meters
  {
    forall k | k in meters ensures k != TOTAL_JOBS && k != TOTAL_COST {
      var sku :| sku in keys && (k == sku + JOBS || k == sku + COST);
      KeysApart(sku, sku);
    }
  }

  // The state of the handler's loop when the SKUs in `rest` are still to come.
  ghost predicate Partial(registry: Registry, raw: map<string, int>, rest: set<string>, meters: map<string, int>,
                          totalJobs: int, totalCostCents: int)
  {
    && rest <= raw.Keys && SkuMeters(registry, raw, raw.Keys - rest, meters)
    && totalJobs + Sum(Units(raw), rest) == Sum(Units(raw), raw.Keys)
    && totalCostCents + Sum(Costs(registry, raw), rest) == Sum(Costs(registry, raw), raw.Keys)
  }

  lemma PartialStep(registry: Registry, raw: map<string, int>, rest: set<string>, meters: map<string, int>,
                    totalJobs: int, totalCostCents: int, sku: string)
    requires Partial(registry, raw, rest, meters, totalJobs, totalCostCents) && sku in rest
    ensures var cost := CostForSKU(registry, sku, raw[sku]);
      Partial(registry, raw, rest - {sku}, meters[sku + JOBS := raw[sku]][sku + COST := cost],
              totalJobs + raw[sku], totalCostCents + cost)
  {
    MeterAdded(registry, raw, raw.Keys - rest, meters, sku);
    assert raw.Keys - rest + {sku} == raw.Keys - (rest - {sku});
    SumPicks(Units(raw), rest, sku);
    SumPicks(Costs(registry, raw), rest, sku);
  }

  lemma PartialDone(registry: Registry, raw: map<string, int>, meters: map<string, int>, totalJobs: int,
                    totalCostCents: int)
    requires Partial(registry, raw, {}, meters, totalJobs, totalCostCents)
    ensures Encodes(registry, raw, meters[TOTAL_JOBS := totalJobs][TOTAL_COST := totalCostCents])
  {
    assert raw.Keys - {} == raw.Keys;
    NoTotals(registry, raw, raw.Keys, meters);
    assert TOTAL_JOBS[6] != TOTAL_COST[6];
    PutsUndone(meters, TOTAL_JOBS, totalJobs, TOTAL_COST, totalCostCents);
  }

  // The loop ranges over the Go map in any order.
  method GetUsage(registry: Registry, raw: map<string, int>) returns (meters: map<string, int>)
    ensures Encodes(registry, raw, meters)
  {
    meters := map[];
    var totalJobs, totalCostCents := 0, 0;
    var rest := raw.Keys;
    while rest != {}
      invariant Partial(registry, raw, rest, meters, totalJobs, totalCostCents)
      decreases |rest|
    {
      var sku :| sku in rest;
      var jobs := raw[sku];
      PartialStep(registry, raw, rest, meters, totalJobs, totalCostCents, sku);
      meters := meters[sku + JOBS := jobs];
      totalJobs := totalJobs + jobs;
      var cost := CostForSKU(registry, sku, jobs);
      meters := meters[sku + COST := cost];
      totalCostCents := totalCostCents + cost;
      rest := rest - {sku};
    }
    PartialDone(registry, raw, meters, totalJobs, totalCostCents);
    meters := meters[TOTAL_JOBS := totalJobs];
    meters := meters[TOTAL_COST := totalCostCents];
  }

  // ---------------------------------------------------------------- the decoder

  // A value of the parsed JSON object.
  datatype Wire = Number(n: int) | NotANumber

  datatype SkuUsage = SkuUsage(jobs: int, costCents: int)

  // A plain object used as a dictionary: assigning "__proto__" sets its prototype, not a property.
  datatype Dict = Dict(own: map<string, SkuUsage>, proto: SkuUsage)

  const PROTO: string := "__proto__"
  const NONE: SkuUsage := SkuUsage(0, 0)

  // `d[sku]?.field ?? 0`: neither field is found on what a plain object inherits.
  function Read(d: Dict, sku: string): SkuUsage {
    if sku == PROTO then d.proto else if sku in d.own then d.own[sku] else NONE
  }

  function Write(d: Dict, sku: string, v: SkuUsage): Dict {
    if sku == PROTO then d.(proto := v) else d.(own := d.own[sku := v])
  }

  datatype UsageMeter = UsageMeter(totalCostCents: int, jobsCount: int, bySku: Dict)

  const ZERO: UsageMeter := UsageMeter(0, 0, Dict(map[], NONE))

  predicate EndsWith(k: string, suffix: string) {
    |suffix| <= |k| && k[|k| - |suffix|..] == suffix
  }

  function Chop(k: string, suffix: string): string
    requires |suffix| <= |k|
  {
    k[..|k| - |suffix|]
  }

  function Adapt(u: UsageMeter, e: (string, Wire)): UsageMeter {
    if e.1.NotANumber? then u
    else if e.0 == TOTAL_COST then u.(totalCostCents := e.1.n)
    else if e.0 == TOTAL_JOBS then u.(jobsCount := e.1.n)
    else if EndsWith(e.0, COST) then
      u.(bySku := Write(u.bySku, Chop(e.0, COST), Read(u.bySku, Chop(e.0, COST)).(costCents := e.1.n)))
    else if EndsWith(e.0, JOBS) then
      u.(bySku := Write(u.bySku, Chop(e.0, JOBS), Read(u.bySku, Chop(e.0, JOBS)).(jobs := e.1.n)))
    else u
  }

  function Adapted(entries: seq<(string, Wire)>): UsageMeter {
    if entries == [] then ZERO else Adapt(Adapted(entries[..|entries| - 1]), entries[|entries| - 1])
  }

  method AdaptUsage(entries: seq<(string, Wire)>) returns (u: UsageMeter)
    ensures u == Adapted(entries)
  {
    var total, jobs := 0, 0;
    var bySku := Dict(map[], NONE);
    for i := 0 to |entries|
      invariant UsageMeter(total, jobs, bySku) == Adapted(entries[..i])
    {
      assert entries[..i + 1][..i] == entries[..i];
      var (k, v) := entries[i];
      if v.NotANumber? {
        continue;
      }
      if k == TOTAL_COST {
        total := v.n;
      } else if k == TOTAL_JOBS {
        jobs := v.n;
      } else if EndsWith(k, COST) {
        var sku := Chop(k, COST);
        bySku := Write(bySku, sku, SkuUsage(Read(bySku, sku).jobs, v.n));
      } else if EndsWith(k, JOBS) {
        var sku := Chop(k, JOBS);
        bySku := Write(bySku, sku, SkuUsage(v.n, Read(bySku, sku).costCents));
      }
    }
    assert entries[..|entries|] == entries;
    u := UsageMeter(total, jobs, bySku);
  }

  // ---------------------------------------------------------------- what the decoder reads

  predicate Seen(entries: seq<(string, Wire)>, k: string) {
    exists i :: 0 <= i < |entries| && entries[i].0 == k && entries[i].1.Number?
  }

  // The last number filed under a key, or 0.
  function Last(entries: seq<(string, Wire)>, k: string): int {
    if entries == [] then 0
    else
      var e := entries[|entries| - 1];
      if e.0 == k && e.1.Number? then e.1.n else Last(entries[..|entries| - 1], k)
  }

  predicate ReadsSku(entries: seq<(string, Wire)>, sku: string) {
    var d := Adapted(entries).bySku;
    && Read(d, sku) == SkuUsage(Last(entries, sku + JOBS), Last(entries, sku + COST))
    && (sku in d.own <==> sku != PROTO && (Seen(entries, sku + JOBS) || Seen(entries, sku + COST)))
  }

  predicate ReadsTotals(entries: seq<(string, Wire)>) {
    var u := Adapted(entries);
    u.totalCostCents == Last(entries, TOTAL_COST) && u.jobsCount == Last(entries, TOTAL_JOBS)
  }

  lemma EndsIff(k: string, sku: string)
    ensures EndsWith(k, COST) && Chop(k, COST) == sku <==> k == sku + COST
    ensures EndsWith(k, JOBS) && Chop(k, JOBS) == sku <==> k == sku + JOBS
    ensures !(EndsWith(k, COST) && EndsWith(k, JOBS))
  {
    if EndsWith(k, COST) { assert k == Chop(k, COST) + COST; }
    if EndsWith(k, JOBS) { assert k == Chop(k, JOBS) + JOBS; }
    if EndsWith(k, COST) && EndsWith(k, JOBS) {
      KeysApart(Chop(k, JOBS), Chop(k, COST));
    }
  }

  lemma SeenSnoc(entries: seq<(string, Wire)>, k: string)
    requires entries != []
    ensures var e := entries[|entries| - 1];
      Seen(entries, k) <==> Seen(entries[..|entries| - 1], k) || (e.0 == k && e.1.Number?)
  {
    var n := |entries| - 1;
    if Seen(entries, k) {
      var i :| 0 <= i < |entries| && entries[i].0 == k && entries[i].1.Number?;
      assert i < n ==> entries[..n][i] == entries[i];
    }
    if Seen(entries[..n], k) {
      var i :| 0 <= i < n && entries[..n][i].0 == k && entries[..n][i].1.Number?;
      assert entries[i] == entries[..n][i];
    }
  }

  // One entry touches the meters of one SKU only, and each of its two fields only by its own key.
  lemma AdaptTouches(u: UsageMeter, e: (string, Wire), sku: string)
    ensures var v := Adapt(u, e);
      var r := Read(u.bySku, sku);
      if e.1.Number? && e.0 == sku + JOBS then Read(v.bySku, sku) == r.(jobs := e.1.n)
      else if e.1.Number? && e.0 == sku + COST then Read(v.bySku, sku) == r.(costCents := e.1.n)
      else Read(v.bySku, sku) == r
    ensures sku in Adapt(u, e).bySku.own <==>
      sku in u.bySku.own || (sku != PROTO && e.1.Number? && (e.0 == sku + JOBS || e.0 == sku + COST))
  {
    EndsIff(e.0, sku);
    KeysApart(sku, sku);
  }

  // Whatever the entries and their order: each SKU gets the last number filed under each of its two keys.
  lemma {:induction false} DecoderReads(entries: seq<(string, Wire)>, sku: string)
    ensures ReadsSku(entries, sku) && ReadsTotals(entries)
  {
    if entries != [] {
      var n := |entries| - 1;
      DecoderReads(entries[..n], sku);
      AdaptTouches(Adapted(entries[..n]), entries[n], sku);
      SeenSnoc(entries, sku + JOBS);
      SeenSnoc(entries, sku + COST);
      KeysApart(sku, sku);
    }
  }

  // ---------------------------------------------------------------- the round trip

  // The entries of a map, in some order.
  ghost predicate Orders(entries: seq<(string, Wire)>, m: map<string, int>) {
    && (forall i, j :: 0 <= i < j < |entries| ==> entries[i].0 != entries[j].0)
    && (forall i :: 0 <= i < |entries| ==> entries[i].0 in m && entries[i].1 == Number(m[entries[i].0]))
    && (forall k :: k in m ==> Seen(entries, k))
  }

  lemma {:induction false} LastIs(entries: seq<(string, Wire)>, i: nat)
    requires i < |entries| && entries[i].1.Number?
    requires forall i, j :: 0 <= i < j < |entries| ==> entries[i].0 != entries[j].0
    ensures Last(entries, entries[i].0) == entries[i].1.n
  {
    var n := |entries| - 1;
    if i < n {
      LastIs(entries[..n], i);
    }
  }

  lemma LookUp(entries: seq<(string, Wire)>, m: map<string, int>, k: string)
    requires Orders(entries, m)
    ensures Seen(entries, k) <==> k in m
    ensures k in m ==> Last(entries, k) == m[k]
  {
    if k in m {
      var i :| 0 <= i < |entries| && entries[i].0 == k && entries[i].1.Number?;
      LastIs(entries, i);
    }
  }

  lemma MeterKeys(registry: Registry, raw: map<string, int>, meters: map<string, int>, sku: string)
    requires Encodes(registry, raw, meters)
    ensures sku in raw <==> sku + JOBS in meters
    ensures sku in raw <==> sku + COST in meters
    ensures sku in raw ==> MeterOf(registry, raw, sku, meters)
  {
    KeysApart(sku, sku);
    var skus := meters - {TOTAL_JOBS, TOTAL_COST};
    if sku in raw {
      assert MeterOf(registry, raw, sku, skus);
    }
    forall k | k == sku + JOBS || k == sku + COST ensures k in meters ==> sku in raw {
      if k in meters {
        assert k in skus;
        var other :| other in raw.Keys && (k == other + JOBS || k == other + COST);
        KeysApart(sku, other);
        KeysApart(other, sku);
      }
    }
  }

  // What the dashboard should show for each SKU.
  function Expected(registry: Registry, raw: map<string, int>): map<string, SkuUsage> {
    map sku | sku in raw :: SkuUsage(raw[sku], CostForSKU(registry, sku, raw[sku]))
  }

  lemma SkuComesBack(registry: Registry, raw: map<string, int>, meters: map<string, int>,
                     entries: seq<(string, Wire)>, sku: string)
    requires Encodes(registry, raw, meters) && Orders(entries, meters)
    ensures sku in Adapted(entries).bySku.own <==> sku in raw && sku != PROTO
    ensures sku in raw ==> Read(Adapted(entries).bySku, sku) == Expected(registry, raw)[sku]
  {
    DecoderReads(entries, sku);
    MeterKeys(registry, raw, meters, sku);
    LookUp(entries, meters, sku + JOBS);
    LookUp(entries, meters, sku + COST);
  }

  lemma TableComesBack(registry: Registry, raw: map<string, int>, meters: map<string, int>,
                       entries: seq<(string, Wire)>)
    requires Encodes(registry, raw, meters) && Orders(entries, meters)
    ensures Adapted(entries).bySku.own == Expected(registry, raw) - {PROTO}
  {
    var own, all := Adapted(entries).bySku.own, Expected(registry, raw);
    forall sku ensures SameButOne(own, all, PROTO, sku) {
      SkuComesBack(registry, raw, meters, entries, sku);
    }
    MapLessOne(own, all, PROTO);
  }

  lemma TotalsComeBack(registry: Registry, raw: map<string, int>, meters: map<string, int>,
                       entries: seq<(string, Wire)>)
    requires Encodes(registry, raw, meters) && Orders(entries, meters)
    ensures Adapted(entries).jobsCount == Sum(Units(raw), raw.Keys)
    ensures Adapted(entries).totalCostCents == Sum(Costs(registry, raw), raw.Keys)
  {
    DecoderReads(entries, "");
    LookUp(entries, meters, TOTAL_JOBS);
    LookUp(entries, meters, TOTAL_COST);
  }

  // Encoded in any order and decoded in any order, totals and per-SKU meters come back exactly,
  // whatever the SKU names contain; only a SKU named "__proto__" is lost from the table.
  lemma RoundTrip(registry: Registry, raw: map<string, int>, meters: map<string, int>, entries: seq<(string, Wire)>)
    requires Encodes(registry, raw, meters) && Orders(entries, meters)
    ensures Adapted(entries).jobsCount == Sum(Units(raw), raw.Keys)
    ensures Adapted(entries).totalCostCents == Sum(Costs(registry, raw), raw.Keys)
    ensures Adapted(entries).bySku.own == Expected(registry, raw) - {PROTO}
    ensures Adapted(entries).bySku.own == Expected(registry, raw) <==> PROTO !in raw
  {
    TotalsComeBack(registry, raw, meters, entries);
    TableComesBack(registry, raw, meters, entries);
    RemovedIff(Expected(registry, raw), PROTO);
  }

  // ---------------------------------------------------------------- what is billed

  // What this many jobs of a SKU cost: each at the base price if it is metered, the base price alone
  // for a subscription, nothing here for the other models and for unknown SKUs.
  predicate Priced(registry: Registry, sku: string, jobs: int, cost: int) {
    match registry(sku)
    case None => cost == 0
    case Some(s) =>
      && (s.model == "metered" ==> cost == jobs * s.baseCents)
      && (s.model == "monthly_subscription" ==> cost == s.baseCents)
      && (s.model != "metered" && s.model != "monthly_subscription" ==> cost == 0)
  }

  // The dashboard shows each SKU of the period with its jobs at its price.
  lemma ShownAsPriced(registry: Registry, raw: map<string, int>, meters: map<string, int>,
                      entries: seq<(string, Wire)>, sku: string)
    requires Encodes(registry, raw, meters) && Orders(entries, meters) && sku in raw
    ensures Seen(entries, sku + ":jobs") && Last(entries, sku + ":jobs") == raw[sku]
    ensures Seen(entries, sku + ":cost_cents") && Priced(registry, sku, raw[sku], Last(entries, sku + ":cost_cents"))
    ensures Read(Adapted(entries).bySku, sku).jobs == raw[sku]
    ensures Priced(registry, sku, raw[sku], Read(Adapted(entries).bySku, sku).costCents)
  {
    MeterKeys(registry, raw, meters, sku);
    LookUp(entries, meters, sku + JOBS);
    LookUp(entries, meters, sku + COST);
    SkuComesBack(registry, raw, meters, entries, sku);
  }

  lemma {:induction false} SumOfSame(f: string -> int, g: string -> int, keys: set<string>)
    requires forall k :: k in keys ==> f(k) == g(k)
    ensures Sum(f, keys) == Sum(g, keys)
    decreases |keys|
  {
    if keys != {} {
      var k :| k in keys && Sum(f, keys) == f(k) + Sum(f, keys - {k});
      SumOfSame(f, g, keys - {k});
      SumPicks(g, keys, k);
    }
  }

  lemma SumMoves(f: string -> int, g: string -> int, keys: set<string>, x: string)
    requires x in keys && forall k :: k in keys && k != x ==> f(k) == g(k)
    ensures Sum(g, keys) - Sum(f, keys) == g(x) - f(x)
  {
    SumPicks(f, keys, x);
    SumPicks(g, keys, x);
    SumOfSame(f, g, keys - {x});
  }

  // What more jobs of a SKU add to the cost: as many base prices if it is metered, otherwise nothing.
  function Extra(registry: Registry, sku: string, more: int): int {
    if registry(sku).Some? && registry(sku).value.model == "metered" then more * registry(sku).value.baseCents else 0
  }

  lemma CostMoves(registry: Registry, sku: string, jobs: int, more: int)
    ensures CostForSKU(registry, sku, jobs + more) == CostForSKU(registry, sku, jobs) + Extra(registry, sku, more)
  {
  }

  lemma UnitsMove(raw: map<string, int>, sku: string, more: int)
    requires sku in raw
    ensures var after := raw[sku := raw[sku] + more];
      Sum(Units(after), after.Keys) == Sum(Units(raw), raw.Keys) + more
  {
    var after := raw[sku := raw[sku] + more];
    assert after.Keys == raw.Keys;
    SumMoves(Units(raw), Units(after), raw.Keys, sku);
  }

  lemma CostsMove(registry: Registry, raw: map<string, int>, sku: string, more: int)
    requires sku in raw
    ensures var after := raw[sku := raw[sku] + more];
      Sum(Costs(registry, after), after.Keys) == Sum(Costs(registry, raw), raw.Keys) + Extra(registry, sku, more)
  {
    var after := raw[sku := raw[sku] + more];
    assert after.Keys == raw.Keys;
    CostMoves(registry, sku, raw[sku], more);
    SumMoves(Costs(registry, raw), Costs(registry, after), raw.Keys, sku);
  }

  lemma TotalsOf(registry: Registry, raw: map<string, int>, m: map<string, int>)
    requires Encodes(registry, raw, m)
    ensures "total_jobs" in m && m["total_jobs"] == Sum(Units(raw), raw.Keys)
    ensures "total_cost_cents" in m && m["total_cost_cents"] == Sum(Costs(registry, raw), raw.Keys)
  {
  }

  // More jobs of one SKU: the total of jobs grows by them, and the total cost by what they add.
  lemma MoreJobsCost(registry: Registry, raw: map<string, int>, sku: string, more: int, m1: map<string, int>,
                     m2: map<string, int>)
    requires sku in raw && Encodes(registry, raw, m1) && Encodes(registry, raw[sku := raw[sku] + more], m2)
    ensures "total_jobs" in m1 && "total_jobs" in m2 && m2["total_jobs"] == m1["total_jobs"] + more
    ensures "total_cost_cents" in m1 && "total_cost_cents" in m2
    ensures m2["total_cost_cents"] == m1["total_cost_cents"] + Extra(registry, sku, more)
  {
    TotalsOf(registry, raw, m1);
    TotalsOf(registry, raw[sku := raw[sku] + more], m2);
    UnitsMove(raw, sku, more);
    CostsMove(registry, raw, sku, more);
  }
}
