/**
 The AIS stream's vessel buffer (backend/ais_bridge.py): the last report of each vessel, up to a capacity.

 The dict of vessels is a sequence in insertion order: storing under a key that exists keeps its place.
 Each frame comes with two clock readings, one when the vessel is stamped and one when the buffer is
 pruned. A frame that is no position report, or has no usable identity or position, is `Undecodable`.
 */
module AisBuffer {
  import opened Indices
  import opened Sets
  import opened StableSort

  type Mmsi = string

  datatype Box = Box(minLat: real, maxLat: real, minLon: real, maxLon: real)

  datatype Vessel = Vessel(mmsi: Mmsi, lat: real, lon: real, seenAt: int)

  datatype Frame = ServiceError(message: string) | Undecodable | Report(mmsi: Mmsi, lat: real, lon: real)

  datatype Config = Config(regions: seq<Box>, capacity: int, staleAfter: int)

  /** A frame with the clock at stamping and at pruning. */
  datatype Arrival = Arrival(frame: Frame, seen: int, later: int)

  predicate In(b: Box, lat: real, lon: real) {
    b.minLat <= lat <= b.maxLat && b.minLon <= lon <= b.maxLon
  }

  ghost predicate InRegions(regions: seq<Box>, lat: real, lon: real) {
    exists i :: 0 <= i < |regions| && In(regions[i], lat, lon)
  }

  ghost predicate Stored(cfg: Config, f: Frame) {
    f.Report? && InRegions(cfg.regions, f.lat, f.lon)
  }

  // ---------- The dict ----------

  function Names(b: seq<Vessel>): set<Mmsi> {
    if b == [] then {} else Names(b[..|b| - 1]) + {b[|b| - 1].mmsi}
  }

  ghost predicate Distinct(b: seq<Vessel>) { |Names(b)| == |b| }

  function Put(b: seq<Vessel>, v: Vessel): seq<Vessel> {
    if b == [] then [v]
    else if b[|b| - 1].mmsi == v.mmsi then b[..|b| - 1] + [v]
    else if v.mmsi in Names(b[..|b| - 1]) then Put(b[..|b| - 1], v) + [b[|b| - 1]]
    else b + [v]
  }

  /** The dict after the given keys have been popped. */
  function Without(b: seq<Vessel>, names: set<Mmsi>): seq<Vessel> {
    if b == [] then []
    else Without(b[..|b| - 1], names) + if b[|b| - 1].mmsi in names then [] else [b[|b| - 1]]
  }

  lemma {:induction false} NamesOf(b: seq<Vessel>)
    ensures |Names(b)| <= |b|
    ensures forall m :: m in Names(b) <==> exists v :: v in b && v.mmsi == m
    ensures forall v :: v in b ==> v.mmsi in Names(b)
  {
    if b != [] {
      var init, last := b[..|b| - 1], b[|b| - 1];
      NamesOf(init);
      assert b == init + [last];
      assert last in b;
    }
  }

  /** In a dict, vessels with one key are one vessel. */
  lemma {:induction false} OnePerName(b: seq<Vessel>, v: Vessel, w: Vessel)
    requires Distinct(b) && v in b && w in b && v.mmsi == w.mmsi
    ensures v == w
  {
    var init, last := b[..|b| - 1], b[|b| - 1];
    DistinctInit(b);
    NamesOf(init);
    assert b == init + [last];
    if v in init && w in init {
      OnePerName(init, v, w);
    }
  }

  lemma DistinctInit(b: seq<Vessel>)
    requires Distinct(b) && b != []
    ensures Distinct(b[..|b| - 1]) && b[|b| - 1].mmsi !in Names(b[..|b| - 1])
  {
    NamesOf(b[..|b| - 1]);
  }

  lemma Grow(b: seq<Vessel>, v: Vessel)
    ensures Names(b + [v]) == Names(b) + {v.mmsi}
    ensures v.mmsi !in Names(b) && Distinct(b) ==> Distinct(b + [v])
  {
    assert (b + [v])[..|b|] == b;
  }

  lemma {:induction false} PutNames(b: seq<Vessel>, v: Vessel)
    requires Distinct(b)
    ensures Names(Put(b, v)) == Names(b) + {v.mmsi}
    ensures |Put(b, v)| == |b| + if v.mmsi in Names(b) then 0 else 1
    ensures v.mmsi !in Names(b) ==> Put(b, v) == b + [v]
  {
    if b == [] {
      Grow([], v);
      assert [] + [v] == [v];
    } else {
      var init, last := b[..|b| - 1], b[|b| - 1];
      DistinctInit(b);
      PutNames(init, v);
      Grow(init, v);
      Grow(b, v);
      Grow(Put(init, v), last);
    }
  }

  lemma PutSnoc(b: seq<Vessel>, last: Vessel, v: Vessel)
    ensures Put(b + [last], v) ==
            if last.mmsi == v.mmsi then b + [v] else if v.mmsi in Names(b) then Put(b, v) + [last] else b + [last] + [v]
  {
    assert (b + [last])[..|b|] == b;
  }

  lemma {:induction false} PutHolds(b: seq<Vessel>, v: Vessel, x: Vessel)
    requires Distinct(b)
    ensures x in Put(b, v) <==> x == v || (x in b && x.mmsi != v.mmsi)
  {
    if b != [] {
      var init, last := b[..|b| - 1], b[|b| - 1];
      assert b == init + [last];
      DistinctInit(b);
      NamesOf(init);
      PutSnoc(init, last, v);
      if last.mmsi != v.mmsi && v.mmsi in Names(init) {
        PutHolds(init, v, x);
      }
    }
  }

  lemma {:induction false} PutMembers(b: seq<Vessel>, v: Vessel)
    requires Distinct(b)
    ensures Names(Put(b, v)) == Names(b) + {v.mmsi} && Distinct(Put(b, v))
    ensures |Put(b, v)| == |b| + if v.mmsi in Names(b) then 0 else 1
    ensures v.mmsi !in Names(b) ==> Put(b, v) == b + [v]
    ensures forall x :: x in Put(b, v) <==> x == v || (x in b && x.mmsi != v.mmsi)
  {
    PutNames(b, v);
    assert v.mmsi in Names(b) ==> Names(b) + {v.mmsi} == Names(b);
    forall x ensures x in Put(b, v) <==> x == v || (x in b && x.mmsi != v.mmsi) {
      PutHolds(b, v, x);
    }
  }

  lemma WithoutSnoc(b: seq<Vessel>, v: Vessel, names: set<Mmsi>)
    ensures Without(b + [v], names) == if v.mmsi in names then Without(b, names) else Without(b, names) + [v]
  {
    assert (b + [v])[..|b|] == b;
  }

  lemma SubtractAdded<T>(a: set<T>, x: T, names: set<T>)
    ensures (a + {x}) - names == if x in names then a - names else a - names + {x}
  {}

  lemma {:induction false} WithoutNames(b: seq<Vessel>, names: set<Mmsi>)
    requires Distinct(b)
    ensures Names(Without(b, names)) == Names(b) - names && Distinct(Without(b, names))
  {
    if b != [] {
      var init, last := b[..|b| - 1], b[|b| - 1];
      DistinctInit(b);
      WithoutNames(init, names);
      SubtractAdded(Names(init), last.mmsi, names);
      Grow(Without(init, names), last);
      assert Names(b) == Names(init) + {last.mmsi};
      assert Without(b, names) == Without(init, names) + if last.mmsi in names then [] else [last];
      assert last.mmsi in names ==> Without(b, names) == Without(init, names);
    }
  }

  lemma {:induction false} WithoutHolds(b: seq<Vessel>, names: set<Mmsi>, x: Vessel)
    ensures x in Without(b, names) <==> x in b && x.mmsi !in names
  {
    if b != [] {
      WithoutHolds(b[..|b| - 1], names, x);
      assert b == b[..|b| - 1] + [b[|b| - 1]];
    }
  }

  lemma WithoutMembers(b: seq<Vessel>, names: set<Mmsi>)
    requires Distinct(b)
    ensures Names(Without(b, names)) == Names(b) - names && Distinct(Without(b, names))
    ensures forall x :: x in Without(b, names) <==> x in b && x.mmsi !in names
  {
    WithoutNames(b, names);
    forall x ensures x in Without(b, names) <==> x in b && x.mmsi !in names {
      WithoutHolds(b, names, x);
    }
  }

  lemma {:induction false} WithoutAll(b: seq<Vessel>, names: set<Mmsi>, more: set<Mmsi>)
    ensures Without(Without(b, names), more) == Without(b, names + more)
  {
    if b != [] {
      var init, last := b[..|b| - 1], b[|b| - 1];
      assert b == init + [last];
      WithoutAll(init, names, more);
      WithoutSnoc(init, last, names);
      WithoutSnoc(init, last, names + more);
      WithoutSnoc(Without(init, names), last, more);
    }
  }

  lemma {:induction false} WithoutNothing(b: seq<Vessel>)
    ensures Without(b, {}) == b
  {
    if b != [] {
      WithoutNothing(b[..|b| - 1]);
    }
  }

  // ---------- Pruning and evicting ----------

  function StaleNames(cfg: Config, b: seq<Vessel>, now: int): set<Mmsi> {
    if b == [] then {}
    else StaleNames(cfg, b[..|b| - 1], now) + if now - b[|b| - 1].seenAt > cfg.staleAfter then {b[|b| - 1].mmsi} else {}
  }

  predicate OlderFirst(v: Vessel, w: Vessel) { v.seenAt <= w.seenAt }

  /** How many of n vessels the last resort evicts: Python's slice to `n - capacity` stops at the end. */
  function Excess(cfg: Config, n: nat): (excess: nat)
    ensures excess <= n
  {
    if cfg.capacity < 0 then n else if n <= cfg.capacity then 0 else n - cfg.capacity
  }

  function OldestNames(cfg: Config, b: seq<Vessel>): set<Mmsi> {
    Names(Sort(OlderFirst, b)[..Excess(cfg, |b|)])
  }

  function Shrink(cfg: Config, b: seq<Vessel>, later: int): seq<Vessel> {
    if |b| <= cfg.capacity then b
    else
      var live := Without(b, StaleNames(cfg, b, later));
      if |live| <= cfg.capacity then live else Without(live, OldestNames(cfg, live))
  }

  ghost function Ingested(cfg: Config, b: seq<Vessel>, a: Arrival): seq<Vessel> {
    if Stored(cfg, a.frame) then Shrink(cfg, Put(b, Stamped(a)), a.later) else b
  }

  function Stamped(a: Arrival): Vessel
    requires a.frame.Report?
  {
    Vessel(a.frame.mmsi, a.frame.lat, a.frame.lon, a.seen)
  }

  method PointInRegions(regions: seq<Box>, lat: real, lon: real) returns (inside: bool)
    ensures inside <==> InRegions(regions, lat, lon)
    ensures inside <==> exists i :: 0 <= i < |regions|
                                    && regions[i].minLat <= lat && lat <= regions[i].maxLat
                                    && regions[i].minLon <= lon && lon <= regions[i].maxLon
  {
    var i := 0;
    while i < |regions|
      invariant 0 <= i <= |regions|
      invariant forall j :: 0 <= j < i ==> !In(regions[j], lat, lon)
    {
      if In(regions[i], lat, lon) {
        return true;
      }
      i := i + 1;
    }
    return false;
  }

  /** `text[:n]`. */
  function First(text: string, n: nat): string {
    if |text| <= n then text else text[..n]
  }

  class Stream {
    const cfg: Config
    var vessels: seq<Vessel>
    var lastMessageAt: int
    var errors: seq<string>

    constructor (cfg: Config)
      ensures this.cfg == cfg && vessels == [] && errors == []
    {
      this.cfg := cfg;
      vessels, lastMessageAt, errors := [], 0, [];
    }

    method PopAll(names: seq<Mmsi>)
      modifies this`vessels
      ensures vessels == Without(old(vessels), set m | m in names)
    {
      var k := 0;
      ghost var popped: set<Mmsi> := {};
      WithoutNothing(vessels);
      while k < |names|
        invariant 0 <= k <= |names| && popped == set m | m in names[..k]
        invariant vessels == Without(old(vessels), popped)
      {
        WithoutAll(old(vessels), popped, {names[k]});
        assert names[..k + 1] == names[..k] + [names[k]];
        vessels := Without(vessels, {names[k]});
        popped := popped + {names[k]};
        k := k + 1;
      }
      assert names[..k] == names;
    }

    method PruneStale(now: int)
      modifies this`vessels
      ensures vessels == Without(old(vessels), StaleNames(cfg, old(vessels), now))
    {
      var drop: seq<Mmsi> := [];
      var k := 0;
      assert vessels[..0] == [];
      while k < |vessels|
        invariant 0 <= k <= |vessels| && vessels == old(vessels)
        invariant (set m | m in drop) == StaleNames(cfg, vessels[..k], now)
      {
        assert vessels[..k + 1][..k] == vessels[..k];
        if now - vessels[k].seenAt > cfg.staleAfter {
          drop := drop + [vessels[k].mmsi];
        }
        k := k + 1;
      }
      assert vessels[..k] == vessels;
      PopAll(drop);
    }

    method EvictOldest()
      requires |vessels| > cfg.capacity
      modifies this`vessels
      ensures vessels == Without(old(vessels), OldestNames(cfg, old(vessels)))
    {
      var oldest := Sort(OlderFirst, vessels);
      OldestIsSorted(vessels);
      var n := Excess(cfg, |vessels|);
      var drop: seq<Mmsi> := [];
      var k := 0;
      assert oldest[..0] == [];
      while k < n
        invariant 0 <= k <= n && vessels == old(vessels)
        invariant (set m | m in drop) == Names(oldest[..k])
      {
        assert oldest[..k + 1][..k] == oldest[..k];
        drop := drop + [oldest[k].mmsi];
        k := k + 1;
      }
      PopAll(drop);
    }

    method Trim(later: int)
      modifies this`vessels
      ensures vessels == Shrink(cfg, old(vessels), later)
    {
      if |vessels| > cfg.capacity {
        PruneStale(later);
        if |vessels| > cfg.capacity {
          EvictOldest();
        }
      }
    }

    /** Returns false when the service reports an error; only a report inside the regions is stored. */
    method Ingest(a: Arrival) returns (ok: bool)
      modifies this
      ensures vessels == Ingested(cfg, old(vessels), a)
      ensures ok == !a.frame.ServiceError?
      ensures a.frame.ServiceError? ==>
                errors == [if |a.frame.message| <= 200 then a.frame.message else a.frame.message[..200]]
      ensures !a.frame.ServiceError? ==> errors == old(errors)
      ensures lastMessageAt == if Stored(cfg, a.frame) then a.seen else old(lastMessageAt)
    {
      if a.frame.ServiceError? {
        errors := [First(a.frame.message, 200)];
        return false;
      }
      if a.frame.Undecodable? {
        return true;
      }
      var inside := PointInRegions(cfg.regions, a.frame.lat, a.frame.lon);
      if !inside {
        return true;
      }
      vessels := Put(vessels, Stamped(a));
      lastMessageAt := a.seen;
      Trim(a.later);
      return true;
    }
  }

  lemma OldestIsSorted(b: seq<Vessel>)
    ensures Sorted(OlderFirst, Sort(OlderFirst, b)) && |Sort(OlderFirst, b)| == |b|
    ensures forall v :: v in Sort(OlderFirst, b) <==> v in b
  {
    SortIsSorted(OlderFirst, b);
  }

  // ---------- Shrinking drops the oldest ----------

  /** No vessel named is seen later than a vessel not named. */
  ghost predicate Older(b: seq<Vessel>, names: set<Mmsi>) {
    forall v, w :: v in b && w in b && v.mmsi in names && w.mmsi !in names ==> v.seenAt <= w.seenAt
  }

  lemma {:induction false} StaleAre(cfg: Config, b: seq<Vessel>, now: int)
    requires Distinct(b)
    ensures StaleNames(cfg, b, now) <= Names(b)
    ensures forall v :: v in b ==> (v.mmsi in StaleNames(cfg, b, now) <==> now - v.seenAt > cfg.staleAfter)
  {
    if b != [] {
      var init, last := b[..|b| - 1], b[|b| - 1];
      DistinctInit(b);
      NamesOf(init);
      StaleAre(cfg, init, now);
      assert b == init + [last];
    }
  }

  lemma SameNames(b: seq<Vessel>, c: seq<Vessel>)
    requires forall v :: v in b <==> v in c
    ensures Names(b) == Names(c)
  {
    NamesOf(b);
    NamesOf(c);
  }

  lemma {:induction false} NamesSplit(b: seq<Vessel>, n: nat)
    requires n <= |b|
    ensures Names(b) == Names(b[..n]) + Names(b[n..])
  {
    if n == |b| {
      assert b[..n] == b;
    } else {
      var init := b[..|b| - 1];
      NamesSplit(init, n);
      assert init[..n] == b[..n] && b[n..][..|b[n..]| - 1] == init[n..];
    }
  }

  lemma {:induction false} OldestAre(cfg: Config, b: seq<Vessel>)
    requires Distinct(b)
    ensures OldestNames(cfg, b) <= Names(b) && |OldestNames(cfg, b)| == Excess(cfg, |b|)
    ensures Older(b, OldestNames(cfg, b))
  {
    var s, n := Sort(OlderFirst, b), Excess(cfg, |b|);
    OldestIsSorted(b);
    SameNames(s, b);
    NamesSplit(s, n);
    NamesOf(s[..n]);
    NamesOf(s[n..]);
    UnionBound(Names(s[..n]), Names(s[n..]));
    forall v, w | v in b && w in b && v.mmsi in Names(s[..n]) && w.mmsi !in Names(s[..n]) ensures v.seenAt <= w.seenAt {
      PrefixIsOlder(b, s, n, v, w);
    }
  }

  lemma UnionBound(a: set<Mmsi>, b: set<Mmsi>)
    ensures |a + b| <= |a| + |b|
  {
    assert |a + b| == |a| + |b| - |a * b|;
  }

  lemma InPrefix(s: seq<Vessel>, n: nat, j: nat)
    requires n <= |s| && j < |s|
    ensures j < n ==> s[j].mmsi in Names(s[..n])
  {
    NamesOf(s[..n]);
    if j < n {
      assert s[..n][j] in s[..n];
    }
  }

  lemma PrefixIsOlder(b: seq<Vessel>, s: seq<Vessel>, n: nat, v: Vessel, w: Vessel)
    requires Distinct(b) && Sorted(OlderFirst, s) && n <= |s|
    requires forall x :: x in s <==> x in b
    requires v in b && w in b && v.mmsi in Names(s[..n]) && w.mmsi !in Names(s[..n])
    ensures v.seenAt <= w.seenAt
  {
    NamesOf(s[..n]);
    var x :| x in s[..n] && x.mmsi == v.mmsi;
    OnePerName(b, x, v);
    var i :| 0 <= i < n && s[i] == x;
    var j :| 0 <= j < |s| && s[j] == w;
    InPrefix(s, n, j);
    assert OlderFirst(s[i], s[j]);
  }

  /** What shrinking does: some names go, none of them seen later than any that stay. */
  lemma Shrinks(cfg: Config, b: seq<Vessel>, later: int) returns (names: set<Mmsi>)
    requires Distinct(b)
    ensures Shrink(cfg, b, later) == Without(b, names) && names <= Names(b) && Older(b, names)
    ensures Distinct(Shrink(cfg, b, later))
    ensures |Shrink(cfg, b, later)| <= if cfg.capacity < 0 then 0 else cfg.capacity
    ensures |b| <= cfg.capacity ==> names == {}
  {
    if |b| <= cfg.capacity {
      WithoutNothing(b);
      return {};
    }
    var stale := StaleNames(cfg, b, later);
    var live := Without(b, stale);
    StaleAre(cfg, b, later);
    WithoutMembers(b, stale);
    if |live| <= cfg.capacity {
      return stale;
    }
    var oldest := OldestNames(cfg, live);
    OldestAre(cfg, live);
    WithoutMembers(live, oldest);
    WithoutAll(b, stale, oldest);
    WithoutMembers(b, stale + oldest);
    OlderBoth(b, stale, oldest, cfg.staleAfter, later);
    return stale + oldest;
  }

  lemma OlderBoth(b: seq<Vessel>, stale: set<Mmsi>, oldest: set<Mmsi>, after: int, now: int)
    requires Distinct(b) && Older(Without(b, stale), oldest)
    requires forall v :: v in b ==> (v.mmsi in stale <==> now - v.seenAt > after)
    ensures Older(b, stale + oldest)
  {
    WithoutMembers(b, stale);
  }

  // ---------- Whole runs ----------

  ghost function Run(cfg: Config, arrivals: seq<Arrival>): seq<Vessel> {
    if arrivals == [] then [] else Ingested(cfg, Run(cfg, arrivals[..|arrivals| - 1]), arrivals[|arrivals| - 1])
  }

  /** Every report inside the regions, stamped, in order of arrival. */
  ghost function Log(cfg: Config, arrivals: seq<Arrival>): seq<Vessel> {
    if arrivals == [] then []
    else
      var before, a := Log(cfg, arrivals[..|arrivals| - 1]), arrivals[|arrivals| - 1];
      if Stored(cfg, a.frame) then before + [Stamped(a)] else before
  }

  /** The clock never runs backwards. */
  ghost predicate Clocked(arrivals: seq<Arrival>) {
    && (forall i :: 0 <= i < |arrivals| ==> arrivals[i].seen <= arrivals[i].later)
    && (forall i, j :: 0 <= i < j < |arrivals| ==> arrivals[i].later <= arrivals[j].seen)
  }

  /** `v` is the last report of its vessel. */
  ghost predicate IsLatest(log: seq<Vessel>, v: Vessel) {
    log != [] && if log[|log| - 1].mmsi == v.mmsi then log[|log| - 1] == v else IsLatest(log[..|log| - 1], v)
  }

  /** What the buffer has to do with the log: one entry per vessel, its latest report; no lost vessel is newer. */
  ghost predicate Retains(log: seq<Vessel>, b: seq<Vessel>) {
    && Distinct(b)
    && (forall v :: v in b ==> IsLatest(log, v))
    && (forall v, w :: v in b && IsLatest(log, w) && w.mmsi !in Names(b) ==> w.seenAt <= v.seenAt)
  }

  lemma LatestSnoc(log: seq<Vessel>, v: Vessel, w: Vessel)
    ensures IsLatest(log + [v], w) <==> if v.mmsi == w.mmsi then v == w else IsLatest(log, w)
  {
    assert (log + [v])[..|log|] == log;
  }

  lemma {:induction false} LatestIsLogged(log: seq<Vessel>, v: Vessel)
    requires IsLatest(log, v)
    ensures v in log
  {
    if log[|log| - 1].mmsi != v.mmsi {
      LatestIsLogged(log[..|log| - 1], v);
    }
  }

  lemma {:induction false} RetainsStep(log: seq<Vessel>, b: seq<Vessel>, v: Vessel, names: set<Mmsi>)
    requires Retains(log, b) && forall x :: x in log ==> x.seenAt <= v.seenAt
    requires Older(Put(b, v), names)
    ensures Retains(log + [v], Without(Put(b, v), names))
  {
    var put := Put(b, v);
    PutMembers(b, v);
    NamesOf(put);
    var after := Without(put, names);
    WithoutMembers(put, names);
    forall x | x in after ensures IsLatest(log + [v], x) {
      LatestSnoc(log, v, x);
    }
    forall x, w | x in after && IsLatest(log + [v], w) && w.mmsi !in Names(after) ensures w.seenAt <= x.seenAt {
      LatestSnoc(log, v, w);
      LostIsOlder(log, b, v, names, x, w);
    }
  }

  lemma {:induction false} LostIsOlder(log: seq<Vessel>, b: seq<Vessel>, v: Vessel, names: set<Mmsi>,
                                       x: Vessel, w: Vessel)
    requires Retains(log, b) && forall y :: y in log ==> y.seenAt <= v.seenAt
    requires Older(Put(b, v), names) && x in Put(b, v) && x.mmsi !in names
    requires (w == v || (w.mmsi != v.mmsi && IsLatest(log, w))) && w.mmsi !in Names(Put(b, v)) - names
    ensures w.seenAt <= x.seenAt
  {
    PutMembers(b, v);
    NamesOf(b);
    if w != v {
      LatestIsLogged(log, w);
      if w.mmsi in Names(b) {
        var y :| y in b && y.mmsi == w.mmsi;
        LatestIsOne(log, y, w);
      }
    }
  }

  /** A report of a point in some region, borders included. */
  ghost predicate Inside(cfg: Config, f: Frame) {
    f.Report? && exists i :: && 0 <= i < |cfg.regions|
                             && cfg.regions[i].minLat <= f.lat && f.lat <= cfg.regions[i].maxLat
                             && cfg.regions[i].minLon <= f.lon && f.lon <= cfg.regions[i].maxLon
  }

  lemma StoredIff(cfg: Config, f: Frame)
    ensures Stored(cfg, f) <==> Inside(cfg, f)
  {
    if Inside(cfg, f) {
      var i :| && 0 <= i < |cfg.regions|
               && cfg.regions[i].minLat <= f.lat && f.lat <= cfg.regions[i].maxLat
               && cfg.regions[i].minLon <= f.lon && f.lon <= cfg.regions[i].maxLon;
      assert In(cfg.regions[i], f.lat, f.lon);
    }
  }

  ghost function Reports(cfg: Config, arrivals: seq<Arrival>): set<nat> {
    set i: nat | i < |arrivals| && Inside(cfg, arrivals[i].frame)
  }

  lemma ReportsNext(cfg: Config, arrivals: seq<Arrival>, n: nat)
    requires n + 1 == |arrivals|
    ensures Reports(cfg, arrivals)
         == Reports(cfg, arrivals[..n]) + if Stored(cfg, arrivals[n].frame) then {n} else {}
  {
    StoredIff(cfg, arrivals[n].frame);
    forall i: nat | i < n ensures i in Reports(cfg, arrivals) <==> i in Reports(cfg, arrivals[..n]) {
      assert arrivals[..n][i] == arrivals[i];
    }
  }

  /** The log is the reports inside the regions, in order, each with its own position and the time it came. */
  lemma {:induction false} LogIs(cfg: Config, arrivals: seq<Arrival>) returns (at: seq<nat>)
    ensures Lists(at, Reports(cfg, arrivals)) && |Log(cfg, arrivals)| == |at|
    ensures forall k :: 0 <= k < |at| ==>
              var a := arrivals[at[k]];
              Log(cfg, arrivals)[k] == Vessel(a.frame.mmsi, a.frame.lat, a.frame.lon, a.seen)
  {
    at := [];
    if arrivals != [] {
      var n := |arrivals| - 1;
      at := LogIs(cfg, arrivals[..n]);
      ReportsNext(cfg, arrivals, n);
      if Stored(cfg, arrivals[n].frame) {
        ListsMore(at, Reports(cfg, arrivals[..n]), n);
        at := at + [n];
      }
    }
  }

  /** Arrival i is the last report of its vessel, and `v` is what it says. */
  ghost predicate LastReport(cfg: Config, arrivals: seq<Arrival>, i: nat, v: Vessel) {
    && i < |arrivals| && Inside(cfg, arrivals[i].frame)
    && arrivals[i].frame == Report(v.mmsi, v.lat, v.lon) && arrivals[i].seen == v.seenAt
    && forall j :: i < j < |arrivals| && Inside(cfg, arrivals[j].frame) ==> arrivals[j].frame.mmsi != v.mmsi
  }

  lemma {:induction false} LatestIff(cfg: Config, arrivals: seq<Arrival>, v: Vessel)
    ensures IsLatest(Log(cfg, arrivals), v) <==> exists i: nat :: LastReport(cfg, arrivals, i, v)
  {
    if arrivals != [] {
      var init, a := arrivals[..|arrivals| - 1], arrivals[|arrivals| - 1];
      LatestIff(cfg, init, v);
      StoredIff(cfg, a.frame);
      if Stored(cfg, a.frame) {
        LatestSnoc(Log(cfg, init), Stamped(a), v);
      }
      LastReportNext(cfg, init, a, v);
      assert arrivals == init + [a];
    }
  }

  lemma LastReportNext(cfg: Config, init: seq<Arrival>, a: Arrival, v: Vessel)
    ensures (exists i: nat :: LastReport(cfg, init + [a], i, v)) <==>
            if Inside(cfg, a.frame) && a.frame.mmsi == v.mmsi
            then a.frame == Report(v.mmsi, v.lat, v.lon) && a.seen == v.seenAt
            else exists i: nat :: LastReport(cfg, init, i, v)
  {
    var all := init + [a];
    forall i: nat | i < |init|
      ensures LastReport(cfg, all, i, v) <==>
              LastReport(cfg, init, i, v) && !(Inside(cfg, a.frame) && a.frame.mmsi == v.mmsi)
    {
      assert forall j :: 0 <= j < |init| ==> all[j] == init[j];
      assert all[|init|] == a;
    }
    assert LastReport(cfg, all, |init|, v) <==>
        Inside(cfg, a.frame) && a.frame == Report(v.mmsi, v.lat, v.lon) && a.seen == v.seenAt;
  }

  lemma {:induction false} LatestIsOne(log: seq<Vessel>, v: Vessel, w: Vessel)
    requires IsLatest(log, v) && IsLatest(log, w) && v.mmsi == w.mmsi
    ensures v == w
  {
    if log[|log| - 1].mmsi != v.mmsi {
      LatestIsOne(log[..|log| - 1], v, w);
    }
  }

  lemma {:induction false} LogIsPast(cfg: Config, arrivals: seq<Arrival>, t: int)
    requires forall i :: 0 <= i < |arrivals| ==> arrivals[i].seen <= t
    ensures forall x :: x in Log(cfg, arrivals) ==> x.seenAt <= t
  {
    if arrivals != [] {
      LogIsPast(cfg, arrivals[..|arrivals| - 1], t);
    }
  }

  /**
   After every run under a nondecreasing clock the buffer is within capacity, holds for each vessel its
   latest report inside the regions, and no vessel it lost was last seen later than one it kept.
   */
  lemma {:induction false} BufferFollowsTheLog(cfg: Config, arrivals: seq<Arrival>)
    requires Clocked(arrivals)
    ensures Retains(Log(cfg, arrivals), Run(cfg, arrivals))
    ensures |Run(cfg, arrivals)| <= if cfg.capacity < 0 then 0 else cfg.capacity
  {
    if arrivals != [] {
      var init, a := arrivals[..|arrivals| - 1], arrivals[|arrivals| - 1];
      BufferFollowsTheLog(cfg, init);
      if Stored(cfg, a.frame) {
        LogIsPast(cfg, init, a.seen);
        var b, v := Run(cfg, init), Stamped(a);
        PutMembers(b, v);
        var names := Shrinks(cfg, Put(b, v), a.later);
        RetainsStep(Log(cfg, init), b, v, names);
      }
    }
  }

  lemma {:induction false} NamesDiffer(b: seq<Vessel>, i: nat, j: nat)
    requires Distinct(b) && i < j < |b|
    ensures b[i].mmsi != b[j].mmsi
  {
    var init := b[..|b| - 1];
    DistinctInit(b);
    if j < |init| {
      NamesDiffer(init, i, j);
    } else {
      AmongNames(init, i);
    }
  }

  lemma AmongNames(b: seq<Vessel>, i: nat)
    requires i < |b|
    ensures b[i].mmsi in Names(b)
  {
    NamesOf(b);
  }

  /**
   The same by arrivals: the buffer holds one vessel per identity, each as its last report inside the regions
   gave it, and a vessel it does not hold was last reported no later than any it holds.
   */
  lemma {:induction false} BufferHoldsLastReports(cfg: Config, arrivals: seq<Arrival>)
    requires Clocked(arrivals)
    ensures var b := Run(cfg, arrivals);
            && (forall i, j :: 0 <= i < j < |b| ==> b[i].mmsi != b[j].mmsi)
            && (forall v :: v in b ==> exists i: nat :: LastReport(cfg, arrivals, i, v))
            && forall i: nat, w, v ::
                 LastReport(cfg, arrivals, i, w) && v in b && (forall x :: x in b ==> x.mmsi != w.mmsi) ==>
                   w.seenAt <= v.seenAt
  {
    var b := Run(cfg, arrivals);
    BufferFollowsTheLog(cfg, arrivals);
    forall i, j | 0 <= i < j < |b| ensures b[i].mmsi != b[j].mmsi {
      NamesDiffer(b, i, j);
    }
    forall v | v in b ensures exists i: nat :: LastReport(cfg, arrivals, i, v) {
      LatestIff(cfg, arrivals, v);
    }
    NamesOf(b);
    forall i: nat, w, v | LastReport(cfg, arrivals, i, w) && v in b && (forall x :: x in b ==> x.mmsi != w.mmsi)
      ensures w.seenAt <= v.seenAt
    {
      LatestIff(cfg, arrivals, w);
    }
  }

  /**
   The newest report is dropped exactly when the buffer overflows and either has no room at all or has gone
   stale meanwhile.
   */
  lemma NewestIsKept(cfg: Config, arrivals: seq<Arrival>)
    requires Clocked(arrivals) && arrivals != [] && Stored(cfg, arrivals[|arrivals| - 1].frame)
    ensures var a, b := arrivals[|arrivals| - 1], Run(cfg, arrivals[..|arrivals| - 1]);
            Stamped(a) in Run(cfg, arrivals) <==>
              |Put(b, Stamped(a))| <= cfg.capacity || (cfg.capacity >= 1 && a.later - a.seen <= cfg.staleAfter)
  {
    var init, a := arrivals[..|arrivals| - 1], arrivals[|arrivals| - 1];
    var b, v := Run(cfg, init), Stamped(a);
    BufferFollowsTheLog(cfg, init);
    LogIsPast(cfg, init, a.seen);
    forall x | x in b ensures x.seenAt <= v.seenAt {
      LatestIsLogged(Log(cfg, init), x);
    }
    PutMembers(b, v);
    if |Put(b, v)| > cfg.capacity {
      Overflow(cfg, Put(b, v), v, a.later);
      if cfg.capacity >= 1 && a.later - a.seen <= cfg.staleAfter {
        OverflowKeepsLast(cfg, b, v, a.later);
      }
    }
  }

  lemma Overflow(cfg: Config, put: seq<Vessel>, v: Vessel, later: int)
    requires Distinct(put) && v in put && |put| > cfg.capacity
    ensures v in Shrink(cfg, put, later) ==> cfg.capacity >= 1 && later - v.seenAt <= cfg.staleAfter
  {
    StaleAre(cfg, put, later);
    WithoutMembers(put, StaleNames(cfg, put, later));
    var live := Without(put, StaleNames(cfg, put, later));
    if |live| > cfg.capacity {
      WithoutMembers(live, OldestNames(cfg, live));
      if cfg.capacity <= 0 {
        AllNames(cfg, live);
        NamesOf(live);
      }
    }
  }

  lemma {:induction false} OverflowKeepsLast(cfg: Config, b: seq<Vessel>, v: Vessel, later: int)
    requires Distinct(b) && v.mmsi !in Names(b) && later - v.seenAt <= cfg.staleAfter
    requires 1 <= cfg.capacity <= |b|
    requires forall x :: x in b ==> x.seenAt <= v.seenAt
    ensures v in Shrink(cfg, b + [v], later)
  {
    Grow(b, v);
    StaleAre(cfg, b + [v], later);
    assert v in b + [v];
    var stale := StaleNames(cfg, b + [v], later);
    WithoutSnoc(b, v, stale);
    WithoutMembers(b, stale);
    WithoutMembers(b + [v], stale);
    var live := Without(b, stale);
    if |live + [v]| > cfg.capacity {
      LastStays(cfg, live, v);
    }
  }

  lemma NewestSortsLast(b: seq<Vessel>, v: Vessel)
    requires forall x :: x in b ==> x.seenAt <= v.seenAt
    ensures Sort(OlderFirst, b + [v]) == Sort(OlderFirst, b) + [v]
  {
    SortKeepsLastMaximum(OlderFirst, b, v);
  }

  lemma PrefixNames(s: seq<Vessel>, t: seq<Vessel>, v: Vessel, n: nat)
    requires n <= |s| && t == s + [v]
    ensures Names(t[..n]) <= Names(s)
  {
    assert t[..n] == s[..n];
    NamesSplit(s, n);
  }

  lemma SortedNames(b: seq<Vessel>)
    ensures Names(Sort(OlderFirst, b)) == Names(b)
  {
    OldestIsSorted(b);
    SameNames(Sort(OlderFirst, b), b);
  }

  lemma {:induction false} OldestSpareLast(cfg: Config, b: seq<Vessel>, v: Vessel)
    requires 1 <= cfg.capacity <= |b|
    requires forall x :: x in b ==> x.seenAt <= v.seenAt
    ensures OldestNames(cfg, b + [v]) <= Names(Sort(OlderFirst, b))
  {
    NewestSortsLast(b, v);
    PrefixNames(Sort(OlderFirst, b), Sort(OlderFirst, b + [v]), v, Excess(cfg, |b + [v]|));
  }

  lemma {:induction false} LastStays(cfg: Config, b: seq<Vessel>, v: Vessel)
    requires 1 <= cfg.capacity <= |b| && v.mmsi !in Names(b)
    requires forall x :: x in b ==> x.seenAt <= v.seenAt
    ensures v in Without(b + [v], OldestNames(cfg, b + [v]))
  {
    OldestSpareLast(cfg, b, v);
    SortedNames(b);
    WithoutSnoc(b, v, OldestNames(cfg, b + [v]));
  }

  lemma AllNames(cfg: Config, b: seq<Vessel>)
    requires cfg.capacity <= 0
    ensures OldestNames(cfg, b) == Names(b)
  {
    var s := Sort(OlderFirst, b);
    assert s[..|b|] == s;
    OldestIsSorted(b);
    SameNames(s, b);
  }

  /** When a report overflows the buffer, every stale vessel goes, and a fresh one only if the buffer is left full. */
  lemma OverflowDropsStaleFirst(cfg: Config, arrivals: seq<Arrival>)
    requires Clocked(arrivals) && arrivals != [] && Stored(cfg, arrivals[|arrivals| - 1].frame)
    requires |Put(Run(cfg, arrivals[..|arrivals| - 1]), Stamped(arrivals[|arrivals| - 1]))| > cfg.capacity
    ensures var a, kept := arrivals[|arrivals| - 1], Run(cfg, arrivals);
            && (forall v :: v in kept ==> a.later - v.seenAt <= cfg.staleAfter)
            && forall v :: v in Put(Run(cfg, arrivals[..|arrivals| - 1]), Stamped(a)) && v !in kept ==>
                 a.later - v.seenAt > cfg.staleAfter || |kept| == if cfg.capacity < 0 then 0 else cfg.capacity
  {
    var init, a := arrivals[..|arrivals| - 1], arrivals[|arrivals| - 1];
    BufferFollowsTheLog(cfg, init);
    PutMembers(Run(cfg, init), Stamped(a));
    ShrinkOverflow(cfg, Put(Run(cfg, init), Stamped(a)), a.later);
  }

  lemma ShrinkOverflow(cfg: Config, b: seq<Vessel>, later: int)
    requires Distinct(b) && |b| > cfg.capacity
    ensures forall v :: v in Shrink(cfg, b, later) ==> later - v.seenAt <= cfg.staleAfter
    ensures forall v :: v in b && v !in Shrink(cfg, b, later) ==>
              || later - v.seenAt > cfg.staleAfter
              || |Shrink(cfg, b, later)| == if cfg.capacity < 0 then 0 else cfg.capacity
  {
    var stale := StaleNames(cfg, b, later);
    StaleAre(cfg, b, later);
    WithoutMembers(b, stale);
    var live := Without(b, stale);
    if |live| > cfg.capacity {
      OldestAre(cfg, live);
      WithoutMembers(live, OldestNames(cfg, live));
    }
  }

  // ---------- How many are kept ----------

  function AtMost(n: int, cap: int): int {
    if n <= cap then n else cap
  }

  lemma BufferNames(cfg: Config, arrivals: seq<Arrival>)
    requires Clocked(arrivals)
    ensures Names(Run(cfg, arrivals)) <= Names(Log(cfg, arrivals))
  {
    BufferFollowsTheLog(cfg, arrivals);
    var b, log := Run(cfg, arrivals), Log(cfg, arrivals);
    NamesOf(b);
    NamesOf(log);
    forall m | m in Names(b) ensures m in Names(log) {
      var v :| v in b && v.mmsi == m;
      LatestIsLogged(log, v);
    }
  }

  /** Nothing is lost, however stale, while no more vessels than the capacity have reported. */
  lemma {:induction false} NothingLostBelowCapacity(cfg: Config, arrivals: seq<Arrival>)
    requires Clocked(arrivals) && |Names(Log(cfg, arrivals))| <= cfg.capacity
    ensures Names(Run(cfg, arrivals)) == Names(Log(cfg, arrivals))
  {
    if arrivals != [] {
      var init, a := arrivals[..|arrivals| - 1], arrivals[|arrivals| - 1];
      if Stored(cfg, a.frame) {
        Grow(Log(cfg, init), Stamped(a));
        SubsetSize(Names(Log(cfg, init)), Names(Log(cfg, arrivals)));
        NothingLostBelowCapacity(cfg, init);
        BufferFollowsTheLog(cfg, init);
        PutMembers(Run(cfg, init), Stamped(a));
      } else {
        NothingLostBelowCapacity(cfg, init);
      }
    }
  }

  /**
   While nothing can be stale, the buffer is as full as it can be. With `BufferFollowsTheLog` it is then
   exactly the most recently seen vessels, as many as the capacity allows.
   */
  lemma {:induction false} FullWhileNothingIsStale(cfg: Config, arrivals: seq<Arrival>)
    requires Clocked(arrivals) && cfg.capacity >= 0
    requires arrivals != [] ==> arrivals[|arrivals| - 1].later - arrivals[0].seen <= cfg.staleAfter
    ensures |Run(cfg, arrivals)| == AtMost(|Names(Log(cfg, arrivals))|, cfg.capacity)
  {
    if arrivals != [] {
      var init, a := arrivals[..|arrivals| - 1], arrivals[|arrivals| - 1];
      FullWhileNothingIsStale(cfg, init);
      BufferFollowsTheLog(cfg, init);
      BufferNames(cfg, init);
      SubsetSize(Names(Run(cfg, init)), Names(Log(cfg, init)));
      if Stored(cfg, a.frame) {
        LogIsRecent(cfg, arrivals, arrivals[0].seen);
        Grow(Log(cfg, init), Stamped(a));
        FullStep(cfg, Log(cfg, init), Run(cfg, init), Stamped(a), a.later);
      }
    }
  }

  lemma {:induction false} LogIsRecent(cfg: Config, arrivals: seq<Arrival>, t: int)
    requires forall i :: 0 <= i < |arrivals| ==> t <= arrivals[i].seen
    ensures forall x :: x in Log(cfg, arrivals) ==> t <= x.seenAt
  {
    if arrivals != [] {
      LogIsRecent(cfg, arrivals[..|arrivals| - 1], t);
    }
  }

  lemma FullCount(kept: set<Mmsi>, reported: set<Mmsi>, m: Mmsi, capacity: int)
    requires kept <= reported && 0 <= capacity
    requires |kept| == AtMost(|reported|, capacity)
    ensures AtMost(|kept| + (if m in kept then 0 else 1), capacity) == AtMost(|reported + {m}|, capacity)
  {
    SubsetSize(kept, reported);
    SubsetSize(reported, reported + {m});
    assert m in reported ==> reported + {m} == reported;
  }

  lemma {:induction false} FullStep(cfg: Config, log: seq<Vessel>, b: seq<Vessel>, v: Vessel, later: int)
    requires cfg.capacity >= 0 && Retains(log, b) && Names(b) <= Names(log)
    requires |b| == AtMost(|Names(log)|, cfg.capacity)
    requires forall x :: x in log + [v] ==> later - x.seenAt <= cfg.staleAfter
    ensures |Shrink(cfg, Put(b, v), later)| == AtMost(|Names(log) + {v.mmsi}|, cfg.capacity)
  {
    PutMembers(b, v);
    FullCount(Names(b), Names(log), v.mmsi, cfg.capacity);
    var put := Put(b, v);
    forall x | x in put ensures later - x.seenAt <= cfg.staleAfter {
      if x != v {
        LatestIsLogged(log, x);
      }
      assert x in log + [v];
    }
    ShrinkFresh(cfg, put, later);
  }

  lemma ShrinkFresh(cfg: Config, put: seq<Vessel>, later: int)
    requires cfg.capacity >= 0 && Distinct(put) && forall x :: x in put ==> later - x.seenAt <= cfg.staleAfter
    ensures |Shrink(cfg, put, later)| == AtMost(|put|, cfg.capacity)
  {
    StaleAre(cfg, put, later);
    NamesOf(put);
    assert StaleNames(cfg, put, later) == {};
    WithoutNothing(put);
    if |put| > cfg.capacity {
      OldestAre(cfg, put);
      WithoutMembers(put, OldestNames(cfg, put));
    }
  }
}
