/**
 Corroboration of digest rows (backend/briefing_quality.py): how well a pool of rows supports one of them.

 The fingerprint of a row's text and the sources inferred for it are given with the row. `id` is the
 identity of the row object: a row is not its own peer, an equal copy of it is.
 */
module DigestCorroboration {
  import opened Options
  import opened Reals
  import opened Sets

  datatype Severity = High | Medium | Low

  datatype Item = Item(
    id: nat, bucket: string, lat: Option<real>, lon: Option<real>,
    words: set<string>, sources: seq<string>, severity: Severity)

  datatype Label = Corroborated | SingleSource | Contradictory

  datatype Report = Report(corroboration: real, sources: set<string>, families: set<string>, conflict: bool,
                           verdict: Label)

  function Family(feed: string): string {
    if feed in {"gdelt_pulse_local", "gdelt_geo_local", "gdelt_pulse", "gdelt_geo", "gdelt-geo", "gdelt-pulse"}
    then "gdelt" else feed
  }

  function Rank(s: Severity): int {
    match s
    case High => 0
    case Medium => 1
    case Low => 2
  }

  /** The middle of the 2-degree cell that holds the point. */
  function GeoCell(lat: Option<real>, lon: Option<real>): Option<(int, int)> {
    if lat.None? || lon.None? then None
    else Some(((lat.value / 2.0).Floor * 2 + 1, (lon.value / 2.0).Floor * 2 + 1))
  }

  /** Two rows of a bucket match in place, or in at least 35% of their words. */
  predicate Match(a: Item, b: Item) {
    && a.id != b.id && a.bucket == b.bucket
    && var p, q := GeoCell(a.lat, a.lon), GeoCell(b.lat, b.lon);
       || (p.Some? && q.Some? && p == q)
       || (a.words != {} && b.words != {} && 20 * |a.words * b.words| >= 7 * |a.words + b.words|)
  }

  lemma MatchIsSymmetric(a: Item, b: Item)
    ensures Match(a, b) <==> Match(b, a)
  {
    assert a.words * b.words == b.words * a.words && a.words + b.words == b.words + a.words;
  }

  /** Two points share a cell exactly when they lie in one 2-degree square with even corners. */
  lemma SameCellIff(lat: real, lon: real, lat': real, lon': real)
    ensures GeoCell(Some(lat), Some(lon)) == GeoCell(Some(lat'), Some(lon')) <==>
            exists k: int, l: int :: InSquare(k, l, lat, lon) && InSquare(k, l, lat', lon')
  {
    forall k: int, l: int, x: real, y: real
      ensures InSquare(k, l, x, y) <==> (x / 2.0).Floor == k && (y / 2.0).Floor == l
    {
      FloorOf(x / 2.0, k);
      FloorOf(y / 2.0, l);
    }
    assert InSquare((lat / 2.0).Floor, (lon / 2.0).Floor, lat, lon);
  }

  predicate InSquare(k: int, l: int, lat: real, lon: real) {
    && (2 * k) as real <= lat < (2 * k + 2) as real
    && (2 * l) as real <= lon < (2 * l + 2) as real
  }

  lemma FloorOf(x: real, k: int)
    ensures x.Floor == k <==> k as real <= x < (k + 1) as real
  {}

  // ---------- What the peers say ----------

  function Elements<T>(s: seq<T>): set<T> {
    set x | x in s
  }

  /** The sources of the row and of all its peers. */
  function Sources(item: Item, pool: seq<Item>): set<string> {
    if pool == [] then Elements(item.sources)
    else
      var before, peer := Sources(item, pool[..|pool| - 1]), pool[|pool| - 1];
      if Match(item, peer) then before + Elements(peer.sources) else before
  }

  function Families(sources: set<string>): set<string> {
    set s | s in sources :: Family(s)
  }

  /** Some row, the item or a peer of it, has this severity. */
  ghost predicate Says(item: Item, pool: seq<Item>, s: Severity) {
    item.severity == s || exists p :: p in pool && Match(item, p) && p.severity == s
  }

  /** The score before a conflict is held against it. */
  function Support(severity: Severity, sources: nat, families: nat): real {
    if families >= 2 then (if families >= 3 then 1.0 else 0.95)
    else if families == 1 && sources >= 2 then 0.65
    else if Rank(severity) <= 1 then 0.45
    else 0.3
  }

  function Penalized(support: real, conflict: bool): real {
    if !conflict then support else if support - 0.25 >= 0.15 then support - 0.25 else 0.15
  }

  /** What a report has to say about a row and a pool. */
  ghost predicate Reports(item: Item, pool: seq<Item>, r: Report) {
    && r.sources == Sources(item, pool)
    && r.families == Families(r.sources)
    && (r.conflict <==> Says(item, pool, High) && Says(item, pool, Low))
    && r.corroboration == Penalized(Support(item.severity, |r.sources|, |r.families|), r.conflict)
    && (r.verdict == Contradictory <==> r.conflict)
    && (r.verdict == Corroborated <==> !r.conflict && |r.families| >= 2)
  }

  // ---------- The same in plain terms ----------

  predicate IsGdelt(feed: string) {
    feed in {"gdelt", "gdelt_pulse_local", "gdelt_geo_local", "gdelt_pulse", "gdelt_geo", "gdelt-geo", "gdelt-pulse"}
  }

  /** All GDELT feeds are one family; any other feed is a family of its own. */
  lemma SameFamilyIff(a: string, b: string)
    ensures Family(a) == Family(b) <==> a == b || (IsGdelt(a) && IsGdelt(b))
    ensures IsGdelt(a) ==> Family(a) == "gdelt"
    ensures !IsGdelt(a) ==> Family(a) == a
  {}

  ghost predicate SameSquare(a: Item, b: Item) {
    && a.lat.Some? && a.lon.Some? && b.lat.Some? && b.lon.Some?
    && exists k: int, l: int ::
         InSquare(k, l, a.lat.value, a.lon.value) && InSquare(k, l, b.lat.value, b.lon.value)
  }

  /** Other rows of the bucket match that lie in the same square or share at least 35% of all their words. */
  lemma MatchIff(a: Item, b: Item)
    ensures Match(a, b) <==>
            && a.id != b.id && a.bucket == b.bucket
            && (|| SameSquare(a, b)
                || (a.words != {} && b.words != {} &&
                    |a.words * b.words| as real / |a.words + b.words| as real >= 0.35))
  {
    if a.lat.Some? && a.lon.Some? && b.lat.Some? && b.lon.Some? {
      SameCellIff(a.lat.value, a.lon.value, b.lat.value, b.lon.value);
    }
    if a.words != {} {
      SubsetSize(a.words, a.words + b.words);
      Ratio(|a.words * b.words|, |a.words + b.words|, 0.35);
    }
  }

  lemma {:induction false} SourcesMembers(item: Item, pool: seq<Item>, s: string)
    ensures s in Sources(item, pool) <==> s in item.sources || exists p :: p in pool && Match(item, p) && s in p.sources
  {
    if pool != [] {
      var before, peer := pool[..|pool| - 1], pool[|pool| - 1];
      SourcesMembers(item, before, s);
      assert forall p :: p in pool <==> p in before || p == peer by {
        assert pool == before + [peer];
      }
    }
  }

  /** The sources of a report are those of the row and of every row of the pool that matches it, and no others. */
  lemma {:induction false} SourcesAre(item: Item, pool: seq<Item>, r: Report)
    requires Reports(item, pool, r)
    ensures forall s :: s in r.sources <==>
              s in item.sources || exists p :: p in pool && Match(item, p) && s in p.sources
    ensures forall f :: f in r.families <==> exists s :: s in r.sources && Family(s) == f
  {
    forall s ensures s in r.sources <==>
        s in item.sources || exists p :: p in pool && Match(item, p) && s in p.sources {
      SourcesMembers(item, pool, s);
    }
  }

  /** Every score by the number of families and sources, the row's own severity, and whether there is a conflict. */
  lemma ScoreIs(item: Item, pool: seq<Item>, r: Report)
    requires Reports(item, pool, r)
    ensures |r.families| >= 3 ==> r.corroboration == if r.conflict then 0.75 else 1.0
    ensures |r.families| == 2 ==> r.corroboration == if r.conflict then 0.7 else 0.95
    ensures |r.families| == 1 && |r.sources| >= 2 ==> r.corroboration == if r.conflict then 0.4 else 0.65
    ensures |r.families| == 0 || (|r.families| == 1 && |r.sources| < 2) ==>
              r.corroboration == if item.severity == Low then (if r.conflict then 0.15 else 0.3)
                                 else if r.conflict then 0.2 else 0.45
  {}

  // ---------- The loop ----------

  function Max(s: seq<int>): int
    requires s != []
  {
    if |s| == 1 then s[0] else if s[|s| - 1] > Max(s[..|s| - 1]) then s[|s| - 1] else Max(s[..|s| - 1])
  }

  function Min(s: seq<int>): int
    requires s != []
  {
    if |s| == 1 then s[0] else if s[|s| - 1] < Min(s[..|s| - 1]) then s[|s| - 1] else Min(s[..|s| - 1])
  }

  /** With ranks from 0 to 2, a spread of 2 then means that both ends occur. */
  lemma {:induction false} Spread(s: seq<int>)
    requires s != []
    ensures Max(s) in s && Min(s) in s
    ensures forall x :: x in s ==> Min(s) <= x <= Max(s)
  {
    if |s| > 1 {
      Spread(s[..|s| - 1]);
      assert s == s[..|s| - 1] + [s[|s| - 1]];
    }
  }

  function AtMostOne(x: real): real {
    if x <= 1.0 then x else 1.0
  }

  /** The peers' contribution: sources, families and severity ranks, the row's own included. */
  method Gather(item: Item, pool: seq<Item>) returns (sources: set<string>, families: set<string>, ranks: seq<int>)
    ensures sources == Sources(item, pool) && families == Families(sources)
    ensures ranks != [] && forall s: Severity :: Rank(s) in ranks <==> Says(item, pool, s)
    ensures forall x :: x in ranks ==> 0 <= x <= 2
  {
    sources := Elements(item.sources);
    families := Families(sources);
    ranks := [Rank(item.severity)];
    var k := 0;
    assert pool[..0] == [];
    while k < |pool|
      invariant 0 <= k <= |pool| && sources == Sources(item, pool[..k]) && families == Families(sources)
      invariant ranks != [] && forall s: Severity :: Rank(s) in ranks <==> Says(item, pool[..k], s)
      invariant forall x :: x in ranks ==> 0 <= x <= 2
    {
      var peer := pool[k];
      assert pool[..k + 1][..k] == pool[..k];
      SaysMore(item, pool[..k], peer);
      assert pool[..k] + [peer] == pool[..k + 1];
      if Match(item, peer) {
        families := families + Families(Elements(peer.sources));
        sources := sources + Elements(peer.sources);
        ranks := ranks + [Rank(peer.severity)];
      }
      k := k + 1;
    }
    assert pool[..k] == pool;
  }

  lemma SaysMore(item: Item, pool: seq<Item>, peer: Item)
    ensures forall s :: Says(item, pool + [peer], s) <==>
              Says(item, pool, s) || (Match(item, peer) && peer.severity == s)
  {
    forall s ensures Says(item, pool + [peer], s) <==>
        Says(item, pool, s) || (Match(item, peer) && peer.severity == s) {
      assert forall p :: p in pool + [peer] <==> p in pool || p == peer;
    }
  }

  method Corroborate(item: Item, pool: seq<Item>) returns (r: Report)
    ensures Reports(item, pool, r)
  {
    var sources, families, ranks := Gather(item, pool);
    var independent := |families|;
    var corroboration;
    if independent >= 2 {
      corroboration := AtMostOne(0.55 + 0.2 * independent as real);
    } else if independent == 1 && |sources| >= 2 {
      corroboration := 0.65;
    } else if Rank(item.severity) <= 1 {
      corroboration := 0.45;
    } else {
      corroboration := 0.3;
    }
    Spread(ranks);
    assert Rank(High) in ranks <==> Says(item, pool, High);
    assert Rank(Low) in ranks <==> Says(item, pool, Low);
    var conflict := |ranks| > 1 && Max(ranks) - Min(ranks) >= 2;
    if conflict {
      corroboration := if corroboration - 0.25 >= 0.15 then corroboration - 0.25 else 0.15;
    }
    var verdict := if corroboration >= 0.75 then Corroborated else SingleSource;
    if conflict {
      verdict := Contradictory;
    }
    r := Report(corroboration, sources, families, conflict, verdict);
  }

  // ---------- Properties of every report ----------

  /** Every peer in one pool has a peer in the other with the same sources and severity. */
  ghost predicate Echoed(item: Item, pool: seq<Item>, other: seq<Item>) {
    forall p :: p in pool && Match(item, p) ==>
      exists q :: q in other && Match(item, q) && q.sources == p.sources && q.severity == p.severity
  }

  lemma {:induction false} EchoedSources(item: Item, pool: seq<Item>, other: seq<Item>)
    requires Echoed(item, pool, other)
    ensures Sources(item, pool) <= Sources(item, other)
    ensures forall s :: Says(item, pool, s) ==> Says(item, other, s)
  {
    forall s | s in Sources(item, pool) ensures s in Sources(item, other) {
      SourcesMembers(item, pool, s);
      SourcesMembers(item, other, s);
    }
  }

  /** Order, repetition and copies do not count: two pools that echo each other give the same report. */
  lemma {:induction false} OnlyWhatPeersSayCounts(item: Item, pool: seq<Item>, other: seq<Item>, r: Report, t: Report)
    requires Reports(item, pool, r) && Reports(item, other, t)
    requires Echoed(item, pool, other) && Echoed(item, other, pool)
    ensures r == t
  {
    EchoedSources(item, pool, other);
    EchoedSources(item, other, pool);
    assert r.sources == t.sources;
  }

  /** In particular, only the set of rows in the pool matters. */
  lemma PermutedOrRepeated(item: Item, pool: seq<Item>, other: seq<Item>, r: Report, t: Report)
    requires Reports(item, pool, r) && Reports(item, other, t)
    requires forall p :: p in pool <==> p in other
    ensures r == t
  {
    OnlyWhatPeersSayCounts(item, pool, other, r, t);
  }

  /**
   A larger pool brings no fewer sources, families or conflicts and no less support, so the score falls
   only when the larger pool brings a conflict that was not there.
   */
  lemma LargerPool(item: Item, pool: seq<Item>, larger: seq<Item>, r: Report, t: Report)
    requires Reports(item, pool, r) && Reports(item, larger, t)
    requires forall p :: p in pool ==> p in larger
    ensures r.sources <= t.sources && r.families <= t.families && (r.conflict ==> t.conflict)
    ensures Support(item.severity, |r.sources|, |r.families|) <= Support(item.severity, |t.sources|, |t.families|)
    ensures t.corroboration < r.corroboration ==> t.conflict && !r.conflict
  {
    EchoedSources(item, pool, larger);
    SubsetSize(r.sources, t.sources);
    SubsetSize(r.families, t.families);
  }

  lemma ScoreInRange(item: Item, pool: seq<Item>, r: Report)
    requires Reports(item, pool, r)
    ensures 0.15 <= r.corroboration <= 1.0
    ensures r.verdict == Corroborated ==> r.corroboration >= 0.95
    ensures r.verdict == SingleSource ==> r.corroboration <= 0.65
  {}

  /** A high and a low row that match contradict each other in both their reports. */
  lemma ConflictIsMutual(a: Item, b: Item, pool: seq<Item>, r: Report, t: Report)
    requires Reports(a, pool, r) && Reports(b, pool, t)
    requires a in pool && b in pool && Match(a, b) && a.severity == High && b.severity == Low
    ensures r.verdict == Contradictory && t.verdict == Contradictory
  {
    MatchIsSymmetric(a, b);
  }
}
