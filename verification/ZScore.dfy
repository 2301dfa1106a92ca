/**
 The z-score fallback of the anomaly detector (backend/anomaly_detector.py, `_train_zscore`,
 `_detect_zscore`, `_severity_from_score`), over exact reals. `math.sqrt` is any function that gives
 the non-negative square root; rounding of the reported score is left out.
 */
module ZScore {
  import opened Indices
  import opened Reals

  const FLOOR: real := 0.000000001

  datatype Stats = Stats(mean: real, std: real)

  datatype Severity = Low | Medium | High | Critical

  datatype Metric = Metric(feed: string, value: real)

  datatype History = History(feed: string, values: seq<real>)

  datatype Anomaly = Anomaly(feed: string, value: real, score: real, severity: Severity)

  function Sum(s: seq<real>): real {
    if s == [] then 0.0 else Sum(s[..|s| - 1]) + s[|s| - 1]
  }

  function SumSq(s: seq<real>): real {
    if s == [] then 0.0 else SumSq(s[..|s| - 1]) + s[|s| - 1] * s[|s| - 1]
  }

  function Mean(s: seq<real>): real
    requires s != []
  {
    Sum(s) / (|s| as real)
  }

  function Deviations(s: seq<real>, m: real): seq<real> {
    seq(|s|, i requires 0 <= i < |s| => s[i] - m)
  }

  function Variance(s: seq<real>): real
    requires s != []
  {
    SumSq(Deviations(s, Mean(s))) / (|s| as real)
  }

  ghost predicate IsSqrt(sqrt: real -> real) {
    forall v :: v >= 0.0 ==> sqrt(v) >= 0.0 && sqrt(v) * sqrt(v) == v
  }

  function StatsOf(s: seq<real>, sqrt: real -> real): Stats
    requires s != []
  {
    Stats(Mean(s), if Variance(s) > FLOOR then sqrt(Variance(s)) else FLOOR)
  }

  /** `st` are the statistics of `s`: the mean, and a standard deviation that is never below the floor's. */
  ghost predicate Trained(s: seq<real>, st: Stats) {
    && s != []
    && st.mean == Mean(s)
    && st.std > 0.0
    && (if Variance(s) > FLOOR then st.std * st.std == Variance(s) else st.std == FLOOR)
  }

  method TrainZscore(history: seq<History>, sqrt: real -> real) returns (stats: map<string, Stats>)
    requires IsSqrt(sqrt)
    requires forall i, j :: 0 <= i < j < |history| ==> history[i].feed != history[j].feed
    ensures forall i :: 0 <= i < |history| ==>
              (history[i].feed in stats <==> |history[i].values| >= 3)
              && (|history[i].values| >= 3 ==> Trained(history[i].values, stats[history[i].feed]))
    ensures forall feed :: feed in stats ==>
              stats[feed].std > 0.0 && exists i :: 0 <= i < |history| && history[i].feed == feed
  {
    stats := map[];
    for i := 0 to |history|
      invariant forall j :: 0 <= j < i ==>
                  (history[j].feed in stats <==> |history[j].values| >= 3)
                  && (|history[j].values| >= 3 ==> Trained(history[j].values, stats[history[j].feed]))
      invariant forall feed :: feed in stats ==>
                stats[feed].std > 0.0 && exists j :: 0 <= j < i && history[j].feed == feed
    {
      var values := history[i].values;
      if |values| < 3 {
        continue;
      }
      StatsAreTrained(values, sqrt);
      stats := stats[history[i].feed := StatsOf(values, sqrt)];
    }
  }

  function Abs(x: real): real { if x < 0.0 then -x else x }

  function Z(x: real, st: Stats): real
    requires st.std > 0.0
  {
    Abs(x - st.mean) / st.std
  }

  predicate Flags(x: real, st: Stats)
    requires st.std > 0.0
  {
    Z(x, st) >= 3.0
  }

  function Score(z: real): real { if z / 4.0 < 1.0 then z / 4.0 else 1.0 }

  function SeverityFromScore(score: real): Severity {
    if score >= 0.8 then Critical
    else if score >= 0.65 then High
    else if score >= 0.5 then Medium
    else Low
  }

  lemma SeverityIff(score: real)
    ensures SeverityFromScore(score) == Critical <==> 0.8 <= score
    ensures SeverityFromScore(score) == High <==> 0.65 <= score < 0.8
    ensures SeverityFromScore(score) == Medium <==> 0.5 <= score < 0.65
    ensures SeverityFromScore(score) == Low <==> score < 0.5
  {}

  /** At least three standard deviations off the mean, on either side. */
  predicate IsFar(x: real, st: Stats) {
    x - st.mean >= 3.0 * st.std || st.mean - x >= 3.0 * st.std
  }

  /** What is reported of a metric: a quarter of its distance in standard deviations, at most 1. */
  ghost predicate Describes(a: Anomaly, m: Metric, st: Stats)
    requires st.std > 0.0
  {
    var distance := if m.value >= st.mean then m.value - st.mean else st.mean - m.value;
    && a.feed == m.feed && a.value == m.value
    && a.score == (if distance < 4.0 * st.std then distance / (4.0 * st.std) else 1.0)
    && a.severity == if distance >= 3.2 * st.std then Critical else High
  }

  /** The metrics of known feeds that are far off, by position. */
  ghost function FarOff(stats: map<string, Stats>, current: seq<Metric>): set<nat> {
    set i: nat | i < |current| && current[i].feed in stats && IsFar(current[i].value, stats[current[i].feed])
  }

  /** Exactly the metrics that are far off are reported, each once and in input order. */
  ghost predicate Detected(stats: map<string, Stats>, current: seq<Metric>, at: seq<nat>, results: seq<Anomaly>)
    requires forall feed :: feed in stats ==> stats[feed].std > 0.0
  {
    && Lists(at, FarOff(stats, current)) && |results| == |at|
    && forall k :: 0 <= k < |at| ==>
         var m := current[at[k]];
         Describes(results[k], m, stats[m.feed])
  }

  lemma DetectedNext(stats: map<string, Stats>, current: seq<Metric>, n: nat, at: seq<nat>, results: seq<Anomaly>,
                     a: Anomaly)
    requires forall feed :: feed in stats ==> stats[feed].std > 0.0
    requires n < |current| && Detected(stats, current[..n], at, results)
    requires current[n].feed in stats && IsFar(current[n].value, stats[current[n].feed])
    requires Describes(a, current[n], stats[current[n].feed])
    ensures Detected(stats, current[..n + 1], at + [n], results + [a])
  {
    assert FarOff(stats, current[..n + 1]) == FarOff(stats, current[..n]) + {n};
    ListsMore(at, FarOff(stats, current[..n]), n);
  }

  lemma DetectedSkip(stats: map<string, Stats>, current: seq<Metric>, n: nat, at: seq<nat>, results: seq<Anomaly>)
    requires forall feed :: feed in stats ==> stats[feed].std > 0.0
    requires n < |current| && Detected(stats, current[..n], at, results)
    requires current[n].feed in stats ==> !IsFar(current[n].value, stats[current[n].feed])
    ensures Detected(stats, current[..n + 1], at, results)
  {
    assert FarOff(stats, current[..n + 1]) == FarOff(stats, current[..n]);
  }

  lemma Thresholds(d: real, std: real, z: real)
    requires std > 0.0 && z * std == d
    ensures z >= 3.0 <==> d >= 3.0 * std
    ensures z >= 3.2 <==> d >= 3.2 * std
    ensures z < 4.0 <==> d < 4.0 * std
  {
    Compare(z, 3.0, std, d);
    Compare(z, 3.2, std, d);
    Compare(z, 4.0, std, d);
  }

  lemma Compare(z: real, t: real, std: real, d: real)
    requires std > 0.0 && z * std == d
    ensures z >= t <==> d >= t * std
  {
    if z >= t {
      assert (z - t) * std >= 0.0;
    } else {
      Positive(t - z, std, (t - z) * std);
    }
  }

  lemma Quarter(d: real, std: real, z: real)
    requires std > 0.0 && z * std == d
    ensures z / 4.0 == d / (4.0 * std)
  {
    assert (z / 4.0) * (4.0 * std) == d;
  }

  /** One metric that is flagged. */
  lemma Flagged(m: Metric, st: Stats, z: real)
    requires st.std > 0.0 && z == Z(m.value, st)
    ensures z >= 3.0 <==> IsFar(m.value, st)
    ensures z >= 3.0 ==> Describes(Anomaly(m.feed, m.value, Score(z), SeverityFromScore(Score(z))), m, st)
  {
    var d := Abs(m.value - st.mean);
    assert z * st.std == d;
    Thresholds(d, st.std, z);
    Quarter(d, st.std, z);
  }

  method DetectZscore(stats: map<string, Stats>, current: seq<Metric>)
    returns (results: seq<Anomaly>, ghost at: seq<nat>)
    requires forall feed :: feed in stats ==> stats[feed].std > 0.0
    ensures Detected(stats, current, at, results)
  {
    results, at := [], [];
    assert FarOff(stats, current[..0]) == {};
    for i := 0 to |current|
      invariant Detected(stats, current[..i], at, results)
    {
      var m := current[i];
      if m.feed !in stats {
        DetectedSkip(stats, current, i, at, results);
        continue;
      }
      var z := Abs(m.value - stats[m.feed].mean) / stats[m.feed].std;
      var score := if z / 4.0 < 1.0 then z / 4.0 else 1.0;
      Flagged(m, stats[m.feed], z);
      if z >= 3.0 {
        var a := Anomaly(m.feed, m.value, score, SeverityFromScore(score));
        DetectedNext(stats, current, i, at, results, a);
        results := results + [a];
        at := at + [i];
      } else {
        DetectedSkip(stats, current, i, at, results);
      }
    }
    assert current[..|current|] == current;
  }

  /** A metric is reported exactly when it is flagged, and the lower two labels never occur. */
  lemma ReportedIffFlagged(stats: map<string, Stats>, current: seq<Metric>, at: seq<nat>, results: seq<Anomaly>, i: nat)
    requires forall feed :: feed in stats ==> stats[feed].std > 0.0
    requires Detected(stats, current, at, results) && i < |current|
    ensures (exists k :: 0 <= k < |at| && at[k] == i) <==>
            current[i].feed in stats && Flags(current[i].value, stats[current[i].feed])
    ensures forall a :: a in results ==> a.severity == High || a.severity == Critical
  {
    assert i in at <==> i in FarOff(stats, current);
    if current[i].feed in stats {
      Flagged(current[i], stats[current[i].feed], Z(current[i].value, stats[current[i].feed]));
    }
  }

  // ---------- Sums and squares ----------

  lemma {:induction false} SumAppend(a: seq<real>, b: seq<real>)
    ensures Sum(a + b) == Sum(a) + Sum(b)
    ensures SumSq(a + b) == SumSq(a) + SumSq(b)
  {
    if b == [] {
      assert a + b == a;
    } else {
      assert (a + b)[..|a + b| - 1] == a + b[..|b| - 1];
      SumAppend(a, b[..|b| - 1]);
    }
  }

  lemma Square(x: real)
    ensures x * x >= 0.0
  {}

  lemma {:induction false} SumSqNonNegative(d: seq<real>)
    ensures SumSq(d) >= 0.0
  {
    if d != [] {
      SumSqNonNegative(d[..|d| - 1]);
      Square(d[|d| - 1]);
    }
  }

  lemma CauchyStep(s: real, q: real, a: real, m: real)
    requires m >= 1.0 && s * s <= m * q
    ensures (s + a) * (s + a) <= (m + 1.0) * (q + a * a)
  {
    var gap := q + m * (a * a) - 2.0 * (s * a);
    Square(s - m * a);
    assert (s - m * a) * (s - m * a) == s * s - 2.0 * (m * (s * a)) + m * (m * (a * a));
    assert m * gap == m * q + m * (m * (a * a)) - 2.0 * (m * (s * a));
    assert m * gap >= 0.0;
    Factor(m, gap);
    assert (m + 1.0) * (q + a * a) - (s + a) * (s + a) == (m * q - s * s) + gap;
  }

  /** Cauchy-Schwarz against the all-ones vector. */
  lemma {:induction false} Cauchy(d: seq<real>)
    ensures Sum(d) * Sum(d) <= (|d| as real) * SumSq(d)
  {
    if |d| == 1 {
      assert d[..0] == [];
    } else if d != [] {
      var n := |d| - 1;
      Cauchy(d[..n]);
      CauchyStep(Sum(d[..n]), SumSq(d[..n]), d[n], n as real);
    }
  }

  lemma {:induction false} SumOfDeviations(s: seq<real>, m: real)
    ensures Sum(Deviations(s, m)) == Sum(s) - (|s| as real) * m
  {
    if s != [] {
      var n := |s| - 1;
      SumOfDeviations(s[..n], m);
      assert Deviations(s, m)[..n] == Deviations(s[..n], m);
    }
  }

  /** Deviations from the mean cancel, and their squares add up to n times the variance. */
  lemma Centred(s: seq<real>)
    requires s != []
    ensures Sum(Deviations(s, Mean(s))) == 0.0
    ensures SumSq(Deviations(s, Mean(s))) == (|s| as real) * Variance(s)
    ensures Variance(s) >= 0.0
  {
    SumOfDeviations(s, Mean(s));
    SumSqNonNegative(Deviations(s, Mean(s)));
  }

  lemma SamuelsonArithmetic(x: real, rest: real, q: real, n: real)
    requires n >= 1.0 && x + rest == 0.0
    requires rest * rest <= (n - 1.0) * (q - x * x)
    ensures n * (x * x) <= (n - 1.0) * q
  {
    assert rest == -x;
    assert rest * rest == x * x;
    assert (n - 1.0) * (q - x * x) == (n - 1.0) * q - (n * (x * x) - x * x);
  }

  /** Samuelson's inequality: no value is further from the mean than the square root of n - 1 standard deviations. */
  lemma Samuelson(s: seq<real>, i: nat)
    requires i < |s|
    ensures (s[i] - Mean(s)) * (s[i] - Mean(s)) <= ((|s| - 1) as real) * Variance(s)
  {
    var n, d := |s| as real, Deviations(s, Mean(s));
    Centred(s);
    var rest := Without(d, i);
    Cauchy(rest);
    SamuelsonArithmetic(d[i], Sum(rest), SumSq(d), n);
    Regroup(d[i] * d[i], n, Variance(s));
  }

  lemma Regroup(a: real, n: real, v: real)
    requires n >= 1.0 && n * a <= (n - 1.0) * (n * v)
    ensures a <= (n - 1.0) * v
  {
    assert (n - 1.0) * (n * v) == n * ((n - 1.0) * v);
    Divide(a, (n - 1.0) * v, n);
  }

  lemma Without(d: seq<real>, i: nat) returns (rest: seq<real>)
    requires i < |d|
    ensures |rest| == |d| - 1 && Sum(rest) == Sum(d) - d[i] && SumSq(rest) == SumSq(d) - d[i] * d[i]
  {
    rest := d[..i] + d[i + 1..];
    assert d == d[..i] + [d[i]] + d[i + 1..];
    TakeOut(d[..i], d[i], d[i + 1..]);
  }

  lemma TakeOut(before: seq<real>, x: real, after: seq<real>)
    ensures Sum(before + [x] + after) == Sum(before + after) + x
    ensures SumSq(before + [x] + after) == SumSq(before + after) + x * x
  {
    SumAppend(before + [x], after);
    SumOne(before, x);
    SumAppend(before, after);
  }

  lemma SumOne(a: seq<real>, x: real)
    ensures Sum(a + [x]) == Sum(a) + x && SumSq(a + [x]) == SumSq(a) + x * x
  {
    assert (a + [x])[..|a|] == a;
  }

  // ---------- The detector on its own training values ----------

  lemma StatsAreTrained(s: seq<real>, sqrt: real -> real)
    requires s != [] && IsSqrt(sqrt)
    ensures Trained(s, StatsOf(s, sqrt))
  {
    var v := Variance(s);
    if v > FLOOR {
      var r := sqrt(v);
      assert r >= 0.0 && r * r == v;
    }
  }

  lemma SquareMonotone(a: real, b: real)
    requires a >= 0.0 && b >= 0.0
    ensures a >= b <==> a * a >= b * b
  {
    if a >= b {
      assert a * a - b * b == (a - b) * (a + b);
    } else {
      assert b * b - a * a == (b - a) * (a + b);
      Positive(b - a, a + b, (b - a) * (a + b));
    }
  }

  lemma DivideBy(a: real, std: real)
    requires std > 0.0
    ensures a / std >= 3.0 <==> a >= 3.0 * std
  {
    assert (a / std) * std == a;
    if a / std >= 3.0 {
      assert (a / std - 3.0) * std >= 0.0;
    } else {
      assert (3.0 - a / std) * std > 0.0;
    }
  }

  /** The division-free form of the threshold. */
  lemma FlagsIff(x: real, st: Stats)
    requires st.std > 0.0
    ensures Flags(x, st) <==> (x - st.mean) * (x - st.mean) >= 9.0 * (st.std * st.std)
  {
    var a := Abs(x - st.mean);
    DivideBy(a, st.std);
    SquareMonotone(a, 3.0 * st.std);
    assert (3.0 * st.std) * (3.0 * st.std) == 9.0 * (st.std * st.std);
    assert a * a == (x - st.mean) * (x - st.mean);
  }

  lemma NoSpreadNoDeviation(s: seq<real>, i: nat)
    requires i < |s| && Variance(s) == 0.0
    ensures s[i] == Mean(s)
  {
    Samuelson(s, i);
    ZeroSquare(s[i] - Mean(s), (|s| - 1) as real, Variance(s));
  }

  lemma ZeroSquare(x: real, k: real, v: real)
    requires x * x <= k * v && v == 0.0
    ensures x == 0.0
  {
    SquareOf(x, x * x);
    var q := x * x;
    assert q <= 0.0;
    SquareOf(x, q);
  }

  lemma NoneWithSpread(s: seq<real>, st: Stats, i: nat)
    requires Trained(s, st) && |s| <= 9 && i < |s| && Variance(s) > FLOOR
    ensures !Flags(s[i], st)
  {
    FlagsIff(s[i], st);
    Samuelson(s, i);
    BelowNine(s[i] - Mean(s), (|s| - 1) as real, Variance(s));
  }

  lemma BelowNine(d: real, k: real, v: real)
    requires d * d <= k * v && k <= 8.0 && v > 0.0
    ensures d * d < 9.0 * v
  {
    assert (8.0 - k) * v >= 0.0;
  }

  /**
   A history of 3 to 9 values never flags its own training values, provided its variance is above the
   floor. Under the floor the substituted deviation of 1e-9 takes over, and exactly the values at
   least 3e-9 away from the mean are flagged; a history without any spread never flags.
   */
  lemma OwnValuesFlaggedIff(s: seq<real>, st: Stats, i: nat)
    requires Trained(s, st) && 3 <= |s| <= 9 && i < |s|
    ensures Flags(s[i], st) <==> Variance(s) <= 0.000000001 && Abs(s[i] - Mean(s)) >= 0.000000003
    ensures Variance(s) == 0.0 ==> !Flags(s[i], st)
  {
    if Variance(s) > FLOOR {
      NoneWithSpread(s, st, i);
    } else {
      DivideBy(Abs(s[i] - Mean(s)), FLOOR);
      if Variance(s) == 0.0 {
        NoSpreadNoDeviation(s, i);
      }
    }
  }

  /** A concrete history under the floor: all three training values are anomalies of their own model. */
  lemma TinySpreadFlagsEverything(st: Stats)
    requires Trained([0.0, 0.0, 0.00003], st)
    ensures Flags(0.0, st) && Flags(0.00003, st)
  {
    var s, m := [0.0, 0.0, 0.00003], 0.00001;
    SumOfThree(0.0, 0.0, 0.00003);
    assert Mean(s) == m;
    assert Deviations(s, m) == [0.0 - m, 0.0 - m, 0.00003 - m];
    SumOfThree(0.0 - m, 0.0 - m, 0.00003 - m);
    assert Variance(s) <= FLOOR;
    OwnValuesFlaggedIff(s, st, 0);
    OwnValuesFlaggedIff(s, st, 2);
  }

  lemma SumOfThree(a: real, b: real, c: real)
    ensures Sum([a, b, c]) == a + b + c
    ensures SumSq([a, b, c]) == a * a + b * b + c * c
  {
    var s3, s2, s1 := [a, b, c], [a, b], [a];
    assert s3[..2] == s2 && s2[..1] == s1 && s1[..0] == [];
    assert Sum(s1) == a && SumSq(s1) == a * a;
    assert Sum(s2) == a + b && SumSq(s2) == a * a + b * b;
  }

  // ---------- Chebyshev ----------

  function CountFar(d: seq<real>, t: real): nat {
    if d == [] then 0 else CountFar(d[..|d| - 1], t) + if d[|d| - 1] * d[|d| - 1] >= t then 1 else 0
  }

  lemma {:induction false} Markov(d: seq<real>, t: real)
    requires t >= 0.0
    ensures t * (CountFar(d, t) as real) <= SumSq(d)
  {
    if d != [] {
      Markov(d[..|d| - 1], t);
      Square(d[|d| - 1]);
      var c := CountFar(d[..|d| - 1], t) as real;
      assert t * (c + 1.0) == t * c + t;
    }
  }

  function CountFlagged(s: seq<real>, st: Stats): nat
    requires st.std > 0.0
  {
    if s == [] then 0 else CountFlagged(s[..|s| - 1], st) + if Flags(s[|s| - 1], st) then 1 else 0
  }

  lemma {:induction false} FlaggedAreFar(s: seq<real>, st: Stats, t: real)
    requires st.std > 0.0 && t == 9.0 * (st.std * st.std)
    ensures CountFlagged(s, st) == CountFar(Deviations(s, st.mean), t)
  {
    if s != [] {
      var n := |s| - 1;
      FlaggedAreFar(s[..n], st, t);
      assert Deviations(s, st.mean)[..n] == Deviations(s[..n], st.mean);
      FlagsIff(s[n], st);
    }
  }

  /**
   Of any number of training values without spread, or with a spread above the floor, at most one in nine is
   flagged.
   */
  lemma AtMostANinthFlagged(s: seq<real>, st: Stats)
    requires Trained(s, st) && (Variance(s) == 0.0 || Variance(s) > FLOOR)
    ensures 9 * CountFlagged(s, st) <= |s|
    ensures Variance(s) == 0.0 ==> CountFlagged(s, st) == 0
  {
    if Variance(s) == 0.0 {
      NoSpreadNoFlag(s, st);
    } else {
      var v, t, q := AboveFloor(s, st);
      NinthOf(CountFlagged(s, st), |s|, Deviations(s, st.mean), v, t, q);
    }
  }

  lemma NoSpreadNoFlag(s: seq<real>, st: Stats)
    requires Trained(s, st) && Variance(s) == 0.0
    ensures CountFlagged(s, st) == 0
  {
    forall i | 0 <= i < |s| ensures !Flags(s[i], st) {
      NoSpreadNoDeviation(s, i);
      DivideBy(Abs(s[i] - st.mean), st.std);
    }
    NoneCounted(s, st);
  }

  lemma {:induction false} NoneCounted(s: seq<real>, st: Stats)
    requires st.std > 0.0 && forall i :: 0 <= i < |s| ==> !Flags(s[i], st)
    ensures CountFlagged(s, st) == 0
  {
    if s != [] {
      NoneCounted(s[..|s| - 1], st);
    }
  }

  lemma AboveFloor(s: seq<real>, st: Stats) returns (v: real, t: real, q: real)
    requires Trained(s, st) && Variance(s) > FLOOR
    ensures v > 0.0 && t == 9.0 * v
    ensures q == SumSq(Deviations(s, st.mean)) == (|s| as real) * v
    ensures CountFlagged(s, st) == CountFar(Deviations(s, st.mean), t)
  {
    Centred(s);
    v, t := Variance(s), 9.0 * Variance(s);
    q := SumSq(Deviations(s, st.mean));
    FlaggedAreFar(s, st, t);
  }

  lemma NinthOf(c: nat, n: nat, d: seq<real>, v: real, t: real, q: real)
    requires v > 0.0 && t == 9.0 * v && q == SumSq(d) == (n as real) * v && c == CountFar(d, t)
    ensures 9 * c <= n
  {
    Markov(d, t);
    CancelSpread(c, n, v, t, q);
  }

  lemma CancelSpread(c: nat, n: nat, v: real, t: real, q: real)
    requires v > 0.0 && t == 9.0 * v && t * (c as real) <= q && q == (n as real) * v
    ensures 9 * c <= n
  {
    var gap := (n as real) - 9.0 * (c as real);
    assert v * gap == (n as real) * v - (9.0 * v) * (c as real);
    Factor(v, gap);
  }

  // ---------- Ten values can flag one ----------

  function Zeros(n: nat): seq<real> {
    seq(n, _ => 0.0)
  }

  lemma {:induction false} SumOfConstant(s: seq<real>, c: real)
    requires forall i :: 0 <= i < |s| ==> s[i] == c
    ensures Sum(s) == (|s| as real) * c && SumSq(s) == (|s| as real) * (c * c)
  {
    if s != [] {
      SumOfConstant(s[..|s| - 1], c);
    }
  }

  /** Nine is the largest size that is safe: nine zeros and a ten put the ten exactly at z = 3. */
  lemma TenValuesCanFlag(st: Stats)
    requires Trained(Zeros(9) + [10.0], st)
    ensures Variance(Zeros(9) + [10.0]) == 9.0 && Flags(10.0, st)
  {
    var s := Zeros(9) + [10.0];
    SumOfConstant(Zeros(9), 0.0);
    assert s[..9] == Zeros(9);
    assert Mean(s) == 1.0;
    var d := Deviations(s, 1.0);
    SumOfConstant(d[..9], -1.0);
    assert d[9] == 9.0 && SumSq(d) == 90.0;
    FlagsIff(s[9], st);
  }

  // ---------- Units do not matter ----------

  function Rescale(s: seq<real>, a: real, b: real): seq<real> {
    seq(|s|, i requires 0 <= i < |s| => a * s[i] + b)
  }

  lemma RescalePrefix(s: seq<real>, a: real, b: real, n: nat)
    requires n <= |s|
    ensures Rescale(s, a, b)[..n] == Rescale(s[..n], a, b)
  {
    var t, u := Rescale(s, a, b), Rescale(s[..n], a, b);
    forall i | 0 <= i < n ensures t[..n][i] == u[i] {
      assert s[..n][i] == s[i];
    }
  }

  lemma AddOne(a: real, b: real, sum: real, x: real, n: real)
    ensures (a * sum + n * b) + (a * x + b) == a * (sum + x) + (n + 1.0) * b
  {}

  lemma {:induction false} SumRescale(s: seq<real>, a: real, b: real)
    ensures Sum(Rescale(s, a, b)) == a * Sum(s) + (|s| as real) * b
  {
    if s != [] {
      var n := |s| - 1;
      SumRescale(s[..n], a, b);
      RescalePrefix(s, a, b, n);
      AddOne(a, b, Sum(s[..n]), s[n], n as real);
    }
  }

  lemma SquareTimes(a: real, k: real, x: real, y: real)
    requires k == a * a && y == a * x
    ensures y * y == k * (x * x)
  {}

  lemma TimesSum(k: real, x: real, y: real, u: real, v: real)
    requires u == k * x && v == k * y
    ensures u + v == k * (x + y)
  {}

  lemma {:induction false} SumSqScaled(d: seq<real>, e: seq<real>, a: real, k: real)
    requires |d| == |e| && k == a * a && forall i :: 0 <= i < |d| ==> e[i] == a * d[i]
    ensures SumSq(e) == k * SumSq(d)
  {
    if d != [] {
      var n := |d| - 1;
      SumSqScaled(d[..n], e[..n], a, k);
      SquareTimes(a, k, d[n], e[n]);
      TimesSum(k, SumSq(d[..n]), d[n] * d[n], SumSq(e[..n]), e[n] * e[n]);
    }
  }

  lemma RescaledMean(s: seq<real>, a: real, b: real)
    requires s != []
    ensures Mean(Rescale(s, a, b)) == a * Mean(s) + b
  {
    SumRescale(s, a, b);
    MeanOf(Sum(s), |s| as real, a, b);
  }

  /** The deviations of a rescaled history from a rescaled centre are the original ones, times a. */
  lemma RescaledDeviations(s: seq<real>, a: real, b: real, m: real, m': real)
    requires m' == a * m + b
    ensures |Deviations(Rescale(s, a, b), m')| == |Deviations(s, m)|
    ensures forall i :: 0 <= i < |s| ==> Deviations(Rescale(s, a, b), m')[i] == a * Deviations(s, m)[i]
  {
    forall i | 0 <= i < |s| ensures Deviations(Rescale(s, a, b), m')[i] == a * Deviations(s, m)[i] {
      Shift(a, s[i], b, m);
    }
  }

  lemma Means(s: seq<real>, a: real, b: real) returns (m: real, m': real)
    requires s != []
    ensures m == Mean(s) && m' == Mean(Rescale(s, a, b)) && m' == a * m + b
  {
    RescaledMean(s, a, b);
    m, m' := Mean(s), Mean(Rescale(s, a, b));
  }

  lemma RescaledSpread(s: seq<real>, a: real, b: real, k: real) returns (p: real, q: real)
    requires s != [] && k == a * a
    ensures p == SumSq(Deviations(s, Mean(s))) && q == k * p
    ensures q == SumSq(Deviations(Rescale(s, a, b), Mean(Rescale(s, a, b))))
  {
    var d, e := RescaledPair(s, a, b);
    SumSqScaled(d, e, a, k);
    p, q := SumSq(d), SumSq(e);
  }

  lemma RescaledPair(s: seq<real>, a: real, b: real) returns (d: seq<real>, e: seq<real>)
    requires s != []
    ensures d == Deviations(s, Mean(s)) && e == Deviations(Rescale(s, a, b), Mean(Rescale(s, a, b)))
    ensures |d| == |e| && forall i :: 0 <= i < |d| ==> e[i] == a * d[i]
  {
    var m, m' := Means(s, a, b);
    RescaledDeviations(s, a, b, m, m');
    d, e := Deviations(s, m), Deviations(Rescale(s, a, b), m');
  }

  lemma VarianceTimes(s: seq<real>, n: real)
    requires s != [] && n == |s| as real
    ensures n * Variance(s) == SumSq(Deviations(s, Mean(s)))
  {}

  lemma CancelTimes(k: real, v: real, w: real, n: real, p: real, q: real)
    requires n >= 1.0 && n * v == p && n * w == q && q == k * p
    ensures w == k * v
  {
    var u := k * v;
    assert n * u == k * p;
    Divide(u, w, n);
    Divide(w, u, n);
  }

  lemma RescaledVariance(s: seq<real>, a: real, b: real, k: real)
    requires s != [] && k == a * a
    ensures Variance(Rescale(s, a, b)) == k * Variance(s)
  {
    var p, q := RescaledSpread(s, a, b, k);
    SpreadToVariance(s, Rescale(s, a, b), k, |s| as real, p, q);
  }

  lemma SpreadToVariance(s: seq<real>, t: seq<real>, k: real, n: real, p: real, q: real)
    requires s != [] && |s| == |t| && n == |s| as real && q == k * p
    requires p == SumSq(Deviations(s, Mean(s))) && q == SumSq(Deviations(t, Mean(t)))
    ensures Variance(t) == k * Variance(s)
  {
    VarianceTimes(s, n);
    VarianceTimes(t, n);
    CancelTimes(k, Variance(s), Variance(t), n, p, q);
  }

  lemma MeanOf(sum: real, n: real, a: real, b: real)
    requires n >= 1.0
    ensures (a * sum + n * b) / n == a * (sum / n) + b
  {
    var m := sum / n;
    assert m * n == sum;
    assert a * sum + n * b == (a * m + b) * n;
  }

  lemma Shift(a: real, x: real, b: real, m: real)
    ensures (a * x + b) - (a * m + b) == a * (x - m)
  {}

  /** Above the floor, changing the unit or the origin of a feed changes no verdict. */
  lemma UnitsDoNotMatter(s: seq<real>, st: Stats, st': Stats, x: real, a: real, b: real)
    requires a != 0.0 && Trained(s, st) && Trained(Rescale(s, a, b), st')
    requires Variance(s) > FLOOR && Variance(Rescale(s, a, b)) > FLOOR
    ensures Flags(a * x + b, st') <==> Flags(x, st)
  {
    RescaledMean(s, a, b);
    RescaledVariance(s, a, b, a * a);
    SameVerdict(st, st', x, a, b);
  }

  lemma SameVerdict(st: Stats, st': Stats, x: real, a: real, b: real)
    requires a != 0.0 && st.std > 0.0 && st'.std > 0.0 && st'.mean == a * st.mean + b
    requires st'.std * st'.std == (a * a) * (st.std * st.std)
    ensures Flags(a * x + b, st') <==> Flags(x, st)
  {
    FlagsIff(x, st);
    FlagsIff(a * x + b, st');
    Shift(a, x, b, st.mean);
    SameSide(x - st.mean, (a * x + b) - st'.mean, a, st.std * st.std, st'.std * st'.std);
  }

  lemma SameSide(d: real, e: real, a: real, v: real, w: real)
    requires e == a * d && w == (a * a) * v && a != 0.0
    ensures d * d >= 9.0 * v <==> e * e >= 9.0 * w
  {
    var k, g := a * a, d * d - 9.0 * v;
    assert e * e == k * (d * d);
    assert e * e - 9.0 * w == k * g;
    SquareOf(a, k);
    if g >= 0.0 {
      assert k * g >= 0.0;
    } else {
      Positive(k, -g, k * (-g));
      assert k * (-g) == -(k * g);
    }
  }
}
