/**
 Aircraft trails (backend/aircraft_trails.py): a rolling table of positions, pruned on every snapshot.

 The table is a sequence of rows in the order of their ids, which is the order of insertion. A feed is a
 list of state vectors, each decodable or not, or the error its fetch ended with.
 */
module TrailTable {
  import opened Indices

  datatype Position = Position(icao24: string, lat: real, lon: real)

  datatype StateVector = Undecodable | Decodable(position: Position)

  datatype Feed = Failed(error: string) | States(vectors: seq<StateVector>)

  datatype Row = Row(position: Position, recordedAt: int)

  datatype Config = Config(minInterval: int, maxAge: int, maxRows: int)

  datatype Call = Call(now: int, force: bool, feed: Feed)

  datatype Outcome = RateLimited | FetchFailed(error: string) | Empty(inFeed: nat) | Stored(rows: nat, inFeed: nat)

  datatype State = State(table: seq<Row>, lastSnapshot: int)

  const INIT := State([], 0)

  function Decode(vectors: seq<StateVector>, now: int): seq<Row> {
    if vectors == [] then []
    else
      var before, v := Decode(vectors[..|vectors| - 1], now), vectors[|vectors| - 1];
      if v.Decodable? then before + [Row(v.position, now)] else before
  }

  /** `DELETE ... WHERE recorded_at < cutoff`. */
  function Recent(rows: seq<Row>, cutoff: int): seq<Row> {
    if rows == [] then []
    else
      var before, row := Recent(rows[..|rows| - 1], cutoff), rows[|rows| - 1];
      if row.recordedAt < cutoff then before else before + [row]
  }

  /** Deletes the `extra` smallest ids; asking for more than there are deletes all. */
  function DropOldest(rows: seq<Row>, extra: int): seq<Row> {
    if extra <= 0 then rows else if extra >= |rows| then [] else rows[extra..]
  }

  function Pruned(cfg: Config, rows: seq<Row>, now: int): seq<Row> {
    var recent := Recent(rows, now - cfg.maxAge);
    DropOldest(recent, |recent| - cfg.maxRows)
  }

  function Result(cfg: Config, s: State, c: Call): Outcome {
    if !c.force && c.now - s.lastSnapshot < cfg.minInterval then RateLimited
    else if c.feed.Failed? then FetchFailed(c.feed.error)
    else
      var rows := Decode(c.feed.vectors, c.now);
      if rows == [] then Empty(|c.feed.vectors|) else Stored(|rows|, |c.feed.vectors|)
  }

  function Apply(cfg: Config, s: State, c: Call): State {
    match Result(cfg, s, c)
    case RateLimited => s
    case FetchFailed(_) => s
    case Empty(_) => s.(lastSnapshot := c.now)
    case Stored(_, _) =>
      if c.feed.States? then State(Pruned(cfg, s.table + Decode(c.feed.vectors, c.now), c.now), c.now) else s
  }

  class Recorder {
    const cfg: Config
    var table: seq<Row>
    var lastSnapshot: int

    ghost function View(): State
      reads this
    {
      State(table, lastSnapshot)
    }

    constructor (cfg: Config)
      ensures this.cfg == cfg && View() == INIT
    {
      this.cfg := cfg;
      table, lastSnapshot := [], 0;
    }

    method SnapshotNow(c: Call) returns (outcome: Outcome)
      modifies this
      ensures outcome == Result(cfg, old(View()), c)
      ensures View() == Apply(cfg, old(View()), c)
    {
      if !c.force && c.now - lastSnapshot < cfg.minInterval {
        return RateLimited;
      }
      if c.feed.Failed? {
        return FetchFailed(c.feed.error);
      }
      var rows, _ := DecodeAll(c.feed.vectors, c.now);
      if rows == [] {
        lastSnapshot := c.now;
        return Empty(|c.feed.vectors|);
      }
      table := table + rows;
      table := Recent(table, c.now - cfg.maxAge);
      var n := |table|;
      if n > cfg.maxRows {
        table := DropOldest(table, n - cfg.maxRows);
      }
      lastSnapshot := c.now;
      return Stored(|rows|, |c.feed.vectors|);
    }
  }

  ghost function Decodables(vectors: seq<StateVector>): set<nat> {
    set i: nat | i < |vectors| && vectors[i].Decodable?
  }

  /** One row for each decodable vector, in order, with the snapshot's time. */
  ghost predicate Decoded(vectors: seq<StateVector>, now: int, at: seq<nat>, rows: seq<Row>) {
    && Lists(at, Decodables(vectors)) && |rows| == |at|
    && forall k :: 0 <= k < |at| ==> rows[k] == Row(vectors[at[k]].position, now)
  }

  lemma DecodedNext(vectors: seq<StateVector>, now: int, n: nat, at: seq<nat>, rows: seq<Row>)
    requires n < |vectors| && Decoded(vectors[..n], now, at, rows)
    ensures if vectors[n].Decodable?
            then Decoded(vectors[..n + 1], now, at + [n], rows + [Row(vectors[n].position, now)])
            else Decoded(vectors[..n + 1], now, at, rows)
  {
    assert Decodables(vectors[..n + 1]) == Decodables(vectors[..n]) + if vectors[n].Decodable? then {n} else {};
    ListsMore(at, Decodables(vectors[..n]), n);
  }

  lemma {:induction false} DecodedBy(vectors: seq<StateVector>, now: int) returns (at: seq<nat>)
    ensures Decoded(vectors, now, at, Decode(vectors, now))
  {
    at := [];
    if vectors != [] {
      var n := |vectors| - 1;
      at := DecodedBy(vectors[..n], now);
      DecodedNext(vectors, now, n, at, Decode(vectors[..n], now));
      assert vectors[..n + 1] == vectors;
      at := at + if vectors[n].Decodable? then [n] else [];
    }
  }

  method DecodeAll(vectors: seq<StateVector>, now: int) returns (rows: seq<Row>, ghost at: seq<nat>)
    ensures rows == Decode(vectors, now) && Decoded(vectors, now, at, rows)
  {
    rows := [];
    var k := 0;
    assert vectors[..0] == [];
    while k < |vectors|
      invariant 0 <= k <= |vectors| && rows == Decode(vectors[..k], now)
    {
      assert vectors[..k + 1][..k] == vectors[..k];
      if vectors[k].Decodable? {
        rows := rows + [Row(vectors[k].position, now)];
      }
      k := k + 1;
    }
    assert vectors[..k] == vectors;
    at := DecodedBy(vectors, now);
  }

  // ---------- Runs ----------

  function Run(cfg: Config, calls: seq<Call>): State {
    if calls == [] then INIT else Apply(cfg, Run(cfg, calls[..|calls| - 1]), calls[|calls| - 1])
  }

  /** The rows a call inserts. */
  function Inserted(cfg: Config, s: State, c: Call): seq<Row> {
    if Result(cfg, s, c).Stored? && c.feed.States? then Decode(c.feed.vectors, c.now) else []
  }

  /** Every row ever inserted. */
  function Log(cfg: Config, calls: seq<Call>): seq<Row> {
    if calls == [] then []
    else
      var before := calls[..|calls| - 1];
      Log(cfg, before) + Inserted(cfg, Run(cfg, before), calls[|calls| - 1])
  }

  /** When rows were last inserted, and so last pruned; 0 before that. */
  function LastStored(cfg: Config, calls: seq<Call>): int {
    if calls == [] then 0
    else
      var before, c := calls[..|calls| - 1], calls[|calls| - 1];
      if Inserted(cfg, Run(cfg, before), c) != [] then c.now else LastStored(cfg, before)
  }

  /** The clock never runs backwards. */
  ghost predicate Clocked(calls: seq<Call>) {
    if calls == [] then true
    else
      var n := |calls| - 1;
      Clocked(calls[..n]) && calls[n].now >= 0 && forall i :: 0 <= i < n ==> calls[i].now <= calls[n].now
  }

  ghost predicate Ordered(rows: seq<Row>) {
    forall i, j :: 0 <= i < j < |rows| ==> rows[i].recordedAt <= rows[j].recordedAt
  }

  function Cap(cfg: Config): nat { if cfg.maxRows < 0 then 0 else cfg.maxRows }

  /** `log[from..]` is the longest suffix of the log that is both young enough and short enough. */
  ghost predicate LongestSuffix(cfg: Config, log: seq<Row>, now: int, from: nat) {
    && from <= |log| && |log| - from <= Cap(cfg)
    && (forall i :: from <= i < |log| ==> log[i].recordedAt >= now - cfg.maxAge)
    && (from > 0 && |log| - from < Cap(cfg) ==> log[from - 1].recordedAt < now - cfg.maxAge)
  }

  /** The rows before d are older than the cutoff, the others are not. */
  ghost predicate SplitAt(rows: seq<Row>, cutoff: int, d: nat) {
    && d <= |rows|
    && (forall i :: 0 <= i < d ==> rows[i].recordedAt < cutoff)
    && (forall i :: d <= i < |rows| ==> rows[i].recordedAt >= cutoff)
  }

  lemma Boundary(rows: seq<Row>, cutoff: int) returns (d: nat)
    requires Ordered(rows)
    ensures SplitAt(rows, cutoff, d)
  {
    d := |rows|;
    while d > 0 && rows[d - 1].recordedAt >= cutoff
      invariant d <= |rows| && forall i :: d <= i < |rows| ==> rows[i].recordedAt >= cutoff
    {
      d := d - 1;
    }
    forall i | 0 <= i < d ensures rows[i].recordedAt < cutoff {
      assert i == d - 1 || rows[i].recordedAt <= rows[d - 1].recordedAt;
    }
  }

  lemma {:induction false} RecentOfSplit(rows: seq<Row>, cutoff: int, d: nat)
    requires SplitAt(rows, cutoff, d)
    ensures Recent(rows, cutoff) == rows[d..]
  {
    if rows != [] {
      var n := |rows| - 1;
      if d <= n {
        RecentOfSplit(rows[..n], cutoff, d);
        assert rows[..n][d..] + [rows[n]] == rows[d..];
      } else {
        RecentOfSplit(rows[..n], cutoff, n);
      }
    }
  }

  /** On ordered rows, deleting the old ones leaves a suffix. */
  lemma RecentIsSuffix(rows: seq<Row>, cutoff: int) returns (d: nat)
    requires Ordered(rows)
    ensures SplitAt(rows, cutoff, d) && Recent(rows, cutoff) == rows[d..]
  {
    d := Boundary(rows, cutoff);
    RecentOfSplit(rows, cutoff, d);
  }

  /** One pruning cuts the rows back to their longest suffix that is young and short enough. */
  lemma PruneIsSuffix(cfg: Config, rows: seq<Row>, now: int) returns (m: nat)
    requires Ordered(rows)
    ensures LongestSuffix(cfg, rows, now, m) && Pruned(cfg, rows, now) == rows[m..]
  {
    var d := RecentIsSuffix(rows, now - cfg.maxAge);
    var n := |rows| - d;
    if n <= cfg.maxRows {
      return d;
    }
    m := if cfg.maxRows <= 0 then |rows| else |rows| - cfg.maxRows;
    assert rows[d..][m - d..] == rows[m..];
  }

  lemma OrderedSuffix(rows: seq<Row>, from: nat)
    requires from <= |rows| && Ordered(rows)
    ensures Ordered(rows[from..])
  {}

  /** The suffix of a suffix: `all` is the log with new rows, of which `all[from..]` is pruned to its `m`th row. */
  lemma Suffix(cfg: Config, log: seq<Row>, all: seq<Row>, earlier: int, now: int, from: nat, m: nat)
    requires log <= all && LongestSuffix(cfg, log, earlier, from) && earlier <= now
    requires LongestSuffix(cfg, all[from..], now, m)
    ensures LongestSuffix(cfg, all, now, from + m)
  {
    var some := all[from..];
    forall i | from + m <= i < |all| ensures all[i].recordedAt >= now - cfg.maxAge {
      assert some[i - from] == all[i];
    }
    if m > 0 {
      assert all[from + m - 1] == some[m - 1];
    } else if from > 0 {
      assert all[from - 1] == log[from - 1];
    }
  }

  lemma DecodedNow(vectors: seq<StateVector>, now: int)
    ensures forall row :: row in Decode(vectors, now) ==> row.recordedAt == now
  {
    var _ := DecodedBy(vectors, now);
  }

  lemma {:induction false} LogIsOrdered(cfg: Config, calls: seq<Call>, t: int)
    requires Clocked(calls) && forall i :: 0 <= i < |calls| ==> calls[i].now <= t
    ensures Ordered(Log(cfg, calls)) && forall row :: row in Log(cfg, calls) ==> row.recordedAt <= t
  {
    if calls != [] {
      var before, c := calls[..|calls| - 1], calls[|calls| - 1];
      LogIsOrdered(cfg, before, c.now);
      if c.feed.States? {
        DecodedNow(c.feed.vectors, c.now);
      }
      AppendOrdered(Log(cfg, before), Inserted(cfg, Run(cfg, before), c), c.now);
    }
  }

  lemma {:induction false} LogPrefix(cfg: Config, calls: seq<Call>, i: nat)
    requires i <= |calls|
    ensures Log(cfg, calls[..i]) <= Log(cfg, calls)
  {
    if i == |calls| {
      assert calls[..i] == calls;
    } else {
      LogPrefix(cfg, calls[..|calls| - 1], i);
      assert calls[..|calls| - 1][..i] == calls[..i];
    }
  }

  /** What a call adds to the log: the decodable vectors of its feed if it stores them, and otherwise nothing. */
  ghost predicate Contributes(cfg: Config, s: State, c: Call, at: seq<nat>, rows: seq<Row>) {
    if Result(cfg, s, c).Stored? && c.feed.States?
    then Decoded(c.feed.vectors, c.now, at, rows) && rows != []
    else rows == []
  }

  lemma InsertedAre(cfg: Config, s: State, c: Call) returns (at: seq<nat>)
    ensures Contributes(cfg, s, c, at, Inserted(cfg, s, c))
  {
    at := [];
    if c.feed.States? {
      at := DecodedBy(c.feed.vectors, c.now);
    }
  }

  /**
   What the log holds: after the rows of the calls before it, each storing call contributes one row for
   every decodable vector of its feed, in order, and any other call none.
   */
  lemma LogIsWhatCameIn(cfg: Config, calls: seq<Call>, i: nat) returns (at: seq<nat>, rows: seq<Row>)
    requires i < |calls|
    ensures Contributes(cfg, Run(cfg, calls[..i]), calls[i], at, rows)
    ensures Log(cfg, []) == [] && Log(cfg, calls[..i + 1]) == Log(cfg, calls[..i]) + rows <= Log(cfg, calls)
  {
    assert calls[..i + 1][..i] == calls[..i];
    LogPrefix(cfg, calls, i + 1);
    rows := Inserted(cfg, Run(cfg, calls[..i]), calls[i]);
    at := InsertedAre(cfg, Run(cfg, calls[..i]), calls[i]);
  }

  /** What a snapshot answers when it is not turned away. */
  lemma SnapshotAnswers(cfg: Config, s: State, c: Call)
    requires !Result(cfg, s, c).RateLimited?
    ensures c.feed.Failed? ==> Result(cfg, s, c) == FetchFailed(c.feed.error)
    ensures c.feed.States? ==>
              var n := |Decodables(c.feed.vectors)|;
              Result(cfg, s, c) == if n == 0 then Empty(|c.feed.vectors|) else Stored(n, |c.feed.vectors|)
  {
    if c.feed.States? {
      var at := DecodedBy(c.feed.vectors, c.now);
      ListsSize(at, Decodables(c.feed.vectors));
    }
  }

  lemma AppendOrdered(log: seq<Row>, rows: seq<Row>, now: int)
    requires Ordered(log) && forall row :: row in log ==> row.recordedAt <= now
    requires forall row :: row in rows ==> row.recordedAt == now
    ensures Ordered(log + rows) && forall row :: row in log + rows ==> row.recordedAt <= now
  {
    var all := log + rows;
    forall i, j | 0 <= i < j < |all| ensures all[i].recordedAt <= all[j].recordedAt {
      assert all[i] in all && (j >= |log| ==> all[j] in rows);
    }
  }

  lemma {:induction false} LastStoredIsPast(cfg: Config, calls: seq<Call>, t: int)
    requires Clocked(calls) && 0 <= t && forall i :: 0 <= i < |calls| ==> calls[i].now <= t
    ensures LastStored(cfg, calls) <= t
  {
    if calls != [] {
      LastStoredIsPast(cfg, calls[..|calls| - 1], t);
    }
  }

  lemma TableAfter(cfg: Config, s: State, c: Call)
    ensures var rows := Inserted(cfg, s, c);
            Apply(cfg, s, c).table == if rows == [] then s.table else Pruned(cfg, s.table + rows, c.now)
  {}

  lemma StoreStep(cfg: Config, table: seq<Row>, log: seq<Row>, rows: seq<Row>, earlier: int, now: int, from: nat)
    returns (next: nat)
    requires LongestSuffix(cfg, log, earlier, from) && table == log[from..] && earlier <= now
    requires Ordered(log + rows)
    ensures LongestSuffix(cfg, log + rows, now, next) && Pruned(cfg, table + rows, now) == (log + rows)[next..]
  {
    var all := log + rows;
    assert table + rows == all[from..];
    OrderedSuffix(all, from);
    var m := PruneIsSuffix(cfg, all[from..], now);
    Suffix(cfg, log, all, earlier, now, from, m);
    assert all[from..][m..] == all[from + m..];
    return from + m;
  }

  /**
   After every run under a nondecreasing clock, the table is the longest suffix of everything ever
   inserted whose rows were all young enough at the last storing snapshot and which fits the row cap:
   what an earlier snapshot deleted is never part of a later answer.
   */
  lemma {:induction false} TableIsLongestSuffix(cfg: Config, calls: seq<Call>) returns (from: nat)
    requires Clocked(calls)
    ensures LongestSuffix(cfg, Log(cfg, calls), LastStored(cfg, calls), from)
    ensures Run(cfg, calls).table == Log(cfg, calls)[from..]
  {
    if calls == [] {
      return 0;
    }
    var before, c := calls[..|calls| - 1], calls[|calls| - 1];
    from := TableIsLongestSuffix(cfg, before);
    LastStoredIsPast(cfg, before, c.now);
    LogIsOrdered(cfg, calls, c.now);
    var log, rows := Log(cfg, before), Inserted(cfg, Run(cfg, before), c);
    TableAfter(cfg, Run(cfg, before), c);
    if rows == [] {
      assert log + rows == log;
    } else {
      from := StoreStep(cfg, Run(cfg, before).table, log, rows, LastStored(cfg, before), c.now, from);
    }
  }

  // ---------- The rate limit ----------

  /** Call j went through: it stored rows or found the feed empty. */
  predicate Accepted(cfg: Config, calls: seq<Call>, j: nat)
    requires j < |calls|
  {
    var outcome := Result(cfg, Run(cfg, calls[..j]), calls[j]);
    outcome.Stored? || outcome.Empty?
  }

  lemma {:induction false} AcceptedIsPast(cfg: Config, calls: seq<Call>, j: nat)
    requires Clocked(calls) && j < |calls| && Accepted(cfg, calls, j)
    ensures calls[j].now <= Run(cfg, calls).lastSnapshot
  {
    var n := |calls| - 1;
    if j < n {
      assert calls[..n][..j] == calls[..j];
      AcceptedIsPast(cfg, calls[..n], j);
    }
  }

  /** An unforced call that is not turned away comes at least the interval after every call that went through. */
  lemma SnapshotsAreSpaced(cfg: Config, calls: seq<Call>, j: nat)
    requires Clocked(calls) && j < |calls| - 1 && Accepted(cfg, calls, j)
    requires !calls[|calls| - 1].force && !Result(cfg, Run(cfg, calls[..|calls| - 1]), calls[|calls| - 1]).RateLimited?
    ensures calls[|calls| - 1].now - calls[j].now >= cfg.minInterval
  {
    var n := |calls| - 1;
    assert calls[..n][..j] == calls[..j];
    AcceptedIsPast(cfg, calls[..n], j);
  }

  /** The call that set the clock of the rate limit, or -1 while it stands at 0. */
  lemma {:induction false} LastAccepted(cfg: Config, calls: seq<Call>) returns (j: int)
    ensures -1 <= j < |calls|
    ensures j < 0 ==> Run(cfg, calls).lastSnapshot == 0
    ensures j >= 0 ==> Accepted(cfg, calls, j) && Run(cfg, calls).lastSnapshot == calls[j].now
  {
    j := -1;
    if calls != [] {
      var n := |calls| - 1;
      if Accepted(cfg, calls, n) {
        j := n;
      } else {
        j := LastAccepted(cfg, calls[..n]);
        if j >= 0 {
          assert calls[..n][..j] == calls[..j];
        }
      }
    }
  }

  /**
   Exactly when a call is turned away: it is not forced and comes within the interval after a call that went
   through, or after time 0. Failed fetches and turned-away calls do not count.
   */
  lemma TurnedAwayIff(cfg: Config, calls: seq<Call>, c: Call)
    requires Clocked(calls + [c])
    ensures Result(cfg, Run(cfg, calls), c).RateLimited? <==>
            !c.force && (|| c.now < cfg.minInterval
                         || exists j: nat :: j < |calls| && Accepted(cfg, calls, j)
                                             && c.now - calls[j].now < cfg.minInterval)
  {
    assert (calls + [c])[..|calls|] == calls;
    forall j: nat | j < |calls| && Accepted(cfg, calls, j) ensures calls[j].now <= Run(cfg, calls).lastSnapshot {
      AcceptedIsPast(cfg, calls, j);
    }
    var j := LastAccepted(cfg, calls);
    assert j >= 0 ==> (calls + [c])[j].now >= 0 by {
      if j >= 0 {
        ClockedAt(calls, j);
      }
    }
  }

  lemma {:induction false} ClockedAt(calls: seq<Call>, j: nat)
    requires Clocked(calls) && j < |calls|
    ensures calls[j].now >= 0
  {
    if j < |calls| - 1 {
      ClockedAt(calls[..|calls| - 1], j);
    }
  }

  // ---------- Queries ----------

  /** `WHERE icao24 = ? AND recorded_at >= ?`. */
  function Matching(rows: seq<Row>, icao24: string, cutoff: int): seq<Row> {
    if rows == [] then []
    else
      var before, row := Matching(rows[..|rows| - 1], icao24, cutoff), rows[|rows| - 1];
      if row.position.icao24 == icao24 && row.recordedAt >= cutoff then before + [row] else before
  }

  /** The query's rows are exactly those of the aircraft that are not older than the cutoff, in order. */
  lemma {:induction false} MatchingIs(rows: seq<Row>, icao24: string, cutoff: int) returns (at: seq<nat>)
    ensures Lists(at, set i: nat | i < |rows| && rows[i].position.icao24 == icao24 && rows[i].recordedAt >= cutoff)
    ensures |Matching(rows, icao24, cutoff)| == |at|
    ensures forall k :: 0 <= k < |at| ==> Matching(rows, icao24, cutoff)[k] == rows[at[k]]
  {
    at := [];
    if rows != [] {
      var n := |rows| - 1;
      at := MatchingIs(rows[..n], icao24, cutoff);
      var before := set i: nat | i < n && rows[..n][i].position.icao24 == icao24 && rows[..n][i].recordedAt >= cutoff;
      var after := set i: nat | i < |rows| && rows[i].position.icao24 == icao24 && rows[i].recordedAt >= cutoff;
      if n in after {
        ListsMore(at, before, n);
        assert after == before + {n};
        at := at + [n];
      } else {
        assert after == before;
      }
    }
  }

  lemma {:induction false} MatchingConcat(a: seq<Row>, b: seq<Row>, icao24: string, cutoff: int)
    ensures Matching(a + b, icao24, cutoff) == Matching(a, icao24, cutoff) + Matching(b, icao24, cutoff)
  {
    if b == [] {
      assert a + b == a;
    } else {
      MatchingConcat(a, b[..|b| - 1], icao24, cutoff);
      assert (a + b)[..|a + b| - 1] == a + b[..|b| - 1];
    }
  }

  lemma {:induction false} MatchingOld(rows: seq<Row>, icao24: string, cutoff: int)
    requires forall row :: row in rows ==> row.recordedAt < cutoff
    ensures Matching(rows, icao24, cutoff) == []
  {
    if rows != [] {
      MatchingOld(rows[..|rows| - 1], icao24, cutoff);
    }
  }

  /**
   Pruning is invisible to a query that looks back no further than the table does: when the window lies
   within the age limit of the last storing snapshot and no more rows than the cap fall into it, the
   table gives the rows the complete log would give.
   */
  lemma PruningIsInvisible(cfg: Config, calls: seq<Call>, icao24: string, cutoff: int)
    requires Clocked(calls) && cutoff >= LastStored(cfg, calls) - cfg.maxAge
    requires |Recent(Log(cfg, calls), cutoff)| <= Cap(cfg)
    ensures Matching(Run(cfg, calls).table, icao24, cutoff) == Matching(Log(cfg, calls), icao24, cutoff)
  {
    var from := TableIsLongestSuffix(cfg, calls);
    LogIsOrdered(cfg, calls, if calls == [] then 0 else calls[|calls| - 1].now);
    SuffixAnswers(cfg, Log(cfg, calls), LastStored(cfg, calls), from, icao24, cutoff);
  }

  lemma SuffixAnswers(cfg: Config, log: seq<Row>, now: int, from: nat, icao24: string, cutoff: int)
    requires LongestSuffix(cfg, log, now, from) && Ordered(log)
    requires cutoff >= now - cfg.maxAge && |Recent(log, cutoff)| <= Cap(cfg)
    ensures Matching(log[from..], icao24, cutoff) == Matching(log, icao24, cutoff)
  {
    var d := RecentIsSuffix(log, cutoff);
    OldBefore(cfg, log, now, from, cutoff, d);
    MatchingSuffix(log, from, icao24, cutoff);
  }

  lemma MatchingSuffix(log: seq<Row>, from: nat, icao24: string, cutoff: int)
    requires from <= |log| && forall row :: row in log[..from] ==> row.recordedAt < cutoff
    ensures Matching(log[from..], icao24, cutoff) == Matching(log, icao24, cutoff)
  {
    MatchingOld(log[..from], icao24, cutoff);
    MatchingConcat(log[..from], log[from..], icao24, cutoff);
    assert log == log[..from] + log[from..];
  }

  lemma OldBefore(cfg: Config, log: seq<Row>, now: int, from: nat, cutoff: int, d: nat)
    requires LongestSuffix(cfg, log, now, from) && Ordered(log) && cutoff >= now - cfg.maxAge
    requires |log| - d <= Cap(cfg) && d <= |log| && forall i :: 0 <= i < d ==> log[i].recordedAt < cutoff
    ensures forall row :: row in log[..from] ==> row.recordedAt < cutoff
  {
    forall i | 0 <= i < from ensures log[i].recordedAt < cutoff {
      assert i == from - 1 || log[i].recordedAt <= log[from - 1].recordedAt;
    }
  }
}
