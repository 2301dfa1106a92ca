/**
 The bitemporal version store (backend/bitemporal.py).

 The `entity_versions` table is a sequence of rows in insertion order. `record_version` reads the
 highest version, closes the entity's open row and commits, then inserts the new row in a second
 transaction; a database exception in either transaction is swallowed, and `Fault` says which one
 failed. Times are integers.

 The reference is the plain log of calls: replaying it must give what the time-travel queries give.
 */
module Bitemporal {
  import opened Indices
  import opened Options

  type Time = int

  datatype Facts = Facts(schema: string, caption: string, properties: string, datasets: seq<string>,
                         lat: Option<real>, lon: Option<real>, changeType: string, source: string)

  datatype Version = Version(entity: string, version: int, facts: Facts,
                             validFrom: Option<Time>, validTo: Option<Time>,
                             systemFrom: Time, systemTo: Option<Time>)

  // ---------- Queries ----------

  /** The WHERE clauses of the read queries. */
  datatype Where =
    | OfEntity(e: string)
    | SystemAt(e: string, s: Time)
    | BothAt(e: string, s: Time, v: Time)

  predicate KnownAt(r: Version, s: Time) {
    r.systemFrom <= s && (r.systemTo.None? || r.systemTo.value > s)
  }

  /** A row with only an upper bound on its validity is never valid. */
  predicate ValidAt(r: Version, v: Time) {
    || (r.validFrom.Some? && r.validFrom.value <= v && (r.validTo.None? || r.validTo.value > v))
    || (r.validFrom.None? && r.validTo.None?)
  }

  predicate Matches(w: Where, r: Version) {
    r.entity == w.e &&
    match w
    case OfEntity(_) => true
    case SystemAt(_, s) => KnownAt(r, s)
    case BothAt(_, s, v) => KnownAt(r, s) && ValidAt(r, v)
  }

  function Select(rows: seq<Version>, w: Where): seq<Version> {
    if rows == [] then []
    else
      var r := rows[|rows| - 1];
      Select(rows[..|rows| - 1], w) + if Matches(w, r) then [r] else []
  }

  function InsertDesc(sorted: seq<Version>, r: Version): seq<Version> {
    if sorted == [] || r.version >= sorted[0].version then [r] + sorted
    else [sorted[0]] + InsertDesc(sorted[1..], r)
  }

  function OrderByVersionDesc(rows: seq<Version>): seq<Version> {
    if rows == [] then []
    else InsertDesc(OrderByVersionDesc(rows[..|rows| - 1]), rows[|rows| - 1])
  }

  ghost predicate Descending(rows: seq<Version>) {
    |rows| > 1 ==> rows[0].version >= rows[1].version && Descending(rows[1..])
  }

  lemma {:induction false} InsertKeepsOrder(sorted: seq<Version>, r: Version)
    requires Descending(sorted)
    ensures Descending(InsertDesc(sorted, r))
    ensures InsertDesc(sorted, r)[0] == r || (sorted != [] && InsertDesc(sorted, r)[0] == sorted[0])
  {
    if sorted != [] && r.version < sorted[0].version {
      InsertKeepsOrder(sorted[1..], r);
      assert InsertDesc(sorted, r)[1..] == InsertDesc(sorted[1..], r);
    } else {
      assert ([r] + sorted)[1..] == sorted;
    }
  }

  lemma {:induction false} InsertKeepsRows(sorted: seq<Version>, r: Version)
    ensures multiset(InsertDesc(sorted, r)) == multiset(sorted) + multiset{r}
  {
    if sorted != [] {
      InsertKeepsRows(sorted[1..], r);
      assert sorted == [sorted[0]] + sorted[1..];
    }
  }

  lemma BagSnoc(rows: seq<Version>, n: nat)
    requires |rows| == n + 1
    ensures multiset(rows) == multiset(rows[..n]) + multiset{rows[n]}
  {
    assert rows == rows[..n] + [rows[n]];
  }

  /** A query orders its rows newest version first, and loses none. */
  lemma {:induction false} OrderedByVersion(rows: seq<Version>)
    ensures Descending(OrderByVersionDesc(rows)) && multiset(OrderByVersionDesc(rows)) == multiset(rows)
  {
    if rows != [] {
      var n := |rows| - 1;
      OrderedByVersion(rows[..n]);
      InsertKeepsOrder(OrderByVersionDesc(rows[..n]), rows[n]);
      InsertKeepsRows(OrderByVersionDesc(rows[..n]), rows[n]);
      BagSnoc(rows, n);
    }
  }

  /** SELECT ... ORDER BY version DESC LIMIT n. SQLite reads a negative limit as none. */
  function Query(rows: seq<Version>, w: Where, limit: int): seq<Version> {
    var sorted := OrderByVersionDesc(Select(rows, w));
    if limit < 0 || |sorted| <= limit then sorted else sorted[..limit]
  }

  function First(rows: seq<Version>): Option<Version> {
    if rows == [] then None else Some(rows[0])
  }

  function AsOfSystem(rows: seq<Version>, e: string, s: Time): Option<Version> {
    First(Query(rows, SystemAt(e, s), 1))
  }

  function AsOfBoth(rows: seq<Version>, e: string, s: Time, v: Time): Option<Version> {
    First(Query(rows, BothAt(e, s, v), 1))
  }

  // ---------- Updates ----------

  /** Which database call raises, if any. A failed SELECT also skips the UPDATE after it. */
  datatype Fault = NoFault | SelectFails | UpdateFails | InsertFails

  datatype Call = Call(entity: string, facts: Facts, validFrom: Option<Time>, validTo: Option<Time>,
                       now: Time, fault: Fault)

  datatype Op =
    | Record(call: Call)
    | Correct(entity: string, version: int, validFrom: Option<Time>, validTo: Option<Time>, fails: bool)

  function MaxVersion(rows: seq<Version>, e: string): Option<int> {
    if rows == [] then None
    else
      var r := rows[|rows| - 1];
      var m := MaxVersion(rows[..|rows| - 1], e);
      if r.entity != e then m
      else if m.None? || m.value < r.version then Some(r.version) else m
  }

  function Close(r: Version, e: string, now: Time): Version {
    if r.entity == e && r.systemTo.None? then r.(systemTo := Some(now)) else r
  }

  function CloseOpen(rows: seq<Version>, e: string, now: Time): seq<Version> {
    seq(|rows|, i requires 0 <= i < |rows| => Close(rows[i], e, now))
  }

  predicate HasVersion(rows: seq<Version>, e: string, version: int) {
    exists r :: r in rows && r.entity == e && r.version == version
  }

  function NewRow(c: Call, version: int): Version {
    Version(c.entity, version, c.facts, c.validFrom, c.validTo, c.now, None)
  }

  /** The version a call works out before it inserts: 1 when the read failed. */
  function NextVersion(rows: seq<Version>, c: Call): int {
    var m := MaxVersion(rows, c.entity);
    if c.fault.SelectFails? || m.None? then 1 else m.value + 1
  }

  /** One `record_version`. The UNIQUE constraint makes a second row with the same version fail. */
  function RecordRow(rows: seq<Version>, c: Call): seq<Version> {
    Insert(Closed(rows, c), c, NextVersion(rows, c))
  }

  function Closed(rows: seq<Version>, c: Call): seq<Version> {
    if c.fault.SelectFails? || c.fault.UpdateFails? then rows else CloseOpen(rows, c.entity, c.now)
  }

  function Insert(rows: seq<Version>, c: Call, version: int): seq<Version> {
    if c.fault.InsertFails? || HasVersion(rows, c.entity, version) then rows
    else rows + [NewRow(c, version)]
  }

  function Retime(r: Version, op: Op): Version
    requires op.Correct?
  {
    if !op.fails && r.entity == op.entity && r.version == op.version
    then r.(validFrom := op.validFrom, validTo := op.validTo)
    else r
  }

  function CorrectRows(rows: seq<Version>, op: Op): seq<Version>
    requires op.Correct?
  {
    seq(|rows|, i requires 0 <= i < |rows| => Retime(rows[i], op))
  }

  function Apply(rows: seq<Version>, op: Op): seq<Version> {
    match op
    case Record(c) => RecordRow(rows, c)
    case Correct(_, _, _, _, _) => CorrectRows(rows, op)
  }

  function Run(ops: seq<Op>): seq<Version> {
    if ops == [] then [] else Apply(Run(ops[..|ops| - 1]), ops[|ops| - 1])
  }

  /** The store as the source keeps it: a table updated in place. */
  class VersionStore {
    var rows: seq<Version>

    constructor ()
      ensures rows == []
    {
      rows := [];
    }

    method RecordVersion(c: Call) returns (version: int)
      modifies this
      ensures rows == Apply(old(rows), Record(c))
      ensures version == NextVersion(old(rows), c)
    {
      version := 1;
      if c.fault != SelectFails {
        var m := MaxVersion(rows, c.entity);
        if m.Some? {
          version := m.value + 1;
        }
        if c.fault != UpdateFails {
          rows := CloseOpen(rows, c.entity, c.now);
        }
      }
      if c.fault != InsertFails && !HasVersion(rows, c.entity, version) {
        rows := rows + [NewRow(c, version)];
      }
    }

    /** A database exception is swallowed and reported as "not found". */
    method CorrectValidTime(entity: string, version: int, validFrom: Option<Time>, validTo: Option<Time>, fails: bool)
      returns (found: bool)
      modifies this
      ensures rows == Apply(old(rows), Correct(entity, version, validFrom, validTo, fails))
      ensures found <==> !fails && HasVersion(old(rows), entity, version)
    {
      if fails {
        assert CorrectRows(rows, Correct(entity, version, validFrom, validTo, true)) == rows;
        return false;
      }
      found := HasVersion(rows, entity, version);
      rows := CorrectRows(rows, Correct(entity, version, validFrom, validTo, false));
    }
  }

  // ---------- The plain log ----------

  function OpEntity(op: Op): string {
    match op
    case Record(c) => c.entity
    case Correct(e, _, _, _, _) => e
  }

  function OpsOf(ops: seq<Op>, e: string): seq<Op> {
    if ops == [] then []
    else OpsOf(ops[..|ops| - 1], e) + if OpEntity(ops[|ops| - 1]) == e then [ops[|ops| - 1]] else []
  }

  /** The calls that recorded something about `e`, oldest first. */
  function Log(ops: seq<Op>, e: string): seq<Call> {
    if ops == [] then []
    else
      var op := ops[|ops| - 1];
      Log(ops[..|ops| - 1], e) + if op.Record? && op.call.entity == e then [op.call] else []
  }

  /** Replaying the log: the position of the last record no later than `t`, or -1. */
  function LastAt(log: seq<Call>, t: Time): (k: int)
    ensures -1 <= k < |log|
  {
    if log == [] then -1
    else if log[|log| - 1].now <= t then |log| - 1
    else LastAt(log[..|log| - 1], t)
  }

  ghost predicate Clocked(ops: seq<Op>) {
    forall i, j :: 0 <= i < j < |ops| && ops[i].Record? && ops[j].Record? ==> ops[i].call.now <= ops[j].call.now
  }

  /** Every record reached the table; its UPDATE may still have failed. */
  ghost predicate NothingLost(ops: seq<Op>) {
    forall op :: op in ops && op.Record? ==> op.call.fault.NoFault? || op.call.fault.UpdateFails?
  }

  ghost predicate FaultFree(ops: seq<Op>) {
    forall op :: op in ops && op.Record? ==> op.call.fault.NoFault?
  }

  // ---------- Entities are independent ----------

  lemma {:induction false} SelectCloseOpen(rows: seq<Version>, e: string, now: Time, w: string)
    ensures Select(CloseOpen(rows, e, now), OfEntity(w))
         == if e == w then CloseOpen(Select(rows, OfEntity(w)), e, now) else Select(rows, OfEntity(w))
  {
    if rows != [] {
      SelectCloseOpen(rows[..|rows| - 1], e, now, w);
      assert CloseOpen(rows, e, now)[..|rows| - 1] == CloseOpen(rows[..|rows| - 1], e, now);
    }
  }

  lemma {:induction false} SelectCorrect(rows: seq<Version>, op: Op, w: string)
    requires op.Correct?
    ensures Select(CorrectRows(rows, op), OfEntity(w))
         == if op.entity == w then CorrectRows(Select(rows, OfEntity(w)), op) else Select(rows, OfEntity(w))
  {
    if rows != [] {
      SelectCorrect(rows[..|rows| - 1], op, w);
      assert CorrectRows(rows, op)[..|rows| - 1] == CorrectRows(rows[..|rows| - 1], op);
    }
  }

  lemma {:induction false} SelectMember(rows: seq<Version>, w: Where, r: Version)
    ensures r in Select(rows, w) <==> r in rows && Matches(w, r)
  {
    if rows != [] {
      SelectMember(rows[..|rows| - 1], w, r);
      assert rows == rows[..|rows| - 1] + [rows[|rows| - 1]];
    }
  }

  lemma {:induction false} SelectMaxVersion(rows: seq<Version>, e: string)
    ensures MaxVersion(Select(rows, OfEntity(e)), e) == MaxVersion(rows, e)
  {
    if rows != [] {
      var init := Select(rows[..|rows| - 1], OfEntity(e));
      SelectMaxVersion(rows[..|rows| - 1], e);
      assert (init + [rows[|rows| - 1]])[..|init|] == init;
      assert init + [] == init;
    }
  }

  lemma SelectAppend(rows: seq<Version>, r: Version, w: Where)
    ensures Select(rows + [r], w) == Select(rows, w) + if Matches(w, r) then [r] else []
  {
    assert (rows + [r])[..|rows|] == rows;
  }

  lemma SelectInsert(rows: seq<Version>, c: Call, version: int, e: string)
    ensures Select(Insert(rows, c, version), OfEntity(e))
         == if c.entity == e then Insert(Select(rows, OfEntity(e)), c, version) else Select(rows, OfEntity(e))
  {
    SelectAppend(rows, NewRow(c, version), OfEntity(e));
    forall r ensures r in Select(rows, OfEntity(e)) <==> r in rows && r.entity == e {
      SelectMember(rows, OfEntity(e), r);
    }
    if c.entity == e {
      assert HasVersion(rows, e, version) <==> HasVersion(Select(rows, OfEntity(e)), e, version);
    }
  }

  lemma SelectClosed(rows: seq<Version>, c: Call, e: string)
    ensures Select(Closed(rows, c), OfEntity(e))
         == if c.entity == e then Closed(Select(rows, OfEntity(e)), c) else Select(rows, OfEntity(e))
  {
    SelectCloseOpen(rows, c.entity, c.now, e);
  }

  /** The table is a product of one table per entity. */
  lemma StepOfEntity(rows: seq<Version>, op: Op, e: string)
    ensures Select(Apply(rows, op), OfEntity(e))
         == if OpEntity(op) == e then Apply(Select(rows, OfEntity(e)), op) else Select(rows, OfEntity(e))
  {
    match op
    case Correct(_, _, _, _, _) =>
      SelectCorrect(rows, op, e);
    case Record(c) =>
      SelectClosed(rows, c, e);
      SelectMaxVersion(rows, c.entity);
      var version := NextVersion(rows, c);
      SelectInsert(Closed(rows, c), c, version, e);
      if c.entity == e {
        assert NextVersion(Select(rows, OfEntity(e)), c) == version;
      }
  }

  lemma {:induction false} RunOfEntity(ops: seq<Op>, e: string)
    ensures Select(Run(ops), OfEntity(e)) == Run(OpsOf(ops, e))
  {
    if ops != [] {
      RunOfEntity(ops[..|ops| - 1], e);
      StepOfEntity(Run(ops[..|ops| - 1]), ops[|ops| - 1], e);
      var rest := OpsOf(ops[..|ops| - 1], e);
      assert (rest + [ops[|ops| - 1]])[..|rest|] == rest;
      assert rest + [] == rest;
    }
  }

  lemma {:induction false} SelectTwice(rows: seq<Version>, w: Where)
    ensures Select(Select(rows, OfEntity(w.e)), w) == Select(rows, w)
  {
    if rows != [] {
      var r := rows[|rows| - 1];
      SelectTwice(rows[..|rows| - 1], w);
      SelectAppend(Select(rows[..|rows| - 1], OfEntity(w.e)), r, w);
      assert Select(rows[..|rows| - 1], OfEntity(w.e)) + [] == Select(rows[..|rows| - 1], OfEntity(w.e));
    }
  }

  // ---------- What each entity's history looks like ----------

  /** The rows of one entity: versions 1..n in insertion order. */
  ghost predicate Numbered(rows: seq<Version>, e: string) {
    forall k :: 0 <= k < |rows| ==> rows[k].entity == e && rows[k].version == k + 1
  }

  lemma {:induction false} NumberedMax(rows: seq<Version>, e: string)
    requires Numbered(rows, e)
    ensures MaxVersion(rows, e) == if rows == [] then None else Some(|rows|)
  {
    if rows != [] {
      NumberedMax(rows[..|rows| - 1], e);
    }
  }

  /** What one record does to a numbered history, fault by fault. */
  lemma NumberedRecord(rows: seq<Version>, c: Call)
    requires Numbered(rows, c.entity)
    ensures RecordRow(rows, c) ==
            match c.fault
            case NoFault => CloseOpen(rows, c.entity, c.now) + [NewRow(c, |rows| + 1)]
            case UpdateFails => rows + [NewRow(c, |rows| + 1)]
            case InsertFails => CloseOpen(rows, c.entity, c.now)
            case SelectFails => if rows == [] then [NewRow(c, 1)] else rows
  {
    NumberedMax(rows, c.entity);
    if c.fault.SelectFails? && rows != [] {
      assert rows[0] in rows;
    }
  }

  lemma NumberedKept(rows: seq<Version>, more: seq<Version>, e: string)
    requires Numbered(rows, e) && |more| == |rows|
    requires forall i :: 0 <= i < |rows| ==> more[i].entity == rows[i].entity && more[i].version == rows[i].version
    ensures Numbered(more, e)
  {}

  lemma NumberedSnoc(rows: seq<Version>, r: Version, e: string)
    requires Numbered(rows, e) && r.entity == e && r.version == |rows| + 1
    ensures Numbered(rows + [r], e)
  {}

  /** Numbering survives every fault. */
  lemma NumberedStep(rows: seq<Version>, op: Op, e: string)
    requires Numbered(rows, e) && OpEntity(op) == e
    ensures Numbered(Apply(rows, op), e)
    ensures op.Record? && (op.call.fault.NoFault? || op.call.fault.UpdateFails?) ==>
              var base := if op.call.fault.NoFault? then CloseOpen(rows, e, op.call.now) else rows;
              Apply(rows, op) == base + [NewRow(op.call, |rows| + 1)]
    ensures op.Record? && op.call.fault.InsertFails? ==> Apply(rows, op) == CloseOpen(rows, e, op.call.now)
    ensures op.Record? && op.call.fault.SelectFails? ==>
              Apply(rows, op) == if rows == [] then [NewRow(op.call, 1)] else rows
  {
    match op
    case Correct(_, _, _, _, _) => NumberedKept(rows, CorrectRows(rows, op), e);
    case Record(c) =>
      NumberedRecord(rows, c);
      NumberedKept(rows, CloseOpen(rows, e, c.now), e);
      NumberedSnoc(rows, NewRow(c, |rows| + 1), e);
      NumberedSnoc(CloseOpen(rows, e, c.now), NewRow(c, |rows| + 1), e);
  }

  /** What is known of one row at a given clock. */
  predicate Sane(r: Version, clock: Time) {
    && r.systemFrom <= clock
    && (r.systemTo.Some? ==> r.systemFrom <= r.systemTo.value <= clock)
  }

  /** System times of one entity never go back, and a row closes no later than any younger row. */
  predicate Older(a: Version, b: Version) {
    && a.systemFrom <= b.systemFrom
    && (b.systemTo.Some? ==> a.systemTo.Some? && a.systemTo.value <= b.systemTo.value)
  }

  ghost predicate Ordered(rows: seq<Version>) {
    forall j, k :: 0 <= j < k < |rows| ==> Older(rows[j], rows[k])
  }

  /** Fault or no fault, an entity's history stays numbered, ordered and within the clock. */
  ghost predicate Sound(rows: seq<Version>, e: string, clock: Time) {
    && Numbered(rows, e)
    && Ordered(rows)
    && forall k :: 0 <= k < |rows| ==> Sane(rows[k], clock)
  }

  ghost predicate CoversInner(rows: seq<Version>) {
    forall j, k :: 0 <= j < k < |rows| && k == j + 1 && rows[j].systemTo.Some? ==>
      rows[j].systemTo.value >= rows[k].systemFrom
  }

  /** Every row still covers the time up to the next row. */
  ghost predicate Covers(rows: seq<Version>) {
    && CoversInner(rows)
    && (rows != [] ==> rows[|rows| - 1].systemTo.None?)
  }

  /** The intervals tile time: each version closes exactly when the next opens, only the last is open. */
  ghost predicate Tiled(rows: seq<Version>) {
    && (forall j, k :: 0 <= j < k < |rows| && k == j + 1 ==> rows[j].systemTo == Some(rows[k].systemFrom))
    && (rows != [] ==> rows[|rows| - 1].systemTo.None?)
  }

  /** The rows carry the logged facts, call by call. */
  ghost predicate Carries(rows: seq<Version>, log: seq<Call>) {
    && |rows| == |log|
    && forall k :: 0 <= k < |rows| ==> rows[k].facts == log[k].facts && rows[k].systemFrom == log[k].now
  }

  lemma SoundClose(rows: seq<Version>, e: string, clock: Time, now: Time)
    requires Sound(rows, e, clock) && clock <= now
    ensures Sound(CloseOpen(rows, e, now), e, now)
  {
    var closed := CloseOpen(rows, e, now);
    forall j, k | 0 <= j < k < |closed| ensures Older(closed[j], closed[k]) {
      assert Older(rows[j], rows[k]) && Sane(rows[j], clock);
    }
  }

  lemma SoundAppend(rows: seq<Version>, c: Call, clock: Time)
    requires Sound(rows, c.entity, clock) && clock <= c.now
    ensures Sound(rows + [NewRow(c, |rows| + 1)], c.entity, c.now)
  {
    forall j | 0 <= j < |rows| ensures Older(rows[j], NewRow(c, |rows| + 1)) {
      assert Sane(rows[j], clock);
    }
  }

  lemma SoundRecord(rows: seq<Version>, c: Call, clock: Time)
    requires Sound(rows, c.entity, clock) && clock <= c.now
    ensures Sound(RecordRow(rows, c), c.entity, c.now)
  {
    NumberedStep(rows, Record(c), c.entity);
    match c.fault
    case NoFault =>
      SoundClose(rows, c.entity, clock, c.now);
      SoundAppend(CloseOpen(rows, c.entity, c.now), c, c.now);
    case UpdateFails =>
      SoundAppend(rows, c, clock);
    case SelectFails =>
      if rows == [] {
        SoundAppend(rows, c, clock);
      } else {
        assert forall k :: 0 <= k < |rows| ==> Sane(rows[k], c.now);
      }
    case InsertFails =>
      SoundClose(rows, c.entity, clock, c.now);
  }

  lemma SoundCorrect(rows: seq<Version>, op: Op, clock: Time, now: Time)
    requires op.Correct? && Sound(rows, op.entity, clock) && clock <= now
    ensures Sound(CorrectRows(rows, op), op.entity, now)
  {
    var fixed := CorrectRows(rows, op);
    forall j, k | 0 <= j < k < |fixed| ensures Older(fixed[j], fixed[k]) {
      assert Older(rows[j], rows[k]);
    }
  }

  lemma SoundStep(rows: seq<Version>, op: Op, e: string, clock: Time, now: Time)
    requires Sound(rows, e, clock) && OpEntity(op) == e
    requires clock <= now && (op.Record? ==> now == op.call.now)
    ensures Sound(Apply(rows, op), e, now)
  {
    match op
    case Record(c) => SoundRecord(rows, c, clock);
    case Correct(_, _, _, _, _) => SoundCorrect(rows, op, clock, now);
  }

  lemma CoversAppend(rows: seq<Version>, c: Call, e: string)
    requires CoversInner(rows)
    requires rows != [] && rows[|rows| - 1].systemTo.Some? ==> rows[|rows| - 1].systemTo.value >= c.now
    ensures Covers(rows + [NewRow(c, |rows| + 1)])
  {}

  lemma CoversStep(rows: seq<Version>, op: Op, e: string, clock: Time)
    requires Sound(rows, e, clock) && Covers(rows) && OpEntity(op) == e
    requires op.Record? ==> clock <= op.call.now && (op.call.fault.NoFault? || op.call.fault.UpdateFails?)
    ensures Covers(Apply(rows, op))
  {
    NumberedStep(rows, op, e);
    if op.Record? {
      if op.call.fault.NoFault? {
        CoversAppend(CloseOpen(rows, e, op.call.now), op.call, e);
      } else {
        CoversAppend(rows, op.call, e);
      }
    }
  }

  lemma TiledStep(rows: seq<Version>, op: Op, e: string)
    requires Numbered(rows, e) && Tiled(rows) && OpEntity(op) == e
    requires op.Record? ==> op.call.fault.NoFault?
    ensures Tiled(Apply(rows, op))
  {
    NumberedStep(rows, op, e);
  }

  lemma CarriesKept(rows: seq<Version>, more: seq<Version>, log: seq<Call>)
    requires Carries(rows, log) && |more| == |rows|
    requires forall i :: 0 <= i < |rows| ==>
               more[i].facts == rows[i].facts && more[i].systemFrom == rows[i].systemFrom
    ensures Carries(more, log)
  {}

  lemma CarriesSnoc(rows: seq<Version>, log: seq<Call>, c: Call)
    requires Carries(rows, log)
    ensures Carries(rows + [NewRow(c, |rows| + 1)], log + [c])
  {}

  lemma CarriesStep(rows: seq<Version>, op: Op, e: string, log: seq<Call>)
    requires Numbered(rows, e) && Carries(rows, log) && OpEntity(op) == e
    requires op.Record? ==> op.call.fault.NoFault? || op.call.fault.UpdateFails?
    ensures Carries(Apply(rows, op), log + if op.Record? then [op.call] else [])
  {
    match op
    case Correct(_, _, _, _, _) =>
      CarriesKept(rows, CorrectRows(rows, op), log);
      assert log + [] == log;
    case Record(c) =>
      NumberedRecord(rows, c);
      CarriesKept(rows, CloseOpen(rows, e, c.now), log);
      CarriesSnoc(CloseOpen(rows, e, c.now), log, c);
      CarriesSnoc(rows, log, c);
  }

  ghost predicate By(ops: seq<Op>, e: string, clock: Time) {
    forall op :: op in ops ==> OpEntity(op) == e && (op.Record? ==> op.call.now <= clock)
  }

  /** The time just before the last operation: its own for a record, the bound otherwise. */
  lemma Before(ops: seq<Op>, e: string, clock: Time) returns (earlier: Time)
    requires ops != [] && Clocked(ops) && By(ops, e, clock)
    ensures earlier <= clock && By(ops[..|ops| - 1], e, earlier) && Clocked(ops[..|ops| - 1])
    ensures ops[|ops| - 1].Record? ==> earlier == ops[|ops| - 1].call.now
  {
    var n := |ops| - 1;
    assert ops[n] in ops;
    earlier := if ops[n].Record? then ops[n].call.now else clock;
    forall op | op in ops[..n] ensures OpEntity(op) == e && (op.Record? ==> op.call.now <= earlier) {
      assert op in ops;
    }
  }

  /** Over every run of one entity's operations, faults included. */
  lemma {:induction false} EntityRun(ops: seq<Op>, e: string, clock: Time)
    requires Clocked(ops) && By(ops, e, clock)
    ensures Sound(Run(ops), e, clock)
  {
    if ops != [] {
      var earlier := Before(ops, e, clock);
      assert ops[|ops| - 1] in ops;
      EntityRun(ops[..|ops| - 1], e, earlier);
      SoundStep(Run(ops[..|ops| - 1]), ops[|ops| - 1], e, earlier, if ops[|ops| - 1].Record? then earlier else clock);
    }
  }

  lemma {:induction false} EntityRunKeepsLog(ops: seq<Op>, e: string, clock: Time)
    requires Clocked(ops) && By(ops, e, clock) && NothingLost(ops)
    ensures Covers(Run(ops)) && Carries(Run(ops), Log(ops, e))
  {
    if ops != [] {
      var n := |ops| - 1;
      var earlier := Before(ops, e, clock);
      assert ops[n] in ops && forall op :: op in ops[..n] ==> op in ops;
      EntityRun(ops[..n], e, earlier);
      EntityRunKeepsLog(ops[..n], e, earlier);
      CoversStep(Run(ops[..n]), ops[n], e, earlier);
      CarriesStep(Run(ops[..n]), ops[n], e, Log(ops[..n], e));
    }
  }

  lemma {:induction false} EntityRunTiles(ops: seq<Op>, e: string, clock: Time)
    requires Clocked(ops) && By(ops, e, clock) && FaultFree(ops)
    ensures Tiled(Run(ops))
  {
    if ops != [] {
      var n := |ops| - 1;
      var earlier := Before(ops, e, clock);
      assert ops[n] in ops && forall op :: op in ops[..n] ==> op in ops;
      EntityRun(ops[..n], e, earlier);
      EntityRunTiles(ops[..n], e, earlier);
      TiledStep(Run(ops[..n]), ops[n], e);
    }
  }

  // ---------- From a whole run to one entity ----------

  lemma {:induction false} OpsOfHolds(ops: seq<Op>, e: string, op: Op)
    ensures op in OpsOf(ops, e) <==> op in ops && OpEntity(op) == e
  {
    if ops != [] {
      OpsOfHolds(ops[..|ops| - 1], e, op);
      assert ops == ops[..|ops| - 1] + [ops[|ops| - 1]];
    }
  }

  lemma {:induction false} OpsOfLog(ops: seq<Op>, e: string)
    ensures Log(OpsOf(ops, e), e) == Log(ops, e)
  {
    if ops != [] {
      var mine := OpsOf(ops[..|ops| - 1], e);
      OpsOfLog(ops[..|ops| - 1], e);
      assert (mine + [ops[|ops| - 1]])[..|mine|] == mine;
      assert mine + [] == mine;
    }
  }

  lemma {:induction false} OpsOfMembers(ops: seq<Op>, e: string)
    ensures forall op :: op in OpsOf(ops, e) <==> op in ops && OpEntity(op) == e
    ensures Log(OpsOf(ops, e), e) == Log(ops, e)
  {
    OpsOfLog(ops, e);
    forall op ensures op in OpsOf(ops, e) <==> op in ops && OpEntity(op) == e {
      OpsOfHolds(ops, e, op);
    }
  }

  lemma {:induction false} OpsOfClocked(ops: seq<Op>, e: string)
    requires Clocked(ops)
    ensures Clocked(OpsOf(ops, e))
  {
    if ops != [] {
      var n := |ops| - 1;
      OpsOfClocked(ops[..n], e);
      OpsOfMembers(ops[..n], e);
      var mine := OpsOf(ops[..n], e);
      forall i | 0 <= i < |mine| && mine[i].Record? && ops[n].Record? ensures mine[i].call.now <= ops[n].call.now {
        assert mine[i] in ops[..n];
      }
    }
  }

  /** Some time not before any record. */
  lemma {:induction false} SomeClock(ops: seq<Op>, e: string) returns (clock: Time)
    requires forall op :: op in ops ==> OpEntity(op) == e
    ensures By(ops, e, clock)
  {
    if ops == [] {
      clock := 0;
    } else {
      var last := ops[|ops| - 1];
      clock := SomeClock(ops[..|ops| - 1], e);
      clock := if last.Record? && clock < last.call.now then last.call.now else clock;
      assert ops == ops[..|ops| - 1] + [last];
    }
  }

  ghost function HistoryOf(ops: seq<Op>, e: string): seq<Version> {
    Select(Run(ops), OfEntity(e))
  }

  lemma HistorySoundBy(ops: seq<Op>, e: string, clock: Time)
    requires Clocked(ops)
    requires forall op :: op in ops && op.Record? ==> op.call.now <= clock
    ensures Sound(HistoryOf(ops, e), e, clock)
  {
    OpsOfMembers(ops, e);
    OpsOfClocked(ops, e);
    RunOfEntity(ops, e);
    EntityRun(OpsOf(ops, e), e, clock);
  }

  lemma HistorySound(ops: seq<Op>, e: string) returns (clock: Time)
    requires Clocked(ops)
    ensures Sound(HistoryOf(ops, e), e, clock)
  {
    OpsOfMembers(ops, e);
    OpsOfClocked(ops, e);
    RunOfEntity(ops, e);
    clock := SomeClock(OpsOf(ops, e), e);
    EntityRun(OpsOf(ops, e), e, clock);
  }

  lemma {:induction false} HistoryNumbered(ops: seq<Op>, e: string)
    ensures Numbered(HistoryOf(ops, e), e)
  {
    if ops != [] {
      var init, op := ops[..|ops| - 1], ops[|ops| - 1];
      HistoryNumbered(init, e);
      StepOfEntity(Run(init), op, e);
      if OpEntity(op) == e {
        NumberedStep(HistoryOf(init, e), op, e);
      }
    }
  }

  lemma {:induction false} HistoryKeepsLog(ops: seq<Op>, e: string)
    requires Clocked(ops) && NothingLost(ops)
    ensures Covers(HistoryOf(ops, e)) && Carries(HistoryOf(ops, e), Log(ops, e))
  {
    OpsOfMembers(ops, e);
    OpsOfClocked(ops, e);
    RunOfEntity(ops, e);
    var clock := SomeClock(OpsOf(ops, e), e);
    EntityRunKeepsLog(OpsOf(ops, e), e, clock);
  }

  lemma HistoryTiles(ops: seq<Op>, e: string)
    requires Clocked(ops) && FaultFree(ops)
    ensures Tiled(HistoryOf(ops, e))
  {
    OpsOfMembers(ops, e);
    OpsOfClocked(ops, e);
    RunOfEntity(ops, e);
    var clock := SomeClock(OpsOf(ops, e), e);
    EntityRunTiles(OpsOf(ops, e), e, clock);
  }

  lemma TilesLog(h: seq<Version>, log: seq<Call>, e: string)
    requires Numbered(h, e) && Carries(h, log) && Tiled(h)
    ensures |h| == |log|
    ensures forall k {:trigger h[k]} :: 0 <= k < |h| ==>
              && h[k].version == k + 1
              && h[k].facts == log[k].facts
              && h[k].systemFrom == log[k].now
              && h[k].systemTo == if k + 1 < |h| then Some(log[k + 1].now) else None
  {}

  /**
   Every fault-free run under a clock that never goes back leaves, for every entity, versions 1..n
   that carry the logged facts in order, each closing exactly when the next one opens, with only
   version n open. Valid-time corrections may be mixed in anywhere.
   */
  lemma {:induction false} VersionsTileSystemTime(ops: seq<Op>, e: string)
    requires Clocked(ops) && FaultFree(ops)
    ensures var h, log := HistoryOf(ops, e), Log(ops, e);
            && |h| == |log|
            && forall k {:trigger h[k]} :: 0 <= k < |h| ==>
                 && h[k].version == k + 1
                 && h[k].facts == log[k].facts
                 && h[k].systemFrom == log[k].now
                 && h[k].systemTo == if k + 1 < |h| then Some(log[k + 1].now) else None
  {
    HistoryNumbered(ops, e);
    HistoryKeepsLog(ops, e);
    HistoryTiles(ops, e);
    TilesLog(HistoryOf(ops, e), Log(ops, e), e);
  }

  /** Whether a call's insert reaches the table, when `known` earlier ones of the entity did. */
  predicate Lands(known: nat, c: Call) {
    c.fault.NoFault? || c.fault.UpdateFails? || (c.fault.SelectFails? && known == 0)
  }

  /** The log without the records that were lost. */
  function Landed(ops: seq<Op>, e: string): seq<Call> {
    if ops == [] then []
    else
      var before, op := Landed(ops[..|ops| - 1], e), ops[|ops| - 1];
      if op.Record? && op.call.entity == e && Lands(|before|, op.call) then before + [op.call] else before
  }

  lemma LandedStep(rows: seq<Version>, op: Op, e: string, landed: seq<Call>)
    requires Numbered(rows, e) && Carries(rows, landed) && OpEntity(op) == e
    ensures Carries(Apply(rows, op), if op.Record? && Lands(|landed|, op.call) then landed + [op.call] else landed)
  {
    match op
    case Correct(_, _, _, _, _) => CarriesKept(rows, CorrectRows(rows, op), landed);
    case Record(c) =>
      NumberedRecord(rows, c);
      CarriesKept(rows, CloseOpen(rows, e, c.now), landed);
      CarriesSnoc(CloseOpen(rows, e, c.now), landed, c);
      CarriesSnoc(rows, landed, c);
  }

  /** In every run, faults included, the history is the records that were not lost. */
  lemma {:induction false} HistoryIsWhatLanded(ops: seq<Op>, e: string)
    ensures Carries(HistoryOf(ops, e), Landed(ops, e))
  {
    if ops != [] {
      var init, op := ops[..|ops| - 1], ops[|ops| - 1];
      HistoryIsWhatLanded(init, e);
      HistoryNumbered(init, e);
      StepOfEntity(Run(init), op, e);
      if OpEntity(op) == e {
        LandedStep(HistoryOf(init, e), op, e, Landed(init, e));
      }
    }
  }

  /** The validity of version k + 1 by the log: its latest correction, else what was recorded. */
  function Validity(ops: seq<Op>, e: string, k: nat): (Option<Time>, Option<Time>) {
    if ops == [] then (None, None)
    else
      var init, op := ops[..|ops| - 1], ops[|ops| - 1];
      match op
      case Record(c) =>
        if c.entity == e && |Landed(init, e)| == k && Lands(k, c) then (c.validFrom, c.validTo)
        else Validity(init, e, k)
      case Correct(entity, version, validFrom, validTo, fails) =>
        if !fails && entity == e && version == k + 1 && k < |Landed(init, e)| then (validFrom, validTo)
        else Validity(init, e, k)
  }

  lemma ValidityStep(h: seq<Version>, op: Op, e: string, k: nat)
    requires Numbered(h, e) && OpEntity(op) == e && k < |Apply(h, op)|
    ensures k < |h| || (op.Record? && k == |h| && Lands(k, op.call))
    ensures var r := Apply(h, op)[k];
            (r.validFrom, r.validTo) ==
              if op.Record? && k == |h| then (op.call.validFrom, op.call.validTo)
              else if op.Correct? && !op.fails && op.version == k + 1 then (op.validFrom, op.validTo)
              else (h[k].validFrom, h[k].validTo)
  {
    NumberedStep(h, op, e);
  }

  /** A correction reaches exactly the version it names, and lasts until that version's next correction. */
  lemma {:induction false} ValidityFollowsTheLog(ops: seq<Op>, e: string, k: nat)
    requires k < |HistoryOf(ops, e)|
    ensures (HistoryOf(ops, e)[k].validFrom, HistoryOf(ops, e)[k].validTo) == Validity(ops, e, k)
  {
    if ops != [] {
      var init, op := ops[..|ops| - 1], ops[|ops| - 1];
      HistoryNumbered(init, e);
      HistoryIsWhatLanded(init, e);
      StepOfEntity(Run(init), op, e);
      if OpEntity(op) == e {
        ValidityStep(HistoryOf(init, e), op, e, k);
      }
      if k < |HistoryOf(init, e)| {
        ValidityFollowsTheLog(init, e, k);
      }
    }
  }

  // ---------- What the queries answer ----------

  ghost predicate Ascending(rows: seq<Version>) {
    forall j, k :: 0 <= j < k < |rows| ==> rows[j].version < rows[k].version
  }

  lemma {:induction false} SelectKeepsOrder(rows: seq<Version>, w: Where)
    requires Ascending(rows)
    ensures Ascending(Select(rows, w))
  {
    if rows != [] {
      var n := |rows| - 1;
      SelectKeepsOrder(rows[..n], w);
      var s := Select(rows[..n], w);
      forall j | 0 <= j < |s| ensures s[j].version < rows[n].version {
        SelectMember(rows[..n], w, s[j]);
        assert s[j] in s;
      }
    }
  }

  lemma {:induction false} OrderAscending(rows: seq<Version>)
    requires Ascending(rows)
    ensures |OrderByVersionDesc(rows)| == |rows|
    ensures forall k :: 0 <= k < |rows| ==> OrderByVersionDesc(rows)[k] == rows[|rows| - 1 - k]
  {
    if rows != [] {
      var n := |rows| - 1;
      OrderAscending(rows[..n]);
      var sorted := OrderByVersionDesc(rows[..n]);
      assert sorted != [] ==> sorted[0] == rows[n - 1];
      assert OrderByVersionDesc(rows) == [rows[n]] + sorted;
    }
  }

  /** A query over one numbered history answers with its youngest matching row. */
  lemma {:induction false} YoungestMatch(rows: seq<Version>, w: Where, m: int)
    requires -1 <= m < |rows|
    requires m >= 0 ==> Matches(w, rows[m])
    requires forall j :: m < j < |rows| ==> !Matches(w, rows[j])
    ensures m < 0 ==> Select(rows, w) == []
    ensures m >= 0 ==> Select(rows, w) != [] && Select(rows, w)[|Select(rows, w)| - 1] == rows[m]
  {
    if rows != [] && m != |rows| - 1 {
      YoungestMatch(rows[..|rows| - 1], w, m);
    }
  }

  lemma FirstOfQuery(rows: seq<Version>, w: Where)
    requires Ascending(Select(rows, w))
    ensures var s := Select(rows, w);
            First(Query(rows, w, 1)) == if s == [] then None else Some(s[|s| - 1])
  {
    OrderAscending(Select(rows, w));
  }

  lemma QueryYoungest(rows: seq<Version>, w: Where, h: seq<Version>, m: int)
    requires h == Select(rows, OfEntity(w.e)) && Numbered(h, w.e)
    requires -1 <= m < |h| && (m >= 0 ==> Matches(w, h[m]))
    requires forall j :: m < j < |h| ==> !Matches(w, h[j])
    ensures First(Query(rows, w, 1)) == if m < 0 then None else Some(h[m])
  {
    SelectTwice(rows, w);
    YoungestMatch(h, w, m);
    SelectKeepsOrder(h, w);
    FirstOfQuery(rows, w);
  }

  /** Newest first, never more than a limit that is not negative: the last rows of the history, reversed. */
  lemma HistoryIsNewestFirst(ops: seq<Op>, e: string, limit: int)
    ensures NewestFirst(HistoryOf(ops, e), Query(Run(ops), OfEntity(e), limit), limit)
  {
    HistoryNumbered(ops, e);
    NumberedNewestFirst(Run(ops), e, limit);
  }

  lemma {:induction false} NumberedNewestFirst(rows: seq<Version>, e: string, limit: int)
    requires Numbered(Select(rows, OfEntity(e)), e)
    ensures NewestFirst(Select(rows, OfEntity(e)), Query(rows, OfEntity(e), limit), limit)
  {
    OrderAscending(Select(rows, OfEntity(e)));
  }

  ghost predicate NewestFirst(h: seq<Version>, r: seq<Version>, limit: int) {
    && |r| == (if limit < 0 || |h| <= limit then |h| else limit)
    && forall k :: 0 <= k < |r| ==> r[k] == h[|h| - 1 - k] && r[k].version == |h| - k
  }

  lemma {:induction false} LastAtIsLast(log: seq<Call>, t: Time)
    requires forall i, j :: 0 <= i < j < |log| ==> log[i].now <= log[j].now
    ensures var k := LastAt(log, t);
            && (forall i :: 0 <= i <= k ==> log[i].now <= t)
            && (forall i :: k < i < |log| ==> log[i].now > t)
  {
    if log != [] && log[|log| - 1].now > t {
      LastAtIsLast(log[..|log| - 1], t);
    }
  }

  /**
   As long as no record is lost, system-time travel equals replaying the log: the answer is the last
   record no later than `t`, ties going to the later call, and None before the first one. A failed
   close (UPDATE) does not change this; `RecordIsVisibleIff` says what a failed insert does.
   */
  lemma AsOfSystemReplaysTheLog(ops: seq<Op>, e: string, t: Time)
    requires Clocked(ops) && NothingLost(ops)
    ensures var log := Log(ops, e);
            var k := LastAt(log, t);
            var answer := AsOfSystem(Run(ops), e, t);
            && (k < 0 ==> answer == None)
            && (k >= 0 ==> && answer.Some?
                           && answer.value.entity == e
                           && answer.value.version == k + 1
                           && answer.value.facts == log[k].facts
                           && answer.value.systemFrom == log[k].now)
  {
    var _ := HistorySound(ops, e);
    HistoryKeepsLog(ops, e);
    var m := NewestOrNothing(Run(ops), e, t);
    LastAtMatches(HistoryOf(ops, e), Log(ops, e), t, m);
  }

  /** The newest row by `t` carries the last record by `t`, and still covers `t`. */
  lemma LastAtMatches(rows: seq<Version>, log: seq<Call>, t: Time, m: int)
    requires Ordered(rows) && Covers(rows) && Carries(rows, log)
    requires -1 <= m < |rows| && forall j :: m < j < |rows| ==> rows[j].systemFrom > t
    requires m >= 0 ==> rows[m].systemFrom <= t
    ensures LastAt(log, t) == m
    ensures m >= 0 ==> KnownAt(rows[m], t)
  {
    LastAtIsLast(log, t) by {
      forall i, j | 0 <= i < j < |log| ensures log[i].now <= log[j].now {
        assert Older(rows[i], rows[j]);
      }
    }
    var k := LastAt(log, t);
    assert k >= 0 ==> rows[k].systemFrom <= t;
    assert k + 1 < |rows| ==> rows[k + 1].systemFrom > t;
    assert m >= 0 ==> log[m].now <= t;
  }

  /**
   Whatever fails, a time-travel answer is never a stale one: it is either the newest row recorded
   by `t`, or nothing.
   */
  lemma {:induction false} AsOfSystemIsNeverStale(ops: seq<Op>, e: string, t: Time)
    requires Clocked(ops)
    ensures var h := HistoryOf(ops, e);
            var answer := AsOfSystem(Run(ops), e, t);
            answer.Some? ==>
              exists m :: 0 <= m < |h| && answer.value == h[m] && KnownAt(h[m], t)
                          && forall j :: m < j < |h| ==> h[j].systemFrom > t
  {
    var _ := HistorySound(ops, e);
    var _ := NewestOrNothing(Run(ops), e, t);
  }

  /** Closing is ordered too: if the newest row is closed by `t`, so is every older one. */
  lemma NewestOrNothing(rows: seq<Version>, e: string, t: Time) returns (m: int)
    requires var h := Select(rows, OfEntity(e)); Numbered(h, e) && Ordered(h)
    ensures var h := Select(rows, OfEntity(e));
            && -1 <= m < |h|
            && (forall j :: m < j < |h| ==> h[j].systemFrom > t)
            && (m >= 0 ==> h[m].systemFrom <= t)
            && AsOfSystem(rows, e, t) == if m >= 0 && KnownAt(h[m], t) then Some(h[m]) else None
  {
    var h := Select(rows, OfEntity(e));
    m := YoungestBy(h, t);
    if m >= 0 && !KnownAt(h[m], t) {
      forall j | 0 <= j < m ensures !KnownAt(h[j], t) {
        assert Older(h[j], h[m]);
      }
      QueryYoungest(rows, SystemAt(e, t), h, -1);
    } else {
      QueryYoungest(rows, SystemAt(e, t), h, m);
    }
  }

  /** No UPDATE fails. Reads and inserts may. */
  ghost predicate EveryCloseWorks(ops: seq<Op>) {
    forall op :: op in ops && op.Record? ==> !op.call.fault.UpdateFails?
  }

  /** The system-time answer, if it is valid at `v`. */
  function ValidOnly(answer: Option<Version>, v: Time): Option<Version> {
    if answer.Some? && ValidAt(answer.value, v) then answer else None
  }

  /** As long as no close fails, the two-axis query is the system-time answer, if valid, and nothing else. */
  lemma {:induction false} AsOfBothFiltersAsOfSystem(ops: seq<Op>, e: string, s: Time, v: Time)
    requires Clocked(ops) && EveryCloseWorks(ops)
    ensures AsOfBoth(Run(ops), e, s, v) == ValidOnly(AsOfSystem(Run(ops), e, s), v)
  {
    var _ := HistorySound(ops, e);
    HistoryDisjoint(ops, e);
    DisjointAnswers(Run(ops), e, s, v);
  }

  /** No two rows are known at the same time: each is closed by the time any younger one opens. */
  ghost predicate Disjoint(rows: seq<Version>) {
    forall j, k :: 0 <= j < k < |rows| ==>
      rows[j].systemTo.Some? && rows[j].systemTo.value <= rows[k].systemFrom
  }

  lemma DisjointStep(rows: seq<Version>, op: Op, e: string, clock: Time)
    requires Sound(rows, e, clock) && Disjoint(rows) && OpEntity(op) == e
    requires op.Record? ==> clock <= op.call.now && !op.call.fault.UpdateFails?
    ensures Disjoint(Apply(rows, op))
  {
    NumberedStep(rows, op, e);
    if op.Record? && op.call.fault.NoFault? {
      DisjointAppend(rows, op.call, clock);
    } else if op.Record? && op.call.fault.SelectFails? {
      assert rows == [] ==> |Apply(rows, op)| == 1;
    } else {
      DisjointSame(rows, Apply(rows, op));
    }
  }

  lemma DisjointSame(rows: seq<Version>, more: seq<Version>)
    requires Disjoint(rows) && |rows| == |more|
    requires forall i :: 0 <= i < |rows| ==>
               && more[i].systemFrom == rows[i].systemFrom
               && (rows[i].systemTo.Some? ==> more[i].systemTo == rows[i].systemTo)
    ensures Disjoint(more)
  {}

  lemma DisjointAppend(rows: seq<Version>, c: Call, clock: Time)
    requires Sound(rows, c.entity, clock) && Disjoint(rows) && clock <= c.now
    ensures Disjoint(CloseOpen(rows, c.entity, c.now) + [NewRow(c, |rows| + 1)])
  {
    forall j | 0 <= j < |rows| ensures Close(rows[j], c.entity, c.now).systemTo.Some?
                                       && Close(rows[j], c.entity, c.now).systemTo.value <= c.now {
      assert Sane(rows[j], clock);
    }
  }

  lemma {:induction false} EntityRunDisjoint(ops: seq<Op>, e: string, clock: Time)
    requires Clocked(ops) && By(ops, e, clock) && EveryCloseWorks(ops)
    ensures Disjoint(Run(ops))
  {
    if ops != [] {
      var n := |ops| - 1;
      var earlier := Before(ops, e, clock);
      assert ops[n] in ops && forall op :: op in ops[..n] ==> op in ops;
      EntityRun(ops[..n], e, earlier);
      EntityRunDisjoint(ops[..n], e, earlier);
      DisjointStep(Run(ops[..n]), ops[n], e, earlier);
    }
  }

  lemma HistoryDisjoint(ops: seq<Op>, e: string)
    requires Clocked(ops) && EveryCloseWorks(ops)
    ensures Disjoint(HistoryOf(ops, e))
  {
    OpsOfMembers(ops, e);
    OpsOfClocked(ops, e);
    RunOfEntity(ops, e);
    var clock := SomeClock(OpsOf(ops, e), e);
    EntityRunDisjoint(OpsOf(ops, e), e, clock);
  }

  /** The last row recorded by `s`. */
  lemma YoungestBy(rows: seq<Version>, s: Time) returns (k: int)
    requires Ordered(rows)
    ensures -1 <= k < |rows|
    ensures k >= 0 ==> rows[k].systemFrom <= s
    ensures forall j :: k < j < |rows| ==> rows[j].systemFrom > s
  {
    k := |rows| - 1;
    while k >= 0 && rows[k].systemFrom > s
      invariant -1 <= k < |rows|
      invariant forall j :: k < j < |rows| ==> rows[j].systemFrom > s
    {
      k := k - 1;
    }
  }

  lemma DisjointAnswers(rows: seq<Version>, e: string, s: Time, v: Time)
    requires var h := Select(rows, OfEntity(e)); Numbered(h, e) && Ordered(h) && Disjoint(h)
    ensures AsOfBoth(rows, e, s, v) == ValidOnly(AsOfSystem(rows, e, s), v)
  {
    var h := Select(rows, OfEntity(e));
    var k := YoungestBy(h, s);
    if k >= 0 && !KnownAt(h[k], s) {
      k := -1;
    }
    OthersUnknown(h, s, k);
    QueryYoungest(rows, SystemAt(e, s), h, k);
    QueryYoungest(rows, BothAt(e, s, v), h, if k >= 0 && ValidAt(h[k], v) then k else -1);
  }

  lemma OthersUnknown(h: seq<Version>, s: Time, k: int)
    requires Disjoint(h) && Ordered(h) && -1 <= k < |h|
    requires k >= 0 ==> KnownAt(h[k], s)
    requires forall j :: k < j < |h| ==> !KnownAt(h[j], s)
    ensures forall j :: 0 <= j < |h| && j != k ==> !KnownAt(h[j], s)
  {}

  // ---------- The past does not change ----------

  /** A row as a past query shows it: without the system_to that a later call may fill in, and, for a
      pure system-time query, without the validity that a later correction may replace. */
  function View(w: Where, r: Version): Version {
    if w.BothAt? then r.(systemTo := None)
    else r.(systemTo := None, validFrom := None, validTo := None)
  }

  ghost predicate SameView(w: Where, a: seq<Version>, b: seq<Version>) {
    |a| == |b| && forall i :: 0 <= i < |a| ==> View(w, a[i]) == View(w, b[i])
  }

  /** An operation that cannot reach back: its clock is later, and it leaves the queried validity alone. */
  ghost predicate After(op: Op, w: Where) {
    match op
    case Record(c) => (w.SystemAt? || w.BothAt?) && c.now > w.s
    case Correct(e, _, _, _, _) => w.SystemAt? || (w.BothAt? && e != w.e)
  }

  lemma {:induction false} SelectSameView(a: seq<Version>, b: seq<Version>, w: Where)
    requires |a| == |b|
    requires forall i :: 0 <= i < |a| ==> (Matches(w, a[i]) <==> Matches(w, b[i]))
    requires forall i :: 0 <= i < |a| && Matches(w, a[i]) ==> View(w, a[i]) == View(w, b[i])
    ensures SameView(w, Select(a, w), Select(b, w))
  {
    if a != [] {
      SelectSameView(a[..|a| - 1], b[..|b| - 1], w);
    }
  }

  lemma {:induction false} InsertSameView(w: Where, a: seq<Version>, b: seq<Version>, r: Version, q: Version)
    requires SameView(w, a, b) && View(w, r) == View(w, q)
    ensures SameView(w, InsertDesc(a, r), InsertDesc(b, q))
  {
    if a != [] {
      assert View(w, a[0]) == View(w, b[0]);
      InsertSameView(w, a[1..], b[1..], r, q);
    }
  }

  lemma {:induction false} OrderSameView(w: Where, a: seq<Version>, b: seq<Version>)
    requires SameView(w, a, b)
    ensures SameView(w, OrderByVersionDesc(a), OrderByVersionDesc(b))
  {
    if a != [] {
      var n := |a| - 1;
      OrderSameView(w, a[..n], b[..n]);
      InsertSameView(w, OrderByVersionDesc(a[..n]), OrderByVersionDesc(b[..n]), a[n], b[n]);
    }
  }

  lemma StepKeepsSelection(rows: seq<Version>, op: Op, w: Where)
    requires After(op, w)
    ensures SameView(w, Select(rows, w), Select(Apply(rows, op), w))
  {
    match op
    case Correct(_, _, _, _, _) =>
      SelectSameView(rows, CorrectRows(rows, op), w);
    case Record(c) =>
      SelectSameView(rows, Closed(rows, c), w);
      SelectAppend(Closed(rows, c), NewRow(c, NextVersion(rows, c)), w);
  }

  lemma {:induction false} RunKeepsSelection(before: seq<Op>, later: seq<Op>, w: Where)
    requires forall op :: op in later ==> After(op, w)
    ensures SameView(w, Select(Run(before), w), Select(Run(before + later), w))
  {
    if later == [] {
      assert before + later == before;
    } else {
      var n := |later| - 1;
      RunKeepsSelection(before, later[..n], w);
      assert (before + later)[..|before + later| - 1] == before + later[..n];
      StepKeepsSelection(Run(before + later[..n]), later[n], w);
    }
  }

  ghost predicate SameAnswer(w: Where, a: Option<Version>, b: Option<Version>) {
    (a.None? <==> b.None?) && (a.Some? ==> View(w, a.value) == View(w, b.value))
  }

  /**
   Past answers are immutable, faults included: once every later call's clock is past `s`, no run of
   further calls on any entities changes which version a query at `s` chooses.
   */
  lemma PastAnswersAreImmutable(before: seq<Op>, later: seq<Op>, w: Where)
    requires w.SystemAt? || w.BothAt?
    requires forall op :: op in later ==> After(op, w)
    ensures SameAnswer(w, First(Query(Run(before), w, 1)), First(Query(Run(before + later), w, 1)))
  {
    RunKeepsSelection(before, later, w);
    OrderSameView(w, Select(Run(before), w), Select(Run(before + later), w));
  }

  // ---------- What faults break ----------

  /**
   Exactly when a record becomes visible at its own instant, after any run: its insert must succeed,
   and a failed read is harmless only for an entity the store does not know yet. The close commits
   before the insert, so when only the insert fails the entity disappears from that instant on.
   */
  lemma {:induction false} RecordIsVisibleIff(ops: seq<Op>, c: Call, t: Time)
    requires Clocked(ops + [Record(c)]) && t >= c.now
    ensures var known := HistoryOf(ops, c.entity);
            var answer := AsOfSystem(Run(ops + [Record(c)]), c.entity, t);
            && (answer == Some(NewRow(c, |known| + 1)) <==>
                  c.fault.NoFault? || c.fault.UpdateFails? || (c.fault.SelectFails? && known == []))
            && (c.fault.InsertFails? ==> answer == None)
  {
    var after := ops + [Record(c)];
    assert after[..|ops|] == ops;
    HistorySoundBy(ops, c.entity, c.now) by {
      assert forall i :: 0 <= i < |ops| ==> after[i] == ops[i];
      assert after[|ops|] == Record(c);
    }
    RecordVisible(Run(ops), c, t);
  }

  lemma LostReadHides(rows: seq<Version>, c: Call, t: Time)
    requires Sound(Select(rows, OfEntity(c.entity)), c.entity, c.now)
    requires c.fault.SelectFails? && Select(rows, OfEntity(c.entity)) != []
    ensures AsOfSystem(RecordRow(rows, c), c.entity, t) != Some(NewRow(c, |Select(rows, OfEntity(c.entity))| + 1))
  {
    var known := Select(rows, OfEntity(c.entity));
    StepOfEntity(rows, Record(c), c.entity);
    NumberedStep(known, Record(c), c.entity);
    var _ := NewestOrNothing(RecordRow(rows, c), c.entity, t);
  }

  lemma RecordVisible(rows: seq<Version>, c: Call, t: Time)
    requires Sound(Select(rows, OfEntity(c.entity)), c.entity, c.now) && t >= c.now
    ensures var known := Select(rows, OfEntity(c.entity));
            var answer := AsOfSystem(RecordRow(rows, c), c.entity, t);
            && (answer == Some(NewRow(c, |known| + 1)) <==>
                  c.fault.NoFault? || c.fault.UpdateFails? || (c.fault.SelectFails? && known == []))
            && (c.fault.InsertFails? ==> answer == None)
  {
    if c.fault.InsertFails? {
      LostInsertHides(rows, c, t);
    } else if c.fault.SelectFails? && Select(rows, OfEntity(c.entity)) != [] {
      LostReadHides(rows, c, t);
    } else {
      InsertShows(rows, c, t);
    }
  }

  lemma LastShows(rows: seq<Version>, e: string, t: Time, h: seq<Version>, r: Version)
    requires h == Select(rows, OfEntity(e)) && Numbered(h, e)
    requires h != [] && h[|h| - 1] == r && KnownAt(r, t)
    ensures AsOfSystem(rows, e, t) == Some(r)
  {
    QueryYoungest(rows, SystemAt(e, t), h, |h| - 1);
  }

  lemma RecordedLast(known: seq<Version>, c: Call)
    requires Numbered(known, c.entity)
    requires c.fault.NoFault? || c.fault.UpdateFails? || (c.fault.SelectFails? && known == [])
    ensures Numbered(RecordRow(known, c), c.entity)
    ensures var h := RecordRow(known, c);
            |h| == |known| + 1 && h[|h| - 1] == NewRow(c, |known| + 1)
  {
    NumberedStep(known, Record(c), c.entity);
  }

  lemma InsertShows(rows: seq<Version>, c: Call, t: Time)
    requires Numbered(Select(rows, OfEntity(c.entity)), c.entity) && t >= c.now
    requires || c.fault.NoFault? || c.fault.UpdateFails?
             || (c.fault.SelectFails? && Select(rows, OfEntity(c.entity)) == [])
    ensures AsOfSystem(RecordRow(rows, c), c.entity, t) == Some(NewRow(c, |Select(rows, OfEntity(c.entity))| + 1))
  {
    var known := Select(rows, OfEntity(c.entity));
    StepOfEntity(rows, Record(c), c.entity);
    RecordedLast(known, c);
    LastShows(RecordRow(rows, c), c.entity, t, RecordRow(known, c), NewRow(c, |known| + 1));
  }

  lemma LostInsertHides(rows: seq<Version>, c: Call, t: Time)
    requires Sound(Select(rows, OfEntity(c.entity)), c.entity, c.now) && t >= c.now
    requires c.fault.InsertFails?
    ensures AsOfSystem(RecordRow(rows, c), c.entity, t) == None
  {
    var known := Select(rows, OfEntity(c.entity));
    StepOfEntity(rows, Record(c), c.entity);
    NumberedStep(known, Record(c), c.entity);
    var h := RecordRow(known, c);
    forall j | 0 <= j < |h| ensures !KnownAt(h[j], t) {
      assert Sane(known[j], c.now);
    }
    QueryYoungest(RecordRow(rows, c), SystemAt(c.entity, t), h, -1);
  }

  /** The youngest row that a query matches, or -1. */
  lemma YoungestMatching(h: seq<Version>, w: Where) returns (m: int)
    ensures -1 <= m < |h| && (m >= 0 ==> Matches(w, h[m]))
    ensures forall j :: m < j < |h| ==> !Matches(w, h[j])
  {
    m := |h| - 1;
    while m >= 0 && !Matches(w, h[m])
      invariant -1 <= m < |h|
      invariant forall j :: m < j < |h| ==> !Matches(w, h[j])
    {
      m := m - 1;
    }
  }

  /** After a failed close the new row shows on both axes if it is valid; if not, the second axis answers as before. */
  lemma FailedCloseAnswers(rows: seq<Version>, c: Call, s: Time, v: Time)
    requires c.fault.UpdateFails? && s >= c.now && Numbered(Select(rows, OfEntity(c.entity)), c.entity)
    ensures var added := NewRow(c, |Select(rows, OfEntity(c.entity))| + 1);
            && AsOfSystem(RecordRow(rows, c), c.entity, s) == Some(added)
            && AsOfBoth(RecordRow(rows, c), c.entity, s, v)
               == if ValidAt(added, v) then Some(added) else AsOfBoth(rows, c.entity, s, v)
  {
    InsertShows(rows, c, s);
    var h := Select(rows, OfEntity(c.entity));
    StepOfEntity(rows, Record(c), c.entity);
    NumberedStep(h, Record(c), c.entity);
    FailedCloseBoth(rows, c, BothAt(c.entity, s, v), h, h + [NewRow(c, |h| + 1)]);
  }

  lemma {:induction false} FailedCloseBoth(rows: seq<Version>, c: Call, w: Where, h: seq<Version>, all: seq<Version>)
    requires w.BothAt? && w.e == c.entity && w.s >= c.now
    requires h == Select(rows, OfEntity(c.entity)) && all == Select(RecordRow(rows, c), OfEntity(c.entity))
    requires all == h + [NewRow(c, |h| + 1)] && Numbered(h, c.entity) && Numbered(all, c.entity)
    ensures First(Query(RecordRow(rows, c), w, 1))
         == if ValidAt(NewRow(c, |h| + 1), w.v) then Some(NewRow(c, |h| + 1)) else First(Query(rows, w, 1))
  {
    if ValidAt(NewRow(c, |h| + 1), w.v) {
      QueryYoungest(RecordRow(rows, c), w, all, |h|);
    } else {
      var m := YoungestMatching(h, w);
      QueryYoungest(RecordRow(rows, c), w, all, m);
      QueryYoungest(rows, w, h, m);
    }
  }

  /**
   A failed close leaves two open rows. Right after it the two queries still agree exactly when the new
   record is valid at `v`, or the two-axis query had no answer before the call.
   */
  lemma {:induction false} FailedCloseAgreesIff(ops: seq<Op>, c: Call, s: Time, v: Time)
    requires c.fault.UpdateFails? && s >= c.now
    ensures var after := Run(ops + [Record(c)]);
            AsOfBoth(after, c.entity, s, v) == ValidOnly(AsOfSystem(after, c.entity, s), v) <==>
            ValidAt(NewRow(c, 1), v) || AsOfBoth(Run(ops), c.entity, s, v) == None
  {
    assert (ops + [Record(c)])[..|ops|] == ops;
    HistoryNumbered(ops, c.entity);
    FailedCloseAnswers(Run(ops), c, s, v);
  }

  lemma FirstRecord(c: Call, s: Time, v: Time)
    requires c.fault.NoFault? && c.validFrom.None? && c.validTo.None? && c.now <= s
    ensures Run([Record(c)]) == [NewRow(c, 1)] && Select([NewRow(c, 1)], OfEntity(c.entity)) == [NewRow(c, 1)]
    ensures AsOfBoth([NewRow(c, 1)], c.entity, s, v) == Some(NewRow(c, 1))
  {
    var one := [NewRow(c, 1)];
    assert [Record(c)][..0] == [] && one[..0] == [];
    NumberedStep([], Record(c), c.entity);
    QueryYoungest(one, BothAt(c.entity, s, v), one, 0);
  }

  lemma SecondRecord(first: Call, second: Call)
    ensures Run([Record(first), Record(second)]) == RecordRow(Run([Record(first)]), second)
  {
    assert [Record(first), Record(second)][..1] == [Record(first)];
  }

  lemma BrokenPair(first: Call, second: Call, s: Time, v: Time)
    requires first.fault.NoFault? && first.validFrom.None? && first.validTo.None? && first.now <= s
    requires second.fault.UpdateFails? && second.entity == first.entity && second.now <= s
    requires !ValidAt(NewRow(second, 2), v)
    ensures var rows := Run([Record(first), Record(second)]);
            && AsOfSystem(rows, first.entity, s) == Some(NewRow(second, 2))
            && AsOfBoth(rows, first.entity, s, v) == Some(NewRow(first, 1))
  {
    FirstRecord(first, s, v);
    SecondRecord(first, second);
    FailedCloseAnswers([NewRow(first, 1)], second, s, v);
  }

  /** Two calls that disagree: a superseded record answers on the second axis. */
  lemma FailedCloseBreaksAsOfBoth(e: string, facts: Facts)
    ensures var always := Call(e, facts, None, None, 1, NoFault);
            var later := Call(e, facts, Some(100), None, 2, UpdateFails);
            var rows := Run([Record(always), Record(later)]);
            && AsOfSystem(rows, e, 2) == Some(NewRow(later, 2)) && !ValidAt(NewRow(later, 2), 5)
            && AsOfBoth(rows, e, 2, 5) == Some(NewRow(always, 1))
  {
    var always := Call(e, facts, None, None, 1, NoFault);
    var later := Call(e, facts, Some(100), None, 2, UpdateFails);
    BrokenPair(always, later, 2, 5);
  }

  // ---------- Exactly when the two axes agree ----------

  /** At `s`, row k is the youngest row known, is not valid at `v`, and some older row is known and is. */
  ghost predicate Overtaken(h: seq<Version>, s: Time, v: Time, k: nat) {
    && k < |h| && KnownAt(h[k], s) && !ValidAt(h[k], v)
    && (forall j :: k < j < |h| ==> !KnownAt(h[j], s))
    && exists j :: 0 <= j < k && KnownAt(h[j], s) && ValidAt(h[j], v)
  }

  lemma OvertakenIff(h: seq<Version>, e: string, s: Time, v: Time, m: int, n: int)
    requires Numbered(h, e) && -1 <= m < |h| && -1 <= n < |h|
    requires m >= 0 ==> KnownAt(h[m], s)
    requires forall j :: m < j < |h| ==> !KnownAt(h[j], s)
    requires n >= 0 ==> KnownAt(h[n], s) && ValidAt(h[n], v)
    requires forall j :: n < j < |h| ==> !(KnownAt(h[j], s) && ValidAt(h[j], v))
    ensures n == (if m >= 0 && ValidAt(h[m], v) then m else -1) <==> forall k: nat :: !Overtaken(h, s, v, k)
  {
    if m >= 0 && !ValidAt(h[m], v) && n >= 0 {
      assert Overtaken(h, s, v, m);
    }
    if k: nat :| Overtaken(h, s, v, k) {
      assert k == m;
      var j :| 0 <= j < k && KnownAt(h[j], s) && ValidAt(h[j], v);
      assert n >= j;
    }
  }

  /**
   In every run, whatever fails and however the clock moves: the two-axis query is the system-time answer
   filtered by validity exactly when no older row, known and valid, is left behind the youngest row known.
   */
  lemma {:induction false} TwoAxesAgreeIff(ops: seq<Op>, e: string, s: Time, v: Time)
    ensures AsOfBoth(Run(ops), e, s, v) == ValidOnly(AsOfSystem(Run(ops), e, s), v) <==>
            forall k: nat :: !Overtaken(HistoryOf(ops, e), s, v, k)
  {
    var h := HistoryOf(ops, e);
    HistoryNumbered(ops, e);
    var m := YoungestMatching(h, SystemAt(e, s));
    var n := YoungestMatching(h, BothAt(e, s, v));
    QueryYoungest(Run(ops), SystemAt(e, s), h, m);
    QueryYoungest(Run(ops), BothAt(e, s, v), h, n);
    assert Numbered(h, e);
    OvertakenIff(h, e, s, v, m, n);
  }

  lemma SelectsBoth(x: Version, y: Version)
    requires x.entity == y.entity
    ensures Select([x, y], OfEntity(x.entity)) == [x, y]
  {
    SelectAppend([], x, OfEntity(x.entity));
    SelectAppend([x], y, OfEntity(x.entity));
    assert [] + [x] == [x] && [x] + [y] == [x, y];
  }

  lemma TwoRows(first: Call, second: Call)
    requires first.fault.NoFault? && second.fault.UpdateFails? && second.entity == first.entity
    ensures Run([Record(first), Record(second)]) == [NewRow(first, 1), NewRow(second, 2)]
  {
    SecondRecord(first, second);
    assert [Record(first)][..0] == [];
    NumberedStep([], Record(first), first.entity);
    NumberedStep([NewRow(first, 1)], Record(second), first.entity);
  }

  /** What both queries answer over two open rows, when the second is not valid. */
  lemma TwoOpenRows(x: Version, y: Version, s: Time, v: Time)
    requires x.entity == y.entity && x.version == 1 && y.version == 2
    requires KnownAt(x, s) && KnownAt(y, s) && !ValidAt(y, v)
    ensures AsOfSystem([x, y], x.entity, s) == Some(y)
    ensures AsOfBoth([x, y], x.entity, s, v) == if ValidAt(x, v) then Some(x) else None
  {
    var rows := [x, y];
    SelectsBoth(x, y);
    QueryYoungest(rows, SystemAt(x.entity, s), rows, 1);
    QueryYoungest(rows, BothAt(x.entity, s, v), rows, if ValidAt(x, v) then 0 else -1);
  }

  lemma CorrectedPair(first: Call, second: Call, fix: Op)
    requires first.fault.NoFault? && second.fault.UpdateFails? && second.entity == first.entity
    requires fix.Correct? && !fix.fails && fix.entity == first.entity && fix.version == 1
    ensures Run([Record(first), Record(second), fix])
         == [NewRow(first, 1).(validFrom := fix.validFrom, validTo := fix.validTo), NewRow(second, 2)]
  {
    TwoRows(first, second);
    assert [Record(first), Record(second), fix][..2] == [Record(first), Record(second)];
  }

  /** A failed close that did no harm at first: a later correction of the older row makes the queries disagree. */
  lemma CorrectionBreaksAsOfBoth(e: string, facts: Facts)
    ensures var first := Call(e, facts, Some(100), None, 1, NoFault);
            var second := Call(e, facts, Some(100), None, 2, UpdateFails);
            var before, fix := [Record(first), Record(second)], Correct(e, 1, None, None, false);
            && AsOfSystem(Run(before), e, 2) == Some(NewRow(second, 2)) && AsOfBoth(Run(before), e, 2, 5) == None
            && AsOfSystem(Run(before + [fix]), e, 2) == Some(NewRow(second, 2)) && !ValidAt(NewRow(second, 2), 5)
            && AsOfBoth(Run(before + [fix]), e, 2, 5) == Some(NewRow(first, 1).(validFrom := None))
  {
    var first := Call(e, facts, Some(100), None, 1, NoFault);
    var second := Call(e, facts, Some(100), None, 2, UpdateFails);
    var before, fix := [Record(first), Record(second)], Correct(e, 1, None, None, false);
    TwoRows(first, second);
    TwoOpenRows(NewRow(first, 1), NewRow(second, 2), 2, 5);
    CorrectedPair(first, second, fix);
    assert before + [fix] == [Record(first), Record(second), fix];
    TwoOpenRows(NewRow(first, 1).(validFrom := None), NewRow(second, 2), 2, 5);
  }

  // ---------- The queries in explicit times ----------

  lemma BothIsInHistory(rows: seq<Version>, e: string, s: Time, v: Time, h: seq<Version>) returns (m: int)
    requires h == Select(rows, OfEntity(e)) && Numbered(h, e)
    ensures -1 <= m < |h| && AsOfBoth(rows, e, s, v) == (if m < 0 then None else Some(h[m]))
    ensures m >= 0 ==> KnownAt(h[m], s) && ValidAt(h[m], v)
    ensures forall j :: m < j < |h| ==> !(KnownAt(h[j], s) && ValidAt(h[j], v))
  {
    m := YoungestMatching(h, BothAt(e, s, v));
    QueryYoungest(rows, BothAt(e, s, v), h, m);
  }

  lemma SystemIsInHistory(rows: seq<Version>, e: string, s: Time, h: seq<Version>) returns (m: int)
    requires h == Select(rows, OfEntity(e)) && Numbered(h, e)
    ensures -1 <= m < |h| && AsOfSystem(rows, e, s) == (if m < 0 then None else Some(h[m]))
    ensures m >= 0 ==> KnownAt(h[m], s)
    ensures forall j :: m < j < |h| ==> !KnownAt(h[j], s)
  {
    m := YoungestMatching(h, SystemAt(e, s));
    QueryYoungest(rows, SystemAt(e, s), h, m);
  }

  /**
   In every run, an answer on both axes was recorded by `s` and not closed by then, began to be valid by `v`
   and has not ended by then; a row with an end but no beginning never answers.
   */
  lemma {:induction false} BothAnswersInTime(ops: seq<Op>, e: string, s: Time, v: Time, r: Version)
    requires AsOfBoth(Run(ops), e, s, v) == Some(r)
    ensures r.entity == e && r.systemFrom <= s && (r.systemTo.Some? ==> s < r.systemTo.value)
    ensures r.validFrom.Some? ==> r.validFrom.value <= v
    ensures r.validTo.Some? ==> r.validFrom.Some? && v < r.validTo.value
  {
    HistoryNumbered(ops, e);
    var _ := BothIsInHistory(Run(ops), e, s, v, HistoryOf(ops, e));
  }

  /** Conversely, a system-time answer without bounds, or within its bounds at `v`, is the answer on both axes. */
  lemma {:induction false} InTimeAnswersBoth(ops: seq<Op>, e: string, s: Time, v: Time, r: Version)
    requires AsOfSystem(Run(ops), e, s) == Some(r)
    ensures r.entity == e && r.systemFrom <= s && (r.systemTo.Some? ==> s < r.systemTo.value)
    ensures (r.validFrom.None? && r.validTo.None?) ||
            (r.validFrom.Some? && r.validFrom.value <= v && (r.validTo.Some? ==> v < r.validTo.value)) ==>
              AsOfBoth(Run(ops), e, s, v) == Some(r)
  {
    HistoryNumbered(ops, e);
    var m := SystemIsInHistory(Run(ops), e, s, HistoryOf(ops, e));
    var n := BothIsInHistory(Run(ops), e, s, v, HistoryOf(ops, e));
  }

  /** The system-time answer of a run carries the validity that the log gives its version. */
  lemma {:induction false} AnswerHasLoggedValidity(ops: seq<Op>, e: string, s: Time, r: Version)
    requires AsOfSystem(Run(ops), e, s) == Some(r)
    ensures r.version >= 1 && (r.validFrom, r.validTo) == Validity(ops, e, r.version - 1)
  {
    HistoryNumbered(ops, e);
    var m := SystemIsInHistory(Run(ops), e, s, HistoryOf(ops, e));
    ValidityFollowsTheLog(ops, e, m);
  }

  lemma ValidOnlyInTime(answer: Option<Version>, v: Time)
    ensures ValidOnly(answer, v) ==
            if answer.None? then None
            else
              var from, to := answer.value.validFrom, answer.value.validTo;
              if (from.None? && to.None?) || (from.Some? && from.value <= v && (to.None? || v < to.value))
              then answer else None
  {}

  lemma {:induction false} FaultFreeLosesNothing(ops: seq<Op>)
    requires FaultFree(ops)
    ensures EveryCloseWorks(ops) && NothingLost(ops)
  {}

  /**
   Both axes by the log: a fault-free run answers with the last record by `s` when that record's validity, its
   latest correction or else what was recorded, holds `v`, and with nothing otherwise.
   */
  lemma {:induction false} AsOfBothReplaysTheLog(ops: seq<Op>, e: string, s: Time, v: Time)
    requires Clocked(ops) && FaultFree(ops)
    ensures var k, answer := LastAt(Log(ops, e), s), AsOfBoth(Run(ops), e, s, v);
            if k < 0 then answer == None
            else
              var (from, to) := Validity(ops, e, k);
              if (from.None? && to.None?) || (from.Some? && from.value <= v && (to.None? || v < to.value))
              then answer.Some? && answer.value.version == k + 1 && answer.value.facts == Log(ops, e)[k].facts
              else answer == None
  {
    FaultFreeLosesNothing(ops);
    AsOfBothFiltersAsOfSystem(ops, e, s, v);
    AsOfSystemReplaysTheLog(ops, e, s);
    var answer := AsOfSystem(Run(ops), e, s);
    ValidOnlyInTime(answer, v);
    if answer.Some? {
      AnswerHasLoggedValidity(ops, e, s, answer.value);
    }
  }

  // ---------- What each call does to a history ----------

  /** The log is the recorded calls of the entity, in order. */
  lemma {:induction false} LogIs(ops: seq<Op>, e: string) returns (at: seq<nat>)
    ensures Lists(at, set i: nat | i < |ops| && ops[i].Record? && ops[i].call.entity == e)
    ensures |Log(ops, e)| == |at| && forall k :: 0 <= k < |at| ==> Log(ops, e)[k] == ops[at[k]].call
  {
    at := [];
    if ops != [] {
      var n := |ops| - 1;
      at := LogIs(ops[..n], e);
      var before := set i: nat | i < n && ops[..n][i].Record? && ops[..n][i].call.entity == e;
      var after := set i: nat | i < |ops| && ops[i].Record? && ops[i].call.entity == e;
      if n in after {
        ListsMore(at, before, n);
        assert after == before + {n};
        at := at + [n];
      } else {
        assert after == before;
      }
    }
  }

  lemma RunSnoc(ops: seq<Op>, op: Op)
    ensures Run(ops + [op]) == Apply(Run(ops), op)
  {
    assert (ops + [op])[..|ops|] == ops;
  }

  /**
   A record without a fault adds one open row with what it was given, under the next number, and closes at its
   own time the rows that were open. Rows of other entities stay as they are.
   */
  lemma {:induction false} RecordAddsARow(ops: seq<Op>, c: Call, e: string)
    requires c.fault.NoFault?
    ensures var h, after := HistoryOf(ops, e), HistoryOf(ops + [Record(c)], e);
            if e != c.entity then after == h
            else
              && |after| == |h| + 1
              && after[|h|] == Version(e, |h| + 1, c.facts, c.validFrom, c.validTo, c.now, None)
              && forall k :: 0 <= k < |h| ==>
                   after[k] == if h[k].systemTo.None? then h[k].(systemTo := Some(c.now)) else h[k]
  {
    HistoryNumbered(ops, c.entity);
    RunSnoc(ops, Record(c));
    StepOfEntity(Run(ops), Record(c), e);
    if e == c.entity {
      NumberedRecord(HistoryOf(ops, e), c);
    }
  }

  /** A correction replaces both bounds of the version it names, and changes nothing else. */
  lemma {:induction false} CorrectionReplacesBounds(ops: seq<Op>, entity: string, version: int,
                                                    from: Option<Time>, to: Option<Time>, e: string)
    ensures var h, after := HistoryOf(ops, e), HistoryOf(ops + [Correct(entity, version, from, to, false)], e);
            && |after| == |h|
            && forall k :: 0 <= k < |h| ==>
                 after[k] == if e == entity && version == k + 1 then h[k].(validFrom := from, validTo := to) else h[k]
  {
    HistoryNumbered(ops, e);
    RunSnoc(ops, Correct(entity, version, from, to, false));
    StepOfEntity(Run(ops), Correct(entity, version, from, to, false), e);
  }
}
