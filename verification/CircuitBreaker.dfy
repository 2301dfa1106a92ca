/**
 The circuit breaker of the agent orchestrator (backend/agent_orchestrator.py).

 A visit is one call of an agent phase: one admission check, then a few attempts, each ending in success
 or failure (an exception or a timeout). Visits follow one another; threshold and window are fixed.
 */
module CircuitBreaker {

  /** Configuration keeps the threshold at 1 or more and the window at 10 or more. */
  datatype Config = Config(threshold: int, window: int) {
    predicate Valid() { threshold >= 1 && window >= 10 }
  }

  datatype Circuit = Circuit(failures: nat, lastFailure: int)

  datatype Attempt = Attempt(ok: bool, at: int)

  datatype Visit = Visit(name: string, checkedAt: int, attempts: seq<Attempt>)

  const FRESH := Circuit(0, 0)

  predicate Open(cfg: Config, c: Circuit, now: int) {
    c.failures >= cfg.threshold && now - c.lastFailure < cfg.window
  }

  /** The circuit after an admission check: an expired window forgets the failures. */
  function Checked(cfg: Config, c: Circuit, now: int): Circuit {
    if c.failures >= cfg.threshold && now - c.lastFailure >= cfg.window then c.(failures := 0) else c
  }

  function Note(c: Circuit, a: Attempt): Circuit {
    if a.ok then c.(failures := 0) else Circuit(c.failures + 1, a.at)
  }

  function NoteAll(c: Circuit, attempts: seq<Attempt>): Circuit {
    if attempts == [] then c else Note(NoteAll(c, attempts[..|attempts| - 1]), attempts[|attempts| - 1])
  }

  /** The attempts a visit really makes: none while the circuit is open. */
  function Made(cfg: Config, c: Circuit, v: Visit): seq<Attempt> {
    if Open(cfg, c, v.checkedAt) then [] else v.attempts
  }

  function Visited(cfg: Config, c: Circuit, v: Visit): Circuit {
    NoteAll(Checked(cfg, c, v.checkedAt), Made(cfg, c, v))
  }

  lemma NoteOne(c: Circuit, a: Attempt)
    ensures NoteAll(c, [a]) == Note(c, a)
  {
    assert [a][..0] == [];
  }

  // ---------- All circuits ----------

  type State = map<string, Circuit>

  function Lookup(s: State, name: string): Circuit {
    if name in s then s[name] else FRESH
  }

  class Breakers {
    const cfg: Config
    var circuits: State

    constructor (cfg: Config)
      ensures this.cfg == cfg && circuits == map[]
    {
      this.cfg := cfg;
      circuits := map[];
    }

    /** `setdefault`. */
    method Touch(name: string)
      modifies this
      ensures circuits == old(circuits)[name := Lookup(old(circuits), name)]
    {
      if name !in circuits {
        circuits := circuits[name := FRESH];
      }
    }

    method CircuitOpen(name: string, now: int) returns (open: bool)
      modifies this
      ensures open == Open(cfg, Lookup(old(circuits), name), now)
      ensures circuits == old(circuits)[name := Checked(cfg, Lookup(old(circuits), name), now)]
    {
      Touch(name);
      var c := circuits[name];
      if c.failures >= cfg.threshold {
        if now - c.lastFailure < cfg.window {
          return true;
        }
        circuits := circuits[name := c.(failures := 0)];
      }
      return false;
    }

    method RecordFailure(name: string, now: int)
      modifies this
      ensures circuits == old(circuits)[name := Note(Lookup(old(circuits), name), Attempt(false, now))]
    {
      Touch(name);
      circuits := circuits[name := Circuit(circuits[name].failures + 1, now)];
    }

    method RecordSuccess(name: string, now: int)
      modifies this
      ensures circuits == old(circuits)[name := Note(Lookup(old(circuits), name), Attempt(true, now))]
    {
      Touch(name);
      if circuits[name].failures > 0 {
        circuits := circuits[name := circuits[name].(failures := 0)];
      }
    }

    method RunWithTimeout(name: string, a: Attempt)
      modifies this
      ensures circuits == old(circuits)[name := Note(Lookup(old(circuits), name), a)]
    {
      if a.ok {
        RecordSuccess(name, a.at);
      } else {
        RecordFailure(name, a.at);
      }
    }

    /** A phase with a single attempt. */
    method SinglePhase(name: string, now: int, a: Attempt) returns (made: seq<Attempt>)
      modifies this
      ensures made == Made(cfg, Lookup(old(circuits), name), Visit(name, now, [a]))
      ensures circuits == old(circuits)[name := Visited(cfg, Lookup(old(circuits), name), Visit(name, now, [a]))]
    {
      var open := CircuitOpen(name, now);
      if open {
        return [];
      }
      RunWithTimeout(name, a);
      NoteOne(Checked(cfg, Lookup(old(circuits), name), now), a);
      return [a];
    }

    /** Retrieval: a second attempt when the first fails or brings too little, without a second check. */
    method RetrievalPhase(now: int, first: Attempt, enough: bool, second: Attempt) returns (made: seq<Attempt>)
      modifies this
      ensures var attempts := if first.ok && enough then [first] else [first, second];
              && made == Made(cfg, Lookup(old(circuits), "retrieval"), Visit("retrieval", now, attempts))
              && circuits == old(circuits)["retrieval" :=
                   Visited(cfg, Lookup(old(circuits), "retrieval"), Visit("retrieval", now, attempts))]
    {
      var open := CircuitOpen("retrieval", now);
      if open {
        return [];
      }
      RunWithTimeout("retrieval", first);
      NoteOne(Checked(cfg, Lookup(old(circuits), "retrieval"), now), first);
      if first.ok && enough {
        return [first];
      }
      RunWithTimeout("retrieval", second);
      assert [first, second][..1] == [first];
      assert NoteAll(Checked(cfg, Lookup(old(circuits), "retrieval"), now), [first, second]) == circuits["retrieval"];
      return [first, second];
    }
  }

  // ---------- Runs ----------

  function Run(cfg: Config, visits: seq<Visit>): State {
    if visits == [] then map[]
    else
      var s, v := Run(cfg, visits[..|visits| - 1]), visits[|visits| - 1];
      s[v.name := Visited(cfg, Lookup(s, v.name), v)]
  }

  function Of(name: string, visits: seq<Visit>): seq<Visit> {
    if visits == [] then []
    else
      var before, v := Of(name, visits[..|visits| - 1]), visits[|visits| - 1];
      if v.name == name then before + [v] else before
  }

  /** One circuit alone. */
  function RunOne(cfg: Config, visits: seq<Visit>): Circuit {
    if visits == [] then FRESH else Visited(cfg, RunOne(cfg, visits[..|visits| - 1]), visits[|visits| - 1])
  }

  /** Phases do not influence each other's circuits. */
  lemma {:induction false} CircuitsAreIndependent(cfg: Config, visits: seq<Visit>, name: string)
    ensures Lookup(Run(cfg, visits), name) == RunOne(cfg, Of(name, visits))
  {
    if visits != [] {
      var before, v := visits[..|visits| - 1], visits[|visits| - 1];
      CircuitsAreIndependent(cfg, before, name);
      if v.name == name {
        assert (Of(name, before) + [v])[..|Of(name, before)|] == Of(name, before);
      }
    }
  }

  /** Every attempt made in a run of one circuit. */
  function History(cfg: Config, visits: seq<Visit>): seq<Attempt> {
    if visits == [] then []
    else
      var before, v := visits[..|visits| - 1], visits[|visits| - 1];
      History(cfg, before) + Made(cfg, RunOne(cfg, before), v)
  }

  /** How many attempts in [start, start + window) ended this way. */
  function Count(cfg: Config, history: seq<Attempt>, ok: bool, start: int): nat {
    if history == [] then 0
    else
      var a := history[|history| - 1];
      Count(cfg, history[..|history| - 1], ok, start) +
      if a.ok == ok && start <= a.at < start + cfg.window then 1 else 0
  }

  /** The latest time in a list of attempts that begins at `t`. */
  function End(t: int, attempts: seq<Attempt>): int {
    if attempts == [] then t else attempts[|attempts| - 1].at
  }

  ghost predicate Timely(t: int, attempts: seq<Attempt>) {
    attempts != [] ==>
      var init := attempts[..|attempts| - 1];
      Timely(t, init) && End(t, init) <= attempts[|attempts| - 1].at
  }

  /** When a run of visits is over. */
  function Clock(visits: seq<Visit>): int {
    if visits == [] then 0
    else End(visits[|visits| - 1].checkedAt, visits[|visits| - 1].attempts)
  }

  /** Visits follow one another under a nondecreasing clock, each with at most m attempts. */
  ghost predicate Sequential(visits: seq<Visit>, m: nat) {
    visits != [] ==>
      var before, v := visits[..|visits| - 1], visits[|visits| - 1];
      && Sequential(before, m) && |v.attempts| <= m
      && Clock(before) <= v.checkedAt
      && Timely(v.checkedAt, v.attempts)
  }

  // ---------- The sliding window ----------

  /**
   What holds at time `now` for the window that begins at `start`, after `fails` failures in it. `b`
   bounds the failures a circuit can hold, and `sb` is b for every success in the window.
   */
  ghost predicate WindowInv(cfg: Config, c: Circuit, fails: nat, b: nat, sb: int, start: int, now: int) {
    && c.failures <= b && sb >= 0
    && (fails > 0 ==> c.lastFailure >= start && now >= start)
    && (fails <= sb + c.failures || (fails <= sb + b && now >= start + cfg.window))
  }

  lemma NoteKeeps(cfg: Config, c: Circuit, a: Attempt, fails: nat, b: nat, sb: int, start: int, now: int)
    requires cfg.Valid() && WindowInv(cfg, c, fails, b, sb, start, now) && now <= a.at
    requires !a.ok ==> c.failures < b
    ensures var inside := start <= a.at < start + cfg.window;
            WindowInv(cfg, Note(c, a), fails + (if !a.ok && inside then 1 else 0), b,
                      sb + (if a.ok && inside then b else 0), start, a.at)
  {}

  lemma CheckKeeps(cfg: Config, c: Circuit, fails: nat, b: nat, sb: int, start: int, now: int, later: int)
    requires cfg.Valid() && WindowInv(cfg, c, fails, b, sb, start, now) && now <= later
    ensures WindowInv(cfg, Checked(cfg, c, later), fails, b, sb, start, later)
  {}

  /** The invariant for a history. */
  ghost predicate HistoryInv(cfg: Config, c: Circuit, history: seq<Attempt>, b: nat, start: int, now: int) {
    WindowInv(cfg, c, Count(cfg, history, false, start), b, Count(cfg, history, true, start) * b, start, now)
  }

  lemma OneMore(cfg: Config, c: Circuit, history: seq<Attempt>, a: Attempt, b: nat, start: int, now: int)
    requires cfg.Valid() && HistoryInv(cfg, c, history, b, start, now) && now <= a.at
    requires !a.ok ==> c.failures < b
    ensures HistoryInv(cfg, Note(c, a), history + [a], b, start, a.at)
  {
    var s := Count(cfg, history, true, start);
    NoteKeeps(cfg, c, a, Count(cfg, history, false, start), b, s * b, start, now);
    assert (history + [a])[..|history|] == history;
    assert (s + 1) * b == s * b + b;
  }

  lemma {:induction false} AttemptsKeep(cfg: Config, c: Circuit, history: seq<Attempt>, attempts: seq<Attempt>,
                                        b: nat, start: int, now: int)
    requires cfg.Valid() && HistoryInv(cfg, c, history, b, start, now) && Timely(now, attempts)
    requires c.failures < cfg.threshold && cfg.threshold - 1 + |attempts| <= b
    ensures HistoryInv(cfg, NoteAll(c, attempts), history + attempts, b, start, End(now, attempts))
    ensures NoteAll(c, attempts).failures <= cfg.threshold - 1 + |attempts|
  {
    if attempts == [] {
      assert history + attempts == history;
    } else {
      var init, a := attempts[..|attempts| - 1], attempts[|attempts| - 1];
      AttemptsKeep(cfg, c, history, init, b, start, now);
      OneMore(cfg, NoteAll(c, init), history + init, a, b, start, End(now, init));
      assert history + attempts == history + init + [a];
    }
  }

  lemma {:induction false} RunKeeps(cfg: Config, visits: seq<Visit>, m: nat, start: int)
    requires cfg.Valid() && Sequential(visits, m)
    ensures HistoryInv(cfg, RunOne(cfg, visits), History(cfg, visits), cfg.threshold - 1 + m, start, Clock(visits))
  {
    if visits != [] {
      var before, v := visits[..|visits| - 1], visits[|visits| - 1];
      RunKeeps(cfg, before, m, start);
      VisitKeeps(cfg, RunOne(cfg, before), History(cfg, before), v, m, start, Clock(before));
    }
  }

  lemma VisitKeeps(cfg: Config, c: Circuit, history: seq<Attempt>, v: Visit, m: nat, start: int, now: int)
    requires cfg.Valid() && HistoryInv(cfg, c, history, cfg.threshold - 1 + m, start, now)
    requires now <= v.checkedAt && Timely(v.checkedAt, v.attempts) && |v.attempts| <= m
    ensures HistoryInv(cfg, Visited(cfg, c, v), history + Made(cfg, c, v), cfg.threshold - 1 + m, start,
                       End(v.checkedAt, v.attempts))
  {
    var b, f, s := cfg.threshold - 1 + m, Count(cfg, history, false, start), Count(cfg, history, true, start);
    CheckKeeps(cfg, c, f, b, s * b, start, now, v.checkedAt);
    EndIsLater(v.checkedAt, v.attempts);
    if Open(cfg, c, v.checkedAt) {
      assert history + [] == history;
    } else {
      AttemptsKeep(cfg, Checked(cfg, c, v.checkedAt), history, v.attempts, b, start, v.checkedAt);
    }
  }

  lemma {:induction false} EndIsLater(t: int, attempts: seq<Attempt>)
    requires Timely(t, attempts)
    ensures t <= End(t, attempts)
  {
    if attempts != [] {
      EndIsLater(t, attempts[..|attempts| - 1]);
    }
  }

  lemma {:induction false} OfIsSequential(name: string, visits: seq<Visit>, m: nat)
    requires Sequential(visits, m)
    ensures Sequential(Of(name, visits), m) && Clock(Of(name, visits)) <= Clock(visits)
  {
    if visits != [] {
      var before, v := visits[..|visits| - 1], visits[|visits| - 1];
      OfIsSequential(name, before, m);
      EndIsLater(v.checkedAt, v.attempts);
      if v.name == name {
        assert (Of(name, before) + [v])[..|Of(name, before)|] == Of(name, before);
      }
    }
  }

  /**
   In any half-open interval of one window's length, a phase whose visits make at most m attempts fails at
   most threshold + m - 1 times, and as often again for each success in the interval. So without a
   success it fails at most `threshold` times with single attempts, and `threshold + 1` times in retrieval.
   */
  lemma {:induction false} FailuresPerWindow(cfg: Config, visits: seq<Visit>, m: nat, name: string, start: int)
    requires cfg.Valid() && Sequential(visits, m)
    ensures var history, most := History(cfg, Of(name, visits)), cfg.threshold + m - 1;
            Count(cfg, history, false, start) <= Count(cfg, history, true, start) * most + most
  {
    OfIsSequential(name, visits, m);
    RunKeeps(cfg, Of(name, visits), m, start);
    assert cfg.threshold - 1 + m == cfg.threshold + m - 1;
  }

  // ---------- The bound for retrieval is reached ----------

  const TWO_FAILURES := Visit("retrieval", 1, [Attempt(false, 1), Attempt(false, 1)])
  const THIN_THEN_FAILURE := Visit("retrieval", 0, [Attempt(true, 0), Attempt(false, 1)])

  lemma CountSnoc(cfg: Config, history: seq<Attempt>, a: Attempt, ok: bool, start: int)
    ensures Count(cfg, history + [a], ok, start) ==
            Count(cfg, history, ok, start) + if a.ok == ok && start <= a.at < start + cfg.window then 1 else 0
  {
    assert (history + [a])[..|history|] == history;
  }

  /** One more visit of two attempts to a circuit that is not open. */
  lemma NoteTwo(c: Circuit, x: Attempt, y: Attempt)
    ensures NoteAll(c, [x, y]) == Note(Note(c, x), y)
  {
    NoteOne(c, x);
    assert [x, y][..1] == [x];
  }

  lemma TwoTimely(t: int, x: Attempt, y: Attempt)
    requires t <= x.at <= y.at
    ensures Timely(t, [x, y]) && End(t, [x, y]) == y.at
  {
    assert [x, y][..1] == [x] && [x][..0] == [];
    assert Timely(t, []) && Timely(t, [x]);
  }

  /** While the failures stay below the threshold, a visit is admitted and its attempts are noted. */
  lemma Admitted(cfg: Config, visits: seq<Visit>, v: Visit)
    requires RunOne(cfg, visits).failures < cfg.threshold
    ensures RunOne(cfg, visits + [v]) == NoteAll(RunOne(cfg, visits), v.attempts)
    ensures History(cfg, visits + [v]) == History(cfg, visits) + v.attempts
  {
    assert (visits + [v])[..|visits|] == visits;
  }

  lemma TwoMore(cfg: Config, visits: seq<Visit>, v: Visit, x: Attempt, y: Attempt)
    requires Sequential(visits, 2) && v.attempts == [x, y] && Clock(visits) <= v.checkedAt <= x.at <= y.at
    requires RunOne(cfg, visits).failures < cfg.threshold
    ensures Sequential(visits + [v], 2) && Clock(visits + [v]) == y.at
    ensures RunOne(cfg, visits + [v]) == Note(Note(RunOne(cfg, visits), x), y)
    ensures History(cfg, visits + [v]) == History(cfg, visits) + [x] + [y]
  {
    assert (visits + [v])[..|visits|] == visits;
    TwoTimely(v.checkedAt, x, y);
    Admitted(cfg, visits, v);
    NoteTwo(RunOne(cfg, visits), x, y);
    assert History(cfg, visits) + [x, y] == History(cfg, visits) + [x] + [y];
  }

  lemma TwoMoreCounted(cfg: Config, history: seq<Attempt>, x: Attempt, y: Attempt, ok: bool, start: int)
    ensures Count(cfg, history + [x] + [y], ok, start) ==
            Count(cfg, history, ok, start) +
            (if x.ok == ok && start <= x.at < start + cfg.window then 1 else 0) +
            (if y.ok == ok && start <= y.at < start + cfg.window then 1 else 0)
  {
    CountSnoc(cfg, history, x, ok, start);
    CountSnoc(cfg, history + [x], y, ok, start);
  }

  /** What a storm leaves behind: f failures, all in the window from 1, and no success in it. */
  ghost predicate Stormed(cfg: Config, visits: seq<Visit>, f: nat) {
    && Sequential(visits, 2) && Clock(visits) <= 1 && Of("retrieval", visits) == visits
    && RunOne(cfg, visits).failures == f
    && Count(cfg, History(cfg, visits), false, 1) == f
    && Count(cfg, History(cfg, visits), true, 1) == 0
  }

  lemma StormStart(cfg: Config)
    requires cfg.Valid()
    ensures Stormed(cfg, [THIN_THEN_FAILURE], 1)
  {
    var x, y := Attempt(true, 0), Attempt(false, 1);
    assert [] + [THIN_THEN_FAILURE] == [THIN_THEN_FAILURE];
    TwoMore(cfg, [], THIN_THEN_FAILURE, x, y);
    TwoMoreCounted(cfg, [], x, y, false, 1);
    TwoMoreCounted(cfg, [], x, y, true, 1);
    assert [THIN_THEN_FAILURE][..0] == [];
  }

  lemma StormOn(cfg: Config, visits: seq<Visit>, f: nat)
    requires cfg.Valid() && Stormed(cfg, visits, f) && f < cfg.threshold
    ensures Stormed(cfg, visits + [TWO_FAILURES], f + 2)
  {
    var x := Attempt(false, 1);
    TwoMore(cfg, visits, TWO_FAILURES, x, x);
    TwoMoreCounted(cfg, History(cfg, visits), x, x, false, 1);
    TwoMoreCounted(cfg, History(cfg, visits), x, x, true, 1);
    assert (visits + [TWO_FAILURES])[..|visits|] == visits;
  }

  /** More visits of two failures each, until there are `goal` failures. */
  lemma {:induction false} StormRuns(cfg: Config, start: seq<Visit>, f: nat, goal: nat) returns (visits: seq<Visit>)
    requires cfg.Valid() && Stormed(cfg, start, f)
    requires f <= goal <= cfg.threshold + 1 && (goal - f) % 2 == 0
    ensures Stormed(cfg, visits, goal)
    decreases goal - f
  {
    if f == goal {
      return start;
    }
    StormOn(cfg, start, f);
    visits := StormRuns(cfg, start + [TWO_FAILURES], f + 2, goal);
  }

  /** For every configuration, retrieval can record threshold + 1 failures in one window without a success in it. */
  lemma {:induction false} RetrievalExceedsThreshold(cfg: Config) returns (visits: seq<Visit>)
    requires cfg.Valid()
    ensures Sequential(visits, 2)
    ensures Count(cfg, History(cfg, Of("retrieval", visits)), false, 1) == cfg.threshold + 1
    ensures Count(cfg, History(cfg, Of("retrieval", visits)), true, 1) == 0
  {
    if cfg.threshold % 2 == 0 {
      StormStart(cfg);
      visits := StormRuns(cfg, [THIN_THEN_FAILURE], 1, cfg.threshold + 1);
    } else {
      visits := StormRuns(cfg, [], 0, cfg.threshold + 1);
    }
  }

  // ---------- An open circuit is justified ----------

  /** The failures a circuit holds are the latest attempts made. */
  ghost predicate HoldsLatest(c: Circuit, history: seq<Attempt>) {
    && c.failures <= |history|
    && (forall i :: |history| - c.failures <= i < |history| ==> !history[i].ok)
    && (c.failures > 0 ==> c.lastFailure == history[|history| - 1].at)
  }

  lemma {:induction false} AttemptsHold(c: Circuit, history: seq<Attempt>, attempts: seq<Attempt>)
    requires HoldsLatest(c, history)
    ensures HoldsLatest(NoteAll(c, attempts), history + attempts)
  {
    if attempts == [] {
      assert history + attempts == history;
    } else {
      var init := attempts[..|attempts| - 1];
      AttemptsHold(c, history, init);
      assert history + attempts == history + init + [attempts[|attempts| - 1]];
    }
  }

  lemma {:induction false} RunHolds(cfg: Config, visits: seq<Visit>)
    ensures HoldsLatest(RunOne(cfg, visits), History(cfg, visits))
  {
    if visits != [] {
      var before, v := visits[..|visits| - 1], visits[|visits| - 1];
      RunHolds(cfg, before);
      var c := RunOne(cfg, before);
      AttemptsHold(Checked(cfg, c, v.checkedAt), History(cfg, before), Made(cfg, c, v));
    }
  }

  /**
   A phase is skipped only when its latest attempts, as many as the threshold, all failed, the last within the
   window.
   */
  lemma {:induction false} OpenIsJustified(cfg: Config, visits: seq<Visit>, name: string, now: int)
    requires cfg.Valid() && Open(cfg, Lookup(Run(cfg, visits), name), now)
    ensures var history := History(cfg, Of(name, visits));
            && |history| >= cfg.threshold
            && (forall i :: |history| - cfg.threshold <= i < |history| ==> !history[i].ok)
            && now - history[|history| - 1].at < cfg.window
  {
    CircuitsAreIndependent(cfg, visits, name);
    RunHolds(cfg, Of(name, visits));
  }

  lemma {:induction false} AttemptsAdd(c: Circuit, attempts: seq<Attempt>)
    ensures NoteAll(c, attempts).failures <= c.failures + |attempts|
  {
    if attempts != [] {
      AttemptsAdd(c, attempts[..|attempts| - 1]);
    }
  }

  /**
   An expired window is forgotten: once a phase at its threshold is admitted again, only the attempts of that
   visit count, so fewer than the threshold of them do not open its circuit.
   */
  lemma {:induction false} ExpiryForgets(cfg: Config, visits: seq<Visit>, v: Visit, now: int)
    requires cfg.Valid() && RunOne(cfg, visits).failures >= cfg.threshold
    requires v.checkedAt - RunOne(cfg, visits).lastFailure >= cfg.window
    ensures var history := History(cfg, visits);
            history != [] && RunOne(cfg, visits).lastFailure == history[|history| - 1].at
    ensures History(cfg, visits + [v]) == History(cfg, visits) + v.attempts
    ensures RunOne(cfg, visits + [v]).failures <= |v.attempts|
    ensures |v.attempts| < cfg.threshold ==> !Open(cfg, RunOne(cfg, visits + [v]), now)
  {
    RunHolds(cfg, visits);
    assert (visits + [v])[..|visits|] == visits;
    AttemptsAdd(Checked(cfg, RunOne(cfg, visits), v.checkedAt), v.attempts);
  }

  // ---------- Half a breaker ----------

  /** A phase that checks its circuit and records nothing is never skipped. */
  lemma {:induction false} ChecksAloneNeverOpen(cfg: Config, visits: seq<Visit>, now: int)
    requires cfg.Valid() && forall v :: v in visits ==> v.attempts == []
    ensures RunOne(cfg, visits) == FRESH && !Open(cfg, RunOne(cfg, visits), now)
  {
    if visits != [] {
      var before, v := visits[..|visits| - 1], visits[|visits| - 1];
      assert v in visits;
      ChecksAloneNeverOpen(cfg, before, now);
    }
  }

  function Failures(n: nat): seq<Attempt> {
    if n == 0 then [] else Failures(n - 1) + [Attempt(false, 1)]
  }

  /** A phase that records without checking can fail any number of times at one instant. */
  lemma {:induction false} RecordsAloneAreUnbounded(cfg: Config, n: nat)
    requires cfg.Valid()
    ensures NoteAll(FRESH, Failures(n)).failures == n && Count(cfg, Failures(n), false, 1) == n
  {
    if n > 0 {
      RecordsAloneAreUnbounded(cfg, n - 1);
      assert Failures(n)[..|Failures(n - 1)|] == Failures(n - 1);
    }
  }
}
