/**
 Cache stampede protection (backend/cache_coalesce.py over backend/runtime_cache.py).

 A coroutine runs without interruption between two suspension points. `_inflight_lock` is never held
 across one, so taking it never suspends, and the only suspension points are the leader's wait for
 its fetcher and a waiter's wait for the leader's future. A run is a sequence of the steps between
 them, in any order, for any number of coroutines. Callers and futures are numbered in the order they
 are created. No task is cancelled.
 */
module SingleFlight {
  import opened Options

  type Key = string
  type Payload = string
  type Time = int

  datatype Outcome = Returned(payload: Payload) | Raised(error: string)

  datatype Entry = Entry(storedAt: Time, payload: Payload)

  datatype FutureState = Pending | Resolved(outcome: Outcome)

  /** Where one call of `cached_fetch_json` stands. Without coalescing a fetch has no future. */
  datatype Phase =
    | Fetching(key: Key, fut: Option<nat>)
    | Waiting(key: Key, joined: nat)
    | Done(outcome: Outcome)

  datatype State = State(
    coalesce: bool, now: Time, cache: map<Key, Entry>,
    inflight: map<Key, nat>, futures: seq<FutureState>, phases: seq<Phase>)

  datatype Step =
    | Tick(time: Time)
    | Call(key: Key, ttl: Time)
    | FetchReturn(caller: nat, outcome: Outcome)
    | Wake(caller: nat)

  predicate Fresh(s: State, key: Key, ttl: Time) {
    ttl > 0 && key in s.cache && s.now - s.cache[key].storedAt < ttl
  }

  predicate Joinable(s: State, key: Key) {
    key in s.inflight && s.inflight[key] < |s.futures| && s.futures[s.inflight[key]].Pending?
  }

  predicate Enabled(s: State, step: Step) {
    match step
    case Tick(t) => s.now <= t
    case Call(_, _) => true
    case FetchReturn(c, _) => c < |s.phases| && s.phases[c].Fetching?
    case Wake(c) =>
      && c < |s.phases| && s.phases[c].Waiting?
      && s.phases[c].joined < |s.futures| && s.futures[s.phases[c].joined].Resolved?
  }

  function Enter(s: State, key: Key, ttl: Time): State {
    if Fresh(s, key, ttl) then s.(phases := s.phases + [Done(Returned(s.cache[key].payload))])
    else if !s.coalesce then s.(phases := s.phases + [Fetching(key, None)])
    else if Joinable(s, key) then s.(phases := s.phases + [Waiting(key, s.inflight[key])])
    else
      s.(futures := s.futures + [Pending],
         inflight := s.inflight[key := |s.futures|],
         phases := s.phases + [Fetching(key, Some(|s.futures|))])
  }

  /** The cache after a fetch: only a returned payload is stored. */
  function Store(s: State, key: Key, o: Outcome): map<Key, Entry> {
    if o.Returned? then s.cache[key := Entry(s.now, o.payload)] else s.cache
  }

  function Settle(s: State, c: nat, o: Outcome): State
    requires Enabled(s, FetchReturn(c, o))
  {
    var Fetching(key, fut) := s.phases[c];
    var done := s.(cache := Store(s, key, o), phases := s.phases[c := Done(o)]);
    if fut.None? then done
    else
      done.(inflight := s.inflight - {key},
            futures := if fut.value < |s.futures| && s.futures[fut.value].Pending?
                       then s.futures[fut.value := Resolved(o)] else s.futures)
  }

  function Apply(s: State, step: Step): State
    requires Enabled(s, step)
  {
    match step
    case Tick(t) => s.(now := t)
    case Call(key, ttl) => Enter(s, key, ttl)
    case FetchReturn(c, o) => Settle(s, c, o)
    case Wake(c) => s.(phases := s.phases[c := Done(s.futures[s.phases[c].joined].outcome)])
  }

  function Init(coalesce: bool): State {
    State(coalesce, 0, map[], map[], [], [])
  }

  /** The module's globals, changed in place by one coroutine at a time. */
  class Coalescer {
    const coalesce: bool
    var now: Time
    var store: map<Key, Entry>
    var inflight: map<Key, nat>
    var futures: seq<FutureState>
    var phases: seq<Phase>

    ghost function View(): State
      reads this
    {
      State(coalesce, now, store, inflight, futures, phases)
    }

    constructor (coalesce: bool)
      ensures View() == Init(coalesce)
    {
      this.coalesce := coalesce;
      now, store, inflight, futures, phases := 0, map[], map[], [], [];
    }

    method CacheGet(key: Key, ttl: Time) returns (hit: Option<Payload>)
      ensures hit.Some? ==> key in store && hit.value == store[key].payload && now < store[key].storedAt + ttl
      ensures hit.None? ==> key !in store || store[key].storedAt + ttl <= now
    {
      hit := if key in store && now - store[key].storedAt < ttl then Some(store[key].payload) else None;
    }

    /** `cached_fetch_json` up to its first suspension point. */
    method CachedFetchJson(key: Key, ttl: Time) returns (caller: nat)
      modifies this
      ensures View() == Apply(old(View()), Call(key, ttl))
      ensures caller == |old(phases)|
    {
      caller := |phases|;
      if ttl > 0 {
        var cached := CacheGet(key, ttl);
        if cached.Some? {
          phases := phases + [Done(Returned(cached.value))];
          return;
        }
      }
      if !coalesce {
        phases := phases + [Fetching(key, None)];
        return;
      }
      if key in inflight && inflight[key] < |futures| && futures[inflight[key]].Pending? {
        phases := phases + [Waiting(key, inflight[key])];
      } else {
        inflight := inflight[key := |futures|];
        phases := phases + [Fetching(key, Some(|futures|))];
        futures := futures + [Pending];
      }
    }

    /** The fetcher of `caller` returned or raised: cache, resolve the future, leave `_inflight`. */
    method FetchReturned(caller: nat, outcome: Outcome)
      requires Enabled(View(), FetchReturn(caller, outcome))
      modifies this
      ensures View() == Apply(old(View()), FetchReturn(caller, outcome))
    {
      var key, fut := phases[caller].key, phases[caller].fut;
      if outcome.Returned? {
        store := store[key := Entry(now, outcome.payload)];
      }
      if fut.Some? {
        if fut.value < |futures| && futures[fut.value].Pending? {
          futures := futures[fut.value := Resolved(outcome)];
        }
        inflight := inflight - {key};
      }
      phases := phases[caller := Done(outcome)];
    }

    method Resume(caller: nat)
      requires Enabled(View(), Wake(caller))
      modifies this
      ensures View() == Apply(old(View()), Wake(caller))
    {
      phases := phases[caller := Done(futures[phases[caller].joined].outcome)];
    }
  }

  // ---------- What every step keeps ----------

  predicate Leads(s: State, c: nat, key: Key, f: nat) {
    c < |s.phases| && s.phases[c] == Fetching(key, Some(f))
  }

  predicate IsFetching(s: State, l: nat, key: Key) {
    l < |s.phases| && s.phases[l].Fetching? && s.phases[l].key == key
  }

  /** The registered future of a key is the unresolved future of the one coroutine fetching it. */
  ghost predicate Registered(s: State) {
    forall key :: key in s.inflight ==> Joinable(s, key) && exists c: nat :: Leads(s, c, key, s.inflight[key])
  }

  ghost predicate LeadersRegistered(s: State) {
    forall c: nat, key, f: nat :: Leads(s, c, key, f) ==> key in s.inflight && s.inflight[key] == f
  }

  ghost predicate OneLeader(s: State) {
    && (forall c: nat, d: nat, key, f: nat, g: nat :: Leads(s, c, key, f) && Leads(s, d, key, g) ==> c == d)
    && (forall c: nat, d: nat, key, other, f: nat :: Leads(s, c, key, f) && Leads(s, d, other, f) ==> c == d)
  }

  ghost predicate WaitersServed(s: State) {
    forall c :: 0 <= c < |s.phases| && s.phases[c].Waiting? ==>
      var Waiting(key, f) := s.phases[c];
      f < |s.futures| && (s.futures[f].Pending? ==> key in s.inflight && s.inflight[key] == f)
  }

  ghost predicate Mode(s: State) {
    && (s.coalesce ==> forall c :: 0 <= c < |s.phases| && s.phases[c].Fetching? ==> s.phases[c].fut.Some?)
    && (!s.coalesce ==> forall c :: 0 <= c < |s.phases| ==>
          !s.phases[c].Waiting? && (s.phases[c].Fetching? ==> s.phases[c].fut.None?))
  }

  ghost predicate Inv(s: State) {
    Registered(s) && LeadersRegistered(s) && OneLeader(s) && WaitersServed(s) && Mode(s)
  }

  /** A new call that is served from the cache, bypasses, or joins: nobody's leadership changes. */
  lemma KeepAppend(s: State, t: State, p: Phase)
    requires Inv(s) && t == s.(phases := s.phases + [p])
    requires p.Fetching? ==> p.fut.None? && !s.coalesce
    requires p.Waiting? ==> s.coalesce && Joinable(s, p.key) && p.joined == s.inflight[p.key]
    ensures Inv(t)
  {
    forall key | key in t.inflight ensures exists c: nat :: Leads(t, c, key, t.inflight[key]) {
      var c: nat :| Leads(s, c, key, s.inflight[key]);
      assert Leads(t, c, key, t.inflight[key]);
    }
    assert forall c, key, f :: Leads(t, c, key, f) ==> Leads(s, c, key, f);
  }

  /** The state with a new leader for a key that nobody is registered for. */
  predicate Led(s: State, t: State, key: Key) {
    t == s.(futures := s.futures + [Pending], inflight := s.inflight[key := |s.futures|],
            phases := s.phases + [Fetching(key, Some(|s.futures|))])
  }

  lemma LeadsLater(s: State, t: State, key: Key, c: nat, k: Key, f: nat)
    requires Led(s, t, key)
    ensures Leads(t, c, k, f) <==> Leads(s, c, k, f) || (c == |s.phases| && k == key && f == |s.futures|)
  {}

  lemma LeadsInside(s: State, c: nat, k: Key, f: nat)
    requires Inv(s) && Leads(s, c, k, f)
    ensures f < |s.futures| && k in s.inflight && s.inflight[k] == f
  {
    assert Joinable(s, k);
  }

  lemma LedRegistered(s: State, t: State, key: Key)
    requires Inv(s) && Led(s, t, key) && key !in s.inflight
    ensures Registered(t)
  {
    forall k | k in t.inflight ensures Joinable(t, k) && exists c: nat :: Leads(t, c, k, t.inflight[k]) {
      if k == key {
        assert Leads(t, |s.phases|, key, |s.futures|);
      } else {
        assert Joinable(s, k);
        var c: nat :| Leads(s, c, k, s.inflight[k]);
        assert Leads(t, c, k, t.inflight[k]);
      }
    }
  }

  lemma LedOnce(s: State, t: State, key: Key)
    requires Inv(s) && Led(s, t, key) && key !in s.inflight
    ensures LeadersRegistered(t) && OneLeader(t)
  {
    forall c: nat, k, f: nat | Leads(t, c, k, f)
      ensures k in t.inflight && t.inflight[k] == f && (f == |s.futures| <==> c == |s.phases|)
      ensures c != |s.phases| ==> Leads(s, c, k, f)
    {
      LeadsLater(s, t, key, c, k, f);
      if Leads(s, c, k, f) {
        LeadsInside(s, c, k, f);
      }
    }
  }

  lemma LedServes(s: State, t: State, key: Key)
    requires Inv(s) && s.coalesce && Led(s, t, key) && key !in s.inflight
    ensures WaitersServed(t) && Mode(t)
  {}

  lemma KeepLeader(s: State, key: Key, ttl: Time)
    requires Inv(s) && s.coalesce && !Fresh(s, key, ttl) && !Joinable(s, key)
    ensures Inv(Enter(s, key, ttl))
  {
    var t := Enter(s, key, ttl);
    LedRegistered(s, t, key);
    LedOnce(s, t, key);
    LedServes(s, t, key);
  }

  /** What the end of a leader leaves of the others' registrations. */
  lemma SettleRegistered(s: State, c: nat, o: Outcome, k: Key)
    requires Inv(s) && Enabled(s, FetchReturn(c, o)) && k in Settle(s, c, o).inflight
    ensures var t := Settle(s, c, o); Joinable(t, k) && exists d: nat :: Leads(t, d, k, t.inflight[k])
  {
    var t, fut := Settle(s, c, o), s.phases[c].fut;
    assert Joinable(s, k);
    var d: nat :| Leads(s, d, k, s.inflight[k]);
    if fut.Some? {
      assert Leads(s, c, s.phases[c].key, fut.value);
      assert d != c && s.inflight[k] != fut.value;
    }
    assert Leads(t, d, k, t.inflight[k]);
  }

  lemma SettleLeads(s: State, c: nat, o: Outcome, d: nat, k: Key, f: nat)
    requires Inv(s) && Enabled(s, FetchReturn(c, o)) && Leads(Settle(s, c, o), d, k, f)
    ensures Leads(s, d, k, f) && d != c
    ensures var t := Settle(s, c, o); k in t.inflight && t.inflight[k] == f
  {
    var fut := s.phases[c].fut;
    assert Leads(s, d, k, f);
    if fut.Some? {
      assert Leads(s, c, s.phases[c].key, fut.value);
    }
  }

  lemma KeepSettle(s: State, c: nat, o: Outcome)
    requires Inv(s) && Enabled(s, FetchReturn(c, o))
    ensures Inv(Settle(s, c, o))
  {
    var t := Settle(s, c, o);
    forall k | k in t.inflight ensures Joinable(t, k) && exists d: nat :: Leads(t, d, k, t.inflight[k]) {
      SettleRegistered(s, c, o, k);
    }
    forall d: nat, k, f: nat | Leads(t, d, k, f) ensures Leads(s, d, k, f) && k in t.inflight && t.inflight[k] == f {
      SettleLeads(s, c, o, d, k, f);
    }
    SettleServes(s, c, o);
  }

  lemma SettleServes(s: State, c: nat, o: Outcome)
    requires Inv(s) && Enabled(s, FetchReturn(c, o))
    ensures WaitersServed(Settle(s, c, o)) && Mode(Settle(s, c, o))
  {
    if s.phases[c].fut.Some? {
      assert Leads(s, c, s.phases[c].key, s.phases[c].fut.value);
    }
  }

  lemma KeepWake(s: State, c: nat)
    requires Inv(s) && Enabled(s, Wake(c))
    ensures Inv(Apply(s, Wake(c)))
  {
    var t := Apply(s, Wake(c));
    assert forall d, k, f :: Leads(t, d, k, f) <==> Leads(s, d, k, f);
    forall k | k in t.inflight ensures Joinable(t, k) && exists d: nat :: Leads(t, d, k, t.inflight[k]) {
      assert Joinable(s, k);
      var d: nat :| Leads(s, d, k, s.inflight[k]);
      assert Leads(t, d, k, t.inflight[k]);
    }
  }

  lemma KeepTick(s: State, time: Time)
    requires Inv(s)
    ensures Inv(s.(now := time))
  {
    var t := s.(now := time);
    assert forall d, k, f :: Leads(t, d, k, f) <==> Leads(s, d, k, f);
    forall k | k in t.inflight ensures Joinable(t, k) && exists d: nat :: Leads(t, d, k, t.inflight[k]) {
      assert Joinable(s, k);
      var d: nat :| Leads(s, d, k, s.inflight[k]);
      assert Leads(t, d, k, t.inflight[k]);
    }
  }

  lemma Keep(s: State, step: Step)
    requires Inv(s) && Enabled(s, step)
    ensures Inv(Apply(s, step))
  {
    match step
    case Tick(t) => KeepTick(s, t);
    case FetchReturn(c, o) => KeepSettle(s, c, o);
    case Wake(c) => KeepWake(s, c);
    case Call(key, ttl) =>
      if !Fresh(s, key, ttl) && s.coalesce && !Joinable(s, key) {
        KeepLeader(s, key, ttl);
      } else {
        KeepAppend(s, Enter(s, key, ttl), Enter(s, key, ttl).phases[|s.phases|]);
      }
  }

  // ---------- Runs ----------

  ghost predicate Valid(coalesce: bool, steps: seq<Step>)
    decreases |steps|, 0
  {
    steps == [] ||
    (Valid(coalesce, steps[..|steps| - 1]) && Enabled(Run(coalesce, steps[..|steps| - 1]), steps[|steps| - 1]))
  }

  ghost function Run(coalesce: bool, steps: seq<Step>): State
    requires Valid(coalesce, steps)
    decreases |steps|, 1
  {
    if steps == [] then Init(coalesce)
    else Apply(Run(coalesce, steps[..|steps| - 1]), steps[|steps| - 1])
  }

  lemma {:induction false} RunInv(coalesce: bool, steps: seq<Step>)
    requires Valid(coalesce, steps)
    ensures Inv(Run(coalesce, steps)) && Run(coalesce, steps).coalesce == coalesce
  {
    if steps != [] {
      RunInv(coalesce, steps[..|steps| - 1]);
      Keep(Run(coalesce, steps[..|steps| - 1]), steps[|steps| - 1]);
    }
  }

  lemma {:induction false} ValidPrefix(coalesce: bool, steps: seq<Step>, k: nat)
    requires Valid(coalesce, steps) && k <= |steps|
    ensures Valid(coalesce, steps[..k])
  {
    if k == |steps| {
      assert steps[..k] == steps;
    } else {
      ValidPrefix(coalesce, steps[..|steps| - 1], k);
      assert steps[..|steps| - 1][..k] == steps[..k];
    }
  }

  /** The last step of a run. */
  lemma RunStep(coalesce: bool, steps: seq<Step>)
    requires Valid(coalesce, steps) && steps != []
    ensures var n := |steps| - 1;
            && Valid(coalesce, steps[..n]) && Inv(Run(coalesce, steps[..n]))
            && Enabled(Run(coalesce, steps[..n]), steps[n])
            && Run(coalesce, steps) == Apply(Run(coalesce, steps[..n]), steps[n])
  {
    RunInv(coalesce, steps[..|steps| - 1]);
  }

  /**
   In every interleaving with coalescing on, at most one coroutine per key is inside the fetcher, and
   a key is registered exactly while there is one, with that coroutine's own unresolved future.
   */
  lemma AtMostOneFetcherPerKey(steps: seq<Step>, key: Key)
    requires Valid(true, steps)
    ensures var s := Run(true, steps);
            && (forall c: nat, d: nat :: IsFetching(s, c, key) && IsFetching(s, d, key) ==> c == d)
            && (key in s.inflight <==> exists c: nat :: IsFetching(s, c, key))
            && (key in s.inflight ==> s.inflight[key] < |s.futures| && s.futures[s.inflight[key]] == Pending)
            && (forall c: nat :: IsFetching(s, c, key) ==>
                  key in s.inflight && s.phases[c].fut == Some(s.inflight[key]))
  {
    RunInv(true, steps);
    var s := Run(true, steps);
    forall c: nat | IsFetching(s, c, key)
      ensures s.phases[c].fut.Some? && Leads(s, c, key, s.phases[c].fut.value)
    {
      assert s.phases[c].fut.Some?;
    }
    if key in s.inflight {
      assert Joinable(s, key);
      var c: nat :| Leads(s, c, key, s.inflight[key]);
      assert IsFetching(s, c, key);
    }
  }

  /** A leader that finishes takes out its own registration and nobody else's. */
  lemma {:induction false} LeaderRemovesOnlyItsOwn(steps: seq<Step>, c: nat, o: Outcome)
    requires Valid(true, steps) && Enabled(Run(true, steps), FetchReturn(c, o))
    ensures var s := Run(true, steps);
            var t := Apply(s, FetchReturn(c, o));
            var key := s.phases[c].key;
            && key in s.inflight && s.phases[c].fut == Some(s.inflight[key])
            && t.inflight.Keys == s.inflight.Keys - {key}
            && (forall k :: k in t.inflight ==> t.inflight[k] == s.inflight[k])
            && (forall f :: 0 <= f < |s.futures| && f != s.inflight[key] ==> t.futures[f] == s.futures[f])
            && s.inflight[key] < |t.futures| && t.futures[s.inflight[key]] == Resolved(o)
  {
    AtMostOneFetcherPerKey(steps, Run(true, steps).phases[c].key);
  }

  /** Nobody is left blocked: once no fetcher is running, every waiter can resume. */
  lemma NoWaiterIsLost(coalesce: bool, steps: seq<Step>, c: nat)
    requires Valid(coalesce, steps)
    requires forall d: nat, key :: !IsFetching(Run(coalesce, steps), d, key)
    requires c < |Run(coalesce, steps).phases|
    ensures Run(coalesce, steps).phases[c].Done? || Enabled(Run(coalesce, steps), Wake(c))
  {
    RunInv(coalesce, steps);
    var s := Run(coalesce, steps);
    forall key ensures key !in s.inflight {
      if key in s.inflight {
        var d: nat :| Leads(s, d, key, s.inflight[key]);
        assert IsFetching(s, d, key);
      }
    }
    assert s.phases[c].Fetching? ==> IsFetching(s, c, s.phases[c].key);
  }

  // ---------- Where results come from ----------

  ghost function At(coalesce: bool, steps: seq<Step>, k: nat): State
    requires Valid(coalesce, steps) && k <= |steps|
  {
    ValidPrefix(coalesce, steps, k);
    Run(coalesce, steps[..k])
  }

  /** Coroutine `l` is inside the fetcher for `key` in every state from `i` up to `j`. */
  ghost predicate FetchingDuring(coalesce: bool, steps: seq<Step>, l: nat, key: Key, i: nat, j: nat)
    requires Valid(coalesce, steps) && j <= |steps|
  {
    forall m :: i <= m <= j ==> IsFetching(At(coalesce, steps, m), l, key)
  }

  /** Step `i` is the call that became coroutine `c`. */
  ghost predicate Began(coalesce: bool, steps: seq<Step>, c: nat, i: nat)
    requires Valid(coalesce, steps)
  {
    i < |steps| && steps[i].Call? && |At(coalesce, steps, i).phases| == c
  }

  ghost predicate CacheHit(coalesce: bool, steps: seq<Step>, i: nat, o: Outcome)
    requires Valid(coalesce, steps) && i < |steps| && steps[i].Call?
  {
    var s := At(coalesce, steps, i);
    Fresh(s, steps[i].key, steps[i].ttl) && o == Returned(s.cache[steps[i].key].payload)
  }

  /** Fetcher `l` for the called key ended with `o` at step `j`, and had been running ever since call `i`. */
  ghost predicate Fetched(coalesce: bool, steps: seq<Step>, i: nat, l: nat, j: nat, o: Outcome)
    requires Valid(coalesce, steps) && i < |steps| && steps[i].Call?
  {
    i < j < |steps| && steps[j] == FetchReturn(l, o) && FetchingDuring(coalesce, steps, l, steps[i].key, i + 1, j)
  }

  /** What is on record about coroutine `c` of `s`, called at step `i`, whose result comes or will come from `l`. */
  ghost predicate TracedIn(s: State, coalesce: bool, steps: seq<Step>, c: nat, i: nat, l: nat, j: nat)
    requires Valid(coalesce, steps)
  {
    && c < |s.phases|
    && Began(coalesce, steps, c, i)
    && match s.phases[c]
       case Fetching(key, _) => key == steps[i].key && FetchingDuring(coalesce, steps, c, key, i + 1, |steps|)
       case Waiting(key, f) =>
         && key == steps[i].key && f < |s.futures|
         && (match s.futures[f]
             case Pending => Leads(s, l, key, f) && FetchingDuring(coalesce, steps, l, key, i + 1, |steps|)
             case Resolved(o) => Fetched(coalesce, steps, i, l, j, o))
       case Done(o) => CacheHit(coalesce, steps, i, o) || Fetched(coalesce, steps, i, l, j, o)
  }

  ghost predicate Traced(coalesce: bool, steps: seq<Step>, c: nat, i: nat, l: nat, j: nat)
    requires Valid(coalesce, steps)
  {
    TracedIn(Run(coalesce, steps), coalesce, steps, c, i, l, j)
  }

  lemma AtPrefix(coalesce: bool, steps: seq<Step>, k: nat)
    requires Valid(coalesce, steps) && steps != [] && k < |steps|
    ensures At(coalesce, steps, k) == At(coalesce, steps[..|steps| - 1], k)
  {
    assert steps[..|steps| - 1][..k] == steps[..k];
  }

  lemma FetchingExtends(coalesce: bool, steps: seq<Step>, l: nat, key: Key, i: nat, j: nat)
    requires Valid(coalesce, steps) && steps != [] && j < |steps|
    requires FetchingDuring(coalesce, steps[..|steps| - 1], l, key, i, j)
    ensures FetchingDuring(coalesce, steps, l, key, i, j)
    ensures IsFetching(Run(coalesce, steps), l, key) && j == |steps| - 1 ==>
              FetchingDuring(coalesce, steps, l, key, i, |steps|)
  {
    forall m | i <= m <= j ensures IsFetching(At(coalesce, steps, m), l, key) {
      AtPrefix(coalesce, steps, m);
    }
    assert steps[..|steps|] == steps;
  }

  lemma FetchedExtends(coalesce: bool, steps: seq<Step>, i: nat, l: nat, j: nat, o: Outcome)
    requires Valid(coalesce, steps) && steps != []
    requires i < |steps| - 1 && steps[i].Call? && Fetched(coalesce, steps[..|steps| - 1], i, l, j, o)
    ensures Fetched(coalesce, steps, i, l, j, o)
  {
    FetchingExtends(coalesce, steps, l, steps[i].key, i + 1, j);
  }

  /** The coroutine that the last step creates. */
  lemma TraceNew(coalesce: bool, steps: seq<Step>) returns (l: nat)
    requires Valid(coalesce, steps) && steps != [] && steps[|steps| - 1].Call?
    ensures var n := |steps| - 1;
            var c := |Run(coalesce, steps).phases| - 1;
            c >= 0 && Traced(coalesce, steps, c, n, l, 0)
  {
    var n := |steps| - 1;
    RunInv(coalesce, steps[..n]);
    var s, t, key, ttl := Run(coalesce, steps[..n]), Run(coalesce, steps), steps[n].key, steps[n].ttl;
    assert At(coalesce, steps, n) == s;
    assert steps[..|steps|] == steps;
    l := |s.phases|;
    if !Fresh(s, key, ttl) && coalesce && Joinable(s, key) {
      l :| Leads(s, l, key, s.inflight[key]);
      assert IsFetching(t, l, key);
    }
  }

  /** What a step makes of a coroutine that is already there. */
  function NextPhase(s: State, step: Step, c: nat): Phase
    requires Enabled(s, step) && c < |s.phases|
  {
    if step.FetchReturn? && step.caller == c then Done(step.outcome)
    else if step.Wake? && step.caller == c then Done(s.futures[s.phases[c].joined].outcome)
    else s.phases[c]
  }

  lemma PhaseStep(s: State, step: Step, c: nat)
    requires Enabled(s, step) && c < |s.phases|
    ensures c < |Apply(s, step).phases| && Apply(s, step).phases[c] == NextPhase(s, step, c)
  {}

  /** A future that is resolved stays so; one that `l` leads is resolved by the return of `l` only. */
  lemma FutureOf(s: State, step: Step, l: nat, key: Key, f: nat)
    requires Inv(s) && Enabled(s, step) && f < |s.futures|
    requires s.futures[f].Pending? ==> Leads(s, l, key, f)
    ensures f < |Apply(s, step).futures|
    ensures Apply(s, step).futures[f] ==
            if s.futures[f].Pending? && step.FetchReturn? && step.caller == l then Resolved(step.outcome)
            else s.futures[f]
  {
    if step.FetchReturn? && s.futures[f].Pending? && step.caller != l {
      OtherFutureUntouched(s, step.caller, step.outcome, l, key, f);
    }
  }

  lemma TraceFetching(s: State, t: State, coalesce: bool, steps: seq<Step>, c: nat, i: nat, l: nat, j: nat)
    returns (l': nat, j': nat)
    requires Valid(coalesce, steps) && steps != [] && s == At(coalesce, steps, |steps| - 1)
    requires t == At(coalesce, steps, |steps|)
    requires TracedIn(s, coalesce, steps[..|steps| - 1], c, i, l, j) && s.phases[c].Fetching?
    requires Enabled(s, steps[|steps| - 1]) && c < |t.phases| && t.phases[c] == NextPhase(s, steps[|steps| - 1], c)
    ensures TracedIn(t, coalesce, steps, c, i, l', j')
  {
    var n := |steps| - 1;
    AtPrefix(coalesce, steps, i);
    assert steps[..|steps|] == steps;
    FetchingExtends(coalesce, steps, c, steps[i].key, i + 1, n);
    l', j' := c, n;
  }

  lemma TraceWaiting(s: State, t: State, coalesce: bool, steps: seq<Step>, c: nat, i: nat, l: nat, j: nat, f: nat)
    returns (j': nat)
    requires Valid(coalesce, steps) && steps != [] && s == At(coalesce, steps, |steps| - 1)
    requires t == At(coalesce, steps, |steps|)
    requires TracedIn(s, coalesce, steps[..|steps| - 1], c, i, l, j) && s.phases[c] == Waiting(steps[i].key, f)
    requires Enabled(s, steps[|steps| - 1]) && c < |t.phases| && t.phases[c] == NextPhase(s, steps[|steps| - 1], c)
    requires f < |s.futures| && f < |t.futures|
    requires var step := steps[|steps| - 1];
             t.futures[f] == if s.futures[f].Pending? && step.FetchReturn? && step.caller == l
                             then Resolved(step.outcome) else s.futures[f]
    requires s.futures[f].Pending? && t.futures[f].Pending? ==> Leads(t, l, steps[i].key, f)
    ensures TracedIn(t, coalesce, steps, c, i, l, j')
  {
    var n := |steps| - 1;
    AtPrefix(coalesce, steps, i);
    assert steps[..|steps|] == steps;
    j' := j;
    if s.futures[f].Resolved? {
      FetchedExtends(coalesce, steps, i, l, j, s.futures[f].outcome);
    } else {
      FetchingExtends(coalesce, steps, l, steps[i].key, i + 1, n);
      j' := n;
    }
  }

  lemma TraceDone(s: State, t: State, coalesce: bool, steps: seq<Step>, c: nat, i: nat, l: nat, j: nat)
    requires Valid(coalesce, steps) && steps != []
    requires TracedIn(s, coalesce, steps[..|steps| - 1], c, i, l, j) && s.phases[c].Done?
    requires c < |t.phases| && t.phases[c] == s.phases[c]
    ensures TracedIn(t, coalesce, steps, c, i, l, j)
  {
    var o := s.phases[c].outcome;
    AtPrefix(coalesce, steps, i);
    if !CacheHit(coalesce, steps[..|steps| - 1], i, o) {
      FetchedExtends(coalesce, steps, i, l, j, o);
    }
  }

  lemma AtEnd(coalesce: bool, steps: seq<Step>)
    requires Valid(coalesce, steps) && steps != []
    ensures At(coalesce, steps, |steps|) == Run(coalesce, steps)
    ensures At(coalesce, steps, |steps| - 1) == Run(coalesce, steps[..|steps| - 1])
  {
    assert steps[..|steps|] == steps;
  }

  lemma StillLeads(s: State, step: Step, l: nat, key: Key, f: nat)
    requires Enabled(s, step) && Leads(s, l, key, f) && !(step.FetchReturn? && step.caller == l)
    ensures Leads(Apply(s, step), l, key, f)
  {
    PhaseStep(s, step, l);
  }

  /** A coroutine that was already there before the last step. */
  lemma TraceOld(coalesce: bool, steps: seq<Step>, c: nat, i: nat, l: nat, j: nat) returns (l': nat, j': nat)
    requires Valid(coalesce, steps) && steps != []
    requires Traced(coalesce, steps[..|steps| - 1], c, i, l, j)
    ensures Traced(coalesce, steps, c, i, l', j')
  {
    var s, t, step := Run(coalesce, steps[..|steps| - 1]), Run(coalesce, steps), steps[|steps| - 1];
    RunStep(coalesce, steps);
    AtEnd(coalesce, steps);
    PhaseStep(s, step, c);
    l', j' := l, j;
    match s.phases[c]
    case Fetching(_, _) => l', j' := TraceFetching(s, t, coalesce, steps, c, i, l, j);
    case Waiting(key, f) =>
      FutureOf(s, step, l, key, f);
      if s.futures[f].Pending? && t.futures[f].Pending? {
        StillLeads(s, step, l, key, f);
      }
      j' := TraceWaiting(s, t, coalesce, steps, c, i, l, j, f);
    case Done(_) => TraceDone(s, t, coalesce, steps, c, i, l, j);
  }

  lemma OtherFutureUntouched(s: State, d: nat, o: Outcome, l: nat, key: Key, f: nat)
    requires Inv(s) && Enabled(s, FetchReturn(d, o)) && Leads(s, l, key, f) && d != l
    ensures f < |s.futures| && Settle(s, d, o).futures[f] == s.futures[f]
  {
    assert Joinable(s, key);
    if s.phases[d].fut == Some(f) {
      assert Leads(s, d, s.phases[d].key, f);
    }
  }

  lemma {:induction false} Trace(coalesce: bool, steps: seq<Step>, c: nat) returns (i: nat, l: nat, j: nat)
    requires Valid(coalesce, steps) && c < |Run(coalesce, steps).phases|
    ensures Traced(coalesce, steps, c, i, l, j)
  {
    var n := |steps| - 1;
    if c < |Run(coalesce, steps[..n]).phases| {
      i, l, j := Trace(coalesce, steps[..n], c);
      l, j := TraceOld(coalesce, steps, c, i, l, j);
    } else {
      i, j := n, 0;
      l := TraceNew(coalesce, steps);
    }
  }

  /**
   Coalescing refines plain caching. Whatever the interleaving, a call that has finished gave either
   a cache entry that was fresh when the call read it, or the outcome of one fetch of its key that
   was in progress from right after the call until it ended. Plain caching (no coalescing) is the
   special case in which that fetch is the caller's own.
   */
  lemma EveryResultIsJustified(coalesce: bool, steps: seq<Step>, c: nat, o: Outcome) returns (i: nat, l: nat, j: nat)
    requires Valid(coalesce, steps)
    requires c < |Run(coalesce, steps).phases| && Run(coalesce, steps).phases[c] == Done(o)
    ensures Began(coalesce, steps, c, i)
    ensures CacheHit(coalesce, steps, i, o) || Fetched(coalesce, steps, i, l, j, o)
  {
    i, l, j := Trace(coalesce, steps, c);
  }

  /** Step `j` ends a fetch of `key` with a payload. */
  ghost predicate Delivers(coalesce: bool, steps: seq<Step>, j: nat, key: Key)
    requires Valid(coalesce, steps)
  {
    j < |steps| && steps[j].FetchReturn? && steps[j].outcome.Returned?
    && IsFetching(At(coalesce, steps, j), steps[j].caller, key)
  }

  /** A step changes a key's entry exactly by delivering a payload for it. */
  lemma StoreStep(s: State, step: Step, key: Key)
    requires Enabled(s, step)
    ensures var t := Apply(s, step);
            if step.FetchReturn? && step.outcome.Returned? && IsFetching(s, step.caller, key)
            then key in t.cache && t.cache[key] == Entry(s.now, step.outcome.payload)
            else (key in t.cache <==> key in s.cache) && (key in s.cache ==> t.cache[key] == s.cache[key])
  {}

  lemma DeliversPrefix(coalesce: bool, steps: seq<Step>, m: nat, key: Key)
    requires Valid(coalesce, steps) && m < |steps| - 1
    ensures Delivers(coalesce, steps, m, key) <==> Delivers(coalesce, steps[..|steps| - 1], m, key)
  {
    AtPrefix(coalesce, steps, m);
  }

  /** The key's last delivery, or -1. */
  ghost predicate LastDelivery(coalesce: bool, steps: seq<Step>, key: Key, j: int)
    requires Valid(coalesce, steps)
  {
    && -1 <= j < |steps|
    && (j >= 0 ==> Delivers(coalesce, steps, j, key))
    && forall m: nat :: j < m < |steps| ==> !Delivers(coalesce, steps, m, key)
  }

  lemma NextDelivery(coalesce: bool, steps: seq<Step>, key: Key, j: int) returns (j': int)
    requires Valid(coalesce, steps) && steps != [] && LastDelivery(coalesce, steps[..|steps| - 1], key, j)
    ensures LastDelivery(coalesce, steps, key, j')
    ensures j' == if Delivers(coalesce, steps, |steps| - 1, key) then |steps| - 1 else j
  {
    var n := |steps| - 1;
    forall m: nat | m < n ensures Delivers(coalesce, steps, m, key) <==> Delivers(coalesce, steps[..n], m, key) {
      DeliversPrefix(coalesce, steps, m, key);
    }
    j' := if Delivers(coalesce, steps, n, key) then n else j;
  }

  /** A cache entry is the payload, stamped with its time, of the key's last fetch that did not raise. */
  lemma {:induction false} CacheHoldsLatestFetch(coalesce: bool, steps: seq<Step>, key: Key) returns (j: int)
    requires Valid(coalesce, steps)
    ensures LastDelivery(coalesce, steps, key, j)
    ensures j < 0 ==> key !in Run(coalesce, steps).cache
    ensures j >= 0 ==> && key in Run(coalesce, steps).cache
                       && Run(coalesce, steps).cache[key] == Entry(At(coalesce, steps, j).now, steps[j].outcome.payload)
  {
    j := -1;
    if steps != [] {
      var n := |steps| - 1;
      j := CacheHoldsLatestFetch(coalesce, steps[..n], key);
      if j >= 0 {
        AtPrefix(coalesce, steps, j);
      }
      j := NextDelivery(coalesce, steps, key, j);
      RunStep(coalesce, steps);
      StoreStep(Run(coalesce, steps[..n]), steps[n], key);
    }
  }

  /**
   A call is served from the cache exactly when the key's last fetch that did not raise ended less than
   the ttl ago, and then it gets that fetch's payload.
   */
  lemma HitIsRecentFetch(coalesce: bool, steps: seq<Step>, key: Key, ttl: Time) returns (j: int)
    requires Valid(coalesce, steps)
    ensures LastDelivery(coalesce, steps, key, j)
    ensures var s := Run(coalesce, steps);
            && (Fresh(s, key, ttl) <==> ttl > 0 && j >= 0 && s.now - At(coalesce, steps, j).now < ttl)
            && (Fresh(s, key, ttl) ==> s.cache[key].payload == steps[j].outcome.payload)
  {
    j := CacheHoldsLatestFetch(coalesce, steps, key);
  }

  /**
   When a call starts a fetch of its own: exactly when the cache does not serve it and, with coalescing
   on, nobody is fetching its key. A ttl of 0 keeps the cache from serving it, but not a running fetch.
   */
  lemma CallFetchesIff(coalesce: bool, steps: seq<Step>, key: Key, ttl: Time)
    requires Valid(coalesce, steps)
    ensures var s := Run(coalesce, steps);
            IsFetching(Apply(s, Call(key, ttl)), |s.phases|, key) <==>
            !Fresh(s, key, ttl) && (!coalesce || forall c: nat :: !IsFetching(s, c, key))
    ensures ttl <= 0 ==> !Fresh(Run(coalesce, steps), key, ttl)
  {
    RunInv(coalesce, steps);
    if coalesce {
      AtMostOneFetcherPerKey(steps, key);
    }
  }

  /**
   What a call becomes: served with the payload of the key's last delivery if that is less than the ttl ago;
   else, with coalescing on and somebody fetching the key, a waiter on that fetch's own future; else a fetch.
   Nobody else is touched.
   */
  lemma CallBecomes(coalesce: bool, steps: seq<Step>, key: Key, ttl: Time) returns (j: int)
    requires Valid(coalesce, steps)
    ensures LastDelivery(coalesce, steps, key, j)
    ensures var s := Run(coalesce, steps);
            var t, c := Apply(s, Call(key, ttl)), |s.phases|;
            && |t.phases| == c + 1 && t.phases[..c] == s.phases
            && if ttl > 0 && j >= 0 && s.now - At(coalesce, steps, j).now < ttl
               then t.phases[c] == Done(Returned(steps[j].outcome.payload))
               else if coalesce && exists d: nat :: IsFetching(s, d, key)
               then t.phases[c].Waiting? && t.phases[c].key == key
                    && forall d: nat :: IsFetching(s, d, key) ==> s.phases[d].fut == Some(t.phases[c].joined)
               else IsFetching(t, c, key) && (t.phases[c].fut.Some? <==> coalesce)
  {
    RunInv(coalesce, steps);
    j := HitIsRecentFetch(coalesce, steps, key, ttl);
    if coalesce {
      AtMostOneFetcherPerKey(steps, key);
    }
  }

  /** The time of the last tick. */
  function Clock(steps: seq<Step>): Time {
    if steps == [] then 0
    else if steps[|steps| - 1].Tick? then steps[|steps| - 1].time
    else Clock(steps[..|steps| - 1])
  }

  lemma {:induction false} RunIsOnTime(coalesce: bool, steps: seq<Step>)
    requires Valid(coalesce, steps)
    ensures Run(coalesce, steps).now == Clock(steps)
  {
    if steps != [] {
      RunIsOnTime(coalesce, steps[..|steps| - 1]);
    }
  }

  /** Two calls with a ttl of 0: the second one joins the first one's fetch. */
  lemma ZeroTtlJoins(key: Key)
    ensures var steps := [Call(key, 0), Call(key, 0)];
            Valid(true, steps) && Run(true, steps).phases == [Fetching(key, Some(0)), Waiting(key, 0)]
  {
    var one, two := [Call(key, 0)], [Call(key, 0), Call(key, 0)];
    assert one[..0] == [] && two[..1] == one;
    assert Valid(true, []) && Run(true, []) == Init(true);
    assert Valid(true, one);
    assert Run(true, one) == State(true, 0, map[], map[key := 0], [Pending], [Fetching(key, Some(0))]);
  }

  // ---------- Everybody on one future gets the same outcome ----------

  predicate OnFuture(p: Phase, f: nat) {
    (p.Waiting? && p.joined == f) || (p.Fetching? && p.fut == Some(f))
  }

  /** Coroutine `c` is on future `f`, or done with exactly its outcome. */
  ghost predicate Follows(s: State, c: nat, f: nat) {
    && c < |s.phases| && f < |s.futures|
    && (OnFuture(s.phases[c], f) || (s.phases[c].Done? && s.futures[f] == Resolved(s.phases[c].outcome)))
  }

  /** A coroutine on a future stays on it until it is done with exactly that future's outcome. */
  lemma {:induction false} StaysOnFuture(coalesce: bool, steps: seq<Step>, k: nat, c: nat, f: nat)
    requires Valid(coalesce, steps) && k <= |steps|
    requires c < |At(coalesce, steps, k).phases| && OnFuture(At(coalesce, steps, k).phases[c], f)
    ensures Follows(Run(coalesce, steps), c, f)
    decreases |steps|
  {
    if k == |steps| {
      assert steps[..k] == steps;
      RunInv(coalesce, steps);
      FutureExists(Run(coalesce, steps), c, f);
    } else {
      RunStep(coalesce, steps);
      AtPrefix(coalesce, steps, k);
      StaysOnFuture(coalesce, steps[..|steps| - 1], k, c, f);
      FutureStep(Run(coalesce, steps[..|steps| - 1]), steps[|steps| - 1], c, f);
    }
  }

  lemma FutureExists(s: State, c: nat, f: nat)
    requires Inv(s) && c < |s.phases| && OnFuture(s.phases[c], f)
    ensures f < |s.futures|
    ensures s.phases[c].Fetching? ==> s.futures[f].Pending?
  {
    if s.phases[c].Fetching? {
      assert Leads(s, c, s.phases[c].key, f);
      assert Joinable(s, s.phases[c].key);
    }
  }

  lemma FutureStep(s: State, step: Step, c: nat, f: nat)
    requires Inv(s) && Enabled(s, step) && Follows(s, c, f)
    ensures Follows(Apply(s, step), c, f)
  {
    if OnFuture(s.phases[c], f) {
      FutureExists(s, c, f);
    }
  }

  /** The leader and all callers that ever joined one future end with the identical result or exception. */
  lemma JoinersAgree(coalesce: bool, steps: seq<Step>, f: nat, k: nat, c: nat, m: nat, d: nat)
    requires Valid(coalesce, steps) && k <= |steps| && m <= |steps|
    requires c < |At(coalesce, steps, k).phases| && OnFuture(At(coalesce, steps, k).phases[c], f)
    requires d < |At(coalesce, steps, m).phases| && OnFuture(At(coalesce, steps, m).phases[d], f)
    ensures var s := Run(coalesce, steps);
            && c < |s.phases| && d < |s.phases|
            && (s.phases[c].Done? && s.phases[d].Done? ==> s.phases[c].outcome == s.phases[d].outcome)
  {
    StaysOnFuture(coalesce, steps, k, c, f);
    StaysOnFuture(coalesce, steps, m, d, f);
  }

  lemma {:induction false} FetchingUntilDone(coalesce: bool, steps: seq<Step>, k: nat, d: nat)
    requires Valid(coalesce, steps) && k <= |steps|
    requires d < |At(coalesce, steps, k).phases| && At(coalesce, steps, k).phases[d].Fetching?
    ensures d < |Run(coalesce, steps).phases|
    ensures Run(coalesce, steps).phases[d].Done? || Run(coalesce, steps).phases[d] == At(coalesce, steps, k).phases[d]
    decreases |steps|
  {
    if k == |steps| {
      assert steps[..k] == steps;
    } else {
      assert steps[..|steps| - 1][..k] == steps[..k];
      FetchingUntilDone(coalesce, steps[..|steps| - 1], k, d);
      PhaseStep(Run(coalesce, steps[..|steps| - 1]), steps[|steps| - 1], d);
    }
  }

  /** Who once waited on the future of a fetch ends, when it ends, with exactly what that fetch ended with. */
  lemma WaiterGetsTheFetch(coalesce: bool, steps: seq<Step>, k: nat, c: nat, d: nat)
    requires Valid(coalesce, steps) && k <= |steps|
    requires var s := At(coalesce, steps, k);
             && c < |s.phases| && d < |s.phases| && s.phases[c].Waiting? && s.phases[d].Fetching?
             && s.phases[d].fut == Some(s.phases[c].joined)
    ensures var s := Run(coalesce, steps);
            && c < |s.phases| && d < |s.phases|
            && (s.phases[c].Done? ==> s.phases[d].Done? && s.phases[c].outcome == s.phases[d].outcome)
  {
    var f := At(coalesce, steps, k).phases[c].joined;
    JoinersAgree(coalesce, steps, f, k, c, k, d);
    StaysOnFuture(coalesce, steps, k, c, f);
    FetchingUntilDone(coalesce, steps, k, d);
    RunInv(coalesce, steps);
    if Run(coalesce, steps).phases[d].Fetching? {
      FutureExists(Run(coalesce, steps), d, f);
    }
  }
}
