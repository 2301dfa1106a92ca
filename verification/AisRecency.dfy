/**
 The AIS vessel buffer (backend/ais_bridge.py) as a list ordered by recency.

 The original keeps a dict in insertion order and sorts it by time when it overflows. Sorted by time, the
 buffer is always a list in which a vessel that reports moves to the end, and which loses stale vessels
 and then excess ones from its front. Vessels seen at the same instant stay in the order of the dict.
 */
module AisRecency {
  import opened AisBuffer
  import opened StableSort

  /** The vessels that are not stale. */
  function Live(cfg: Config, list: seq<Vessel>, now: int): seq<Vessel> {
    if list == [] then []
    else
      var before, v := Live(cfg, list[..|list| - 1], now), list[|list| - 1];
      if now - v.seenAt > cfg.staleAfter then before else before + [v]
  }

  /** Drops stale vessels and then excess ones, when there are too many. */
  function Cut(cfg: Config, list: seq<Vessel>, later: int): seq<Vessel> {
    if |list| <= cfg.capacity then list
    else
      var live := Live(cfg, list, later);
      if |live| <= cfg.capacity then live else live[Excess(cfg, |live|)..]
  }

  /** The buffer, longest unseen first. */
  function InOrder(b: seq<Vessel>): seq<Vessel> {
    Sort(OlderFirst, b)
  }

  /** `v` has moved to the end of the list, or to a place before vessels last seen at the same instant. */
  ghost predicate Moved(list: seq<Vessel>, v: Vessel, p: nat, next: seq<Vessel>) {
    var rest := Without(list, {v.mmsi});
    && p <= |rest| && next == rest[..p] + [v] + rest[p..]
    && (forall i :: p <= i < |rest| ==> rest[i].seenAt == v.seenAt)
    && (v.mmsi !in Names(list) ==> p == |rest|)
  }

  /** The list is what moving and cutting can make of the reports. */
  ghost predicate Recent(cfg: Config, arrivals: seq<Arrival>, list: seq<Vessel>) {
    if arrivals == [] then list == []
    else
      var init, a := arrivals[..|arrivals| - 1], arrivals[|arrivals| - 1];
      if !Stored(cfg, a.frame) then Recent(cfg, init, list)
      else
        exists before, p: nat, next ::
          Recent(cfg, init, before) && Moved(before, Stamped(a), p, next) && list == Cut(cfg, next, a.later)
  }

  // ---------- Sorting and taking vessels out ----------

  lemma InsertLast(s: seq<Vessel>, x: Vessel)
    requires forall y :: y in s ==> y.seenAt <= x.seenAt
    ensures Insert(OlderFirst, s, x) == s + [x]
  {
    if s != [] {
      assert s[|s| - 1] in s;
    }
  }

  lemma WithoutInsertLast(s: seq<Vessel>, x: Vessel, names: set<Mmsi>)
    requires forall y :: y in s ==> y.seenAt <= x.seenAt
    ensures Without(Insert(OlderFirst, s, x), names) ==
            if x.mmsi in names then Without(s, names) else Insert(OlderFirst, Without(s, names), x)
  {
    InsertLast(s, x);
    WithoutSnoc(s, x, names);
    forall y | y in Without(s, names) ensures y.seenAt <= x.seenAt {
      WithoutHolds(s, names, y);
    }
    InsertLast(Without(s, names), x);
  }

  lemma {:induction false} WithoutInsert(s: seq<Vessel>, x: Vessel, names: set<Mmsi>)
    requires LowFirst(OlderFirst, s, x)
    ensures Without(Insert(OlderFirst, s, x), names) ==
            if x.mmsi in names then Without(s, names) else Insert(OlderFirst, Without(s, names), x)
  {
    if s == [] {
      WithoutInsertLast(s, x, names);
    } else if OlderFirst(s[|s| - 1], x) {
      LastIsLow(OlderFirst, s, x);
      WithoutInsertLast(s, x, names);
    } else {
      var init, last := s[..|s| - 1], s[|s| - 1];
      assert s == init + [last];
      WithoutInsert(init, x, names);
      WithoutSnoc(init, last, names);
      WithoutSnoc(Insert(OlderFirst, init, x), last, names);
      InsertBefore(init, last, x);
      InsertBefore(Without(init, names), last, x);
    }
  }

  lemma InsertBefore(s: seq<Vessel>, last: Vessel, x: Vessel)
    requires !OlderFirst(last, x)
    ensures Insert(OlderFirst, s + [last], x) == Insert(OlderFirst, s, x) + [last]
  {
    assert (s + [last])[..|s|] == s;
  }

  lemma OrderIsLow(b: seq<Vessel>, x: Vessel)
    ensures LowFirst(OlderFirst, InOrder(b), x)
  {
    SortLowFirst(OlderFirst, b, x);
  }

  /** Taking vessels out of the dict takes them out of the order. */
  lemma {:induction false} WithoutInOrder(b: seq<Vessel>, names: set<Mmsi>)
    ensures InOrder(Without(b, names)) == Without(InOrder(b), names)
  {
    if b != [] {
      var init, last := b[..|b| - 1], b[|b| - 1];
      WithoutInOrder(init, names);
      OrderIsLow(init, last);
      WithoutInsert(InOrder(init), last, names);
      SortSnoc(Without(init, names), last);
      assert Without(init, names) + [] == Without(init, names);
    }
  }

  lemma SortSnoc(b: seq<Vessel>, v: Vessel)
    ensures InOrder(b + [v]) == Insert(OlderFirst, InOrder(b), v)
  {
    assert (b + [v])[..|b|] == b;
  }

  lemma InOrderHolds(b: seq<Vessel>)
    requires Distinct(b)
    ensures Distinct(InOrder(b)) && |InOrder(b)| == |b| && Names(InOrder(b)) == Names(b)
    ensures forall v :: v in InOrder(b) <==> v in b
  {
    OldestIsSorted(b);
    SortedNames(b);
  }

  lemma Regroup<T>(a: seq<T>, b: seq<T>, c: seq<T>)
    ensures a + b + c == a + (b + c)
  {}

  lemma {:induction false} WithoutConcat(a: seq<Vessel>, b: seq<Vessel>, names: set<Mmsi>)
    ensures Without(a + b, names) == Without(a, names) + Without(b, names)
  {
    if b == [] {
      assert a + b == a && Without(a, names) + [] == Without(a, names);
    } else {
      var n := |b| - 1;
      WithoutConcat(a, b[..n], names);
      assert (a + b)[..|a + b| - 1] == a + b[..n];
      Regroup(Without(a, names), Without(b[..n], names), if b[n].mmsi in names then [] else [b[n]]);
    }
  }

  lemma {:induction false} WithoutNone(b: seq<Vessel>, names: set<Mmsi>)
    requires forall v :: v in b ==> v.mmsi !in names
    ensures Without(b, names) == b
  {
    if b != [] {
      assert b == b[..|b| - 1] + [b[|b| - 1]];
      WithoutNone(b[..|b| - 1], names);
    }
  }

  lemma {:induction false} WithoutEvery(b: seq<Vessel>, names: set<Mmsi>)
    requires forall v :: v in b ==> v.mmsi in names
    ensures Without(b, names) == []
  {
    if b != [] {
      assert b == b[..|b| - 1] + [b[|b| - 1]];
      WithoutEvery(b[..|b| - 1], names);
    }
  }

  lemma HalvesApart(list: seq<Vessel>, n: nat)
    requires Distinct(list) && n <= |list|
    ensures forall v :: v in list[n..] ==> v.mmsi !in Names(list[..n])
    ensures forall v :: v in list[..n] ==> v.mmsi in Names(list[..n])
  {
    var a, b := Names(list[..n]), Names(list[n..]);
    NamesSplit(list, n);
    NamesOf(list[..n]);
    NamesOf(list[n..]);
    Overlapping(a, b);
    forall v | v in list[n..] ensures v.mmsi !in a {
      assert v.mmsi in a ==> v.mmsi in a * b;
    }
  }

  lemma Overlapping(a: set<Mmsi>, b: set<Mmsi>)
    ensures |a + b| == |a| + |b| - |a * b| && (|a * b| == 0 ==> a * b == {})
  {}

  lemma WithoutFront(front: seq<Vessel>, back: seq<Vessel>, names: set<Mmsi>)
    requires forall v :: v in front ==> v.mmsi in names
    requires forall v :: v in back ==> v.mmsi !in names
    ensures Without(front + back, names) == back
  {
    WithoutEvery(front, names);
    WithoutNone(back, names);
    WithoutConcat(front, back, names);
    assert [] + back == back;
  }

  lemma Halves<T>(s: seq<T>, n: nat)
    requires n <= |s|
    ensures s[..n] + s[n..] == s
  {}

  /** In a list without repeated names, taking out the names of a prefix drops it. */
  lemma DropIsWithout(list: seq<Vessel>, n: nat)
    requires Distinct(list) && n <= |list|
    ensures Without(list, Names(list[..n])) == list[n..]
  {
    HalvesApart(list, n);
    WithoutFront(list[..n], list[n..], Names(list[..n]));
    Halves(list, n);
  }

  // ---------- Shrinking ----------

  lemma {:induction false} LiveIsWithout(cfg: Config, list: seq<Vessel>, now: int, names: set<Mmsi>)
    requires forall v :: v in list ==> (v.mmsi in names <==> now - v.seenAt > cfg.staleAfter)
    ensures Live(cfg, list, now) == Without(list, names)
  {
    if list != [] {
      assert list == list[..|list| - 1] + [list[|list| - 1]];
      LiveIsWithout(cfg, list[..|list| - 1], now, names);
    }
  }

  lemma PruneInOrder(cfg: Config, b: seq<Vessel>, now: int)
    requires Distinct(b)
    ensures InOrder(Without(b, StaleNames(cfg, b, now))) == Live(cfg, InOrder(b), now)
    ensures Distinct(Without(b, StaleNames(cfg, b, now)))
  {
    StaleAre(cfg, b, now);
    InOrderHolds(b);
    LiveIsWithout(cfg, InOrder(b), now, StaleNames(cfg, b, now));
    WithoutInOrder(b, StaleNames(cfg, b, now));
    WithoutNames(b, StaleNames(cfg, b, now));
  }

  lemma EvictInOrder(cfg: Config, b: seq<Vessel>)
    requires Distinct(b)
    ensures |InOrder(b)| == |b| && InOrder(Without(b, OldestNames(cfg, b))) == InOrder(b)[Excess(cfg, |b|)..]
  {
    InOrderHolds(b);
    WithoutInOrder(b, OldestNames(cfg, b));
    DropIsWithout(InOrder(b), Excess(cfg, |b|));
  }

  /** Shrinking the dict cuts the order. */
  lemma ShrinkInOrder(cfg: Config, b: seq<Vessel>, later: int)
    requires Distinct(b)
    ensures InOrder(Shrink(cfg, b, later)) == Cut(cfg, InOrder(b), later)
  {
    InOrderHolds(b);
    if |b| > cfg.capacity {
      var live := Without(b, StaleNames(cfg, b, later));
      PruneInOrder(cfg, b, later);
      EvictInOrder(cfg, live);
    }
  }

  // ---------- Moving ----------

  lemma {:induction false} WithoutPut(b: seq<Vessel>, v: Vessel)
    requires Distinct(b)
    ensures Without(Put(b, v), {v.mmsi}) == Without(b, {v.mmsi})
  {
    if b == [] {
      WithoutSnoc([], v, {v.mmsi});
      assert [] + [v] == [v];
    } else {
      var init, last := b[..|b| - 1], b[|b| - 1];
      assert b == init + [last];
      DistinctInit(b);
      PutSnoc(init, last, v);
      WithoutSnoc(init, v, {v.mmsi});
      WithoutSnoc(init, last, {v.mmsi});
      WithoutSnoc(b, v, {v.mmsi});
      if v.mmsi in Names(init) {
        WithoutPut(init, v);
        WithoutSnoc(Put(init, v), last, {v.mmsi});
      }
    }
  }

  lemma OthersNamed(s: seq<Vessel>, p: nat, i: nat)
    requires Distinct(s) && p < |s| && i < |s| && i != p
    ensures s[i].mmsi != s[p].mmsi
  {
    var lo, hi := if i < p then i else p, if i < p then p else i;
    HalvesApart(s, hi);
    assert s[..hi][lo] == s[lo] && s[hi..][0] == s[hi];
    assert s[lo] in s[..hi] && s[hi] in s[hi..];
  }

  lemma WithoutBetween(a: seq<Vessel>, x: Vessel, b: seq<Vessel>)
    requires forall v :: v in a ==> v.mmsi != x.mmsi
    requires forall v :: v in b ==> v.mmsi != x.mmsi
    ensures Without(a + [x] + b, {x.mmsi}) == a + b
  {
    WithoutNone(a, {x.mmsi});
    WithoutNone(b, {x.mmsi});
    WithoutSnoc(a, x, {x.mmsi});
    WithoutConcat(a + [x], b, {x.mmsi});
  }

  lemma OthersAround(s: seq<Vessel>, p: nat, v: Vessel)
    requires Distinct(s) && p < |s| && (v in s[..p] || v in s[p + 1..])
    ensures v.mmsi != s[p].mmsi
  {
    if v in s[..p] {
      var i :| 0 <= i < p && s[..p][i] == v;
      OthersNamed(s, p, i);
    } else {
      var i :| 0 <= i < |s| - p - 1 && s[p + 1..][i] == v;
      OthersNamed(s, p, p + 1 + i);
    }
  }

  lemma Around<T>(s: seq<T>, p: nat)
    requires p < |s|
    ensures s == s[..p] + [s[p]] + s[p + 1..]
  {}

  /** Taking out one vessel of a list closes the gap. */
  lemma WithoutOne(s: seq<Vessel>, p: nat)
    requires Distinct(s) && p < |s|
    ensures Without(s, {s[p].mmsi}) == s[..p] + s[p + 1..]
  {
    var a, b := s[..p], s[p + 1..];
    forall v | v in a ensures v.mmsi != s[p].mmsi {
      OthersAround(s, p, v);
    }
    forall v | v in b ensures v.mmsi != s[p].mmsi {
      OthersAround(s, p, v);
    }
    WithoutBetween(a, s[p], b);
    Around(s, p);
  }

  lemma Gap<T>(s: seq<T>, p: nat, rest: seq<T>)
    requires p < |s| && rest == s[..p] + s[p + 1..]
    ensures |rest| == |s| - 1 && s == rest[..p] + [s[p]] + rest[p..]
    ensures forall i :: p <= i < |rest| ==> rest[i] == s[i + 1]
  {}

  lemma PutOrder(b: seq<Vessel>, v: Vessel)
    requires Distinct(b)
    ensures Distinct(InOrder(Put(b, v))) && v in InOrder(Put(b, v)) && Sorted(OlderFirst, InOrder(Put(b, v)))
    ensures forall x :: x in InOrder(Put(b, v)) ==> x == v || x in b
    ensures Without(InOrder(Put(b, v)), {v.mmsi}) == Without(InOrder(b), {v.mmsi})
  {
    PutMembers(b, v);
    InOrderHolds(Put(b, v));
    OldestIsSorted(Put(b, v));
    WithoutInOrder(Put(b, v), {v.mmsi});
    WithoutPut(b, v);
    WithoutInOrder(b, {v.mmsi});
  }

  lemma NewGoesLast(b: seq<Vessel>, v: Vessel)
    requires Distinct(b) && v.mmsi !in Names(b) && forall x :: x in b ==> x.seenAt <= v.seenAt
    ensures InOrder(Put(b, v)) == InOrder(b) + [v] && |InOrder(b)| == |b|
  {
    PutNames(b, v);
    NewestSortsLast(b, v);
  }

  lemma MovedAt(list: seq<Vessel>, s: seq<Vessel>, v: Vessel, p: nat)
    requires Distinct(s) && Sorted(OlderFirst, s) && p < |s| && s[p] == v
    requires forall x :: x in s ==> x.seenAt <= v.seenAt
    requires Without(s, {v.mmsi}) == Without(list, {v.mmsi})
    requires v.mmsi !in Names(list) ==> p == |s| - 1
    ensures Moved(list, v, p, s)
  {
    var rest := Without(list, {v.mmsi});
    WithoutOne(s, p);
    Gap(s, p, rest);
    forall i | p <= i < |rest| ensures rest[i].seenAt == v.seenAt {
      assert OlderFirst(s[p], s[i + 1]) && s[i + 1] in s;
    }
  }

  lemma PlaceOf(b: seq<Vessel>, v: Vessel, s: seq<Vessel>) returns (p: nat)
    requires Distinct(b) && forall x :: x in b ==> x.seenAt <= v.seenAt
    requires s == InOrder(Put(b, v)) && v in s
    ensures p < |s| && s[p] == v && (v.mmsi !in Names(b) ==> p == |s| - 1)
  {
    if v.mmsi !in Names(b) {
      NewGoesLast(b, v);
      p := |s| - 1;
    } else {
      p :| 0 <= p < |s| && s[p] == v;
    }
  }

  /** A report moves its vessel to the end, or to before others last seen at the same instant. */
  lemma PutInOrder(b: seq<Vessel>, v: Vessel) returns (p: nat)
    requires Distinct(b) && forall x :: x in b ==> x.seenAt <= v.seenAt
    ensures Moved(InOrder(b), v, p, InOrder(Put(b, v)))
  {
    PutOrder(b, v);
    InOrderHolds(b);
    p := PlaceOf(b, v, InOrder(Put(b, v)));
    MovedAt(InOrder(b), InOrder(Put(b, v)), v, p);
  }

  // ---------- Runs ----------

  lemma BufferIsPast(cfg: Config, arrivals: seq<Arrival>)
    requires Clocked(arrivals) && arrivals != []
    ensures var init, a := arrivals[..|arrivals| - 1], arrivals[|arrivals| - 1];
            && Clocked(init) && Distinct(Run(cfg, init))
            && forall x :: x in Run(cfg, init) ==> x in Log(cfg, init) && x.seenAt <= a.seen
  {
    var init, a := arrivals[..|arrivals| - 1], arrivals[|arrivals| - 1];
    BufferFollowsTheLog(cfg, init);
    LogIsPast(cfg, init, a.seen);
    forall x | x in Run(cfg, init) ensures x in Log(cfg, init) && x.seenAt <= a.seen {
      LatestIsLogged(Log(cfg, init), x);
    }
  }

  lemma StepInOrder(cfg: Config, arrivals: seq<Arrival>) returns (p: nat, next: seq<Vessel>)
    requires Clocked(arrivals) && arrivals != [] && Stored(cfg, arrivals[|arrivals| - 1].frame)
    ensures var init, a := arrivals[..|arrivals| - 1], arrivals[|arrivals| - 1];
            && Moved(InOrder(Run(cfg, init)), Stamped(a), p, next)
            && InOrder(Run(cfg, arrivals)) == Cut(cfg, next, a.later)
  {
    var a := arrivals[|arrivals| - 1];
    var b, v := Run(cfg, arrivals[..|arrivals| - 1]), Stamped(a);
    BufferIsPast(cfg, arrivals);
    p := PutInOrder(b, v);
    next := InOrder(Put(b, v));
    PutMembers(b, v);
    ShrinkInOrder(cfg, Put(b, v), a.later);
  }

  /**
   After every run, equal times included: sorted by time, the buffer is a list in which every report moved
   its vessel to the end (or before vessels last seen at that instant), stale or not, whatever the capacity.
   */
  lemma {:induction false} BufferIsRecent(cfg: Config, arrivals: seq<Arrival>)
    requires Clocked(arrivals)
    ensures Recent(cfg, arrivals, InOrder(Run(cfg, arrivals)))
  {
    if arrivals != [] {
      BufferIsPast(cfg, arrivals);
      BufferIsRecent(cfg, arrivals[..|arrivals| - 1]);
      if Stored(cfg, arrivals[|arrivals| - 1].frame) {
        var p, next := StepInOrder(cfg, arrivals);
      }
    }
  }

  /** What one report does to the list when no two times are equal. */
  function Touch(cfg: Config, list: seq<Vessel>, v: Vessel, later: int): seq<Vessel> {
    Cut(cfg, Without(list, {v.mmsi}) + [v], later)
  }

  ghost function Recency(cfg: Config, arrivals: seq<Arrival>): seq<Vessel> {
    if arrivals == [] then []
    else
      var before, a := Recency(cfg, arrivals[..|arrivals| - 1]), arrivals[|arrivals| - 1];
      if Stored(cfg, a.frame) then Touch(cfg, before, Stamped(a), a.later) else before
  }

  /** Every report later than the ones before it. */
  ghost predicate Rising(log: seq<Vessel>) {
    if log == [] then true
    else
      var init, last := log[..|log| - 1], log[|log| - 1];
      Rising(init) && forall v :: v in init ==> v.seenAt < last.seenAt
  }

  lemma LogBefore(cfg: Config, arrivals: seq<Arrival>)
    requires arrivals != [] && Rising(Log(cfg, arrivals))
    ensures var init, a := arrivals[..|arrivals| - 1], arrivals[|arrivals| - 1];
            && Rising(Log(cfg, init))
            && (Stored(cfg, a.frame) ==> forall x :: x in Log(cfg, init) ==> x.seenAt < a.seen)
  {
    var init, a := arrivals[..|arrivals| - 1], arrivals[|arrivals| - 1];
    if Stored(cfg, a.frame) {
      assert Log(cfg, arrivals)[..|Log(cfg, init)|] == Log(cfg, init);
    }
  }

  lemma MovedToEnd(list: seq<Vessel>, v: Vessel, p: nat, next: seq<Vessel>)
    requires Moved(list, v, p, next) && forall x :: x in list ==> x.seenAt < v.seenAt
    ensures next == Without(list, {v.mmsi}) + [v]
  {
    var rest := Without(list, {v.mmsi});
    if p < |rest| {
      WithoutHolds(list, {v.mmsi}, rest[p]);
    }
    assert rest[..|rest|] == rest && rest[|rest|..] == [] && rest + [v] + [] == rest + [v];
  }

  /**
   In particular, when no two stored reports carry the same time, the buffer is a function of the reports:
   sorted by time it is exactly the recency list, and it holds exactly its vessels.
   */
  lemma {:induction false} BufferIsRecencyList(cfg: Config, arrivals: seq<Arrival>)
    requires Clocked(arrivals) && Rising(Log(cfg, arrivals))
    ensures InOrder(Run(cfg, arrivals)) == Recency(cfg, arrivals)
    ensures forall v :: v in Run(cfg, arrivals) <==> v in Recency(cfg, arrivals)
  {
    OldestIsSorted(Run(cfg, arrivals));
    if arrivals != [] {
      var init, a := arrivals[..|arrivals| - 1], arrivals[|arrivals| - 1];
      BufferIsPast(cfg, arrivals);
      LogBefore(cfg, arrivals);
      BufferIsRecencyList(cfg, init);
      if Stored(cfg, a.frame) {
        var p, next := StepInOrder(cfg, arrivals);
        MovedToEnd(InOrder(Run(cfg, init)), Stamped(a), p, next);
      }
    }
  }

  // ---------- Equal times ----------

  /**
   Which vessels an eviction takes, equal times included: those that fewer vessels than the excess go
   before, where an earlier time goes first and, of equal times, the earlier place in the dict.
   */
  lemma EvictedIff(cfg: Config, b: seq<Vessel>, i: nat)
    requires Distinct(b) && i < |b|
    ensures b[i].mmsi in OldestNames(cfg, b) <==> Rank(OlderFirst, b, i) < Excess(cfg, |b|)
  {
    var sorted, r, n := InOrder(b), Rank(OlderFirst, b, i), Excess(cfg, |b|);
    SortedAtRank(OlderFirst, b, i);
    InOrderHolds(b);
    HalvesApart(sorted, n);
    if r < n {
      assert sorted[..n][r] == b[i];
    } else {
      assert sorted[n..][r - n] == b[i];
    }
  }
}
