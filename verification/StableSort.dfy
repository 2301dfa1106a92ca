/** Python's `sorted`: a stable sort by a total preorder, here by insertion from the right. */
module StableSort {

  ghost predicate TotalPreorder<T(!new)>(le: (T, T) -> bool) {
    && (forall x, y :: le(x, y) || le(y, x))
    && (forall x, y, z :: le(x, y) && le(y, z) ==> le(x, z))
  }

  ghost predicate Sorted<T>(le: (T, T) -> bool, s: seq<T>) {
    forall i, j :: 0 <= i < j < |s| ==> le(s[i], s[j])
  }

  function Insert<T>(le: (T, T) -> bool, s: seq<T>, x: T): (r: seq<T>)
    ensures |r| == |s| + 1
  {
    if s == [] || le(s[|s| - 1], x) then s + [x]
    else Insert(le, s[..|s| - 1], x) + [s[|s| - 1]]
  }

  function Sort<T>(le: (T, T) -> bool, s: seq<T>): (r: seq<T>)
    ensures |r| == |s|
  {
    if s == [] then [] else Insert(le, Sort(le, s[..|s| - 1]), s[|s| - 1])
  }

  lemma {:induction false} InsertMultiset<T>(le: (T, T) -> bool, s: seq<T>, x: T)
    ensures multiset(Insert(le, s, x)) == multiset(s) + multiset{x}
  {
    if s != [] && !le(s[|s| - 1], x) {
      InsertMultiset(le, s[..|s| - 1], x);
      assert s == s[..|s| - 1] + [s[|s| - 1]];
    }
  }

  lemma {:induction false} InsertSorted<T(!new)>(le: (T, T) -> bool, s: seq<T>, x: T)
    requires TotalPreorder(le) && Sorted(le, s)
    ensures Sorted(le, Insert(le, s, x))
  {
    if s != [] && !le(s[|s| - 1], x) {
      var init, last := s[..|s| - 1], s[|s| - 1];
      InsertSorted(le, init, x);
      InsertMultiset(le, init, x);
      var r := Insert(le, init, x);
      forall i | 0 <= i < |r| ensures le(r[i], last) {
        assert r[i] in multiset(r);
        if r[i] != x {
          assert r[i] in init;
        }
      }
    } else if s != [] {
      forall i | 0 <= i < |s| ensures le(s[i], x) {
        assert i == |s| - 1 || le(s[i], s[|s| - 1]);
      }
    }
  }

  /** The result is a sorted permutation of the input. */
  lemma {:induction false} SortIsSorted<T(!new)>(le: (T, T) -> bool, s: seq<T>)
    requires TotalPreorder(le)
    ensures Sorted(le, Sort(le, s)) && multiset(Sort(le, s)) == multiset(s)
    ensures |Sort(le, s)| == |s|
    ensures forall x :: x in Sort(le, s) <==> x in s
  {
    if s != [] {
      SortIsSorted(le, s[..|s| - 1]);
      InsertSorted(le, Sort(le, s[..|s| - 1]), s[|s| - 1]);
      InsertMultiset(le, Sort(le, s[..|s| - 1]), s[|s| - 1]);
      assert s == s[..|s| - 1] + [s[|s| - 1]];
    }
    assert |multiset(Sort(le, s))| == |multiset(s)|;
    forall x ensures x in Sort(le, s) <==> x in s {
      assert x in multiset(Sort(le, s)) <==> x in multiset(s);
    }
  }

  /** Stability at the end: a last element no smaller than all others stays last. */
  lemma SortKeepsLastMaximum<T(!new)>(le: (T, T) -> bool, s: seq<T>, x: T)
    requires TotalPreorder(le)
    requires forall y :: y in s ==> le(y, x)
    ensures Sort(le, s + [x]) == Sort(le, s) + [x]
  {
    assert (s + [x])[..|s|] == s;
    SortIsSorted(le, s);
    var r := Sort(le, s);
    assert r != [] ==> r[|r| - 1] in r;
  }

  // ---------- Where each element goes ----------

  /** How many elements are no greater than x. */
  function UpTo<T>(le: (T, T) -> bool, s: seq<T>, x: T): nat {
    if s == [] then 0 else UpTo(le, s[..|s| - 1], x) + if le(s[|s| - 1], x) then 1 else 0
  }

  /** How many elements a stable sort puts before element i: the earlier ones that are no greater and the
      later ones that are smaller. */
  function Rank<T>(le: (T, T) -> bool, s: seq<T>, i: nat): nat
    requires i < |s|
  {
    var init, last := s[..|s| - 1], s[|s| - 1];
    if i == |s| - 1 then UpTo(le, init, last)
    else Rank(le, init, i) + if le(s[i], last) then 0 else 1
  }

  lemma {:induction false} UpToAll<T>(le: (T, T) -> bool, s: seq<T>, x: T)
    requires forall y :: y in s ==> le(y, x)
    ensures UpTo(le, s, x) == |s|
  {
    if s != [] {
      assert s == s[..|s| - 1] + [s[|s| - 1]];
      UpToAll(le, s[..|s| - 1], x);
    }
  }

  /** The elements no greater than x come first. */
  ghost predicate LowFirst<T>(le: (T, T) -> bool, s: seq<T>, x: T) {
    forall i, j :: 0 <= i < j < |s| && le(s[j], x) ==> le(s[i], x)
  }

  lemma SortedLowFirst<T(!new)>(le: (T, T) -> bool, s: seq<T>, x: T)
    requires TotalPreorder(le) && Sorted(le, s)
    ensures LowFirst(le, s, x)
  {
    forall i, j | 0 <= i < j < |s| && le(s[j], x) ensures le(s[i], x) {
      assert le(s[i], s[j]);
    }
  }

  lemma LastIsLow<T>(le: (T, T) -> bool, s: seq<T>, x: T)
    requires LowFirst(le, s, x) && s != [] && le(s[|s| - 1], x)
    ensures forall y :: y in s ==> le(y, x)
  {
    forall i | 0 <= i < |s| ensures le(s[i], x) {
      assert i < |s| - 1 ==> le(s[i], x);
    }
  }

  lemma {:induction false} LowEndsAt<T>(le: (T, T) -> bool, s: seq<T>, x: T, p: nat)
    requires LowFirst(le, s, x) && p == UpTo(le, s, x)
    ensures p <= |s| && forall k :: 0 <= k < |s| ==> (le(s[k], x) <==> k < p)
  {
    if s == [] {
    } else if le(s[|s| - 1], x) {
      LastIsLow(le, s, x);
      UpToAll(le, s, x);
    } else {
      LowEndsAt(le, s[..|s| - 1], x, p);
    }
  }

  lemma Between<T>(init: seq<T>, last: T, x: T, p: nat)
    requires p <= |init|
    ensures init[..p] + [x] + init[p..] + [last] == (init + [last])[..p] + [x] + (init + [last])[p..]
  {}

  /** An element is inserted behind all that are no greater. */
  lemma {:induction false} InsertAt<T>(le: (T, T) -> bool, s: seq<T>, x: T, p: nat)
    requires p <= |s| && forall k :: 0 <= k < |s| ==> (le(s[k], x) <==> k < p)
    ensures Insert(le, s, x) == s[..p] + [x] + s[p..]
  {
    if p == |s| {
      assert s[..p] + [x] + s[p..] == s + [x];
    } else {
      var init, last := s[..|s| - 1], s[|s| - 1];
      InsertAt(le, init, x, p);
      Between(init, last, x, p);
      assert s == init + [last];
    }
  }

  lemma UpToSnoc<T>(le: (T, T) -> bool, s: seq<T>, y: T, x: T)
    ensures UpTo(le, s + [y], x) == UpTo(le, s, x) + if le(y, x) then 1 else 0
  {
    assert (s + [y])[..|s|] == s;
  }

  lemma {:induction false} UpToInsert<T>(le: (T, T) -> bool, s: seq<T>, y: T, x: T)
    ensures UpTo(le, Insert(le, s, y), x) == UpTo(le, s, x) + if le(y, x) then 1 else 0
  {
    if s == [] || le(s[|s| - 1], y) {
      UpToSnoc(le, s, y, x);
    } else {
      UpToInsert(le, s[..|s| - 1], y, x);
      UpToSnoc(le, Insert(le, s[..|s| - 1], y), s[|s| - 1], x);
    }
  }

  lemma {:induction false} UpToSort<T>(le: (T, T) -> bool, s: seq<T>, x: T)
    ensures UpTo(le, Sort(le, s), x) == UpTo(le, s, x)
  {
    if s != [] {
      UpToSort(le, s[..|s| - 1], x);
      UpToInsert(le, Sort(le, s[..|s| - 1]), s[|s| - 1], x);
    }
  }

  lemma SortLowFirst<T(!new)>(le: (T, T) -> bool, s: seq<T>, x: T)
    requires TotalPreorder(le)
    ensures LowFirst(le, Sort(le, s), x)
  {
    SortIsSorted(le, s);
    SortedLowFirst(le, Sort(le, s), x);
  }

  /** Where an insertion leaves the elements. */
  lemma {:induction false} Shifted<T>(le: (T, T) -> bool, s: seq<T>, x: T, p: nat)
    requires LowFirst(le, s, x) && p == UpTo(le, s, x)
    ensures p <= |s| && Insert(le, s, x)[p] == x
    ensures forall k :: 0 <= k < |s| ==> Insert(le, s, x)[if le(s[k], x) then k else k + 1] == s[k]
  {
    LowEndsAt(le, s, x, p);
    InsertAt(le, s, x, p);
  }

  /** Element i is at its rank. */
  ghost predicate AtRank<T>(le: (T, T) -> bool, s: seq<T>, i: nat)
    requires i < |s|
  {
    Rank(le, s, i) < |s| && Sort(le, s)[Rank(le, s, i)] == s[i]
  }

  lemma {:induction false} RankStep<T>(le: (T, T) -> bool, s: seq<T>, x: T, i: nat)
    requires LowFirst(le, Sort(le, s), x) && i <= |s| && (i < |s| ==> AtRank(le, s, i))
    ensures AtRank(le, s + [x], i)
  {
    assert (s + [x])[..|s|] == s;
    UpToSort(le, s, x);
    Shifted(le, Sort(le, s), x, UpTo(le, s, x));
  }

  /** The sort is stable: every element ends up exactly at its rank. */
  lemma {:induction false} SortedAtRank<T(!new)>(le: (T, T) -> bool, s: seq<T>, i: nat)
    requires TotalPreorder(le) && i < |s|
    ensures AtRank(le, s, i)
  {
    var init, last := s[..|s| - 1], s[|s| - 1];
    if i < |init| {
      SortedAtRank(le, init, i);
    }
    SortLowFirst(le, init, last);
    RankStep(le, init, last, i);
    assert init + [last] == s;
  }

  lemma {:induction false} NoneUpTo<T>(le: (T, T) -> bool, s: seq<T>, x: T)
    requires forall y :: y in s ==> !le(y, x)
    ensures UpTo(le, s, x) == 0
  {
    if s != [] {
      assert s[|s| - 1] in s && forall y :: y in s[..|s| - 1] ==> y in s;
      NoneUpTo(le, s[..|s| - 1], x);
    }
  }

  /** The first of the least elements leads. */
  lemma {:induction false} FirstLeastLeads<T>(le: (T, T) -> bool, s: seq<T>, i: nat)
    requires i < |s|
    requires forall j :: 0 <= j < i ==> !le(s[j], s[i])
    requires forall j :: i < j < |s| ==> le(s[i], s[j])
    ensures Rank(le, s, i) == 0
  {
    if i == |s| - 1 {
      NoneUpTo(le, s[..i], s[i]);
    } else {
      FirstLeastLeads(le, s[..|s| - 1], i);
    }
  }
}
