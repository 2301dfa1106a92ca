/**
 Digest selection (backend/briefing_digest.py, `_sort_bucket` and the ranking tail of
 `build_watch_items`).

 Whether an item counts as GDELT or NewsData is a flag of the item; an item may be both. Case
 folding is ASCII. Items compare by value, like the source's dicts.
 */
module DigestSelect {
  import opened Options
  import opened Sets
  import opened StableSort
  import opened Texts

  datatype Item = Item(text: string, severity: Option<string>, gdelt: bool, newsdata: bool, detail: string)

  datatype Feed = Gdelt | NewsData

  predicate From(feed: Feed, x: Item) {
    match feed
    case Gdelt => x.gdelt
    case NewsData => x.newsdata
  }

  /** The de-duplication key: the first 80 characters, case folded. */
  function Key(text: string): string {
    Lower(if |text| <= 80 then text else text[..80])
  }

  function SeverityRank(severity: Option<string>): int {
    if severity == Some("high") then 0
    else if severity == Some("medium") then 1
    else if severity == Some("low") then 2
    else 9
  }

  /** Python's order on str. */
  predicate LexLe(a: string, b: string) {
    a == [] || (b != [] && (a[0] < b[0] || (a[0] == b[0] && LexLe(a[1..], b[1..]))))
  }

  /** The order of `_severity_key`: rank first, then text. */
  predicate SeverityLe(x: Item, y: Item) {
    var a, b := SeverityRank(x.severity), SeverityRank(y.severity);
    a < b || (a == b && LexLe(x.text, y.text))
  }

  lemma {:induction false} LexTotal(a: string, b: string)
    ensures LexLe(a, b) || LexLe(b, a)
  {
    if a != [] && b != [] && a[0] == b[0] {
      LexTotal(a[1..], b[1..]);
    }
  }

  lemma {:induction false} LexTransitive(a: string, b: string, c: string)
    requires LexLe(a, b) && LexLe(b, c)
    ensures LexLe(a, c)
  {
    if a != [] && a[0] == b[0] == c[0] {
      LexTransitive(a[1..], b[1..], c[1..]);
    }
  }

  lemma SeverityIsPreorder()
    ensures TotalPreorder(SeverityLe)
  {
    forall x, y ensures SeverityLe(x, y) || SeverityLe(y, x) {
      LexTotal(x.text, y.text);
    }
    forall x, y, z | SeverityLe(x, y) && SeverityLe(y, z) ensures SeverityLe(x, z) {
      if LexLe(x.text, y.text) && LexLe(y.text, z.text) {
        LexTransitive(x.text, y.text, z.text);
      }
    }
  }

  lemma RankedIsSorted(pool: seq<Item>)
    ensures Sorted(SeverityLe, Sort(SeverityLe, pool))
    ensures forall x :: x in Sort(SeverityLe, pool) <==> x in pool
  {
    SeverityIsPreorder();
    SortIsSorted(SeverityLe, pool);
  }

  // ---------- The order by name ----------

  /** Python's order on str: a prefix comes first, else the first difference decides. */
  ghost predicate TextLe(a: string, b: string) {
    a <= b || exists k: nat :: k < |a| && k < |b| && a[..k] == b[..k] && a[k] < b[k]
  }

  lemma {:induction false} LexIff(a: string, b: string)
    ensures LexLe(a, b) <==> TextLe(a, b)
  {
    if a != "" && b != "" && a[0] == b[0] {
      LexIff(a[1..], b[1..]);
      TextLeRest(a, b);
    } else if a != "" && b != "" && a[0] < b[0] {
      assert a[..0] == b[..0];
    } else {
      SameStarts(a, b);
    }
  }

  lemma SameStarts(a: string, b: string)
    ensures forall k: nat :: 0 < k && k < |a| && k < |b| && a[..k] == b[..k] ==> a[0] == b[0]
  {
    forall k: nat | 0 < k && k < |a| && k < |b| && a[..k] == b[..k] ensures a[0] == b[0] {
      SameStart(a, b, k);
    }
  }

  lemma SameStart(a: string, b: string, k: nat)
    requires 0 < k <= |a| && k <= |b| && a[..k] == b[..k]
    ensures a[0] == b[0]
  {
    assert a[..k][0] == b[..k][0];
  }

  lemma TextLeRest(a: string, b: string)
    requires a != "" && b != "" && a[0] == b[0]
    ensures TextLe(a, b) <==> TextLe(a[1..], b[1..])
  {
    if k: nat :| k < |a| && k < |b| && a[..k] == b[..k] && a[k] < b[k] {
      assert a[1..][..k - 1] == a[..k][1..] && b[1..][..k - 1] == b[..k][1..];
      assert a[1..][k - 1] < b[1..][k - 1];
    }
    if k: nat :| k < |a[1..]| && k < |b[1..]| && a[1..][..k] == b[1..][..k] && a[1..][k] < b[1..][k] {
      assert a[..k + 1] == [a[0]] + a[1..][..k] && b[..k + 1] == [b[0]] + b[1..][..k];
      assert a[k + 1] < b[k + 1];
    }
  }

  predicate Known(severity: Option<string>) {
    severity == Some("high") || severity == Some("medium") || severity == Some("low")
  }

  /** `y` may stand before `x`: it is at least as severe, and of equal severities the texts are in order. */
  ghost predicate NoWorse(y: Item, x: Item) {
    && (x.severity == Some("high") ==> y.severity == Some("high"))
    && (x.severity == Some("medium") ==> y.severity == Some("high") || y.severity == Some("medium"))
    && (x.severity == Some("low") ==> Known(y.severity))
    && (x.severity == y.severity || (!Known(x.severity) && !Known(y.severity)) ==> TextLe(y.text, x.text))
  }

  lemma NoWorseIff(y: Item, x: Item)
    ensures SeverityLe(y, x) <==> NoWorse(y, x)
  {
    LexIff(y.text, x.text);
  }

  lemma {:induction false} LowerAt(s: string)
    ensures |Lower(s)| == |s| && forall i :: 0 <= i < |s| ==> Lower(s)[i] == LowerChar(s[i])
  {
    if s != "" {
      LowerAt(s[1..]);
    }
  }

  /** One letter in either case. */
  predicate SameLetter(c: char, d: char) {
    || c == d
    || ('A' <= c <= 'Z' && d as int == c as int + 32)
    || ('A' <= d <= 'Z' && c as int == d as int + 32)
  }

  function First80(text: string): nat { if |text| <= 80 then |text| else 80 }

  /** Two texts have the same key exactly when their first 80 characters agree up to case. */
  lemma SameKeyIff(a: string, b: string)
    ensures Key(a) == Key(b) <==>
            First80(a) == First80(b) && forall i :: 0 <= i < First80(a) ==> SameLetter(a[i], b[i])
  {
    LowerAt(a[..First80(a)]);
    LowerAt(b[..First80(b)]);
    assert |a| <= 80 ==> a[..First80(a)] == a;
    assert |b| <= 80 ==> b[..First80(b)] == b;
    forall i | 0 <= i < First80(a) && i < First80(b)
      ensures SameLetter(a[i], b[i]) <==> Key(a)[i] == Key(b)[i]
    {
      LowerChars(a[i], b[i]);
    }
  }

  lemma LowerChars(c: char, d: char)
    ensures SameLetter(c, d) <==> LowerChar(c) == LowerChar(d)
  {}

  // ---------- Accounting ----------

  function Count(feed: Feed, items: seq<Item>): nat {
    if items == [] then 0
    else Count(feed, items[..|items| - 1]) + if From(feed, items[|items| - 1]) then 1 else 0
  }

  lemma {:induction false} CountAppend(feed: Feed, a: seq<Item>, b: seq<Item>)
    ensures Count(feed, a + b) == Count(feed, a) + Count(feed, b)
  {
    if b == [] {
      assert a + b == a;
    } else {
      assert (a + b)[..|a + b| - 1] == a + b[..|b| - 1];
      CountAppend(feed, a, b[..|b| - 1]);
    }
  }

  lemma {:induction false} CountAll(feed: Feed, items: seq<Item>)
    requires forall x :: x in items ==> From(feed, x)
    ensures Count(feed, items) == |items|
  {
    if items != [] {
      CountAll(feed, items[..|items| - 1]);
    }
  }

  /** The distinct keys of the items that have a text. */
  function Keys(items: seq<Item>): set<string> {
    if items == [] then {}
    else
      var x := items[|items| - 1];
      Keys(items[..|items| - 1]) + if x.text != "" then {Key(x.text)} else {}
  }

  lemma {:induction false} KeysMembers(items: seq<Item>)
    ensures forall x :: x in items && x.text != "" ==> Key(x.text) in Keys(items)
    ensures forall k :: k in Keys(items) ==> exists x :: x in items && x.text != "" && Key(x.text) == k
  {
    if items != [] {
      var init, last := items[..|items| - 1], items[|items| - 1];
      KeysMembers(init);
      assert items == init + [last];
      forall k | k in Keys(items) ensures exists x :: x in items && x.text != "" && Key(x.text) == k {
        if k in Keys(init) {
          var x :| x in init && x.text != "" && Key(x.text) == k;
          assert x in items;
        } else {
          assert last in items;
        }
      }
    }
  }

  lemma KeysSnoc(items: seq<Item>, x: Item)
    ensures Keys(items + [x]) == Keys(items) + if x.text != "" then {Key(x.text)} else {}
  {
    assert (items + [x])[..|items|] == items;
  }

  lemma KeysSubset(a: seq<Item>, b: seq<Item>)
    requires forall x :: x in a && x.text != "" ==> x in b
    ensures Keys(a) <= Keys(b)
  {
    KeysMembers(a);
    KeysMembers(b);
  }

  /** As many keys as items: no empty text and no key twice, see DistinctMeans. */
  predicate Distinct(picked: seq<Item>) {
    |Keys(picked)| == |picked|
  }

  lemma {:induction false} KeysAtMost(items: seq<Item>)
    ensures |Keys(items)| <= |items|
  {
    if items != [] {
      KeysAtMost(items[..|items| - 1]);
    }
  }

  lemma DistinctLast(picked: seq<Item>)
    requires Distinct(picked) && picked != []
    ensures var n := |picked| - 1;
            Distinct(picked[..n]) && picked[n].text != "" && Key(picked[n].text) !in Keys(picked[..n])
  {
    KeysAtMost(picked[..|picked| - 1]);
  }

  lemma {:induction false} DistinctMeans(picked: seq<Item>, i: nat, j: nat)
    requires Distinct(picked) && i < j < |picked|
    ensures Key(picked[i].text) != Key(picked[j].text)
  {
    var n := |picked| - 1;
    DistinctLast(picked);
    if j < n {
      DistinctMeans(picked[..n], i, j);
    } else {
      HasItsKey(picked[..n], i);
    }
  }

  lemma {:induction false} HasItsKey(picked: seq<Item>, i: nat)
    requires Distinct(picked) && i < |picked|
    ensures Key(picked[i].text) in Keys(picked)
  {
    DistinctTexts(picked);
    KeysMembers(picked);
    assert picked[i] in picked;
  }

  lemma {:induction false} DistinctTexts(picked: seq<Item>)
    requires Distinct(picked)
    ensures forall x :: x in picked ==> x.text != ""
  {
    if picked != [] {
      DistinctLast(picked);
      DistinctTexts(picked[..|picked| - 1]);
      assert picked == picked[..|picked| - 1] + [picked[|picked| - 1]];
    }
  }

  /** The output lines of the picked items. */
  ghost predicate Lines(out: seq<string>, picked: seq<Item>) {
    |out| == |picked| && forall i :: 0 <= i < |out| ==> out[i] == "- " + picked[i].text
  }

  lemma LinesSnoc(out: seq<string>, picked: seq<Item>, x: Item)
    requires Lines(out, picked)
    ensures Lines(out + ["- " + x.text], picked + [x])
  {}

  function Min(a: int, b: int): int { if a <= b then a else b }

  // ---------- The selection ----------

  /** `next` is a severity-ordered pick from `pool` that nothing left out of `seen` could improve. */
  ghost predicate BestOf(pool: seq<Item>, next: seq<Item>, seen: set<string>) {
    && Sorted(SeverityLe, next)
    && (forall y :: y in next ==> y in pool)
    && (forall x, y :: x in pool && x.text != "" && Key(x.text) !in seen && y in next ==> SeverityLe(y, x))
  }

  /** What one reservation phase adds to the picks `before` it. */
  ghost predicate Phase(feed: Feed, lines: seq<Item>, cap: int, limit: int, before: seq<Item>, next: seq<Item>) {
    var kept, pool := before + next, Filter(feed, lines);
    && BestOf(pool, next, Keys(kept))
    && (next != [] ==> Count(feed, kept) <= cap)
    && (cap <= 0 ==> next == [])
    && (cap <= 0 || |kept| >= limit || Count(feed, kept) >= cap || Keys(pool) <= Keys(kept))
  }

  /** What the last loop adds. */
  ghost predicate Rest(lines: seq<Item>, limit: int, kept: seq<Item>, rest: seq<Item>) {
    var pool := NotIn(kept, lines);
    && BestOf(pool, rest, Keys(kept + rest))
    && (|kept + rest| >= limit || Keys(pool) <= Keys(kept + rest))
  }

  /** A phase that does not run adds nothing. */
  lemma NoPhase(feed: Feed, lines: seq<Item>, cap: int, limit: int, before: seq<Item>)
    requires cap <= 0 || |before| >= limit
    ensures Phase(feed, lines, cap, limit, before, [])
  {
    assert before + [] == before;
  }

  lemma NoRest(lines: seq<Item>, limit: int, kept: seq<Item>)
    requires |kept| >= limit
    ensures Rest(lines, limit, kept, [])
  {
    assert kept + [] == kept;
  }

  /** With no room at all a reservation still tries its first candidate, and only that one. */
  function FirstLine(ranked: seq<Item>): seq<Item> {
    if ranked != [] && ranked[0].text != "" then [ranked[0]] else []
  }

  /** The variables that `_append_item` and `_reserve_from` share. */
  class Picker {
    const limit: int
    var out: seq<string>
    var picked: seq<Item>
    var seen: set<string>
    var reserved: seq<Item>

    ghost predicate Valid()
      reads this
    {
      Lines(out, picked) && seen == Keys(picked) && |seen| == |picked|
    }

    constructor (limit: int)
      ensures Valid() && this.limit == limit && picked == [] && reserved == []
    {
      this.limit := limit;
      out, picked, seen, reserved := [], [], {}, [];
    }

    method AppendItem(item: Item) returns (added: bool)
      requires Valid()
      modifies this`out, this`picked, this`seen
      ensures Valid()
      ensures added <==> item.text != "" && Key(item.text) !in old(seen)
      ensures picked == old(picked) + if added then [item] else []
      ensures seen == old(seen) + if added then {Key(item.text)} else {}
    {
      KeysSnoc(picked, item);
      LinesSnoc(out, picked, item);
      var key := Key(item.text);
      if item.text == "" || key in seen {
        return false;
      }
      seen := seen + {key};
      out := out + ["- " + item.text];
      picked := picked + [item];
      return true;
    }

    /** One candidate of a reservation phase: skipped if already reserved, else appended and remembered. */
    method Reserve(item: Item, feed: Feed) returns (added: bool)
      requires Valid() && reserved == picked && From(feed, item)
      modifies this
      ensures Valid() && reserved == picked
      ensures added <==> item.text != "" && Key(item.text) !in old(seen)
      ensures picked == old(picked) + if added then [item] else []
      ensures seen == old(seen) + if added then {Key(item.text)} else {}
      ensures Count(feed, picked) == old(Count(feed, picked)) + if added then 1 else 0
    {
      if item in reserved {
        KeysMembers(picked);
        DistinctTexts(picked);
        return false;
      }
      added := AppendItem(item);
      if added {
        CountAppend(feed, reserved, [item]);
        CountAll(feed, [item]);
        reserved := reserved + [item];
      }
    }

    /** One turn of the reservation loop, which has added `next` to `base` so far. */
    method ReserveNext(ranked: seq<Item>, i: nat, feed: Feed, ghost base: seq<Item>, ghost next: seq<Item>)
      returns (ghost more: seq<Item>)
      requires Valid() && reserved == picked == base + next
      requires Walked(ranked, i, next, seen) && i < |ranked| && Sorted(SeverityLe, ranked) && From(feed, ranked[i])
      modifies this
      ensures Valid() && reserved == picked == base + more
      ensures Walked(ranked, i + 1, more, seen)
      ensures |next| <= |more| <= |next| + 1
      ensures more == next + if ranked[i].text != "" && Key(ranked[i].text) !in old(seen) then [ranked[i]] else []
      ensures Count(feed, picked) <= old(Count(feed, picked)) + 1
    {
      ghost var before := seen;
      var added := Reserve(ranked[i], feed);
      WalkStep(ranked, i, next, before, added);
      more := next + if added then [ranked[i]] else [];
    }

    /** `_reserve_from`: take up to `cap` of this feed's items, best severity first. */
    method ReserveFrom(go: bool, lines: seq<Item>, cap: int, feed: Feed) returns (ghost next: seq<Item>)
      requires Valid() && reserved == picked
      requires if go then |out| < limit || limit <= 0 else |out| >= limit
      modifies this
      ensures Valid() && reserved == picked
      ensures picked == old(picked) + next
      ensures Phase(feed, lines, cap, limit, old(picked), next)
      ensures limit >= 1 && old(|picked|) <= limit ==> |picked| <= limit
      ensures limit <= 0 && old(picked) == [] ==>
                next == if go && cap > 0 then FirstLine(Sort(SeverityLe, Filter(feed, lines))) else []
      ensures !go || cap <= 0 ==> next == []
    {
      next := [];
      if !go || cap <= 0 {
        NoPhase(feed, lines, cap, limit, picked);
        return;
      }
      ghost var pool := Filter(feed, lines);
      var ranked := Sort(SeverityLe, Filter(feed, lines));
      RankedIsSorted(pool);
      FilterMembers(feed, lines);
      ghost var i;
      next, i := WalkReserve(ranked, cap, feed);
      WalkEnds(pool, ranked, i, next, seen);
    }

    method WalkReserve(ranked: seq<Item>, cap: int, feed: Feed) returns (ghost next: seq<Item>, ghost reached: nat)
      requires Valid() && reserved == picked && (|out| < limit || limit <= 0)
      requires cap > 0 && Sorted(SeverityLe, ranked) && forall x :: x in ranked ==> From(feed, x)
      modifies this
      ensures Valid() && reserved == picked
      ensures picked == old(picked) + next
      ensures Walked(ranked, reached, next, seen)
      ensures reached == |ranked| || Count(feed, picked) >= cap || |picked| >= limit
      ensures next != [] ==> Count(feed, picked) <= cap
      ensures limit >= 1 ==> |picked| <= limit
      ensures limit <= 0 && old(picked) == [] ==> next == FirstLine(ranked)
    {
      ghost var base := picked;
      next := [];
      var i := 0;
      while i < |ranked|
        invariant 0 <= i <= |ranked|
        invariant Valid() && reserved == picked == base + next
        invariant |out| < limit || (limit <= 0 && next == [] && i == 0)
        invariant Walked(ranked, i, next, seen)
        invariant next != [] ==> Count(feed, picked) <= cap
      {
        if Count(feed, reserved) >= cap {
          break;
        }
        next := ReserveNext(ranked, i, feed, base, next);
        i := i + 1;
        if |out| >= limit {
          break;
        }
      }
      reached := i;
    }

    /** One turn of the last loop, which has added `next` to `base` so far. */
    method FillNext(remaining: seq<Item>, i: nat, ghost base: seq<Item>, ghost next: seq<Item>)
      returns (ghost more: seq<Item>)
      requires Valid() && picked == base + next && Walked(remaining, i, next, seen)
      requires i < |remaining| && Sorted(SeverityLe, remaining)
      modifies this`out, this`picked, this`seen
      ensures Valid() && picked == base + more && Walked(remaining, i + 1, more, seen)
      ensures |picked| <= old(|picked|) + 1
    {
      ghost var before := seen;
      var added := AppendItem(remaining[i]);
      WalkStep(remaining, i, next, before, added);
      more := next + if added then [remaining[i]] else [];
    }

    /** The last loop: fill what room is left with the best of the rest. */
    method Fill(lines: seq<Item>) returns (ghost next: seq<Item>)
      requires Valid() && |out| < limit && reserved == picked
      modifies this
      ensures Valid() && |picked| <= limit
      ensures picked == old(picked) + next
      ensures Rest(lines, limit, old(picked), next)
    {
      next := [];
      ghost var pool := NotIn(reserved, lines);
      var remaining := Sort(SeverityLe, NotIn(reserved, lines));
      RankedIsSorted(pool);
      var i := 0;
      while i < |remaining|
        invariant 0 <= i <= |remaining|
        invariant Valid() && |out| <= limit
        invariant picked == old(picked) + next
        invariant Walked(remaining, i, next, seen)
      {
        if |out| >= limit {
          break;
        }
        next := FillNext(remaining, i, old(picked), next);
        i := i + 1;
      }
      WalkEnds(pool, remaining, i, next, seen);
    }
  }

  function Filter(feed: Feed, items: seq<Item>): seq<Item> {
    if items == [] then []
    else Filter(feed, items[..|items| - 1]) + if From(feed, items[|items| - 1]) then [items[|items| - 1]] else []
  }

  lemma {:induction false} FilterMembers(feed: Feed, items: seq<Item>)
    ensures forall x :: x in Filter(feed, items) <==> x in items && From(feed, x)
  {
    if items != [] {
      FilterMembers(feed, items[..|items| - 1]);
      assert items == items[..|items| - 1] + [items[|items| - 1]];
    }
  }

  function NotIn(reserved: seq<Item>, items: seq<Item>): seq<Item> {
    if items == [] then []
    else NotIn(reserved, items[..|items| - 1]) + if items[|items| - 1] !in reserved then [items[|items| - 1]] else []
  }

  lemma {:induction false} NotInMembers(reserved: seq<Item>, items: seq<Item>)
    ensures forall x :: x in NotIn(reserved, items) <==> x in items && x !in reserved
  {
    if items != [] {
      NotInMembers(reserved, items[..|items| - 1]);
      assert items == items[..|items| - 1] + [items[|items| - 1]];
    }
  }

  /** How far a walk down a ranked list has come: what it took from the first `i`, and `seen` covers them. */
  ghost predicate Walked(ranked: seq<Item>, i: nat, next: seq<Item>, seen: set<string>) {
    && i <= |ranked|
    && Sorted(SeverityLe, next)
    && (forall y :: y in next ==> y in ranked[..i])
    && (forall j :: 0 <= j < i && ranked[j].text != "" ==> Key(ranked[j].text) in seen)
  }

  lemma WalkTake(ranked: seq<Item>, i: nat, next: seq<Item>, seen: set<string>)
    requires Walked(ranked, i, next, seen) && i < |ranked| && Sorted(SeverityLe, ranked)
    ensures Walked(ranked, i + 1, next + [ranked[i]], seen + {Key(ranked[i].text)})
  {
    assert ranked[..i + 1] == ranked[..i] + [ranked[i]];
    forall k | 0 <= k < |next| ensures SeverityLe(next[k], ranked[i]) {
      assert next[k] in ranked[..i];
      var j :| 0 <= j < i && ranked[..i][j] == next[k];
    }
  }

  lemma WalkSkip(ranked: seq<Item>, i: nat, next: seq<Item>, seen: set<string>)
    requires Walked(ranked, i, next, seen) && i < |ranked|
    requires ranked[i].text == "" || Key(ranked[i].text) in seen
    ensures Walked(ranked, i + 1, next, seen)
  {
    assert ranked[..i + 1] == ranked[..i] + [ranked[i]];
  }

  lemma WalkStep(ranked: seq<Item>, i: nat, next: seq<Item>, seen: set<string>, added: bool)
    requires Walked(ranked, i, next, seen) && i < |ranked| && Sorted(SeverityLe, ranked)
    requires added <==> ranked[i].text != "" && Key(ranked[i].text) !in seen
    ensures Walked(ranked, i + 1, next + if added then [ranked[i]] else [],
                   seen + if added then {Key(ranked[i].text)} else {})
  {
    if added {
      WalkTake(ranked, i, next, seen);
    } else {
      WalkSkip(ranked, i, next, seen);
      assert next + [] == next && seen + {} == seen;
    }
  }

  /** Whatever a walk has not reached is no better than what it took. */
  lemma WalkEnds(pool: seq<Item>, ranked: seq<Item>, i: nat, next: seq<Item>, seen: set<string>)
    requires Walked(ranked, i, next, seen) && Sorted(SeverityLe, ranked)
    requires forall x :: x in ranked <==> x in pool
    ensures BestOf(pool, next, seen)
    ensures i == |ranked| ==> Keys(pool) <= seen
  {
    forall y | y in next ensures y in pool {
      assert y in ranked[..i];
    }
    forall x, y | x in pool && x.text != "" && Key(x.text) !in seen && y in next ensures SeverityLe(y, x) {
      var j :| 0 <= j < |ranked| && ranked[j] == x;
      assert y in ranked[..i];
      var k :| 0 <= k < i && ranked[..i][k] == y;
    }
    if i == |ranked| {
      KeysMembers(pool);
      forall x | x in pool && x.text != "" ensures Key(x.text) in seen {
        var j :| 0 <= j < |ranked| && ranked[j] == x;
      }
    }
  }

  // What a selection promises, for a positive limit. `picked` is made of GDELT reservations `first`,
  // NewsData reservations `second`, and the rest.

  /** As many distinct lines as fit, and no key twice. */
  ghost predicate FillsTheLimit(lines: seq<Item>, limit: int, picked: seq<Item>) {
    && (forall x :: x in picked ==> x in lines)
    && Distinct(picked)
    && |picked| == Min(limit, |Keys(lines)|)
  }

  /** Exactly the GDELT reservation that is possible, and the best of them. */
  ghost predicate KeepsGdelt(lines: seq<Item>, limit: int, reserve: int, first: seq<Item>) {
    && (forall x :: x in first ==> x.gdelt)
    && |first| == Min(if reserve < 0 then 0 else reserve, Min(limit, |Keys(Filter(Gdelt, lines))|))
    && BestOf(Filter(Gdelt, lines), first, Keys(first))
  }

  /** Full, or the NewsData reserve is met, or every NewsData key is represented. */
  ghost predicate KeepsNews(lines: seq<Item>, limit: int, reserve: int, first: seq<Item>, second: seq<Item>) {
    var kept := first + second;
    && (forall x :: x in second ==> x.newsdata)
    && (second != [] ==> Count(NewsData, kept) <= reserve)
    && (|kept| == limit || Count(NewsData, kept) >= reserve || Keys(Filter(NewsData, lines)) <= Keys(kept))
    && BestOf(Filter(NewsData, lines), second, Keys(kept))
  }

  /** Whatever is left out found the output full and is no better than any non-reserved pick. */
  ghost predicate RestIsBest(lines: seq<Item>, limit: int, picked: seq<Item>, rest: seq<Item>) {
    && Sorted(SeverityLe, rest)
    && forall x :: x in lines && x.text != "" && Key(x.text) !in Keys(picked) ==>
         |picked| == limit && forall y :: y in rest ==> SeverityLe(y, x)
  }

  ghost predicate Selected(lines: seq<Item>, limit: int, gdeltReserve: int, newsReserve: int,
                           first: seq<Item>, second: seq<Item>, rest: seq<Item>)
  {
    var picked := first + second + rest;
    && FillsTheLimit(lines, limit, picked)
    && KeepsGdelt(lines, limit, gdeltReserve, first)
    && KeepsNews(lines, limit, newsReserve, first, second)
    && RestIsBest(lines, limit, picked, rest)
  }

  lemma GdeltKept(lines: seq<Item>, limit: int, reserve: int, first: seq<Item>)
    requires limit >= 1 && Distinct(first) && |first| <= limit
    requires Phase(Gdelt, lines, reserve, limit, [], first)
    ensures KeepsGdelt(lines, limit, reserve, first)
  {
    assert [] + first == first;
    FilterMembers(Gdelt, lines);
    CountAll(Gdelt, first);
    KeysBound(first, Filter(Gdelt, lines));
  }

  /** Distinct picks from a pool are at most as many as its keys, and exactly as many once they cover them. */
  lemma {:induction false} KeysBound(picks: seq<Item>, pool: seq<Item>)
    requires Distinct(picks) && forall x :: x in picks ==> x in pool
    ensures |picks| <= |Keys(pool)|
    ensures Keys(pool) <= Keys(picks) ==> |picks| == |Keys(pool)|
  {
    KeysSubset(picks, pool);
    SubsetSize(Keys(picks), Keys(pool));
    if Keys(pool) <= Keys(picks) {
      SubsetSize(Keys(pool), Keys(picks));
    }
  }

  lemma NewsKept(lines: seq<Item>, limit: int, reserve: int, first: seq<Item>, second: seq<Item>)
    requires |first + second| <= limit
    requires Phase(NewsData, lines, reserve, limit, first, second)
    ensures KeepsNews(lines, limit, reserve, first, second)
  {
    FilterMembers(NewsData, lines);
  }

  lemma {:induction false} DistinctPrefix(a: seq<Item>, b: seq<Item>)
    requires Distinct(a + b)
    ensures Distinct(a)
  {
    if b == [] {
      assert a + b == a;
    } else {
      assert (a + b)[..|a + b| - 1] == a + b[..|b| - 1];
      DistinctLast(a + b);
      DistinctPrefix(a, b[..|b| - 1]);
    }
  }

  /** With the rest filled in, every line is accounted for. */
  lemma Filled(lines: seq<Item>, limit: int, kept: seq<Item>, rest: seq<Item>)
    requires limit >= 1 && Distinct(kept + rest) && |kept + rest| <= limit
    requires forall x :: x in kept ==> x in lines
    requires Rest(lines, limit, kept, rest)
    ensures FillsTheLimit(lines, limit, kept + rest)
    ensures RestIsBest(lines, limit, kept + rest, rest)
  {
    var picked, pool := kept + rest, NotIn(kept, lines);
    NotInMembers(kept, lines);
    KeysMembers(picked);
    KeysMembers(pool);
    KeysMembers(lines);
    forall x | x in lines && x.text != "" && Key(x.text) !in Keys(picked) ensures x in pool {
      assert x in kept ==> x in picked;
    }
    KeysBound(picked, lines);
    if |picked| < limit {
      assert Keys(lines) <= Keys(picked);
    }
  }

  /** The three phases together. */
  lemma {:induction false} Conclude(lines: seq<Item>, limit: int, gdeltReserve: int, newsReserve: int,
                 first: seq<Item>, second: seq<Item>, rest: seq<Item>)
    requires limit >= 1 && Distinct(first + second + rest) && |first + second + rest| <= limit
    requires Phase(Gdelt, lines, gdeltReserve, limit, [], first)
    requires Phase(NewsData, lines, newsReserve, limit, first, second)
    requires Rest(lines, limit, first + second, rest)
    ensures Selected(lines, limit, gdeltReserve, newsReserve, first, second, rest)
  {
    DistinctPrefix(first + second, rest);
    DistinctPrefix(first, second);
    GdeltKept(lines, limit, gdeltReserve, first);
    NewsKept(lines, limit, newsReserve, first, second);
    FilterMembers(Gdelt, lines);
    FilterMembers(NewsData, lines);
    Filled(lines, limit, first + second, rest);
  }

  /** The three phases on a new picker. */
  method RunPhases(p: Picker, lines: seq<Item>, gdeltReserve: int, newsReserve: int)
    returns (ghost first: seq<Item>, ghost second: seq<Item>, ghost rest: seq<Item>)
    requires p.Valid() && p.picked == [] && p.reserved == []
    modifies p
    ensures p.Valid() && p.picked == first + second + rest
    ensures p.limit >= 1 ==> |p.picked| <= p.limit
    ensures p.limit <= 0 ==> p.picked == if gdeltReserve <= 0 && newsReserve <= 0 then []
                                         else FirstLine(Sort(SeverityLe, Filter(LoneFeed(gdeltReserve), lines)))
    ensures Phase(Gdelt, lines, gdeltReserve, p.limit, [], first)
    ensures Phase(NewsData, lines, newsReserve, p.limit, first, second)
    ensures Rest(lines, p.limit, first + second, rest)
  {
    first := p.ReserveFrom(true, lines, gdeltReserve, Gdelt);
    assert p.picked == first;
    second := p.ReserveFrom(gdeltReserve <= 0 || |p.out| < p.limit, lines, newsReserve, NewsData);
    assert p.picked == first + second;
    if |p.out| < p.limit {
      rest := p.Fill(lines);
    } else {
      rest := [];
      NoRest(lines, p.limit, first + second);
      assert first + second + rest == first + second;
    }
  }

  /** The feed that is tried when there is no room. */
  function LoneFeed(gdeltReserve: int): Feed {
    if gdeltReserve > 0 then Gdelt else NewsData
  }

  /** `x` has a text and nothing in the pool ranks before it. */
  ghost predicate Leads(x: Item, pool: seq<Item>) {
    x in pool && x.text != "" && forall y :: y in pool ==> SeverityLe(x, y)
  }

  /** `x` is a line of the feed that is tried, has a text, and no line of that feed is more severe. */
  ghost predicate LeadsFeed(x: Item, lines: seq<Item>, gdeltReserve: int) {
    && x in lines && x.text != "" && (if gdeltReserve > 0 then x.gdelt else x.newsdata)
    && forall y :: y in lines && (if gdeltReserve > 0 then y.gdelt else y.newsdata) ==> NoWorse(x, y)
  }

  /**
   What a limit of 0 or less leaves: one line when the first feed with a reservation has an item that
   leads it and has a text, and otherwise none.
   */
  ghost predicate NoRoom(lines: seq<Item>, gdeltReserve: int, newsReserve: int, picked: seq<Item>) {
    && |picked| <= 1
    && (|picked| == 1 ==> LeadsFeed(picked[0], lines, gdeltReserve))
    && (|picked| == 1 <==> (gdeltReserve > 0 || newsReserve > 0) && exists x :: LeadsFeed(x, lines, gdeltReserve))
  }

  lemma LeadsIff(x: Item, lines: seq<Item>, gdeltReserve: int)
    ensures LeadsFeed(x, lines, gdeltReserve) <==> Leads(x, Filter(LoneFeed(gdeltReserve), lines))
  {
    var pool := Filter(LoneFeed(gdeltReserve), lines);
    FilterMembers(LoneFeed(gdeltReserve), lines);
    forall y ensures SeverityLe(x, y) <==> NoWorse(x, y) {
      NoWorseIff(x, y);
    }
  }

  lemma FirstLineLeads(pool: seq<Item>)
    ensures var picked := FirstLine(Sort(SeverityLe, pool));
            && (|picked| == 1 ==> Leads(picked[0], pool))
            && (|picked| == 1 <==> exists x :: Leads(x, pool))
  {
    RankedIsSorted(pool);
    var ranked := Sort(SeverityLe, pool);
    if ranked != [] {
      assert ranked[0] in pool;
      forall y | y in pool ensures SeverityLe(ranked[0], y) {
        var j :| 0 <= j < |ranked| && ranked[j] == y;
        LexRefl(y.text);
      }
      forall x | Leads(x, pool) ensures ranked[0].text != "" {
        assert SeverityLe(x, ranked[0]) && SeverityLe(ranked[0], x);
      }
    }
  }

  lemma LexRefl(a: string)
    ensures LexLe(a, a)
  {
    LexTotal(a, a);
  }

  /** An item without text that leads its feed blocks the line: keys alone do not decide. */
  lemma TextlessLeaderBlocks(x: Item, y: Item)
    requires x.text == "" && SeverityRank(x.severity) < SeverityRank(y.severity)
    ensures forall z :: !Leads(z, [x, y])
  {
    assert x in [x, y];
  }

  lemma DistinctKeys(picked: seq<Item>)
    requires Distinct(picked)
    ensures forall i, j :: 0 <= i < j < |picked| ==> Key(picked[i].text) != Key(picked[j].text)
  {
    forall i, j | 0 <= i < j < |picked| ensures Key(picked[i].text) != Key(picked[j].text) {
      DistinctMeans(picked, i, j);
    }
  }

  // ---------- A selection by severity ----------

  /** Some pick has the key of `x`. */
  ghost predicate Shows(picked: seq<Item>, x: Item) {
    exists p :: p in picked && Key(p.text) == Key(x.text)
  }

  ghost predicate InOrder(picks: seq<Item>) {
    forall i, j :: 0 <= i < j < |picks| ==> NoWorse(picks[i], picks[j])
  }

  ghost function NewsAmong(picked: seq<Item>): set<Item> {
    set x | x in picked && x.newsdata
  }

  /** What a selection leaves out, in terms of the lines, their feeds and severities only. */
  ghost predicate LeavesOut(lines: seq<Item>, limit: int, gdeltReserve: int, newsReserve: int,
                            first: seq<Item>, second: seq<Item>, rest: seq<Item>)
  {
    var kept, picked := first + second, first + second + rest;
    && (forall x :: x in picked ==> x in lines && x.text != "")
    && (forall x :: x in first ==> x.gdelt) && (forall x :: x in second ==> x.newsdata)
    && InOrder(first) && InOrder(second) && InOrder(rest)
    && |first| <= (if gdeltReserve < 0 then 0 else gdeltReserve) && |picked| <= limit
    && (second != [] ==> |NewsAmong(kept)| <= newsReserve)
    && (forall x :: x in lines && x.text != "" && x.gdelt && !Shows(first, x) ==>
          (|first| >= gdeltReserve || |first| == limit) && forall y :: y in first ==> NoWorse(y, x))
    && (forall x :: x in lines && x.text != "" && x.newsdata && !Shows(kept, x) ==>
          (|NewsAmong(kept)| >= newsReserve || |kept| == limit) && forall y :: y in second ==> NoWorse(y, x))
    && (forall x :: x in lines && x.text != "" && !Shows(picked, x) ==>
          |picked| == limit && forall y :: y in rest ==> NoWorse(y, x))
  }

  lemma LastIsNew(picked: seq<Item>)
    requires Distinct(picked) && picked != []
    ensures Distinct(picked[..|picked| - 1]) && picked[|picked| - 1] !in picked[..|picked| - 1]
  {
    DistinctLast(picked);
    KeysMembers(picked[..|picked| - 1]);
  }

  lemma NewsMore(init: seq<Item>, last: Item)
    requires last !in init
    ensures |NewsAmong(init + [last])| == |NewsAmong(init)| + if last.newsdata then 1 else 0
  {
    assert NewsAmong(init + [last]) == NewsAmong(init) + if last.newsdata then {last} else {};
  }

  lemma {:induction false} NewsCounted(items: seq<Item>)
    requires Distinct(items)
    ensures Count(NewsData, items) == |NewsAmong(items)|
  {
    if items != [] {
      var init, last := items[..|items| - 1], items[|items| - 1];
      LastIsNew(items);
      NewsCounted(init);
      NewsMore(init, last);
      assert items == init + [last];
    }
  }

  lemma ShowsIff(picked: seq<Item>, x: Item)
    requires Distinct(picked)
    ensures Shows(picked, x) <==> Key(x.text) in Keys(picked)
  {
    KeysMembers(picked);
    DistinctTexts(picked);
  }

  lemma SortedInOrder(picks: seq<Item>)
    requires Sorted(SeverityLe, picks)
    ensures InOrder(picks)
  {
    forall i, j | 0 <= i < j < |picks| ensures NoWorse(picks[i], picks[j]) {
      NoWorseIff(picks[i], picks[j]);
    }
  }

  lemma GdeltLeftOut(lines: seq<Item>, limit: int, reserve: int, first: seq<Item>, x: Item)
    requires KeepsGdelt(lines, limit, reserve, first) && Distinct(first) && limit >= 1
    requires x in lines && x.text != "" && x.gdelt && !Shows(first, x)
    ensures (|first| >= reserve || |first| == limit) && forall y :: y in first ==> NoWorse(y, x)
  {
    var pool := Filter(Gdelt, lines);
    FilterMembers(Gdelt, lines);
    ShowsIff(first, x);
    KeysMembers(pool);
    KeysSubset(first, pool);
    SubsetSize(Keys(first), Keys(pool));
    forall y | y in first ensures NoWorse(y, x) {
      NoWorseIff(y, x);
    }
  }

  lemma NewsLeftOut(lines: seq<Item>, limit: int, reserve: int, first: seq<Item>, second: seq<Item>, x: Item)
    requires KeepsNews(lines, limit, reserve, first, second) && Distinct(first + second)
    requires x in lines && x.text != "" && x.newsdata && !Shows(first + second, x)
    ensures |NewsAmong(first + second)| >= reserve || |first + second| == limit
    ensures forall y :: y in second ==> NoWorse(y, x)
  {
    FilterMembers(NewsData, lines);
    ShowsIff(first + second, x);
    KeysMembers(Filter(NewsData, lines));
    NewsCounted(first + second);
    forall y | y in second ensures NoWorse(y, x) {
      NoWorseIff(y, x);
    }
  }

  lemma RestLeftOut(lines: seq<Item>, limit: int, picked: seq<Item>, rest: seq<Item>, x: Item)
    requires RestIsBest(lines, limit, picked, rest) && Distinct(picked)
    requires x in lines && x.text != "" && !Shows(picked, x)
    ensures |picked| == limit && forall y :: y in rest ==> NoWorse(y, x)
  {
    ShowsIff(picked, x);
    forall y | y in rest ensures NoWorse(y, x) {
      NoWorseIff(y, x);
    }
  }

  lemma {:induction false} SelectedLeavesOut(lines: seq<Item>, limit: int, gdeltReserve: int, newsReserve: int,
                                             first: seq<Item>, second: seq<Item>, rest: seq<Item>)
    requires limit >= 1 && Selected(lines, limit, gdeltReserve, newsReserve, first, second, rest)
    ensures LeavesOut(lines, limit, gdeltReserve, newsReserve, first, second, rest)
  {
    var kept, picked := first + second, first + second + rest;
    DistinctTexts(picked);
    DistinctPrefix(kept, rest);
    DistinctPrefix(first, second);
    SortedInOrder(first);
    SortedInOrder(second);
    SortedInOrder(rest);
    NewsCounted(kept);
    forall x | x in lines && x.text != "" && x.gdelt && !Shows(first, x)
      ensures (|first| >= gdeltReserve || |first| == limit) && forall y :: y in first ==> NoWorse(y, x)
    {
      GdeltLeftOut(lines, limit, gdeltReserve, first, x);
    }
    forall x | x in lines && x.text != "" && x.newsdata && !Shows(kept, x)
      ensures (|NewsAmong(kept)| >= newsReserve || |kept| == limit) && forall y :: y in second ==> NoWorse(y, x)
    {
      NewsLeftOut(lines, limit, newsReserve, first, second, x);
    }
    forall x | x in lines && x.text != "" && !Shows(picked, x)
      ensures |picked| == limit && forall y :: y in rest ==> NoWorse(y, x)
    {
      RestLeftOut(lines, limit, picked, rest, x);
    }
  }

  method SortBucket(lines: seq<Item>, limit: int, gdeltReserve: int, newsReserve: int)
    returns (out: seq<string>, picked: seq<Item>,
             ghost first: seq<Item>, ghost second: seq<Item>, ghost rest: seq<Item>)
    ensures Lines(out, picked) && picked == first + second + rest
    ensures forall i, j :: 0 <= i < j < |picked| ==> Key(picked[i].text) != Key(picked[j].text)
    ensures limit >= 1 ==> Selected(lines, limit, gdeltReserve, newsReserve, first, second, rest)
    ensures limit >= 1 ==> LeavesOut(lines, limit, gdeltReserve, newsReserve, first, second, rest)
    ensures limit <= 0 ==> NoRoom(lines, gdeltReserve, newsReserve, picked)
  {
    var p := new Picker(limit);
    first, second, rest := RunPhases(p, lines, gdeltReserve, newsReserve);
    out, picked := p.out, p.picked;
    DistinctKeys(picked);
    if limit >= 1 {
      Conclude(lines, limit, gdeltReserve, newsReserve, first, second, rest);
      SelectedLeavesOut(lines, limit, gdeltReserve, newsReserve, first, second, rest);
    } else {
      FirstLineLeads(Filter(LoneFeed(gdeltReserve), lines));
      forall x ensures LeadsFeed(x, lines, gdeltReserve) <==> Leads(x, Filter(LoneFeed(gdeltReserve), lines)) {
        LeadsIff(x, lines, gdeltReserve);
      }
    }
  }

  // ---------- Watch items ----------

  datatype Watch = Watch(id: string, confidence: real, title: string)

  predicate ConfidenceGe(x: Watch, y: Watch) { x.confidence >= y.confidence }

  function Ids(items: seq<Watch>): set<string> {
    if items == [] then {} else Ids(items[..|items| - 1]) + {items[|items| - 1].id}
  }

  lemma {:induction false} IdsContain(items: seq<Watch>, x: Watch)
    requires x in items
    ensures x.id in Ids(items)
  {
    var init, last := items[..|items| - 1], items[|items| - 1];
    assert items == init + [last];
    if x != last {
      IdsContain(init, x);
    }
  }

  lemma {:induction false} ItemOf(items: seq<Watch>, id: string) returns (x: Watch)
    requires id in Ids(items)
    ensures x in items && x.id == id
  {
    x := items[|items| - 1];
    if x.id != id {
      x := ItemOf(items[..|items| - 1], id);
    }
  }

  lemma RankedByConfidence(items: seq<Watch>)
    ensures Sorted(ConfidenceGe, Sort(ConfidenceGe, items))
    ensures forall x :: x in Sort(ConfidenceGe, items) <==> x in items
  {
    SortIsSorted(ConfidenceGe, items);
  }

  /** Some kept item has the id of `x` and is at least as confident. */
  ghost predicate Represented(x: Watch, ranked: seq<Watch>) {
    exists y :: y in ranked && y.id == x.id && y.confidence >= x.confidence
  }

  ghost predicate AllAbove(ranked: seq<Watch>, x: Watch) {
    forall y :: y in ranked ==> y.confidence >= x.confidence
  }

  /**
   How far the ranking loop has come: it has kept the first item of every id among the first `i`, all
   of them at least as confident as what it has not reached.
   */
  ghost predicate Kept(sorted: seq<Watch>, i: nat, ranked: seq<Watch>) {
    && i <= |sorted|
    && |Ids(ranked)| == |ranked|
    && (forall y :: y in ranked ==> y in sorted)
    && Sorted(ConfidenceGe, ranked)
    && (forall j {:trigger Represented(sorted[j], ranked)} :: 0 <= j < i ==> Represented(sorted[j], ranked))
    && (forall k {:trigger AllAbove(ranked, sorted[k])} :: i <= k < |sorted| ==> AllAbove(ranked, sorted[k]))
  }

  lemma KeptTake(sorted: seq<Watch>, i: nat, ranked: seq<Watch>)
    requires Kept(sorted, i, ranked) && i < |sorted| && Sorted(ConfidenceGe, sorted)
    requires sorted[i].id !in Ids(ranked)
    ensures Kept(sorted, i + 1, ranked + [sorted[i]])
    ensures Ids(ranked + [sorted[i]]) == Ids(ranked) + {sorted[i].id}
  {
    var x, next := sorted[i], ranked + [sorted[i]];
    assert next[..|ranked|] == ranked;
    assert AllAbove(ranked, sorted[i]);
    AppendBelow(ranked, x);
    forall j | 0 <= j < i ensures Represented(sorted[j], next) {
      StaysRepresented(sorted[j], ranked, x);
    }
    forall k | i < k < |sorted| ensures AllAbove(next, sorted[k]) {
      assert AllAbove(ranked, sorted[k]) && ConfidenceGe(x, sorted[k]);
    }
  }

  lemma AppendBelow(ranked: seq<Watch>, x: Watch)
    requires Sorted(ConfidenceGe, ranked) && AllAbove(ranked, x)
    ensures Sorted(ConfidenceGe, ranked + [x]) && Represented(x, ranked + [x])
  {
    assert (ranked + [x])[|ranked|] == x;
    forall k | 0 <= k < |ranked| ensures ConfidenceGe(ranked[k], x) {
      assert ranked[k] in ranked;
    }
  }

  lemma StaysRepresented(x: Watch, ranked: seq<Watch>, z: Watch)
    requires Represented(x, ranked)
    ensures Represented(x, ranked + [z])
  {
    var y :| y in ranked && y.id == x.id && y.confidence >= x.confidence;
    assert y in ranked + [z];
  }

  lemma KeptSkip(sorted: seq<Watch>, i: nat, ranked: seq<Watch>)
    requires Kept(sorted, i, ranked) && i < |sorted|
    requires sorted[i].id in Ids(ranked)
    ensures Kept(sorted, i + 1, ranked)
  {
    assert AllAbove(ranked, sorted[i]);
    var y := ItemOf(ranked, sorted[i].id);
    assert Represented(sorted[i], ranked);
  }

  /** Every candidate is represented by an item of its id at least as confident, or lost to a full list. */
  ghost predicate BestWatch(candidates: seq<Watch>, cap: int, ranked: seq<Watch>) {
    && (forall y :: y in ranked ==> y in candidates)
    && Sorted(ConfidenceGe, ranked)
    && (forall i, j :: 0 <= i < j < |ranked| ==> ranked[i].id != ranked[j].id)
    && |Ids(ranked)| == |ranked| == Min(cap, |Ids(candidates)|)
    && forall x :: x in candidates ==> Represented(x, ranked) || (|ranked| == cap && AllAbove(ranked, x))
  }

  lemma {:induction false} IdsDiffer(ranked: seq<Watch>, i: nat, j: nat)
    requires |Ids(ranked)| == |ranked| && i < j < |ranked|
    ensures ranked[i].id != ranked[j].id
  {
    var n := |ranked| - 1;
    IdsAtMost(ranked[..n]);
    if j < n {
      IdsDiffer(ranked[..n], i, j);
    } else {
      assert ranked[..n][i] in ranked[..n];
      IdsContain(ranked[..n], ranked[i]);
    }
  }

  lemma {:induction false} IdsAtMost(items: seq<Watch>)
    ensures |Ids(items)| <= |items|
  {
    if items != [] {
      IdsAtMost(items[..|items| - 1]);
    }
  }

  lemma KeptIsBest(candidates: seq<Watch>, sorted: seq<Watch>, i: nat, cap: int, ranked: seq<Watch>)
    requires Kept(sorted, i, ranked)
    requires forall x :: x in sorted <==> x in candidates
    requires |ranked| <= cap && (i == |sorted| || |ranked| == cap)
    ensures BestWatch(candidates, cap, ranked)
  {
    forall x | x in candidates ensures Represented(x, ranked) || (|ranked| == cap && AllAbove(ranked, x)) {
      var j :| 0 <= j < |sorted| && sorted[j] == x;
      if j >= i {
        assert AllAbove(ranked, sorted[j]);
      } else {
        assert Represented(sorted[j], ranked);
      }
    }
    KeptCount(candidates, cap, ranked);
    forall i, j | 0 <= i < j < |ranked| ensures ranked[i].id != ranked[j].id {
      IdsDiffer(ranked, i, j);
    }
  }

  lemma {:induction false} KeptCount(candidates: seq<Watch>, cap: int, ranked: seq<Watch>)
    requires |Ids(ranked)| == |ranked| <= cap && forall y :: y in ranked ==> y in candidates
    requires |ranked| == cap || forall x :: x in candidates ==> Represented(x, ranked)
    ensures |ranked| == Min(cap, |Ids(candidates)|)
  {
    forall id | id in Ids(ranked) ensures id in Ids(candidates) {
      var y := ItemOf(ranked, id);
      IdsContain(candidates, y);
    }
    SubsetSize(Ids(ranked), Ids(candidates));
    if |ranked| < cap {
      forall id | id in Ids(candidates) ensures id in Ids(ranked) {
        var x := ItemOf(candidates, id);
        assert Represented(x, ranked);
        var y :| y in ranked && y.id == x.id && y.confidence >= x.confidence;
        IdsContain(ranked, y);
      }
      SubsetSize(Ids(candidates), Ids(ranked));
    }
  }

  /** The first of the most confident candidates. */
  ghost predicate IsLeader(candidates: seq<Watch>, k: nat) {
    && k < |candidates|
    && (forall j :: 0 <= j < k ==> candidates[j].confidence < candidates[k].confidence)
    && (forall j :: k < j < |candidates| ==> candidates[j].confidence <= candidates[k].confidence)
  }

  /** What is returned for a cap without room: the leader, if there are candidates at all. */
  ghost predicate LeaderOnly(candidates: seq<Watch>, ranked: seq<Watch>) {
    if candidates == [] then ranked == []
    else exists k: nat :: IsLeader(candidates, k) && ranked == [candidates[k]]
  }

  lemma {:induction false} SomeLeader(candidates: seq<Watch>) returns (k: nat)
    requires candidates != []
    ensures IsLeader(candidates, k)
  {
    k := 0;
    if |candidates| > 1 {
      var n := |candidates| - 1;
      k := SomeLeader(candidates[..n]);
      if candidates[n].confidence > candidates[k].confidence {
        k := n;
      }
    }
  }

  lemma LeaderIsFirst(candidates: seq<Watch>)
    requires candidates != []
    ensures LeaderOnly(candidates, [Sort(ConfidenceGe, candidates)[0]])
  {
    var k := SomeLeader(candidates);
    FirstLeastLeads(ConfidenceGe, candidates, k);
    SortedAtRank(ConfidenceGe, candidates, k);
  }

  /** The loop over the sorted candidates. */
  method RankSorted(sorted: seq<Watch>, cap: int) returns (ranked: seq<Watch>, ghost reached: nat)
    requires Sorted(ConfidenceGe, sorted)
    ensures Kept(sorted, reached, ranked) && (reached == |sorted| || |ranked| >= cap)
    ensures cap >= 1 ==> |ranked| <= cap
    ensures cap <= 0 ==> ranked == if sorted == [] then [] else [sorted[0]]
  {
    ranked := [];
    var seen: set<string> := {};
    var i := 0;
    while i < |sorted|
      invariant 0 <= i <= |sorted|
      invariant Kept(sorted, i, ranked) && seen == Ids(ranked)
      invariant |ranked| < cap || (cap <= 0 && ranked == [] && i == 0)
    {
      var item := sorted[i];
      if item.id in seen {
        KeptSkip(sorted, i, ranked);
        i := i + 1;
        continue;
      }
      KeptTake(sorted, i, ranked);
      i := i + 1;
      seen := seen + {item.id};
      ranked := ranked + [item];
      if |ranked| >= cap {
        break;
      }
    }
    reached := i;
  }

  /** The ranking tail of `build_watch_items`: by confidence, one per id, at most `cap`. */
  method RankWatchItems(candidates: seq<Watch>, cap: int) returns (ranked: seq<Watch>)
    ensures cap >= 1 ==> BestWatch(candidates, cap, ranked)
    ensures cap <= 0 ==> LeaderOnly(candidates, ranked)
  {
    var sorted := Sort(ConfidenceGe, candidates);
    RankedByConfidence(candidates);
    ghost var reached;
    ranked, reached := RankSorted(sorted, cap);
    if cap >= 1 {
      KeptIsBest(candidates, sorted, reached, cap, ranked);
    } else if candidates != [] {
      LeaderIsFirst(candidates);
    }
  }
}
