/**
 Reassembly of streamed tool calls (backend/chat_tools.py, `_accumulate_tool_call_deltas` and
 `_ordered_tool_calls`). An absent or empty string field of a delta is "".
 */
module ToolCalls {
  import opened Decimals

  datatype Delta = Delta(index: int, id: string, name: string, args: string)

  datatype Slot = Slot(id: string, name: string, args: string)

  datatype Call = Call(id: string, name: string, args: string)

  const EMPTY_SLOT := Slot("", "", "")

  function Merge(slot: Slot, d: Delta): Slot {
    Slot(if d.id != "" then d.id else slot.id, if d.name != "" then d.name else slot.name, slot.args + d.args)
  }

  function MergeOne(acc: map<int, Slot>, d: Delta): map<int, Slot> {
    acc[d.index := Merge(if d.index in acc then acc[d.index] else EMPTY_SLOT, d)]
  }

  function MergeAll(acc: map<int, Slot>, deltas: seq<Delta>): map<int, Slot> {
    if deltas == [] then acc
    else MergeOne(MergeAll(acc, deltas[..|deltas| - 1]), deltas[|deltas| - 1])
  }

  function Least(keys: set<int>): (k: int)
    requires keys != {}
    ensures k in keys && forall j :: j in keys ==> k <= j
  {
    LeastExists(keys);
    var k :| k in keys && forall j :: j in keys ==> k <= j;
    k
  }

  lemma {:induction false} LeastExists(keys: set<int>)
    requires keys != {}
    ensures exists k :: k in keys && forall j :: j in keys ==> k <= j
    decreases |keys|
  {
    var x := AnyOf(keys);
    var rest := keys - {x};
    if rest == {} {
      assert keys == {x};
      assert x in keys && forall j :: j in keys ==> x <= j;
    } else {
      LeastExists(rest);
      var y :| y in rest && forall j :: j in rest ==> y <= j;
      var k := if x <= y then x else y;
      assert forall j :: j in keys ==> j == x || j in rest;
      assert k in keys && forall j :: j in keys ==> k <= j;
    }
  }

  lemma AnyOf<T>(s: set<T>) returns (x: T)
    requires s != {}
    ensures x in s
  {
    x :| x in s;
  }

  ghost predicate Ascending(s: seq<int>) {
    forall i, j :: 0 <= i < j < |s| ==> s[i] < s[j]
  }

  lemma Prepend(k: int, rest: seq<int>, keys: set<int>)
    requires Ascending(rest) && k in keys && forall j :: j in keys ==> k <= j
    requires forall j :: j in rest <==> j in keys && j != k
    ensures Ascending([k] + rest)
    ensures forall j :: j in [k] + rest <==> j in keys
  {
    forall j | 0 <= j < |rest| ensures k < rest[j] {
      assert rest[j] in rest;
    }
  }

  /** The keys in ascending order, as `sorted(acc)` lists them. */
  function SortedKeys(keys: set<int>): (r: seq<int>)
    ensures forall k :: k in r <==> k in keys
    ensures Ascending(r)
    decreases |keys|
  {
    if keys == {} then []
    else
      var k := Least(keys);
      var rest := SortedKeys(keys - {k});
      Prepend(k, rest, keys);
      [k] + rest
  }

  lemma {:induction false} MergeNext(acc: map<int, Slot>, deltas: seq<Delta>, i: nat)
    requires i < |deltas|
    ensures MergeAll(acc, deltas[..i + 1]) == MergeOne(MergeAll(acc, deltas[..i]), deltas[i])
  {
    assert deltas[..i + 1][..i] == deltas[..i];
  }

  /** A slot that is set to its default first and merged into then. */
  lemma DefaultThenMerge(acc: map<int, Slot>, d: Delta)
    ensures var started := if d.index in acc then acc else acc[d.index := EMPTY_SLOT];
            started[d.index := Merge(started[d.index], d)] == MergeOne(acc, d)
  {}

  method MergeSlot(given: Slot, d: Delta) returns (slot: Slot)
    ensures slot == Merge(given, d)
  {
    slot := given;
    if d.id != "" {
      slot := slot.(id := d.id);
    }
    if d.name != "" {
      slot := slot.(name := d.name);
    }
    slot := slot.(args := slot.args + d.args);
  }

  /** What call number `i` looks like once its slot is complete. */
  function Finish(slot: Slot, i: nat): Call {
    Call(if slot.id != "" then slot.id else "call_" + Decimal(i),
         slot.name, if slot.args != "" then slot.args else "{}")
  }

  function OrderedCalls(acc: map<int, Slot>): (out: seq<Call>)
    ensures |out| == |SortedKeys(acc.Keys)|
  {
    var keys := SortedKeys(acc.Keys);
    seq(|keys|, i requires 0 <= i < |keys| => Finish(acc[keys[i]], i))
  }

  /** The calls as they were sent, without stand-ins. */
  function SentCalls(acc: map<int, Slot>): seq<Call> {
    var keys := SortedKeys(acc.Keys);
    seq(|keys|, i requires 0 <= i < |keys| => Call(acc[keys[i]].id, acc[keys[i]].name, acc[keys[i]].args))
  }

  /** No call lacks an id or arguments. */
  ghost predicate Complete(acc: map<int, Slot>) {
    forall k :: k in acc ==> acc[k].id != "" && acc[k].args != ""
  }

  lemma FinishKeepsIff(slot: Slot, i: nat)
    ensures Finish(slot, i) == Call(slot.id, slot.name, slot.args) <==> slot.id != "" && slot.args != ""
  {
    assert |"call_" + Decimal(i)| >= 5;
  }

  /** The stand-ins leave the calls as they were sent exactly when none of them was needed. */
  lemma StandInsIff(acc: map<int, Slot>)
    ensures OrderedCalls(acc) == SentCalls(acc) <==> Complete(acc)
  {
    var keys := SortedKeys(acc.Keys);
    forall i | 0 <= i < |keys|
      ensures OrderedCalls(acc)[i] == SentCalls(acc)[i] <==> acc[keys[i]].id != "" && acc[keys[i]].args != ""
    {
      FinishKeepsIff(acc[keys[i]], i);
    }
    if Complete(acc) {
      forall i | 0 <= i < |keys| ensures OrderedCalls(acc)[i] == SentCalls(acc)[i] {
        assert keys[i] in keys;
      }
    } else {
      var k :| k in acc && !(acc[k].id != "" && acc[k].args != "");
      assert k in keys;
      var i :| 0 <= i < |keys| && keys[i] == k;
      assert OrderedCalls(acc)[i] != SentCalls(acc)[i];
    }
  }

  lemma FirstStandIn(slot: Slot)
    requires slot.id == ""
    ensures Finish(slot, 0).id == "call_0"
  {
    assert Decimal(0) == "0";
  }

  /** The accumulator of one streamed reply, merged in place. */
  class Accumulator {
    var acc: map<int, Slot>

    constructor ()
      ensures acc == map[]
    {
      acc := map[];
    }

    method Accumulate(deltas: seq<Delta>)
      modifies this
      ensures acc == MergeAll(old(acc), deltas)
    {
      var i := 0;
      while i < |deltas|
        invariant 0 <= i <= |deltas|
        invariant acc == MergeAll(old(acc), deltas[..i])
      {
        var d := deltas[i];
        MergeNext(old(acc), deltas, i);
        DefaultThenMerge(acc, d);
        if d.index !in acc {
          acc := acc[d.index := EMPTY_SLOT];
        }
        var slot := MergeSlot(acc[d.index], d);
        acc := acc[d.index := slot];
        i := i + 1;
      }
      assert deltas[..|deltas|] == deltas;
    }

    method OrderedToolCalls() returns (out: seq<Call>)
      ensures out == OrderedCalls(acc)
    {
      out := [];
      var keys := SortedKeys(acc.Keys);
      for i := 0 to |keys|
        invariant |out| == i && out <= OrderedCalls(acc)
      {
        var slot := acc[keys[i]];
        var call := Call(if slot.id != "" then slot.id else "call_" + Decimal(i), slot.name,
                         if slot.args != "" then slot.args else "{}");
        PrefixNext(out, OrderedCalls(acc), call);
        out := out + [call];
      }
    }
  }

  lemma PrefixNext<T>(done: seq<T>, all: seq<T>, x: T)
    requires done <= all && |done| < |all| && all[|done|] == x
    ensures done + [x] <= all
  {}

  // ---------- Each index is assembled on its own ----------

  /** The deltas of one index, in stream order. */
  function Of(deltas: seq<Delta>, k: int): seq<Delta> {
    if deltas == [] then []
    else Of(deltas[..|deltas| - 1], k) + if deltas[|deltas| - 1].index == k then [deltas[|deltas| - 1]] else []
  }

  function Fold(deltas: seq<Delta>): Slot {
    if deltas == [] then EMPTY_SLOT else Merge(Fold(deltas[..|deltas| - 1]), deltas[|deltas| - 1])
  }

  /** However indices interleave, a slot depends on its own deltas only. */
  lemma {:induction false} SlotsAreIndependent(deltas: seq<Delta>, k: int)
    ensures k in MergeAll(map[], deltas) <==> Of(deltas, k) != []
    ensures k in MergeAll(map[], deltas) ==> MergeAll(map[], deltas)[k] == Fold(Of(deltas, k))
  {
    if deltas != [] {
      var last, mine := deltas[|deltas| - 1], Of(deltas[..|deltas| - 1], k);
      SlotsAreIndependent(deltas[..|deltas| - 1], k);
      assert (mine + [last])[..|mine|] == mine;
      assert mine + [] == mine;
    }
  }

  /** The deltas of an index are those that carry it, in order. */
  lemma {:induction false} OfConcat(a: seq<Delta>, b: seq<Delta>, k: int)
    ensures Of(a + b, k) == Of(a, k) + Of(b, k)
    ensures |a| == 1 ==> Of(a, k) == if a[0].index == k then a else []
  {
    if b == [] {
      assert a + b == a;
    } else {
      OfConcat(a, b[..|b| - 1], k);
      assert (a + b)[..|a + b| - 1] == a + b[..|b| - 1];
    }
  }

  /** A slot by its deltas: the last id and the last name that are given, and all argument fragments in order. */
  lemma {:induction false} FoldConcat(a: seq<Delta>, b: seq<Delta>)
    ensures Fold(a + b).id == if Fold(b).id != "" then Fold(b).id else Fold(a).id
    ensures Fold(a + b).name == if Fold(b).name != "" then Fold(b).name else Fold(a).name
    ensures Fold(a + b).args == Fold(a).args + Fold(b).args
    ensures |a| == 1 ==> Fold(a) == Slot(a[0].id, a[0].name, a[0].args)
  {
    if b == [] {
      assert a + b == a && Fold(a).args + "" == Fold(a).args;
    } else {
      FoldConcat(a, b[..|b| - 1]);
      assert (a + b)[..|a + b| - 1] == a + b[..|b| - 1];
      var last := b[|b| - 1].args;
      assert Fold(a).args + Fold(b[..|b| - 1]).args + last == Fold(a).args + (Fold(b[..|b| - 1]).args + last);
    }
    if |a| == 1 {
      assert a[..0] == [] && "" + a[0].args == a[0].args;
    }
  }

  function Flat(batches: seq<seq<Delta>>): seq<Delta> {
    if batches == [] then [] else Flat(batches[..|batches| - 1]) + batches[|batches| - 1]
  }

  lemma {:induction false} MergeAppend(acc: map<int, Slot>, a: seq<Delta>, b: seq<Delta>)
    ensures MergeAll(acc, a + b) == MergeAll(MergeAll(acc, a), b)
  {
    if b == [] {
      assert a + b == a;
    } else {
      assert (a + b)[..|a + b| - 1] == a + b[..|b| - 1];
      MergeAppend(acc, a, b[..|b| - 1]);
    }
  }

  function MergeBatches(acc: map<int, Slot>, batches: seq<seq<Delta>>): map<int, Slot> {
    if batches == [] then acc else MergeAll(MergeBatches(acc, batches[..|batches| - 1]), batches[|batches| - 1])
  }

  lemma {:induction false} BatchingIsIrrelevant(acc: map<int, Slot>, batches: seq<seq<Delta>>)
    ensures MergeBatches(acc, batches) == MergeAll(acc, Flat(batches))
  {
    if batches != [] {
      BatchingIsIrrelevant(acc, batches[..|batches| - 1]);
      MergeAppend(acc, Flat(batches[..|batches| - 1]), batches[|batches| - 1]);
    }
  }

  // ---------- The round trip ----------

  function Joined(deltas: seq<Delta>): string {
    if deltas == [] then "" else Joined(deltas[..|deltas| - 1]) + deltas[|deltas| - 1].args
  }

  /**
   `deltas` is some way of streaming `call`: its argument string cut into fragments, its id and name
   sent at least once if it has them, possibly repeated, nothing else.
   */
  ghost predicate Streams(deltas: seq<Delta>, call: Call) {
    && deltas != []
    && Joined(deltas) == call.args
    && (forall d :: d in deltas ==> (d.id == "" || d.id == call.id) && (d.name == "" || d.name == call.name))
    && (call.id != "" ==> exists d :: d in deltas && d.id != "")
    && (call.name != "" ==> exists d :: d in deltas && d.name != "")
  }

  lemma {:induction false} FoldParts(deltas: seq<Delta>, id: string, name: string)
    requires forall d :: d in deltas ==> (d.id == "" || d.id == id) && (d.name == "" || d.name == name)
    ensures Fold(deltas).args == Joined(deltas)
    ensures Fold(deltas).id == if exists d :: d in deltas && d.id != "" then id else ""
    ensures Fold(deltas).name == if exists d :: d in deltas && d.name != "" then name else ""
  {
    if deltas != [] {
      var init, last := deltas[..|deltas| - 1], deltas[|deltas| - 1];
      FoldParts(init, id, name);
      assert deltas == init + [last];
      assert last in deltas;
    }
  }

  lemma FoldOfStream(deltas: seq<Delta>, call: Call)
    requires Streams(deltas, call)
    ensures Fold(deltas) == Slot(call.id, call.name, call.args)
  {
    FoldParts(deltas, call.id, call.name);
  }

  lemma {:induction false} AscendingUnique(a: seq<int>, b: seq<int>)
    requires forall k :: k in a <==> k in b
    requires Ascending(a)
    requires Ascending(b)
    ensures a == b
  {
    if a == [] {
      assert forall i :: 0 <= i < |b| ==> b[i] in b;
    } else {
      assert a[0] in a && a[0] in b;
      assert b[0] in b && b[0] in a;
      assert a[0] == b[0];
      forall k ensures k in a[1..] <==> k in b[1..] {
        assert k in a[1..] <==> k in a && k != a[0];
        assert k in b[1..] <==> k in b && k != b[0];
      }
      AscendingUnique(a[1..], b[1..]);
    }
  }

  /** Call `i` of the original list, with the source's stand-ins for a missing id or empty arguments. */
  function Normal(call: Call, i: nat): Call {
    Finish(Slot(call.id, call.name, call.args), i)
  }

  /**
   Reassembly is a round trip. Give the calls any ascending indices, stream each one in any
   fragments, interleave and batch the fragments in any way that keeps each call's own order:
   accumulating and ordering gives back the calls, in index order.
   */
  lemma {:induction false} RoundTrip(calls: seq<Call>, indices: seq<int>, batches: seq<seq<Delta>>)
    requires |indices| == |calls|
    requires Ascending(indices)
    requires forall i :: 0 <= i < |calls| ==> Streams(Of(Flat(batches), indices[i]), calls[i])
    requires forall d :: d in Flat(batches) ==> d.index in indices
    ensures var out := OrderedCalls(MergeBatches(map[], batches));
            && |out| == |calls|
            && forall i :: 0 <= i < |calls| ==>
                 && out[i].id == (if calls[i].id != "" then calls[i].id else "call_" + Decimal(i))
                 && out[i].name == calls[i].name
                 && out[i].args == if calls[i].args != "" then calls[i].args else "{}"
  {
    var flat := Flat(batches);
    var acc := MergeAll(map[], flat);
    BatchingIsIrrelevant(map[], batches);
    forall k ensures k in SortedKeys(acc.Keys) <==> k in indices {
      SlotsAreIndependent(flat, k);
      if k in indices {
        var i :| 0 <= i < |indices| && indices[i] == k;
        assert Streams(Of(flat, indices[i]), calls[i]);
      } else {
        NoneOf(flat, k);
      }
    }
    AscendingUnique(SortedKeys(acc.Keys), indices);
    forall i | 0 <= i < |calls| ensures OrderedCalls(acc)[i] == Normal(calls[i], i) {
      SlotsAreIndependent(flat, indices[i]);
      FoldOfStream(Of(flat, indices[i]), calls[i]);
    }
  }

  lemma {:induction false} NoneOf(deltas: seq<Delta>, k: int)
    requires forall d :: d in deltas ==> d.index != k
    ensures Of(deltas, k) == []
  {
    if deltas != [] {
      assert deltas[|deltas| - 1] in deltas;
      NoneOf(deltas[..|deltas| - 1], k);
    }
  }

  /**
   The ids of the result are pairwise distinct exactly when the ids the provider did send are, and
   none of them is the stand-in `call_i` of another, id-less call.
   */
  lemma IdsDistinctIff(calls: seq<Call>)
    ensures (forall i, j :: 0 <= i < j < |calls| ==> Normal(calls[i], i).id != Normal(calls[j], j).id) <==>
            (forall i, j :: 0 <= i < |calls| && 0 <= j < |calls| && i != j && calls[i].id != "" ==>
               calls[i].id != if calls[j].id != "" then calls[j].id else "call_" + Decimal(j))
  {
    forall i, j | 0 <= i < j < |calls| && calls[i].id == "" && calls[j].id == ""
      ensures "call_" + Decimal(i) != "call_" + Decimal(j)
    {
      ValueOfDecimal(i);
      ValueOfDecimal(j);
      assert ("call_" + Decimal(i))[5..] == Decimal(i) && ("call_" + Decimal(j))[5..] == Decimal(j);
    }
    if forall i, j :: 0 <= i < j < |calls| ==> Normal(calls[i], i).id != Normal(calls[j], j).id {
      forall i, j | 0 <= i < |calls| && 0 <= j < |calls| && i != j && calls[i].id != ""
        ensures calls[i].id != if calls[j].id != "" then calls[j].id else "call_" + Decimal(j)
      {
        assert Normal(calls[i], i).id != Normal(calls[j], j).id;
      }
    }
  }
}
