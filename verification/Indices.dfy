/** Lists of positions. */
module Indices {

  /** `at` lists exactly the wanted positions, in ascending order. */
  ghost predicate Lists(at: seq<nat>, wanted: set<nat>) {
    && (forall k :: 0 <= k < |at| ==> at[k] in wanted)
    && (forall i :: i in wanted ==> i in at)
    && (forall j, k :: 0 <= j < k < |at| ==> at[j] < at[k])
  }

  lemma ListsMore(at: seq<nat>, wanted: set<nat>, n: nat)
    requires Lists(at, wanted) && forall i :: i in wanted ==> i < n
    ensures Lists(at + [n], wanted + {n})
  {
    assert forall i :: i in wanted + {n} ==> i in at + [n];
  }

  /** A list is as long as the set it lists is large. */
  lemma {:induction false} ListsSize(at: seq<nat>, wanted: set<nat>)
    requires Lists(at, wanted)
    ensures |at| == |wanted|
  {
    if at == [] {
      assert wanted == {};
    } else {
      var n := |at| - 1;
      forall i | i in wanted - {at[n]} ensures i in at[..n] {
        assert i in at;
      }
      ListsSize(at[..n], wanted - {at[n]});
    }
  }
}
