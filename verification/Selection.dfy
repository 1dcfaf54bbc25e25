/** What a filtering comprehension keeps. */
module Selection {

  /** `part` is `whole` with only the elements that are kept, in order; `at` are their positions. */
  ghost predicate Selects<T(!new)>(at: seq<nat>, whole: seq<T>, part: seq<T>, keep: T -> bool) {
    && |at| == |part|
    && (forall k :: 0 <= k < |at| ==> at[k] < |whole| && part[k] == whole[at[k]])
    && (forall j, k :: 0 <= j < k < |at| ==> at[j] < at[k])
    && (forall i :: 0 <= i < |whole| ==> (i in at <==> keep(whole[i])))
  }

  /** The positions in a longer list. */
  function Shifted(at: seq<nat>): (r: seq<nat>)
    ensures |r| == |at| && forall k :: 0 <= k < |at| ==> r[k] == at[k] + 1
  {
    seq(|at|, k requires 0 <= k < |at| => at[k] + 1)
  }

  lemma ShiftedHas(at: seq<nat>, i: nat)
    ensures i in Shifted(at) <==> i > 0 && i - 1 in at
  {
    if i > 0 && i - 1 in at {
      var k :| 0 <= k < |at| && at[k] == i - 1;
      assert Shifted(at)[k] == i;
    }
  }

  /** One element more at the front. */
  lemma SelectsCons<T(!new)>(at: seq<nat>, whole: seq<T>, part: seq<T>, keep: T -> bool) returns (more: seq<nat>)
    requires whole != [] && Selects(at, whole[1..], part, keep)
    ensures Selects(more, whole, (if keep(whole[0]) then [whole[0]] else []) + part, keep)
  {
    var later := Shifted(at);
    more := (if keep(whole[0]) then [0] else []) + later;
    forall i | 0 <= i < |whole| ensures i in more <==> keep(whole[i]) {
      ShiftedHas(at, i);
      if i > 0 {
        assert whole[1..][i - 1] == whole[i];
      }
    }
  }

  /** The positions of the elements that satisfy the condition. */
  function Positions<T(!new)>(whole: seq<T>, keep: T -> bool): set<nat> {
    set i: nat | i < |whole| && keep(whole[i])
  }

  /** As many elements are kept as satisfy the condition. */
  lemma SelectsCount<T(!new)>(at: seq<nat>, whole: seq<T>, part: seq<T>, keep: T -> bool)
    requires Selects(at, whole, part, keep)
    ensures |part| == |Positions(whole, keep)|
  {
    DistinctCount(at);
    forall i: nat ensures i in Positions(whole, keep) <==> i in Elements(at) {
      if i in at {
        var k :| 0 <= k < |at| && at[k] == i;
      }
    }
    assert Positions(whole, keep) == Elements(at);
  }

  function Elements(at: seq<nat>): set<nat> {
    set i | i in at
  }

  lemma {:induction false} DistinctCount(at: seq<nat>)
    requires forall j, k :: 0 <= j < k < |at| ==> at[j] < at[k]
    ensures |Elements(at)| == |at|
  {
    if at != [] {
      var front, last := at[..|at| - 1], at[|at| - 1];
      DistinctCount(front);
      assert last !in Elements(front);
      assert Elements(at) == Elements(front) + {last};
    }
  }
}
