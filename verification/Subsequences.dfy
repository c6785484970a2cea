/** Some of the elements of a sequence, in their order, by their positions. */
module Subsequences {

  ghost predicate SubsequenceAt<T>(s: seq<T>, picked: seq<T>, at: seq<nat>) {
    && |at| == |picked|
    && (forall i, j :: 0 <= i < j < |at| ==> at[i] < at[j])
    && forall k :: 0 <= k < |at| ==> at[k] < |s| && picked[k] == s[at[k]]
  }

  ghost predicate Positions(at: seq<nat>, n: nat) {
    (forall i, j :: 0 <= i < j < |at| ==> at[i] < at[j]) && forall k :: 0 <= k < |at| ==> at[k] < n
  }

  /** The elements at the positions `at`. */
  function PickedAt<T>(s: seq<T>, at: seq<nat>): (picked: seq<T>)
    requires forall k :: 0 <= k < |at| ==> at[k] < |s|
    ensures |picked| == |at| && forall k :: 0 <= k < |at| ==> picked[k] == s[at[k]]
  {
    seq(|at|, k requires 0 <= k < |at| => s[at[k]])
  }

  function Shifted(at: seq<nat>): (shifted: seq<nat>)
    ensures |shifted| == |at| && forall k :: 0 <= k < |at| ==> shifted[k] == at[k] + 1
  {
    seq(|at|, k requires 0 <= k < |at| => at[k] + 1)
  }

  lemma ShiftedMember(at: seq<nat>, i: nat)
    ensures i in Shifted(at) <==> i > 0 && i - 1 in at
    ensures i in [0] + Shifted(at) <==> i == 0 || i - 1 in at
  {
    if i > 0 && i - 1 in at {
      var k :| 0 <= k < |at| && at[k] == i - 1;
      assert Shifted(at)[k] == i;
    }
    assert i in [0] + Shifted(at) <==> i == 0 || i in Shifted(at);
  }

  lemma SkipsFirst<T>(s: seq<T>, picked: seq<T>, at: seq<nat>)
    requires s != [] && SubsequenceAt(s[1..], picked, at)
    ensures SubsequenceAt(s, picked, Shifted(at))
  {
    forall k | 0 <= k < |at| ensures picked[k] == s[Shifted(at)[k]] { assert picked[k] == s[1..][at[k]]; }
  }

  lemma TakesFirst<T>(s: seq<T>, picked: seq<T>, at: seq<nat>)
    requires s != [] && SubsequenceAt(s[1..], picked, at)
    ensures SubsequenceAt(s, [s[0]] + picked, [0] + Shifted(at))
  {
    SkipsFirst(s, picked, at);
    var all, both := [0] + Shifted(at), [s[0]] + picked;
    forall k | 0 <= k < |all|
      ensures all[k] == (if k == 0 then 0 else at[k - 1] + 1) && all[k] < |s| && both[k] == s[all[k]]
    {
      if k > 0 { assert both[k] == picked[k - 1] == s[Shifted(at)[k - 1]]; }
    }
  }
}
