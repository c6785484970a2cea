/** How many numbers below a bound have a property. */
module Counting {

  ghost function Count(n: nat, p: nat -> bool): nat {
    |set i: nat | i < n && p(i)|
  }

  lemma {:induction false} LaterCount(s: set<nat>, later: set<nat>)
    requires forall i :: i in later <==> i > 0 && i - 1 in s
    ensures |later| == |s|
  {
    if s == {} {
      assert later == {};
    } else {
      var i :| i in s;
      assert i + 1 in later;
      LaterCount(s - {i}, later - {i + 1});
    }
  }

  /** Counting from the first number on. */
  lemma CountFirst(n: nat, p: nat -> bool, rest: nat -> bool)
    requires forall i: nat :: i < n ==> rest(i) == p(i + 1)
    ensures Count(n + 1, p) == (if p(0) then 1 else 0) + Count(n, rest)
  {
    var s := set i: nat | i < n && rest(i);
    var all := set i: nat | i < n + 1 && p(i);
    forall i: nat ensures i in all - {0} <==> i > 0 && i - 1 in s {
      if i > 0 && i - 1 < n { assert rest(i - 1) == p(i); }
    }
    LaterCount(s, all - {0});
    WithoutOne(all, 0);
  }

  lemma WithoutOne(s: set<nat>, i: nat)
    ensures |s| == |s - {i}| + if i in s then 1 else 0
  {
    if i !in s { assert s - {i} == s; }
  }
}
