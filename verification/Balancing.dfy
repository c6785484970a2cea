/** Greedy balancing: always adding to a shortest queue gives the smallest possible longest queue. */
module Balancing {

  function Sum(s: seq<nat>): nat {
    if s == [] then 0 else s[0] + Sum(s[1..])
  }

  function Max(s: seq<nat>): (m: nat)
    requires s != []
    ensures m in s && forall i :: 0 <= i < |s| ==> s[i] <= m
  {
    if |s| == 1 then s[0] else
      var m := Max(s[1..]);
      assert forall i :: 1 <= i < |s| ==> s[i] == s[1..][i - 1];
      if s[0] >= m then s[0] else m
  }

  /** The index of the first smallest element, as `min(..., key=...)` finds it. */
  function ArgMin(s: seq<nat>): (k: nat)
    requires s != []
    ensures k < |s|
    ensures forall i :: 0 <= i < |s| ==> s[k] <= s[i]
    ensures forall i :: 0 <= i < k ==> s[k] < s[i]
  {
    if |s| == 1 then 0 else
      var k := ArgMin(s[1..]) + 1;
      assert forall i :: 1 <= i < |s| ==> s[i] == s[1..][i - 1];
      if s[0] <= s[k] then 0 else k
  }

  function Greedy(s: seq<nat>, n: nat): (r: seq<nat>)
    requires s != []
    ensures |r| == |s|
    decreases n
  {
    if n == 0 then s else
      var k := ArgMin(s);
      Greedy(s[k := s[k] + 1], n - 1)
  }

  lemma {:induction false} SumUpdate(s: seq<nat>, k: nat, x: nat)
    requires k < |s|
    ensures Sum(s[k := x]) == Sum(s) - s[k] + x
  {
    if k > 0 {
      assert s[k := x][1..] == s[1..][k - 1 := x];
      SumUpdate(s[1..], k - 1, x);
    } else {
      assert s[k := x][1..] == s[1..];
    }
  }

  lemma {:induction false} SumBelow(a: seq<nat>, b: seq<nat>)
    requires |a| == |b| && forall i :: 0 <= i < |a| ==> a[i] <= b[i]
    ensures Sum(a) <= Sum(b)
    ensures (exists i :: 0 <= i < |a| && a[i] < b[i]) ==> Sum(a) < Sum(b)
  {
    if a != [] {
      SumBelow(a[1..], b[1..]);
      if i :| 0 <= i < |a| && a[i] < b[i] {
        assert i > 0 ==> a[1..][i - 1] < b[1..][i - 1];
      }
    }
  }

  /** `s` grew out of `base`: either its longest is still base's longest, or it is level within one. */
  ghost predicate Level(base: seq<nat>, s: seq<nat>)
    requires base != [] && |s| == |base|
  {
    && (forall i :: 0 <= i < |s| ==> base[i] <= s[i])
    && (Max(s) > Max(base) ==> forall i :: 0 <= i < |s| ==> s[i] >= Max(s) - 1)
  }

  lemma OneMoreStaysLevel(base: seq<nat>, s: seq<nat>)
    requires base != [] && |s| == |base| && Level(base, s)
    ensures var k := ArgMin(s); Level(base, s[k := s[k] + 1])
  {
    hide Max, ArgMin;
    var k := ArgMin(s);
    var s' := s[k := s[k] + 1];
    var top :| 0 <= top < |s| && s[top] == Max(s);
    assert s'[top] >= s[top];
    var top' :| 0 <= top' < |s| && s'[top'] == Max(s');
    assert s[top'] <= Max(s);
    if Max(s') > Max(s) {
      assert top' == k;
    }
  }

  lemma {:induction false} GreedyStaysLevel(base: seq<nat>, s: seq<nat>, n: nat)
    requires base != [] && |s| == |base| && Level(base, s)
    ensures Level(base, Greedy(s, n)) && Sum(Greedy(s, n)) == Sum(s) + n
    decreases n
  {
    hide Level, Max, ArgMin, Sum;
    if n > 0 {
      var k := ArgMin(s);
      OneMoreStaysLevel(base, s);
      SumUpdate(s, k, s[k] + 1);
      GreedyStaysLevel(base, s[k := s[k] + 1], n - 1);
    }
  }

  /** Greedy is optimal: however `n` is spread over the queues `s`, the longest queue is at least as long. */
  lemma GreedyIsOptimal(s: seq<nat>, n: nat, other: seq<nat>)
    requires s != [] && |other| == |s|
    requires forall i :: 0 <= i < |s| ==> s[i] <= other[i]
    requires Sum(other) == Sum(s) + n
    ensures Max(Greedy(s, n)) <= Max(other)
  {
    hide Greedy, ArgMin, Max, Sum;
    GreedyStaysLevel(s, s, n);
    var g := Greedy(s, n);
    if Max(other) < Max(g) {
      var i :| 0 <= i < |s| && s[i] == Max(s);
      assert other[i] >= Max(s);
      assert Max(g) > Max(s);
      forall j | 0 <= j < |s| ensures other[j] <= g[j] { assert other[j] <= Max(other); }
      var j :| 0 <= j < |g| && g[j] == Max(g);
      assert other[j] < g[j];
      SumBelow(other, g);
      assert false;
    }
  }
}
