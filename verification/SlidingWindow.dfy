/** Counters that restart: if each window admits at most `limit`, any interval of one window length admits
    at most twice that. The rate limiter and the goat farm's restock both count this way. */
module SlidingWindow {
  import opened Counting

  /** Something admitted at `time`, counted in the window that opened at `window`. */
  datatype Use = Use(time: int, window: int)

  function CountWindow(uses: seq<Use>, w: int): nat {
    if uses == [] then 0 else (if uses[0].window == w then 1 else 0) + CountWindow(uses[1..], w)
  }

  function CountIn(uses: seq<Use>, lo: int, hi: int): nat {
    if uses == [] then 0 else (if lo <= uses[0].time <= hi then 1 else 0) + CountIn(uses[1..], lo, hi)
  }

  /** Both count what they say: the uses of a window, and those at or between two times. */
  lemma {:induction false} CountsAre(uses: seq<Use>, w: int, lo: int, hi: int)
    ensures CountWindow(uses, w) == Count(|uses|, (i: nat) => i < |uses| && uses[i].window == w)
    ensures CountIn(uses, lo, hi) == Count(|uses|, (i: nat) => i < |uses| && lo <= uses[i].time <= hi)
  {
    if uses != [] {
      var t := uses[1..];
      CountsAre(t, w, lo, hi);
      CountFirst(|t|, (i: nat) => i < |uses| && uses[i].window == w, (i: nat) => i < |t| && t[i].window == w);
      CountFirst(|t|, (i: nat) => i < |uses| && lo <= uses[i].time <= hi, (i: nat) => i < |t| && lo <= t[i].time <= hi);
    }
  }

  /** Windows follow one another: a later one opens after everything the earlier one admitted, and at least
      `per` after the earlier one opened. */
  ghost predicate Windowed(uses: seq<Use>, per: nat) {
    && (forall i :: 0 <= i < |uses| ==> uses[i].window <= uses[i].time)
    && (forall i, j :: 0 <= i < j < |uses| ==> Follows(uses[i], uses[j], per))
  }

  predicate Follows(a: Use, b: Use, per: nat) {
    a.window == b.window || (a.time < b.window && a.window + per <= b.window)
  }

  lemma {:induction false} CountWindowAppend(uses: seq<Use>, u: Use, w: int)
    ensures CountWindow(uses + [u], w) == CountWindow(uses, w) + if u.window == w then 1 else 0
  {
    if uses != [] {
      assert (uses + [u])[1..] == uses[1..] + [u];
      CountWindowAppend(uses[1..], u, w);
    }
  }

  lemma {:induction false} NoneInWindow(uses: seq<Use>, w: int)
    requires forall i :: 0 <= i < |uses| ==> uses[i].window != w
    ensures CountWindow(uses, w) == 0
  {
    if uses != [] { NoneInWindow(uses[1..], w); }
  }

  lemma {:induction false} CountInTwoWindows(uses: seq<Use>, lo: int, hi: int, x: int, y: int)
    requires forall i :: 0 <= i < |uses| && lo <= uses[i].time <= hi ==> uses[i].window == x || uses[i].window == y
    ensures CountIn(uses, lo, hi) <= CountWindow(uses, x) + CountWindow(uses, y)
  {
    if uses != [] { CountInTwoWindows(uses[1..], lo, hi, x, y); }
  }

  lemma {:induction false} NothingIn(uses: seq<Use>, lo: int, hi: int)
    requires forall i :: 0 <= i < |uses| ==> !(lo <= uses[i].time <= hi)
    ensures CountIn(uses, lo, hi) == 0
  {
    if uses != [] { NothingIn(uses[1..], lo, hi); }
  }

  /** No closed interval of length `per` meets three windows, so it holds at most 2·limit admissions. */
  lemma TwiceTheLimit(uses: seq<Use>, per: nat, limit: nat, lo: int)
    requires Windowed(uses, per)
    requires forall w :: CountWindow(uses, w) <= limit
    ensures CountIn(uses, lo, lo + per) <= 2 * limit
  {
    hide CountIn, CountWindow;
    var hi := lo + per;
    if i :| 0 <= i < |uses| && lo <= uses[i].time <= hi {
      var x, y := uses[i].window, uses[i].window;
      if j :| 0 <= j < |uses| && lo <= uses[j].time <= hi && uses[j].window != x { y := uses[j].window; }
      forall k | 0 <= k < |uses| && lo <= uses[k].time <= hi ensures uses[k].window == x || uses[k].window == y {
        if uses[k].window != x && uses[k].window != y {
          var j :| 0 <= j < |uses| && lo <= uses[j].time <= hi && uses[j].window == y;
          AtMostTwo(uses, per, lo, i, j, k);
        }
      }
      CountInTwoWindows(uses, lo, hi, x, y);
    } else {
      NothingIn(uses, lo, hi);
    }
  }

  lemma AtMostTwo(uses: seq<Use>, per: nat, lo: int, i: nat, j: nat, k: nat)
    requires Windowed(uses, per) && i < |uses| && j < |uses| && k < |uses|
    requires lo <= uses[i].time <= lo + per && lo <= uses[j].time <= lo + per && lo <= uses[k].time <= lo + per
    ensures uses[i].window == uses[j].window || uses[i].window == uses[k].window || uses[j].window == uses[k].window
  {
    assert i < j ==> Follows(uses[i], uses[j], per);
    assert j < i ==> Follows(uses[j], uses[i], per);
    assert i < k ==> Follows(uses[i], uses[k], per);
    assert k < i ==> Follows(uses[k], uses[i], per);
    assert j < k ==> Follows(uses[j], uses[k], per);
    assert k < j ==> Follows(uses[k], uses[j], per);
  }
}
