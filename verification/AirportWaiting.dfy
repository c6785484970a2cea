/** How long a guest of one passport queue can wait, counted in picks, over any run. */
module AirportWaiting {
  import opened AirportQueue

  function Picks(ops: seq<Op>): nat {
    if ops == [] then 0 else (if ops[0].Pick? then 1 else 0) + Picks(ops[1..])
  }

  /** The arrivals of a run that go in front of a waiting guest of rank `r`. */
  function Overtakers(ops: seq<Op>, r: nat): nat {
    if ops == [] then 0
    else (if ops[0].Arrive? && Rank(ops[0].guest) < r then 1 else 0) + Overtakers(ops[1..], r)
  }

  lemma ServableIsMembership(q: Queue, f: string)
    ensures Servable(q, f) <==> exists g :: g in q && Family(g) == f && Adult(g)
  {
    if g :| g in q && Family(g) == f && Adult(g) {
      var i :| 0 <= i < |q| && q[i] == g;
    }
  }

  lemma InsertKeepsServable(q: Queue, g: Guest, f: string)
    requires Servable(q, f)
    ensures Servable(Insert(q, g), f)
  {
    var k, i :| 0 <= i < |q| && Family(q[i]) == f && Adult(q[i]) && k == InsertAt(q, Rank(g));
    var j := if i < k then i else i + 1;
    assert Insert(q, g)[j] == q[i];
  }

  /** The leader of a pick that does not serve the family `f` leaves that family as it was. */
  lemma OtherFamilyStaysServable(q: Queue, other: string, f: string)
    requires Servable(q, f) && other != f
    ensures Servable(OutsideFamily(q, other), f)
  {
    var i :| 0 <= i < |q| && Family(q[i]) == f && Adult(q[i]);
    FamilyMember(q, other, q[i]);
    ServableIsMembership(OutsideFamily(q, other), f);
  }

  lemma {:induction false} IndexOutsideFamily(q: Queue, i: nat, other: string) returns (j: nat)
    requires i < |q| && Family(q[i]) != other
    requires exists k :: 0 <= k < i && Family(q[k]) == other
    ensures j < i && j < |OutsideFamily(q, other)| && OutsideFamily(q, other)[j] == q[i]
  {
    assert q == q[..i] + ([q[i]] + q[i + 1..]);
    FamilyConcat(q[..i], [q[i]] + q[i + 1..], other);
    FamilySplit(q[..i], other);
    var k :| 0 <= k < i && Family(q[k]) == other;
    FamilyMember(q[..i], other, q[k]);
    assert q[..i][k] in q[..i];
    j := |OutsideFamily(q[..i], other)|;
  }

  lemma ArrivalMovesBackOne(q: Queue, i: nat, g: Guest) returns (j: nat)
    requires Sorted(q) && i < |q| && Servable(q, Family(q[i]))
    ensures var q' := Insert(q, g);
            && Sorted(q') && j < |q'| && q'[j] == q[i] && Servable(q', Family(q[i]))
            && j == if Rank(g) < Rank(q[i]) then i + 1 else i
  {
    InsertKeepsSorted(q, g);
    InsertKeepsServable(q, g, Family(q[i]));
    j := if i < InsertAt(q, Rank(g)) then i else i + 1;
  }

  lemma PickMovesForward(q: Queue, i: nat) returns (served: bool, j: nat)
    requires Sorted(q) && i < |q| && Servable(q, Family(q[i]))
    ensures Sorted(AfterPick(q))
    ensures if served then q[i] in Bundle(q)
            else j < i && j < |AfterPick(q)| && AfterPick(q)[j] == q[i] && Servable(AfterPick(q), Family(q[i]))
  {
    hide Sorted, Family, Servable, OutsideFamily;
    var lead := FirstServable(q);
    assert forall j :: 0 <= j < lead ==> !Servable(q, Family(q[j]));
    OutsideKeepsSorted(q, Family(q[lead]));
    served, j := Family(q[lead]) == Family(q[i]), 0;
    if served {
      PickIsExact(q);
    } else {
      OtherFamilyStaysServable(q, Family(q[lead]), Family(q[i]));
      j := IndexOutsideFamily(q, i, Family(q[lead]));
    }
  }

  /** Where a servable guest stands after any run: served by bundle number `n`, or waiting at index `n`. */
  lemma {:induction false} Progress(q: Queue, i: nat, ops: seq<Op>) returns (served: bool, n: nat)
    requires Sorted(q) && i < |q| && Servable(q, Family(q[i]))
    ensures served ==>
              && n < |Bundles(q, ops)| && q[i] in Bundles(q, ops)[n]
              && n <= i + Overtakers(ops, Rank(q[i]))
    ensures !served ==>
              && n < |After(q, ops)| && After(q, ops)[n] == q[i]
              && n + Picks(ops) <= i + Overtakers(ops, Rank(q[i]))
    decreases ops
  {
    hide Bundle, AfterPick, Insert, Sorted, Servable, Family, Rank;
    if ops == [] { return false, i; }
    if ops[0].Arrive? {
      var j := ArrivalMovesBackOne(q, i, ops[0].guest);
      served, n := Progress(Step(q, ops[0]), j, ops[1..]);
    } else {
      var j;
      served, j := PickMovesForward(q, i);
      if served { return true, 0; }
      served, n := Progress(Step(q, ops[0]), j, ops[1..]);
      if served { n := n + 1; }
    }
  }

  /** Bounded waiting: a guest at index `i` of a sorted queue, with an adult in the surname group, is in one
      of the first i+1 bundles, plus one for each arrival of better rank; with no such arrival, in i+1. */
  lemma BoundedWaiting(q: Queue, i: nat, ops: seq<Op>)
    requires Sorted(q) && i < |q| && Servable(q, Family(q[i]))
    requires Picks(ops) > i + Overtakers(ops, Rank(q[i]))
    ensures exists n :: 0 <= n <= i + Overtakers(ops, Rank(q[i])) && n < |Bundles(q, ops)| && q[i] in Bundles(q, ops)[n]
  {
    var served, n := Progress(q, i, ops);
  }

  lemma {:induction false} NoOvertakers(ops: seq<Op>, r: nat)
    requires forall op :: op in ops && op.Arrive? ==> Rank(op.guest) >= r
    ensures Overtakers(ops, r) == 0
  {
    if ops != [] { NoOvertakers(ops[1..], r); }
  }

  /** While only guests of the same or a later rank arrive, the index of a waiting guest never grows. */
  lemma IndexNeverGrows(q: Queue, i: nat, ops: seq<Op>)
    requires Sorted(q) && i < |q| && Servable(q, Family(q[i]))
    requires forall op :: op in ops && op.Arrive? ==> Rank(op.guest) >= Rank(q[i])
    ensures || (exists n :: 0 <= n <= i && n < |Bundles(q, ops)| && q[i] in Bundles(q, ops)[n])
            || (exists j :: 0 <= j <= i - Picks(ops) && j < |After(q, ops)| && After(q, ops)[j] == q[i])
  {
    NoOvertakers(ops, Rank(q[i]));
    var served, n := Progress(q, i, ops);
  }

  function Estimate(ahead: nat, boothBusy: bool, processingTime: real): real {
    (ahead + if boothBusy then 1 else 0) as real * processingTime
  }

  /** The time until bundle number `n` starts: what the booth is busy with, and then `n` bundles. */
  function TimeUntil(n: nat, boothBusy: bool, processingTime: real): real {
    (if boothBusy then processingTime else 0.0) + n as real * processingTime
  }

  lemma EstimateIs(i: nat, boothBusy: bool, processingTime: real)
    ensures Estimate(i, boothBusy, processingTime) == TimeUntil(i, boothBusy, processingTime)
    ensures Estimate(i, boothBusy, processingTime)
            == if boothBusy then (i + 1) as real * processingTime else i as real * processingTime
  {
    assert (i + 1) as real * processingTime == i as real * processingTime + processingTime;
  }

  lemma TimeMonotone(n: nat, i: nat, boothBusy: bool, processingTime: real)
    requires n <= i && processingTime >= 0.0
    ensures TimeUntil(n, boothBusy, processingTime) <= TimeUntil(i, boothBusy, processingTime)
  {
    assert i as real * processingTime - n as real * processingTime == (i - n) as real * processingTime;
  }

  /** The live estimate bounds the time until the guest's bundle starts: the booth, then the earlier picks. */
  lemma EstimateBoundsWait(q: Queue, i: nat, ops: seq<Op>, boothBusy: bool, processingTime: real)
    requires Sorted(q) && i < |q| && Servable(q, Family(q[i])) && processingTime >= 0.0
    requires Picks(ops) > i
    requires forall op :: op in ops && op.Arrive? ==> Rank(op.guest) >= Rank(q[i])
    ensures exists n: nat :: n < |Bundles(q, ops)| && q[i] in Bundles(q, ops)[n]
                             && TimeUntil(n, boothBusy, processingTime) <= Estimate(i, boothBusy, processingTime)
  {
    hide TimeUntil, Estimate;
    NoOvertakers(ops, Rank(q[i]));
    var served, n := Progress(q, i, ops);
    EstimateIs(i, boothBusy, processingTime);
    TimeMonotone(n, i, boothBusy, processingTime);
  }

  // ----- the exact wait, while nobody arrives

  /** The families with a member in front of the first member of `f`. */
  function FamiliesBefore(q: Queue, f: string): set<string> {
    if q == [] || Family(q[0]) == f then {} else {Family(q[0])} + FamiliesBefore(q[1..], f)
  }

  /** The families that are served before `f`. */
  function Ahead(q: Queue, f: string): set<string> {
    set h | h in FamiliesBefore(q, f) && Servable(q, h)
  }

  lemma {:induction false} BeforeOutside(q: Queue, f: string, gone: string)
    requires gone != f
    ensures FamiliesBefore(OutsideFamily(q, gone), f) == FamiliesBefore(q, f) - {gone}
  {
    if q != [] {
      BeforeOutside(q[1..], f, gone);
      var out := OutsideFamily(q, gone);
      if Family(q[0]) == gone {
        assert out == OutsideFamily(q[1..], gone);
      } else {
        assert out[0] == q[0] && out[1..] == OutsideFamily(q[1..], gone);
      }
    }
  }

  lemma OtherFamiliesServable(q: Queue, gone: string, h: string)
    requires h != gone
    ensures Servable(OutsideFamily(q, gone), h) <==> Servable(q, h)
  {
    ServableIsMembership(q, h);
    ServableIsMembership(OutsideFamily(q, gone), h);
    if g :| g in q && Family(g) == h && Adult(g) { FamilyMember(q, gone, g); }
    if g :| g in OutsideFamily(q, gone) && Family(g) == h && Adult(g) { FamilyMember(q, gone, g); }
  }

  lemma {:induction false} FamilyInFront(q: Queue, f: string, k: nat)
    requires k < |q| && forall j :: 0 <= j <= k ==> Family(q[j]) != f
    ensures Family(q[k]) in FamiliesBefore(q, f)
  {
    if k > 0 {
      assert q[k] == q[1..][k - 1];
      FamilyInFront(q[1..], f, k - 1);
    }
  }

  lemma {:induction false} IndexInFront(q: Queue, f: string, h: string) returns (k: nat)
    requires h in FamiliesBefore(q, f)
    ensures k < |q| && Family(q[k]) == h && forall j :: 0 <= j <= k ==> Family(q[j]) != f
  {
    k := 0;
    if h != Family(q[0]) {
      k := IndexInFront(q[1..], f, h);
      k := k + 1;
    }
  }

  /** One pick serves `f` exactly when nobody is ahead of it; otherwise it serves one of those ahead. */
  lemma PickServesOneAhead(q: Queue, f: string)
    requires Servable(q, f)
    ensures FirstServable(q) < |q|
    ensures var g := Family(q[FirstServable(q)]);
            if g == f then Ahead(q, f) == {} else g in Ahead(q, f) && Ahead(AfterPick(q), f) == Ahead(q, f) - {g}
  {
    hide FamiliesBefore, Servable, Family, OutsideFamily;
    var i :| 0 <= i < |q| && Family(q[i]) == f by { FamilyIsThere(q, f); }
    var k := FirstServable(q);
    var g := Family(q[k]);
    if g == f {
      forall h | h in FamiliesBefore(q, f) ensures !Servable(q, h) { var j := IndexInFront(q, f, h); }
    } else {
      forall j | 0 <= j <= k ensures Family(q[j]) != f {}
      FamilyInFront(q, f, k);
      BeforeOutside(q, f, g);
      forall h | h != g ensures Servable(OutsideFamily(q, g), h) <==> Servable(q, h) { OtherFamiliesServable(q, g, h); }
    }
  }

  lemma FamilyIsThere(q: Queue, f: string)
    requires Servable(q, f)
    ensures exists i :: 0 <= i < |q| && Family(q[i]) == f
  {
  }

  /** The exact wait: while nobody arrives, a family with an adult is served, whole, by the bundle whose number is
      the number of such families that have a member in front of its first, and by none before. */
  lemma {:induction false} ExactWait(q: Queue, f: string, ops: seq<Op>)
    requires Servable(q, f) && (forall op :: op in ops ==> op.Pick?) && |ops| > |Ahead(q, f)|
    ensures |Bundles(q, ops)| == |ops|
    ensures forall g :: g in Bundles(q, ops)[|Ahead(q, f)|] <==> g in q && Family(g) == f
    ensures forall n, g :: 0 <= n < |Ahead(q, f)| && g in Bundles(q, ops)[n] ==> Family(g) != f
    decreases ops
  {
    hide Servable, Family, Ahead, Bundle, AfterPick;
    PickServesOneAhead(q, f);
    PickIsExact(q);
    LeaderOfBundle(q);
    BundlesOfPicks(Step(q, ops[0]), ops[1..]);
    var g := Family(q[FirstServable(q)]);
    if g != f {
      StaysServable(q, f);
      assert |Ahead(AfterPick(q), f)| == |Ahead(q, f)| - 1;
      ExactWait(AfterPick(q), f, ops[1..]);
      forall x ensures x in AfterPick(q) && Family(x) == f <==> x in q && Family(x) == f { FamilyMember(q, g, x); }
      forall n, x | 0 <= n < |Ahead(q, f)| && x in Bundles(q, ops)[n] ensures Family(x) != f {
        if n == 0 {
          assert Bundles(q, ops)[0] == Bundle(q) && Family(x) == g;
        } else {
          assert Bundles(q, ops)[n] == Bundles(AfterPick(q), ops[1..])[n - 1];
        }
      }
    }
  }

  lemma {:induction false} BundlesOfPicks(q: Queue, ops: seq<Op>)
    requires forall op :: op in ops ==> op.Pick?
    ensures |Bundles(q, ops)| == |ops|
    decreases ops
  {
    hide Bundle, AfterPick;
    if ops != [] { BundlesOfPicks(Step(q, ops[0]), ops[1..]); }
  }

  lemma LeaderOfBundle(q: Queue)
    requires FirstServable(q) < |q|
    ensures Bundle(q) != [] && Bundle(q)[0] == q[FirstServable(q)]
            && AfterPick(q) == OutsideFamily(q, Family(q[FirstServable(q)]))
  {
  }

  lemma StaysServable(q: Queue, f: string)
    requires Servable(q, f) && FirstServable(q) < |q| && Family(q[FirstServable(q)]) != f
    ensures Servable(AfterPick(q), f)
  {
    hide OutsideFamily;
    OtherFamilyStaysServable(q, Family(q[FirstServable(q)]), f);
  }

  /** The families found at some of the positions. */
  function FamiliesAt(q: Queue, at: set<nat>): set<string>
    requires forall j :: j in at ==> j < |q|
  {
    set j | j in at :: Family(q[j])
  }

  lemma {:induction false} FewFamilies(q: Queue, at: set<nat>)
    requires forall j :: j in at ==> j < |q|
    ensures |FamiliesAt(q, at)| <= |at|
  {
    hide Family;
    if j :| j in at {
      FewFamilies(q, at - {j});
      assert FamiliesAt(q, at) <= FamiliesAt(q, at - {j}) + {Family(q[j])};
      Smaller(FamiliesAt(q, at), FamiliesAt(q, at - {j}) + {Family(q[j])});
    }
  }

  lemma {:induction false} Smaller<T>(a: set<T>, b: set<T>)
    requires a <= b
    ensures |a| <= |b|
  {
    if x :| x in a { Smaller(a - {x}, b - {x}); }
  }

  function Below(n: nat): (below: set<nat>)
    ensures forall j: nat :: j in below <==> j < n
  {
    if n == 0 then {} else Below(n - 1) + {n - 1}
  }

  lemma {:induction false} BelowCount(n: nat)
    ensures |Below(n)| == n
  {
    if n > 0 {
      BelowCount(n - 1);
      assert n - 1 !in Below(n - 1);
    }
  }

  lemma OneMoreFamily(q: Queue, n: nat)
    requires n < |q| && forall j :: 0 <= j < n ==> Family(q[j]) != Family(q[n])
    ensures FamiliesAt(q, Below(n + 1)) == FamiliesAt(q, Below(n)) + {Family(q[n])}
    ensures Family(q[n]) !in FamiliesAt(q, Below(n))
  {
    hide Family, Below;
    assert n in Below(n + 1);
  }

  lemma {:induction false} ManyFamilies(q: Queue, n: nat)
    requires n <= |q| && forall j, k :: 0 <= j < k < n ==> Family(q[j]) != Family(q[k])
    ensures |FamiliesAt(q, Below(n))| == n
  {
    hide Family;
    if n > 0 {
      ManyFamilies(q, n - 1);
      OneMoreFamily(q, n - 1);
    }
  }

  /** Everybody in front of `i` belongs to a servable family, and up to `i` nobody shares a family. */
  ghost predicate EachAheadAlone(q: Queue, i: nat)
    requires i < |q|
  {
    && (forall j :: 0 <= j < i ==> Servable(q, Family(q[j])))
    && (forall j, k :: 0 <= j < k <= i ==> Family(q[j]) != Family(q[k]))
  }

  /** Where those ahead stand: in front of `i`, and only one position is needed for each family. */
  lemma AheadIsAt(q: Queue, i: nat, missing: nat)
    requires i < |q| && missing < i
    requires || !Servable(q, Family(q[missing])) || Family(q[missing]) == Family(q[i])
             || exists j :: 0 <= j < missing && Family(q[j]) == Family(q[missing])
    ensures Ahead(q, Family(q[i])) <= FamiliesAt(q, Below(i) - {missing})
  {
    hide FamiliesBefore, Servable, Family;
    forall h | h in Ahead(q, Family(q[i])) ensures h in FamiliesAt(q, Below(i) - {missing}) {
      var k := IndexInFront(q, Family(q[i]), h);
      assert k < i;
      if k == missing && Servable(q, h) {
        var j :| 0 <= j < missing && Family(q[j]) == Family(q[missing]);
        assert j in Below(i) - {missing};
      } else {
        assert k in Below(i) - {missing};
      }
    }
  }

  lemma AheadIsAll(q: Queue, i: nat)
    requires i < |q| && EachAheadAlone(q, i)
    ensures Ahead(q, Family(q[i])) == FamiliesAt(q, Below(i))
  {
    hide FamiliesBefore, Servable, Family;
    var f := Family(q[i]);
    forall h | h in Ahead(q, f) ensures h in FamiliesAt(q, Below(i)) {
      var k := IndexInFront(q, f, h);
      assert k in Below(i);
    }
    forall h | h in FamiliesAt(q, Below(i)) ensures h in Ahead(q, f) {
      var k :| k in Below(i) && Family(q[k]) == h;
      FamilyInFront(q, f, k);
    }
  }

  /** The wait in picks is the number of guests in front exactly when each of them is served, and alone. */
  lemma WaitIsIndexIff(q: Queue, i: nat)
    requires i < |q|
    ensures |Ahead(q, Family(q[i]))| <= i
    ensures |Ahead(q, Family(q[i]))| == i <==> EachAheadAlone(q, i)
  {
    hide Ahead, Servable, Family, FamiliesAt, Below;
    BelowCount(i);
    if EachAheadAlone(q, i) {
      AheadIsAll(q, i);
      ManyFamilies(q, i);
    } else {
      var missing := Redundant(q, i);
      AheadIsAt(q, i, missing);
      InBelow(i, missing);
      FewFamilies(q, Below(i) - {missing});
      Smaller(Ahead(q, Family(q[i])), FamiliesAt(q, Below(i) - {missing}));
    }
  }

  lemma InBelow(i: nat, missing: nat)
    requires missing < i
    ensures missing in Below(i) && |Below(i) - {missing}| == |Below(i)| - 1 && forall j :: j in Below(i) ==> j < i
  {
  }

  lemma Redundant(q: Queue, i: nat) returns (missing: nat)
    requires i < |q| && !EachAheadAlone(q, i)
    ensures missing < i
    ensures || !Servable(q, Family(q[missing])) || Family(q[missing]) == Family(q[i])
            || exists j :: 0 <= j < missing && Family(q[j]) == Family(q[missing])
  {
    hide Servable, Family;
    if j :| 0 <= j < i && !Servable(q, Family(q[j])) { return j; }
    var j, k :| 0 <= j < k <= i && Family(q[j]) == Family(q[k]);
    return if k < i then k else j;
  }

  /** The guest at `i` is in bundle number `n` and in none before. */
  ghost predicate FirstServedBy(q: Queue, i: nat, ops: seq<Op>, n: nat)
    requires i < |q|
  {
    n < |Bundles(q, ops)| && q[i] in Bundles(q, ops)[n] && forall m :: 0 <= m < n ==> q[i] !in Bundles(q, ops)[m]
  }

  /** While nobody arrives, who is served first by which bundle: nobody of a family without an adult, ever. */
  lemma FirstServedIs(q: Queue, i: nat, ops: seq<Op>, n: nat)
    requires i < |q| && (forall op :: op in ops ==> op.Pick?) && |ops| > i
    ensures FirstServedBy(q, i, ops, n) <==> Servable(q, Family(q[i])) && n == |Ahead(q, Family(q[i]))|
  {
    hide Ahead, Servable, Family, Bundles, EachAheadAlone;
    var f := Family(q[i]);
    assert q[i] in q;
    if Servable(q, f) {
      WaitIsIndexIff(q, i);
      ExactWait(q, f, ops);
      assert q[i] in Bundles(q, ops)[|Ahead(q, f)|];
    } else {
      HeldUntilAdultArrives(q, f, ops);
    }
  }

  /** The guest's place in the queue is the number of the bundle that serves the guest first, while nobody arrives,
      exactly when the guest and everybody in front are of families with an adult, and nobody up to the guest shares
      one. */
  lemma ServedAtPlaceIff(q: Queue, i: nat, ops: seq<Op>)
    requires i < |q| && (forall op :: op in ops ==> op.Pick?) && |ops| > i
    ensures FirstServedBy(q, i, ops, i) <==> EachAheadAlone(q, i) && Servable(q, Family(q[i]))
  {
    hide FirstServedBy, EachAheadAlone, Ahead, Servable, Family;
    FirstServedIs(q, i, ops, i);
    WaitIsIndexIff(q, i);
  }

  /** While nobody arrives, the estimate is the exact time until the guest's bundle starts under that condition,
      and only then. For a guest whose family has an adult it is otherwise too long, and never too short; for any
      other guest it is too short, as no bundle ever starts. */
  lemma EstimateIsExactIff(q: Queue, i: nat, ops: seq<Op>, boothBusy: bool, processingTime: real)
    requires i < |q| && (forall op :: op in ops ==> op.Pick?) && |ops| > i && processingTime > 0.0
    ensures (exists n: nat :: FirstServedBy(q, i, ops, n)
                              && TimeUntil(n, boothBusy, processingTime) == Estimate(i, boothBusy, processingTime))
            <==> EachAheadAlone(q, i) && Servable(q, Family(q[i]))
    ensures Servable(q, Family(q[i])) ==>
              exists n: nat :: FirstServedBy(q, i, ops, n)
                               && TimeUntil(n, boothBusy, processingTime) <= Estimate(i, boothBusy, processingTime)
    ensures !Servable(q, Family(q[i])) ==> forall n: nat :: !FirstServedBy(q, i, ops, n)
  {
    hide FirstServedBy, EachAheadAlone, Ahead, Servable, Family, Estimate, TimeUntil;
    EstimateIs(i, boothBusy, processingTime);
    WaitIsIndexIff(q, i);
    ServedAtPlaceIff(q, i, ops);
    forall n: nat ensures FirstServedBy(q, i, ops, n) <==> Servable(q, Family(q[i])) && n == |Ahead(q, Family(q[i]))| {
      FirstServedIs(q, i, ops, n);
    }
    var wait := |Ahead(q, Family(q[i]))|;
    TimeMonotone(wait, i, boothBusy, processingTime);
    forall n: nat
      ensures TimeUntil(n, boothBusy, processingTime) == TimeUntil(i, boothBusy, processingTime) <==> n == i
    {
      TimeInjective(n, i, boothBusy, processingTime);
    }
    if Servable(q, Family(q[i])) { assert FirstServedBy(q, i, ops, wait); }
  }

  lemma TimeInjective(n: nat, i: nat, boothBusy: bool, processingTime: real)
    requires processingTime > 0.0
    ensures TimeUntil(n, boothBusy, processingTime) == TimeUntil(i, boothBusy, processingTime) <==> n == i
  {
    assert i as real * processingTime - n as real * processingTime == (i - n) as real * processingTime;
  }

  /** Two adults of one surname: the second is served with the first, though told to wait for it. */
  lemma EstimateCanBeTooLong(a: Guest, b: Guest, processingTime: real)
    requires a != b && Adult(a) && Adult(b) && Family(a) == Family(b) && processingTime > 0.0
    ensures b in Bundles([a, b], [Pick])[0] && Estimate(1, false, processingTime) > TimeUntil(0, false, processingTime)
  {
    hide Family;
    var q := [a, b];
    assert Servable(q, Family(a)) by { assert q[0] == a; }
    assert Ahead(q, Family(a)) == {};
    ExactWait(q, Family(a), [Pick]);
    assert q[1] in q;
  }

  /** A minor alone: told not to wait at all, and never served while nobody arrives. */
  lemma EstimateCanBeTooShort(m: Guest, ops: seq<Op>, n: nat)
    requires !Adult(m) && forall op :: op in ops ==> op.Pick?
    ensures EachAheadAlone([m], 0) && (n < |Bundles([m], ops)| ==> m !in Bundles([m], ops)[n])
  {
    hide Family, Bundles;
    assert !Servable([m], Family(m));
    HeldUntilAdultArrives([m], Family(m), ops);
  }

  // ----- guests nobody can take along

  lemma AfterPickKeepsUnservable(q: Queue, f: string)
    requires !Servable(q, f)
    ensures !Servable(AfterPick(q), f)
    ensures forall g :: g in Bundle(q) ==> Family(g) != f
  {
    hide Bundle, AfterPick;
    PickIsExact(q);
    ServableIsMembership(q, f);
    ServableIsMembership(AfterPick(q), f);
    if Bundle(q) != [] {
      var other := Family(Bundle(q)[0]);
      var a :| a in Bundle(q) && Adult(a);
      assert a in q && Family(a) == other && other != f;
      forall g | g in AfterPick(q) ensures g in q { FamilyMember(q, other, g); }
      forall g | g in Bundle(q) ensures Family(g) != f { assert Family(g) == other; }
    }
  }

  lemma InsertKeepsUnservable(q: Queue, g: Guest, f: string)
    requires !Servable(q, f) && !(Family(g) == f && Adult(g))
    ensures !Servable(Insert(q, g), f)
  {
    ServableIsMembership(q, f);
    ServableIsMembership(Insert(q, g), f);
  }

  /** Minors without an adult of their surname in the queue stay held until such an adult arrives. */
  lemma {:induction false} HeldUntilAdultArrives(q: Queue, f: string, ops: seq<Op>)
    requires !Servable(q, f)
    requires forall op :: op in ops && op.Arrive? ==> !(Family(op.guest) == f && Adult(op.guest))
    ensures forall n, g :: 0 <= n < |Bundles(q, ops)| && g in Bundles(q, ops)[n] ==> Family(g) != f
    decreases ops
  {
    if ops != [] {
      if ops[0].Pick? {
        AfterPickKeepsUnservable(q, f);
      } else {
        InsertKeepsUnservable(q, ops[0].guest, f);
      }
      HeldUntilAdultArrives(Step(q, ops[0]), f, ops[1..]);
    }
  }

  /** With nobody arriving, a guest of a sorted queue is ever served exactly when the group holds an adult. */
  lemma ServedIffGroupHasAdult(q: Queue, i: nat, ops: seq<Op>)
    requires Sorted(q) && i < |q|
    requires Picks(ops) == |ops| > i
    ensures Servable(q, Family(q[i])) <==> exists n :: 0 <= n < |Bundles(q, ops)| && q[i] in Bundles(q, ops)[n]
  {
    AllPicks(ops);
    if Servable(q, Family(q[i])) {
      NoOvertakers(ops, Rank(q[i]));
      BoundedWaiting(q, i, ops);
    } else {
      HeldUntilAdultArrives(q, Family(q[i]), ops);
    }
  }

  lemma {:induction false} AllPicks(ops: seq<Op>)
    requires Picks(ops) == |ops|
    ensures forall op :: op in ops ==> op.Pick?
  {
    if ops != [] {
      PicksAtMost(ops[1..]);
      AllPicks(ops[1..]);
    }
  }

  lemma {:induction false} PicksAtMost(ops: seq<Op>)
    ensures Picks(ops) <= |ops|
  {
    if ops != [] { PicksAtMost(ops[1..]); }
  }
}
