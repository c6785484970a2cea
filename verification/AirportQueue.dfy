/** The guest record of the airport service and the pure theory of one passport queue:
    stable insertion by rank, removal of a surname group, the order both of them keep. */
module AirportQueue {

  datatype Status = Queued | Held | Processing | Processed

  /** A guest dictionary. What identifies a guest never changes; `status` and `gate` are
      overwritten in place while the guest sits in a queue. */
  class Guest {
    const guestId: string
    const surname: string
    const age: int
    const passport: string
    const priority: string
    const disability: bool
    var status: Status
    var gate: string

    constructor (guestId: string, surname: string, age: int, passport: string, priority: string, disability: bool)
      ensures this.guestId == guestId && this.surname == surname && this.age == age
      ensures this.passport == passport && this.priority == priority && this.disability == disability
      ensures status == Queued && gate == ""
    {
      this.guestId, this.surname, this.age := guestId, surname, age;
      this.passport, this.priority, this.disability := passport, priority, disability;
      status, gate := Queued, "";
    }
  }

  type Queue = seq<Guest>

  lemma ConcatAssociative<T>(a: seq<T>, b: seq<T>, c: seq<T>)
    ensures a + (b + c) == a + b + c
  {
  }

  function Rank(g: Guest): nat {
    if g.disability then 0 else if g.priority == "fast" then 1 else 2
  }

  function Lower(s: string): string {
    if s == [] then ""
    else [if 'A' <= s[0] <= 'Z' then s[0] - 'A' + 'a' else s[0]] + Lower(s[1..])
  }

  function Family(g: Guest): string { Lower(g.surname) }

  predicate Adult(g: Guest) { g.age >= 12 }

  // ----- order by rank

  ghost predicate Sorted(q: Queue) {
    forall i, j :: 0 <= i < j < |q| ==> Rank(q[i]) <= Rank(q[j])
  }

  /** The guests of one rank, in the order of `q`. */
  function OfRank(q: Queue, r: nat): Queue {
    if q == [] then [] else (if Rank(q[0]) == r then [q[0]] else []) + OfRank(q[1..], r)
  }

  /** The stable sort of `q`: rank classes in rank order, each in the order of `q`. */
  function ByRank(q: Queue): Queue {
    OfRank(q, 0) + OfRank(q, 1) + OfRank(q, 2)
  }

  function InsertAt(q: Queue, r: nat): (k: nat)
    ensures k <= |q|
    ensures k < |q| ==> Rank(q[k]) > r
    ensures forall i :: 0 <= i < k ==> Rank(q[i]) <= r
  {
    if q == [] || Rank(q[0]) > r then 0 else 1 + InsertAt(q[1..], r)
  }

  function Insert(q: Queue, g: Guest): Queue {
    var k := InsertAt(q, Rank(g));
    q[..k] + [g] + q[k..]
  }

  lemma {:induction false} OfRankConcat(a: Queue, b: Queue, r: nat)
    ensures OfRank(a + b, r) == OfRank(a, r) + OfRank(b, r)
  {
    if a == [] {
      assert a + b == b;
    } else {
      assert (a + b)[1..] == a[1..] + b;
      OfRankConcat(a[1..], b, r);
      ConcatAssociative(if Rank(a[0]) == r then [a[0]] else [], OfRank(a[1..], r), OfRank(b, r));
    }
  }

  lemma {:induction false} OfRankMembers(q: Queue, r: nat)
    ensures forall g :: g in OfRank(q, r) ==> Rank(g) == r
  {
    if q != [] { OfRankMembers(q[1..], r); }
  }

  lemma {:induction false} OfRankTwice(q: Queue, r: nat, s: nat)
    ensures OfRank(OfRank(q, r), s) == if r == s then OfRank(q, r) else []
  {
    if q != [] {
      OfRankTwice(q[1..], r, s);
      OfRankConcat(if Rank(q[0]) == r then [q[0]] else [], OfRank(q[1..], r), s);
    }
  }

  lemma OneMoreInClass(a: Queue, b: Queue, c: Queue, g: Guest)
    ensures multiset([g] + a + b + c) == multiset{g} + multiset(a + b + c)
    ensures multiset(a + ([g] + b) + c) == multiset{g} + multiset(a + b + c)
    ensures multiset(a + b + ([g] + c)) == multiset{g} + multiset(a + b + c)
  {
  }

  lemma {:induction false} RankClassesMultiset(q: Queue)
    ensures multiset(ByRank(q)) == multiset(q)
  {
    if q != [] {
      var g, t := q[0], q[1..];
      RankClassesMultiset(t);
      assert q == [g] + t;
      OfRankPrepend(g, t, 0);
      OfRankPrepend(g, t, 1);
      OfRankPrepend(g, t, 2);
      OneMoreInClass(OfRank(t, 0), OfRank(t, 1), OfRank(t, 2), g);
    }
  }

  lemma ClassOfByRank(q: Queue, r: nat)
    requires r <= 2
    ensures OfRank(ByRank(q), r) == OfRank(q, r)
  {
    OfRankConcat(OfRank(q, 0) + OfRank(q, 1), OfRank(q, 2), r);
    OfRankConcat(OfRank(q, 0), OfRank(q, 1), r);
    OfRankTwice(q, 0, r);
    OfRankTwice(q, 1, r);
    OfRankTwice(q, 2, r);
  }

  lemma SortedConcat(a: Queue, b: Queue, r: nat)
    requires Sorted(a) && Sorted(b)
    requires forall g :: g in a ==> Rank(g) <= r
    requires forall g :: g in b ==> Rank(g) >= r
    ensures Sorted(a + b)
  {
    forall i, j | 0 <= i < j < |a + b| ensures Rank((a + b)[i]) <= Rank((a + b)[j]) {
      assert i < |a| ==> (a + b)[i] in a;
      assert j >= |a| ==> (a + b)[j] in b;
    }
  }

  lemma ByRankSorted(q: Queue)
    ensures Sorted(ByRank(q))
  {
    OfRankMembers(q, 0);
    OfRankMembers(q, 1);
    OfRankMembers(q, 2);
    var a := OfRank(q, 0) + OfRank(q, 1);
    SortedConcat(OfRank(q, 0), OfRank(q, 1), 1);
    forall g | g in a ensures Rank(g) <= 1 { assert g in OfRank(q, 0) || g in OfRank(q, 1); }
    SortedConcat(a, OfRank(q, 2), 2);
  }

  /** `ByRank` keeps the people, orders them, and keeps arrival order within each rank. */
  lemma ByRankIsStableSort(q: Queue)
    ensures multiset(ByRank(q)) == multiset(q)
    ensures Sorted(ByRank(q))
    ensures forall r: nat :: r <= 2 ==> OfRank(ByRank(q), r) == OfRank(q, r)
  {
    RankClassesMultiset(q);
    ByRankSorted(q);
    forall r: nat | r <= 2 ensures OfRank(ByRank(q), r) == OfRank(q, r) { ClassOfByRank(q, r); }
  }

  lemma OfRankPrepend(g: Guest, t: Queue, r: nat)
    ensures OfRank([g] + t, r) == if Rank(g) == r then [g] + OfRank(t, r) else OfRank(t, r)
  {
    assert ([g] + t)[1..] == t;
  }

  lemma PrependToByRank(g: Guest, t: Queue)
    requires forall r: nat :: r < Rank(g) ==> OfRank(t, r) == []
    ensures ByRank([g] + t) == [g] + ByRank(t)
  {
    OfRankPrepend(g, t, 0);
    OfRankPrepend(g, t, 1);
    OfRankPrepend(g, t, 2);
    var c0, c1, c2 := OfRank(t, 0), OfRank(t, 1), OfRank(t, 2);
    ConcatAssociative([g], c0 + c1, c2);
    ConcatAssociative([g], c0, c1);
    if Rank(g) == 1 {
      assert c0 + ([g] + c1) == [g] + (c0 + c1);
    } else if Rank(g) == 2 {
      assert c0 + c1 + ([g] + c2) == [g] + (c0 + c1 + c2);
    }
  }

  lemma {:induction false} SortedIsByRank(q: Queue)
    requires Sorted(q)
    ensures q == ByRank(q)
  {
    if q != [] {
      var t := q[1..];
      SortedIsByRank(t);
      forall r: nat | r < Rank(q[0]) ensures OfRank(t, r) == [] { NoneOfRank(t, r); }
      PrependToByRank(q[0], t);
      assert q == [q[0]] + t;
    }
  }

  lemma {:induction false} NoneOfRank(q: Queue, r: nat)
    requires forall g :: g in q ==> Rank(g) > r
    ensures OfRank(q, r) == []
  {
    if q != [] { NoneOfRank(q[1..], r); }
  }

  /** There is only one stable sort: a sorted queue with the rank classes of `w` is `ByRank(w)`. */
  lemma StableSortIsUnique(q: Queue, w: Queue)
    requires Sorted(q)
    requires forall r: nat :: r <= 2 ==> OfRank(q, r) == OfRank(w, r)
    ensures q == ByRank(w)
  {
    SortedIsByRank(q);
  }

  lemma InsertBetween(a: Queue, b: Queue, g: Guest)
    requires forall x :: x in a ==> Rank(x) <= Rank(g)
    requires b == [] || Rank(b[0]) > Rank(g)
    ensures Insert(a + b, g) == a + [g] + b
  {
    var r := Rank(g);
    forall i | 0 <= i < |a| ensures Rank((a + b)[i]) <= r { assert (a + b)[i] == a[i]; }
    if b != [] { assert (a + b)[|a|] == b[0]; }
    assert InsertAt(a + b, r) == |a|;
  }

  function WithLast(c: Queue, g: Guest, r: nat): Queue {
    if Rank(g) == r then c + [g] else c
  }

  lemma OfRankAppend(w: Queue, g: Guest, r: nat)
    ensures OfRank(w + [g], r) == WithLast(OfRank(w, r), g, r)
  {
    OfRankConcat(w, [g], r);
  }

  lemma InsertIntoClasses(c0: Queue, c1: Queue, c2: Queue, g: Guest)
    requires forall x :: x in c0 ==> Rank(x) == 0
    requires forall x :: x in c1 ==> Rank(x) == 1
    requires forall x :: x in c2 ==> Rank(x) == 2
    ensures Insert(c0 + c1 + c2, g) == WithLast(c0, g, 0) + WithLast(c1, g, 1) + WithLast(c2, g, 2)
  {
    if Rank(g) == 0 {
      ConcatAssociative(c0, c1, c2);
      InsertBetween(c0, c1 + c2, g);
      ConcatAssociative(c0 + [g], c1, c2);
    } else if Rank(g) == 1 {
      InsertBetween(c0 + c1, c2, g);
      ConcatAssociative(c0, c1, [g]);
    } else {
      assert c0 + c1 + c2 == c0 + c1 + c2 + [];
      InsertBetween(c0 + c1 + c2, [], g);
      ConcatAssociative(c0 + c1, c2, [g]);
    }
  }

  /** Inserting where the gate inserts is the same as appending to the arrival log and sorting stably. */
  lemma InsertKeepsArrivalOrder(w: Queue, g: Guest)
    ensures Insert(ByRank(w), g) == ByRank(w + [g])
  {
    OfRankAppend(w, g, 0);
    OfRankAppend(w, g, 1);
    OfRankAppend(w, g, 2);
    OfRankMembers(w, 0);
    OfRankMembers(w, 1);
    OfRankMembers(w, 2);
    InsertIntoClasses(OfRank(w, 0), OfRank(w, 1), OfRank(w, 2), g);
  }

  lemma InsertKeepsSorted(q: Queue, g: Guest)
    requires Sorted(q)
    ensures Sorted(Insert(q, g))
    ensures multiset(Insert(q, g)) == multiset(q) + multiset{g}
  {
    SortedIsByRank(q);
    InsertKeepsArrivalOrder(q, g);
    ByRankIsStableSort(q + [g]);
  }

  // ----- surname groups

  function InFamily(q: Queue, f: string): Queue {
    if q == [] then [] else (if Family(q[0]) == f then [q[0]] else []) + InFamily(q[1..], f)
  }

  function OutsideFamily(q: Queue, f: string): Queue {
    if q == [] then [] else (if Family(q[0]) != f then [q[0]] else []) + OutsideFamily(q[1..], f)
  }

  lemma {:induction false} FamilySplit(q: Queue, f: string)
    ensures multiset(InFamily(q, f)) + multiset(OutsideFamily(q, f)) == multiset(q)
    ensures |OutsideFamily(q, f)| + |InFamily(q, f)| == |q|
  {
    if q != [] {
      FamilySplit(q[1..], f);
      assert q == [q[0]] + q[1..];
    }
  }

  lemma {:induction false} FamilyMember(q: Queue, f: string, g: Guest)
    ensures g in InFamily(q, f) <==> g in q && Family(g) == f
    ensures g in OutsideFamily(q, f) <==> g in q && Family(g) != f
  {
    if q != [] { FamilyMember(q[1..], f, g); }
  }

  lemma {:induction false} FamilyConcat(a: Queue, b: Queue, f: string)
    ensures OutsideFamily(a + b, f) == OutsideFamily(a, f) + OutsideFamily(b, f)
    ensures InFamily(a + b, f) == InFamily(a, f) + InFamily(b, f)
  {
    if a == [] {
      assert a + b == b;
    } else {
      assert (a + b)[1..] == a[1..] + b;
      FamilyConcat(a[1..], b, f);
      var x, none := [a[0]], [];
      ConcatAssociative(if Family(a[0]) != f then x else none, OutsideFamily(a[1..], f), OutsideFamily(b, f));
      ConcatAssociative(if Family(a[0]) == f then x else none, InFamily(a[1..], f), InFamily(b, f));
    }
  }

  lemma {:induction false} OutsideOfRank(q: Queue, f: string, r: nat)
    ensures OfRank(OutsideFamily(q, f), r) == OutsideFamily(OfRank(q, r), f)
  {
    if q != [] {
      OutsideOfRank(q[1..], f, r);
      OfRankConcat(if Family(q[0]) != f then [q[0]] else [], OutsideFamily(q[1..], f), r);
      FamilyConcat(if Rank(q[0]) == r then [q[0]] else [], OfRank(q[1..], r), f);
    }
  }

  /** Taking a family out of the queue takes it out of the arrival log and re-sorts to the same queue. */
  lemma RemovalKeepsArrivalOrder(w: Queue, f: string)
    ensures OutsideFamily(ByRank(w), f) == ByRank(OutsideFamily(w, f))
  {
    OutsideOfRank(w, f, 0); OutsideOfRank(w, f, 1); OutsideOfRank(w, f, 2);
    FamilyConcat(OfRank(w, 0) + OfRank(w, 1), OfRank(w, 2), f);
    FamilyConcat(OfRank(w, 0), OfRank(w, 1), f);
  }

  lemma OutsideKeepsSorted(q: Queue, f: string)
    requires Sorted(q)
    ensures Sorted(OutsideFamily(q, f))
  {
    SortedIsByRank(q);
    RemovalKeepsArrivalOrder(q, f);
    ByRankSorted(OutsideFamily(q, f));
  }

  // ----- one pick

  predicate Servable(q: Queue, f: string) {
    exists i :: 0 <= i < |q| && Family(q[i]) == f && Adult(q[i])
  }

  /** The first index at or after `i` whose surname group holds an adult, or |q|. */
  function FirstServable(q: Queue, i: nat := 0): (k: nat)
    requires i <= |q|
    ensures i <= k <= |q|
    ensures forall j :: i <= j < k ==> !Servable(q, Family(q[j]))
    ensures k < |q| ==> Servable(q, Family(q[k]))
    decreases |q| - i
  {
    if i == |q| || Servable(q, Family(q[i])) then i else FirstServable(q, i + 1)
  }

  function Reversed<T>(s: seq<T>): seq<T> {
    if s == [] then [] else Reversed(s[1..]) + [s[0]]
  }

  lemma {:induction false} ReversedMultiset<T>(s: seq<T>)
    ensures multiset(Reversed(s)) == multiset(s)
  {
    if s != [] {
      ReversedMultiset(s[1..]);
      assert s == [s[0]] + s[1..];
    }
  }

  lemma {:induction false} ReversedIndex<T>(s: seq<T>)
    ensures |Reversed(s)| == |s|
    ensures forall k :: 0 <= k < |s| ==> Reversed(s)[k] == s[|s| - 1 - k]
  {
    if s != [] { ReversedIndex(s[1..]); }
  }

  /** The bundle served by one pick: its leader, then the rest of the group from the back of the queue. */
  function BundleAt(q: Queue, lead: nat): Queue
    requires lead < |q|
  {
    [q[lead]] + Reversed(InFamily(q[lead + 1..], Family(q[lead])))
  }

  function Bundle(q: Queue): Queue {
    if FirstServable(q) == |q| then [] else BundleAt(q, FirstServable(q))
  }

  function AfterPick(q: Queue): Queue {
    if FirstServable(q) == |q| then q else OutsideFamily(q, Family(q[FirstServable(q)]))
  }

  /** A queue cut at `k`, when nobody before `k` is of the family of the guest at `k`. */
  lemma {:induction false} FamilyFrom(q: Queue, k: nat)
    requires k < |q|
    requires forall j :: 0 <= j < k ==> Family(q[j]) != Family(q[k])
    ensures InFamily(q, Family(q[k])) == [q[k]] + InFamily(q[k + 1..], Family(q[k]))
    ensures OutsideFamily(q, Family(q[k])) == q[..k] + OutsideFamily(q[k + 1..], Family(q[k]))
  {
    if k > 0 {
      var t := q[1..];
      assert t[k - 1] == q[k] && t[k..] == q[k + 1..];
      FamilyFrom(t, k - 1);
      assert q[..k] == [q[0]] + t[..k - 1];
    }
  }

  /** The bundle is exactly the leader's surname group: members before the leader would have led. */
  lemma {:induction false} BundleIsWholeFamily(q: Queue)
    requires FirstServable(q) < |q|
    ensures multiset(Bundle(q)) == multiset(InFamily(q, Family(q[FirstServable(q)])))
    ensures forall j :: 0 <= j < FirstServable(q) ==> Family(q[j]) != Family(q[FirstServable(q)])
  {
    hide FirstServable, Reversed, InFamily, OutsideFamily, Family;
    var k := FirstServable(q);
    forall j | 0 <= j < k ensures Family(q[j]) != Family(q[k]) {
      assert !Servable(q, Family(q[j]));
    }
    FamilyFrom(q, k);
    ReversedMultiset(InFamily(q[k + 1..], Family(q[k])));
  }

  /** One pick splits the queue into one whole surname group and the others in their old order. */
  lemma PickIsExact(q: Queue)
    ensures multiset(Bundle(q)) + multiset(AfterPick(q)) == multiset(q)
    ensures Bundle(q) == [] <==> forall g :: g in q ==> !Adult(g)
    ensures Bundle(q) == [] ==> AfterPick(q) == q
    ensures Bundle(q) != [] ==>
              var f := Family(Bundle(q)[0]);
              && (exists g :: g in Bundle(q) && Adult(g))
              && (forall g :: g in Bundle(q) <==> g in q && Family(g) == f)
              && AfterPick(q) == OutsideFamily(q, f)
  {
    hide FirstServable, Reversed, InFamily, OutsideFamily, Family;
    var k := FirstServable(q);
    if k < |q| {
      var f := Family(q[k]);
      BundleIsWholeFamily(q);
      FamilySplit(q, f);
      assert multiset(Bundle(q)) == multiset(InFamily(q, f));
      forall g ensures g in Bundle(q) <==> g in q && Family(g) == f {
        FamilyMember(q, f, g);
        assert g in Bundle(q) <==> g in multiset(Bundle(q));
        assert g in InFamily(q, f) <==> g in multiset(InFamily(q, f));
      }
      var i :| 0 <= i < |q| && Family(q[i]) == f && Adult(q[i]);
      assert q[i] in Bundle(q);
    } else {
      forall g | g in q ensures !Adult(g) {
        var j :| 0 <= j < |q| && q[j] == g;
        assert !Servable(q, Family(q[j]));
      }
    }
  }

  // ----- runs of one gate

  datatype Op = Arrive(guest: Guest) | Pick

  function Step(q: Queue, op: Op): Queue {
    if op.Pick? then AfterPick(q) else Insert(q, op.guest)
  }

  function After(q: Queue, ops: seq<Op>): Queue
    decreases ops
  {
    if ops == [] then q else After(Step(q, ops[0]), ops[1..])
  }

  /** The bundles a run serves, one for each pick (empty when the pick found nobody). */
  function Bundles(q: Queue, ops: seq<Op>): seq<Queue>
    decreases ops
  {
    if ops == [] then []
    else (if ops[0].Pick? then [Bundle(q)] else []) + Bundles(Step(q, ops[0]), ops[1..])
  }

  /** The arrival log of the guests still waiting: arrivals are appended, a pick deletes what it serves. */
  function Waiting(log: Queue, q: Queue, ops: seq<Op>): Queue
    decreases ops
  {
    if ops == [] then log
    else
      var op := ops[0];
      var log' :=
        if op.Arrive? then log + [op.guest]
        else if Bundle(q) == [] then log
        else OutsideFamily(log, Family(Bundle(q)[0]));
      Waiting(log', Step(q, op), ops[1..])
  }

  /** After any run the queue is the stable sort by rank of the guests still waiting, in arrival order. */
  lemma {:induction false} QueueIsStableSortOfWaiting(log: Queue, ops: seq<Op>)
    ensures After(ByRank(log), ops) == ByRank(Waiting(log, ByRank(log), ops))
    decreases ops
  {
    if ops != [] {
      var q := ByRank(log);
      if ops[0].Arrive? {
        InsertKeepsArrivalOrder(log, ops[0].guest);
        QueueIsStableSortOfWaiting(log + [ops[0].guest], ops[1..]);
      } else if Bundle(q) == [] {
        PickIsExact(q);
        QueueIsStableSortOfWaiting(log, ops[1..]);
      } else {
        PickIsExact(q);
        var f := Family(Bundle(q)[0]);
        RemovalKeepsArrivalOrder(log, f);
        QueueIsStableSortOfWaiting(OutsideFamily(log, f), ops[1..]);
      }
    }
  }
}
