/** Who comes before whom in a passport queue, and who is served together, in terms of the guests' own fields. */
module AirportOrder {
  import opened Subsequences
  import opened Counting
  import opened AirportQueue
  import opened AirportWaiting

  // ----- priorities

  /** `a` has to stand in front of `b`: a guest with a disability in front of one without, and among those without,
      a fast guest in front of any other. */
  predicate Precedes(a: Guest, b: Guest) {
    !b.disability && (a.disability || (a.priority == "fast" && b.priority != "fast"))
  }

  lemma RankIsPrecedence(a: Guest, b: Guest)
    ensures Rank(a) < Rank(b) <==> Precedes(a, b)
  {
  }

  /** Nobody stands in front of somebody who precedes them. */
  ghost predicate InPrecedence(q: Queue) {
    forall i, j :: 0 <= i < j < |q| ==> !Precedes(q[j], q[i])
  }

  /** `after` is `before` with the guest put in at the 1-based place `position`: behind guests whom the guest does not
      precede, and in front of one whom the guest precedes, if of anyone. Where nobody stood in front of somebody who
      precedes them, the guest precedes everybody behind. */
  ghost predicate PutIn(before: Queue, g: Guest, position: nat, after: Queue) {
    && 1 <= position <= |before| + 1
    && after == before[..position - 1] + [g] + before[position - 1..]
    && (forall i :: 0 <= i < position - 1 ==> !Precedes(g, before[i]))
    && (position <= |before| ==> Precedes(g, before[position - 1]))
    && (InPrecedence(before) ==> forall i :: position - 1 <= i < |before| ==> Precedes(g, before[i]))
  }

  lemma InsertPutsIn(q: Queue, g: Guest)
    ensures PutIn(q, g, InsertAt(q, Rank(g)) + 1, Insert(q, g))
  {
    hide InsertAt, InPrecedence;
    var k := InsertAt(q, Rank(g));
    forall i | 0 <= i < |q| ensures Precedes(g, q[i]) <==> Rank(q[i]) > Rank(g) { RankIsPrecedence(g, q[i]); }
    if InPrecedence(q) && k < |q| { PrecedesAllBehind(q, g, k); }
  }

  lemma PrecedesAllBehind(q: Queue, g: Guest, k: nat)
    requires k < |q| && Precedes(g, q[k]) && InPrecedence(q)
    ensures forall i :: k <= i < |q| ==> Precedes(g, q[i])
  {
    forall i | k <= i < |q| ensures Precedes(g, q[i]) { assert i > k ==> !Precedes(q[i], q[k]); }
  }

  /** The guests of `q` are those of `arrivals` at the positions `at`, each once. Nobody stands in front of somebody who
      precedes them, and guests of whom neither precedes the other stand in the order in which they arrived. */
  ghost predicate Arranged(q: Queue, arrivals: Queue, at: seq<nat>) {
    && |at| == |q|
    && (forall i :: 0 <= i < |q| ==> at[i] < |arrivals| && q[i] == arrivals[at[i]])
    && (forall i, j :: 0 <= i < j < |q| ==> at[i] != at[j] && !Precedes(q[j], q[i]))
    && forall i, j :: 0 <= i < j < |q| && !Precedes(q[i], q[j]) ==> at[i] < at[j]
  }

  lemma ArrivalKeepsArranged(q: Queue, arrivals: Queue, at: seq<nat>, g: Guest) returns (after: seq<nat>)
    requires Arranged(q, arrivals, at)
    ensures Arranged(Insert(q, g), arrivals + [g], after)
  {
    var k := InsertAt(q, Rank(g));
    var t := Insert(q, g);
    after := at[..k] + [|arrivals|] + at[k..];
    forall i | 0 <= i < |q| ensures Precedes(g, q[i]) <==> i >= k {
      RankIsPrecedence(g, q[i]);
      if i > k {
        RankIsPrecedence(g, q[k]);
        assert !Precedes(q[i], q[k]);
      }
    }
    forall i | 0 <= i < |q| ensures !Precedes(q[i], g) || i < k {}
    forall i | 0 <= i < |t| ensures after[i] < |arrivals + [g]| && t[i] == (arrivals + [g])[after[i]] {
      if i < k { assert t[i] == q[i]; } else if i > k { assert t[i] == q[i - 1]; }
    }
    PlacesAfterInsert(q, at, g, k, |arrivals|);
  }

  /** Two places of the longer queue, by the places they had, or that one of them is the new guest's. */
  lemma PlacesAfterInsert(q: Queue, at: seq<nat>, g: Guest, k: nat, n: nat)
    requires k <= |q| == |at| && forall i :: 0 <= i < |q| ==> at[i] < n
    requires forall i, j :: 0 <= i < j < |q| ==> at[i] != at[j] && !Precedes(q[j], q[i])
    requires forall i, j :: 0 <= i < j < |q| && !Precedes(q[i], q[j]) ==> at[i] < at[j]
    requires forall i :: 0 <= i < |q| ==> (Precedes(g, q[i]) <==> i >= k)
    ensures var t, after := q[..k] + [g] + q[k..], at[..k] + [n] + at[k..];
            forall i, j :: 0 <= i < j < |t| ==>
              after[i] != after[j] && !Precedes(t[j], t[i]) && (Precedes(t[i], t[j]) || after[i] < after[j])
  {
    var t, after := q[..k] + [g] + q[k..], at[..k] + [n] + at[k..];
    forall i, j | 0 <= i < j < |t|
      ensures after[i] != after[j] && !Precedes(t[j], t[i]) && (Precedes(t[i], t[j]) || after[i] < after[j])
    {
      var x, y := if i < k then i else i - 1, if j < k then j else j - 1;
      assert i != k ==> t[i] == q[x] && after[i] == at[x];
      assert j != k ==> t[j] == q[y] && after[j] == at[y];
      assert i == k ==> t[i] == g && after[i] == n;
      assert j == k ==> t[j] == g && after[j] == n;
    }
  }

  /** The stable sort by rank is the log arranged by precedence and then by the order of arrival. */
  lemma {:induction false} ByRankIsArranged(log: Queue) returns (at: seq<nat>)
    ensures Arranged(ByRank(log), log, at)
  {
    hide Arranged, ByRank, Insert;
    if log == [] {
      NobodyArranged();
      return [];
    }
    var n := |log| - 1;
    at := ByRankIsArranged(log[..n]);
    InsertKeepsArrivalOrder(log[..n], log[n]);
    at := ArrivalKeepsArranged(ByRank(log[..n]), log[..n], at, log[n]);
    assert log == log[..n] + [log[n]];
  }

  lemma NobodyArranged()
    ensures Arranged(ByRank([]), [], [])
  {
  }

  lemma SortedIffInPrecedence(q: Queue)
    ensures Sorted(q) <==> InPrecedence(q)
  {
    hide Rank, Precedes;
    forall i, j | 0 <= i < j < |q| ensures Rank(q[i]) <= Rank(q[j]) <==> !Precedes(q[j], q[i]) {
      RankIsPrecedence(q[j], q[i]);
    }
  }

  lemma PickKeepsArranged(q: Queue, arrivals: Queue, at: seq<nat>) returns (after: seq<nat>)
    requires Arranged(q, arrivals, at)
    ensures Arranged(AfterPick(q), arrivals, after)
  {
    hide AfterPick, Precedes;
    var left := LeftAt(q);
    after := seq(|left|, n requires 0 <= n < |left| && left[n] < |at| => at[left[n]]);
  }

  function Arrivals(ops: seq<Op>): Queue {
    if ops == [] then [] else (if ops[0].Arrive? then [ops[0].guest] else []) + Arrivals(ops[1..])
  }

  lemma {:induction false} StaysArranged(q: Queue, arrivals: Queue, at: seq<nat>, ops: seq<Op>)
    returns (after: seq<nat>)
    requires Arranged(q, arrivals, at)
    ensures Arranged(After(q, ops), arrivals + Arrivals(ops), after)
    decreases ops
  {
    hide Arranged, Insert, AfterPick;
    if ops == [] {
      assert arrivals + [] == arrivals;
      return at;
    }
    var next, more := at, arrivals;
    if ops[0].Arrive? {
      next := ArrivalKeepsArranged(q, arrivals, at, ops[0].guest);
      more := arrivals + [ops[0].guest];
      assert more + Arrivals(ops[1..]) == arrivals + Arrivals(ops);
    } else {
      next := PickKeepsArranged(q, arrivals, at);
      assert Arrivals(ops) == Arrivals(ops[1..]);
    }
    after := StaysArranged(Step(q, ops[0]), more, next, ops[1..]);
  }

  /** After any run from an empty queue: no guest without a disability stands in front of one with; among those without,
      nobody else stands in front of a fast guest; and guests that neither clause orders stand as they arrived. */
  lemma PrioritiesThenArrival(ops: seq<Op>)
    ensures var q := After([], ops);
            && (forall i, j :: 0 <= i < j < |q| && q[j].disability ==> q[i].disability)
            && (forall i, j :: 0 <= i < j < |q| && q[j].priority == "fast" && q[i].priority != "fast" ==>
                  q[i].disability || q[j].disability)
            && exists at :: Arranged(q, Arrivals(ops), at)
  {
    hide After;
    var at := StaysArranged([], [], [], ops);
    assert [] + Arrivals(ops) == Arrivals(ops);
    var q := After([], ops);
    forall i, j | 0 <= i < j < |q|
      ensures q[j].disability ==> q[i].disability
      ensures q[j].priority == "fast" && q[i].priority != "fast" ==> q[i].disability || q[j].disability
    {
      assert !Precedes(q[j], q[i]);
    }
  }

  // ----- surname groups

  predicate SameLetter(c: char, d: char) {
    c == d || ('A' <= c <= 'Z' && d as int == c as int + 32) || ('A' <= d <= 'Z' && c as int == d as int + 32)
  }

  /** The surnames agree but for the case of their letters. */
  predicate SameSurname(a: Guest, b: Guest) {
    |a.surname| == |b.surname| && forall i :: 0 <= i < |a.surname| ==> SameLetter(a.surname[i], b.surname[i])
  }

  lemma {:induction false} LowerLength(s: string)
    ensures |Lower(s)| == |s|
  {
    if s != [] { LowerLength(s[1..]); }
  }

  lemma {:induction false} LowerAgrees(s: string, t: string)
    ensures Lower(s) == Lower(t) <==> |s| == |t| && forall i :: 0 <= i < |s| ==> SameLetter(s[i], t[i])
  {
    LowerLength(s);
    LowerLength(t);
    if s != [] && t != [] {
      LowerAgrees(s[1..], t[1..]);
      assert Lower(s) == [Lower(s)[0]] + Lower(s[1..]) && Lower(t) == [Lower(t)[0]] + Lower(t[1..]);
      assert Lower(s)[1..] == Lower(s[1..]) && Lower(t)[1..] == Lower(t[1..]);
      assert Lower(s)[0] == Lower(t)[0] <==> SameLetter(s[0], t[0]);
      if forall i :: 0 <= i < |s| ==> |s| == |t| && SameLetter(s[i], t[i]) {
        forall i | 0 <= i < |s[1..]| ensures SameLetter(s[1..][i], t[1..][i]) { assert s[1..][i] == s[i + 1]; }
      }
      if |s| == |t| && forall i :: 0 <= i < |s[1..]| ==> SameLetter(s[1..][i], t[1..][i]) {
        forall i | 1 <= i < |s| ensures SameLetter(s[i], t[i]) {
          assert s[1..][i - 1] == s[i] && t[1..][i - 1] == t[i];
        }
      }
    }
  }

  lemma FamilyIsSurname(a: Guest, b: Guest)
    ensures Family(a) == Family(b) <==> SameSurname(a, b)
  {
    LowerAgrees(a.surname, b.surname);
  }

  lemma {:induction false} InFamilyAt(q: Queue, f: string) returns (at: seq<nat>, left: seq<nat>)
    ensures SubsequenceAt(q, InFamily(q, f), at) && SubsequenceAt(q, OutsideFamily(q, f), left)
    ensures forall i :: 0 <= i < |q| ==> (i in at <==> Family(q[i]) == f) && (i in left <==> Family(q[i]) != f)
  {
    hide Family, SubsequenceAt;
    if q == [] {
      NothingAt();
      return [], [];
    }
    var a, l := InFamilyAt(q[1..], f);
    at, left := Shifted(a), Shifted(l);
    if Family(q[0]) == f {
      TakesFirst(q, InFamily(q[1..], f), a);
      SkipsFirst(q, OutsideFamily(q[1..], f), l);
      at := [0] + at;
      assert OutsideFamily(q, f) == OutsideFamily(q[1..], f);
    } else {
      SkipsFirst(q, InFamily(q[1..], f), a);
      TakesFirst(q, OutsideFamily(q[1..], f), l);
      left := [0] + left;
      assert InFamily(q, f) == InFamily(q[1..], f);
    }
    forall i | 0 <= i < |q| ensures (i in at <==> Family(q[i]) == f) && (i in left <==> Family(q[i]) != f) {
      ShiftedMember(a, i);
      ShiftedMember(l, i);
      assert i > 0 ==> q[1..][i - 1] == q[i];
    }
  }

  lemma NothingAt()
    ensures SubsequenceAt<Guest>([], [], [])
  {
  }

  lemma LeftAt(q: Queue) returns (left: seq<nat>)
    ensures SubsequenceAt(q, AfterPick(q), left)
  {
    hide OutsideFamily, FirstServable;
    var k := FirstServable(q);
    if k == |q| {
      left := seq(|q|, n requires 0 <= n < |q| => n);
    } else {
      var _, l := InFamilyAt(q, Family(q[k]));
      left := l;
    }
  }

  /** One pick: the leader at `lead` is the first guest whose surname somebody of 12 or over shares; the bundle is the
      leader and then the others of that surname from the back of the queue, at the positions `at`; and those at the
      positions `left`, all others in their order, stay. */
  ghost predicate PickedAt(q: Queue, lead: nat, at: seq<nat>, left: seq<nat>)
    requires lead < |q|
  {
    && (exists j :: 0 <= j < |q| && SameSurname(q[j], q[lead]) && q[j].age >= 12)
    && (forall i, j :: 0 <= i < lead && 0 <= j < |q| && SameSurname(q[j], q[i]) ==> q[j].age < 12)
    && |at| == |Bundle(q)| > 0 && at[0] == lead
    && (forall n :: 0 <= n < |at| ==> at[n] < |q| && Bundle(q)[n] == q[at[n]])
    && (forall m, n :: 1 <= m < n < |at| ==> at[m] > at[n])
    && (forall i :: 0 <= i < |q| ==> (i in at <==> SameSurname(q[i], q[lead])))
    && SubsequenceAt(q, AfterPick(q), left)
    && (forall i :: 0 <= i < |q| ==> (i in left <==> !SameSurname(q[i], q[lead])))
  }

  /** Every pick, in the guests' own fields: it takes nobody exactly when everybody is under 12, and otherwise one whole
      surname group, from the back behind its leader. */
  lemma PickTakesOneSurname(q: Queue)
    ensures (forall g :: g in q ==> g.age < 12) ==> Bundle(q) == [] && AfterPick(q) == q
    ensures (exists g :: g in q && g.age >= 12) ==>
              exists lead, at, left :: 0 <= lead < |q| && PickedAt(q, lead, at, left)
  {
    hide Bundle, AfterPick, FirstServable, Family, SameSurname, PickedAt;
    PickIsExact(q);
    var k := FirstServable(q);
    if g :| g in q && g.age >= 12 {
      SomebodyServable(q, g);
      var at, left := GroupAt(q);
      assert PickedAt(q, k, at, left);
    }
  }

  lemma SomebodyServable(q: Queue, g: Guest)
    requires g in q && Adult(g)
    ensures FirstServable(q) < |q|
  {
    var i :| 0 <= i < |q| && q[i] == g;
    assert Servable(q, Family(q[i]));
  }

  lemma BundleIs(q: Queue)
    requires FirstServable(q) < |q|
    ensures Bundle(q) == BundleAt(q, FirstServable(q))
    ensures AfterPick(q) == OutsideFamily(q, Family(q[FirstServable(q)]))
  {
    hide FirstServable, BundleAt, OutsideFamily, Family;
  }

  /** Positions behind `k`, from the back. */
  function Mirrored(a: seq<nat>, k: nat): (m: seq<nat>)
    ensures |m| == |a| && forall n :: 0 <= n < |a| ==> m[n] == a[|a| - 1 - n] + k + 1
  {
    seq(|a|, n requires 0 <= n < |a| => a[|a| - 1 - n] + k + 1)
  }

  lemma MirroredMember(a: seq<nat>, k: nat, i: nat)
    ensures i in Mirrored(a, k) <==> i > k && i - k - 1 in a
  {
    var m := Mirrored(a, k);
    if i > k && i - k - 1 in a {
      var n :| 0 <= n < |a| && a[n] == i - k - 1;
      assert m[|a| - 1 - n] == i;
    }
  }

  lemma MirroredPicks(q: Queue, k: nat, t: Queue, a: seq<nat>)
    requires k < |q| && SubsequenceAt(q[k + 1..], t, a)
    ensures |Reversed(t)| == |a|
    ensures forall n :: 0 <= n < |a| ==> k < Mirrored(a, k)[n] < |q| && Reversed(t)[n] == q[Mirrored(a, k)[n]]
    ensures forall m, n :: 0 <= m < n < |a| ==> Mirrored(a, k)[m] > Mirrored(a, k)[n]
  {
    hide Reversed, Mirrored;
    ReversedIndex(t);
    forall n | 0 <= n < |a| ensures k < Mirrored(a, k)[n] < |q| && Reversed(t)[n] == q[Mirrored(a, k)[n]] {
      var x := |a| - 1 - n;
      assert t[x] == q[k + 1..][a[x]] == q[k + 1 + a[x]];
    }
  }

  /** The positions of a bundle: the leader's, and those behind it from the back. */
  lemma BundlePositions(q: Queue, k: nat) returns (at: seq<nat>)
    requires k < |q|
    ensures |at| == |BundleAt(q, k)| > 0 && at[0] == k
    ensures forall n :: 0 <= n < |at| ==> at[n] < |q| && BundleAt(q, k)[n] == q[at[n]]
    ensures forall m, n :: 1 <= m < n < |at| ==> at[m] > at[n]
    ensures forall i :: 0 <= i < |q| ==> (i in at <==> i == k || (i > k && Family(q[i]) == Family(q[k])))
  {
    hide Family, InFamily, OutsideFamily, Reversed, SubsequenceAt, Mirrored;
    var f, rest := Family(q[k]), q[k + 1..];
    var a, _ := InFamilyAt(rest, f);
    var behind := Mirrored(a, k);
    MirroredPicks(q, k, InFamily(rest, f), a);
    at := [k] + behind;
    forall i | 0 <= i < |q| ensures i in at <==> i == k || (i > k && Family(q[i]) == f) {
      MirroredMember(a, k, i);
      assert i > k ==> rest[i - k - 1] == q[i];
      assert i in at <==> i == k || i in behind;
    }
  }

  lemma SurnamesAreFamilies(q: Queue)
    ensures forall i, j :: 0 <= i < |q| && 0 <= j < |q| ==> (Family(q[i]) == Family(q[j]) <==> SameSurname(q[i], q[j]))
  {
    hide Family, SameSurname;
    forall i, j | 0 <= i < |q| && 0 <= j < |q| ensures Family(q[i]) == Family(q[j]) <==> SameSurname(q[i], q[j]) {
      FamilyIsSurname(q[i], q[j]);
    }
  }

  lemma GroupAt(q: Queue) returns (at: seq<nat>, left: seq<nat>)
    requires FirstServable(q) < |q|
    ensures PickedAt(q, FirstServable(q), at, left)
  {
    hide Bundle, BundleAt, AfterPick, FirstServable, Family, SameSurname, OutsideFamily, SubsequenceAt;
    var k := FirstServable(q);
    BundleIs(q);
    BundleIsWholeFamily(q);
    SurnamesAreFamilies(q);
    at := BundlePositions(q, k);
    var _, l := InFamilyAt(q, Family(q[k]));
    left := l;
    assert forall i :: 0 <= i < k ==> !Servable(q, Family(q[i]));
  }

  // ----- waiting

  lemma {:induction false} PicksAre(ops: seq<Op>)
    ensures Picks(ops) == Count(|ops|, (i: nat) => i < |ops| && ops[i].Pick?)
  {
    if ops != [] {
      var t := ops[1..];
      PicksAre(t);
      CountFirst(|t|, (i: nat) => i < |ops| && ops[i].Pick?, (i: nat) => i < |t| && t[i].Pick?);
    }
  }

  lemma {:induction false} OvertakersAre(ops: seq<Op>, g: Guest)
    ensures Overtakers(ops, Rank(g))
            == Count(|ops|, (i: nat) => i < |ops| && ops[i].Arrive? && Precedes(ops[i].guest, g))
  {
    hide Precedes, Rank;
    if ops != [] {
      var t := ops[1..];
      OvertakersAre(t, g);
      CountFirst(|t|, (i: nat) => i < |ops| && ops[i].Arrive? && Precedes(ops[i].guest, g),
                 (i: nat) => i < |t| && t[i].Arrive? && Precedes(t[i].guest, g));
      if ops[0].Arrive? { RankIsPrecedence(ops[0].guest, g); }
    }
  }

  /** Bounded waiting in the guests' own fields: somebody of the surname is 12 or over, so the guest at index `i` is in
      one of the first `i + 1` bundles, and one later for each arrival who precedes the guest. */
  lemma WaitIsBounded(q: Queue, i: nat, ops: seq<Op>)
    requires InPrecedence(q) && i < |q|
    requires exists j :: 0 <= j < |q| && SameSurname(q[j], q[i]) && q[j].age >= 12
    requires Count(|ops|, (k: nat) => k < |ops| && ops[k].Pick?)
             > i + Count(|ops|, (k: nat) => k < |ops| && ops[k].Arrive? && Precedes(ops[k].guest, q[i]))
    ensures var last := i + Count(|ops|, (k: nat) => k < |ops| && ops[k].Arrive? && Precedes(ops[k].guest, q[i]));
            exists n :: 0 <= n <= last && n < |Bundles(q, ops)| && q[i] in Bundles(q, ops)[n]
  {
    hide Precedes, Rank, SameSurname, Family, Sorted, InPrecedence, Bundles, Count, Picks, Overtakers;
    PicksAre(ops);
    OvertakersAre(ops, q[i]);
    SortedIffInPrecedence(q);
    SurnamesAreFamilies(q);
    var j :| 0 <= j < |q| && SameSurname(q[j], q[i]) && q[j].age >= 12;
    assert Servable(q, Family(q[i])) by { assert Family(q[j]) == Family(q[i]) && Adult(q[j]); }
    BoundedWaiting(q, i, ops);
  }
}
