/** One passport gate: its queue, its booth, and the steps of its worker thread. */
module AirportGate {
  import opened Wrappers
  import opened Subsequences
  import opened AirportQueue
  import opened AirportOrder
  import opened AirportFloor

  // ----- pulling a family out of the queue by index

  ghost predicate Ascending(s: seq<nat>) {
    forall i, j :: 0 <= i < j < |s| ==> s[i] < s[j]
  }

  /** The queue positions of a surname group, except `exclude`, front to back. */
  function FindFamily(q: Queue, surname: string, exclude: nat, i: nat := 0): seq<nat>
    requires i <= |q|
    decreases |q| - i
  {
    if i == |q| then []
    else (if Family(q[i]) == Lower(surname) && i != exclude then [i] else []) + FindFamily(q, surname, exclude, i + 1)
  }

  lemma {:induction false} FindFamilyMember(q: Queue, surname: string, exclude: nat, i: nat, k: nat)
    requires i <= |q|
    ensures k in FindFamily(q, surname, exclude, i) <==> i <= k < |q| && Family(q[k]) == Lower(surname) && k != exclude
    decreases |q| - i
  {
    hide Family, Lower;
    if i < |q| {
      FindFamilyMember(q, surname, exclude, i + 1, k);
      var head := if Family(q[i]) == Lower(surname) && i != exclude then [i] else [];
      assert FindFamily(q, surname, exclude, i) == head + FindFamily(q, surname, exclude, i + 1);
      assert k in head <==> head != [] && k == i;
    }
  }

  lemma {:induction false} FindFamilyAscends(q: Queue, surname: string, exclude: nat, i: nat)
    requires i <= |q|
    ensures var r := FindFamily(q, surname, exclude, i);
            Ascending(r) && forall n :: 0 <= n < |r| ==> i <= r[n] < |q|
    decreases |q| - i
  {
    hide Family, Lower;
    if i < |q| { FindFamilyAscends(q, surname, exclude, i + 1); }
  }

  function InsertDescending(x: nat, s: seq<nat>): seq<nat> {
    if s == [] || x >= s[0] then [x] + s else [s[0]] + InsertDescending(x, s[1..])
  }

  function SortDescending(s: seq<nat>): seq<nat> {
    if s == [] then [] else InsertDescending(s[0], SortDescending(s[1..]))
  }

  lemma {:induction false} InsertSmallest(x: nat, s: seq<nat>)
    requires forall k :: 0 <= k < |s| ==> x < s[k]
    ensures InsertDescending(x, s) == s + [x]
  {
    if s != [] { InsertSmallest(x, s[1..]); }
  }

  lemma {:induction false} SortDescendingReverses(s: seq<nat>)
    requires Ascending(s)
    ensures SortDescending(s) == Reversed(s)
  {
    if s != [] {
      var t := s[1..];
      SortDescendingReverses(t);
      ReversedIndex(t);
      forall k | 0 <= k < |t| ensures s[0] < Reversed(t)[k] {
        assert Reversed(t)[k] == s[|s| - 1 - k];
      }
      InsertSmallest(s[0], Reversed(t));
    }
  }

  /** Behind the leader, the positions found are those of the leader's surname group. */
  lemma {:induction false} FamilyPositions(q: Queue, lead: nat, i: nat)
    requires lead < i <= |q|
    ensures var r, s := FindFamily(q, q[lead].surname, lead, i), InFamily(q[i..], Family(q[lead]));
            |r| == |s| && forall k :: 0 <= k < |r| ==> r[k] < |q| && s[k] == q[r[k]]
    decreases |q| - i
  {
    assert Lower(q[lead].surname) == Family(q[lead]);
    hide Lower, Family;
    if i == |q| {
      assert q[i..] == [];
    } else {
      FamilyPositions(q, lead, i + 1);
      assert q[i..][1..] == q[i + 1..];
    }
  }

  /** Between two positions found, and before the first and after the last, nobody is of the group. */
  lemma {:induction false} NoneBetween(q: Queue, lead: nat, i: nat, n: nat)
    requires lead < i <= |q| && n <= |FindFamily(q, q[lead].surname, lead, i)|
    ensures var r := FindFamily(q, q[lead].surname, lead, i);
            forall j :: (if n == 0 then i - 1 else r[n - 1]) < j < (if n == |r| then |q| else r[n]) && j < |q|
              ==> j < 0 || Family(q[j]) != Family(q[lead])
    decreases |q| - i
  {
    hide Lower;
    if i < |q| {
      if Family(q[i]) != Family(q[lead]) {
        NoneBetween(q, lead, i + 1, n);
      } else if n > 0 {
        NoneBetween(q, lead, i + 1, n - 1);
      }
    }
  }

  lemma {:induction false} NoneBefore(q: Queue, surname: string, exclude: nat, i: nat, k: nat)
    requires i <= k <= |q|
    requires forall j :: i <= j < k ==> Family(q[j]) != Lower(surname) || j == exclude
    ensures FindFamily(q, surname, exclude, i) == FindFamily(q, surname, exclude, k)
    decreases k - i
  {
    hide Family, Lower;
    if i < k { NoneBefore(q, surname, exclude, i + 1, k); }
  }

  /** With the members at or behind `b` already popped, popping the next one at `i`. */
  lemma PopStep(q: Queue, i: nat, b: nat)
    requires i < b <= |q|
    requires forall j :: i < j < b ==> Family(q[j]) != Family(q[i])
    ensures q[..i] + (q[..b] + OutsideFamily(q[b..], Family(q[i])))[i + 1..]
            == q[..i] + OutsideFamily(q[i..], Family(q[i]))
  {
    hide Family;
    var f := Family(q[i]);
    var mid, tail := q[i + 1..b], OutsideFamily(q[b..], f);
    assert (q[..b] + tail)[i + 1..] == mid + tail;
    assert q[i..] == [q[i]] + (mid + q[b..]);
    FamilyConcat([q[i]], mid + q[b..], f);
    FamilyConcat(mid, q[b..], f);
    NoMembers(mid, f);
  }

  lemma {:induction false} NoMembers(q: Queue, f: string)
    requires forall j :: 0 <= j < |q| ==> Family(q[j]) != f
    ensures OutsideFamily(q, f) == q
  {
    if q != [] { NoMembers(q[1..], f); }
  }

  lemma PopsFromTheLeader(q: Queue, k: nat)
    requires k < |q|
    requires forall j :: 0 <= j < k ==> Family(q[j]) != Family(q[k])
    ensures q[..k] + OutsideFamily(q[k..], Family(q[k])) == OutsideFamily(q, Family(q[k]))
  {
    assert q == q[..k] + q[k..];
    FamilyConcat(q[..k], q[k..], Family(q[k]));
    NoMembers(q[..k], Family(q[k]));
  }

  /** The positions to pull, sorted from the back: the rest of the group, and the leader last. */
  lemma PullOrder(q: Queue, idx: nat)
    requires idx < |q|
    requires forall j :: 0 <= j < idx ==> Family(q[j]) != Family(q[idx])
    ensures var family := FindFamily(q, q[idx].surname, idx);
            && family == FindFamily(q, q[idx].surname, idx, idx + 1)
            && SortDescending([idx] + family) == Reversed(family) + [idx]
  {
    hide FindFamily, SortDescending, Lower;
    NoneBefore(q, q[idx].surname, idx, 0, idx + 1);
    FindFamilyAscends(q, q[idx].surname, idx, idx + 1);
    var all := [idx] + FindFamily(q, q[idx].surname, idx);
    assert all[1..] == FindFamily(q, q[idx].surname, idx);
    SortDescendingReverses(all);
  }

  lemma BackwardsIsReversed<T>(s: seq<T>, x: T, t: seq<T>)
    requires |s| == |t| + 1 && s[0] == x
    requires forall k :: 0 <= k < |t| ==> s[|t| - k] == t[k]
    ensures s == [x] + Reversed(t)
  {
    hide Reversed;
    ReversedIndex(t);
    forall j | 0 <= j < |t| ensures s[1..][j] == Reversed(t)[j] {
      assert s[|t| - (|t| - 1 - j)] == t[|t| - 1 - j];
    }
    assert s[1..] == Reversed(t);
    assert s == [s[0]] + s[1..];
  }

  lemma BundleInPullOrder(q: Queue, idx: nat, family: seq<nat>, bundle: Queue)
    requires idx < |q| && idx == FirstServable(q)
    requires family == FindFamily(q, q[idx].surname, idx, idx + 1)
    requires |bundle| == |family| + 1 && bundle[0] == q[idx]
    requires forall k :: 0 <= k < |family| ==> family[k] < |q| && bundle[|family| - k] == q[family[k]]
    ensures bundle == Bundle(q)
  {
    hide FindFamily, InFamily, FirstServable, Family, Reversed, Bundle;
    var rest := InFamily(q[idx + 1..], Family(q[idx]));
    FamilyPositions(q, idx, idx + 1);
    assert |rest| == |family|;
    forall k | 0 <= k < |rest| ensures bundle[|rest| - k] == rest[k] { assert rest[k] == q[family[k]]; }
    BackwardsIsReversed(bundle, q[idx], rest);
    BundleOfLeader(q);
  }

  lemma BundleOfLeader(q: Queue)
    requires FirstServable(q) < |q|
    ensures Bundle(q) == BundleAt(q, FirstServable(q))
  {
    hide FirstServable, BundleAt;
  }

  lemma FamilyHasAdult(q: Queue, idx: nat)
    requires idx < |q|
    ensures forall i :: i in FindFamily(q, q[idx].surname, idx) ==> i < |q|
    ensures Servable(q, Family(q[idx])) <==>
              Adult(q[idx]) || exists i :: i in FindFamily(q, q[idx].surname, idx) && Adult(q[i])
  {
    hide FindFamily, Lower;
    forall i: nat
      ensures i in FindFamily(q, q[idx].surname, idx) <==> i < |q| && Family(q[i]) == Family(q[idx]) && i != idx
    {
      FindFamilyMember(q, q[idx].surname, idx, 0, i);
    }
  }

  lemma NobodyServable(q: Queue)
    requires FirstServable(q) == |q|
    ensures Bundle(q) == [] && AfterPick(q) == q
  {
  }

  lemma ServedFamily(q: Queue)
    requires FirstServable(q) < |q|
    ensures Bundle(q) != [] && AfterPick(q) == OutsideFamily(q, Family(q[FirstServable(q)]))
  {
  }

  /** The guests in front of position `k`. */
  ghost predicate Among(q: Queue, k: nat, g: Guest)
    requires k <= |q|
  {
    exists j :: 0 <= j < k && q[j] == g
  }

  lemma AmongNext(q: Queue, k: nat)
    requires k < |q|
    ensures forall g :: Among(q, k + 1, g) <==> Among(q, k, g) || g == q[k]
  {
    assert Among(q, k + 1, q[k]) by { assert q[k] == q[k]; }
  }

  /** The guests in front of position `k` who are not held yet, front to back, each once. */
  function NewlyHeld(q: Queue, k: nat): Queue
    requires k <= |q|
    reads q
  {
    if k == 0 then []
    else NewlyHeld(q, k - 1) + if q[k - 1].status != Held && q[k - 1] !in q[..k - 1] then [q[k - 1]] else []
  }

  /** The newly held guests stand at the places `at`: wherever somebody in front of `k` is not held yet and has not been
      met before. */
  lemma {:induction false} NewlyHeldAt(q: Queue, k: nat) returns (at: seq<nat>)
    requires k <= |q|
    ensures SubsequenceAt(q, NewlyHeld(q, k), at)
    ensures forall i :: 0 <= i < |q| ==> (i in at <==> i < k && q[i].status != Held && q[i] !in q[..i])
  {
    at := [];
    if k > 0 {
      at := NewlyHeldAt(q, k - 1);
      forall n | 0 <= n < |at| ensures at[n] < k - 1 { assert at[n] in at; }
      if q[k - 1].status != Held && q[k - 1] !in q[..k - 1] { at := at + [k - 1]; }
    }
  }

  lemma AmongIsMembership(q: Queue, k: nat, g: Guest)
    requires k <= |q|
    ensures Among(q, k, g) <==> g in q[..k]
  {
    if Among(q, k, g) {
      var j :| 0 <= j < k && q[j] == g;
      assert q[..k][j] == g;
    }
  }

  /** A guest passed over for want of an adult is held, and still waits at the gate. */
  lemma PassedOverStillWaits(q: Queue, g: Guest)
    requires Among(q, FirstServable(q), g)
    ensures g in AfterPick(q) && !Adult(g)
  {
    var k := FirstServable(q);
    var j :| 0 <= j < k && q[j] == g;
    assert !Servable(q, Family(q[j]));
    if k < |q| { FamilyMember(q, Family(q[k]), g); }
  }

  /** Being held takes no estimate away: whoever a worker passes over, and so makes held, still has one at that gate. */
  lemma HeldGuestHasEstimate(s: Station, g: Guest)
    requires Among(s.queue, FirstServable(s.queue), g)
    ensures EstimateAt(Started(s), g.guestId).Some?
  {
    hide AfterPick, FirstServable, Among;
    PassedOverStillWaits(s.queue, g);
    EstimateIffAtGate(Started(s), g.guestId);
  }

  /** A minor alone at a gate: passed over, and so held, by the next worker round, and given an estimate after it. */
  lemma LoneMinorHasEstimate(s: Station, g: Guest)
    requires !Adult(g) && s.queue == [g]
    ensures Among(s.queue, FirstServable(s.queue), g) && Started(s).queue == [g]
            && EstimateAt(Started(s), g.guestId).Some?
  {
    assert FirstServable([g], 1) == 1;
    assert !Servable(s.queue, Family(g));
    assert s.queue[0] == g;
    HeldGuestHasEstimate(s, g);
  }

  /** The next position to pop is of the leader's group, and nobody between it and the last one popped is. */
  lemma NextPull(q: Queue, idx: nat, family: seq<nat>, n: nat, i: nat)
    requires idx < |q| && family == FindFamily(q, q[idx].surname, idx, idx + 1)
    requires n <= |family| && i == if n < |family| then family[|family| - 1 - n] else idx
    ensures i < |q| && Family(q[i]) == Family(q[idx])
    ensures forall j :: i < j < (if n == 0 then |q| else family[|family| - n]) && j < |q| ==>
            Family(q[j]) != Family(q[idx])
  {
    hide FindFamily, Lower;
    FindFamilyMember(q, q[idx].surname, idx, idx + 1, i);
    assert n < |family| ==> i in family;
    NoneBetween(q, idx, idx + 1, |family| - n);
  }

  lemma BundleMembers(q: Queue)
    ensures forall g :: g in Bundle(q) ==> g in q
  {
    hide Bundle, AfterPick;
    PickIsExact(q);
    forall g | g in Bundle(q) ensures g in q { assert g in multiset(Bundle(q)) + multiset(AfterPick(q)); }
  }

  lemma InsertIs(q: Queue, g: Guest, k: nat)
    requires k <= |q| && (k < |q| ==> Rank(q[k]) > Rank(g)) && forall i :: 0 <= i < k ==> Rank(q[i]) <= Rank(g)
    ensures InsertAt(q, Rank(g)) == k && Insert(q, g) == q[..k] + [g] + q[k..]
  {
    hide InsertAt, Rank;
  }

  // ----- the gate

  class Gate {
    const gateId: string
    const gateType: string
    const processingTime: real
    var queue: Queue
    var currentlyProcessing: Guest?
    /** The bundle the worker thread is serving, empty between rounds. */
    var inService: Queue
    var active: bool

    function View(): Station
      reads this
    {
      Station(gateId, gateType, processingTime, queue,
              if currentlyProcessing == null then None else Some(currentlyProcessing), inService)
    }

    /** The booth shows the leader of the bundle in service. */
    ghost predicate Valid()
      reads this
    {
      currentlyProcessing != null ==> inService != [] && currentlyProcessing == inService[0]
    }

    constructor (gateId: string, gateType: string, processingTime: real)
      ensures this.gateId == gateId && this.gateType == gateType && this.processingTime == processingTime
      ensures Valid() && active && View() == Station(gateId, gateType, processingTime, [], None, [])
    {
      this.gateId, this.gateType, this.processingTime := gateId, gateType, processingTime;
      queue, inService, currentlyProcessing, active := [], [], null, true;
    }

    method Enqueue(guest: Guest) returns (position: nat)
      modifies this`queue
      ensures queue == Insert(old(queue), guest) && position == InsertAt(old(queue), Rank(guest)) + 1
      ensures PutIn(old(queue), guest, position, queue)
    {
      hide Insert, InsertAt, Rank, PutIn;
      InsertPutsIn(queue, guest);
      var rank := Rank(guest);
      var insertAt := |queue|;
      for i := 0 to |queue|
        invariant insertAt == |queue|
        invariant forall j :: 0 <= j < i ==> Rank(queue[j]) <= rank
      {
        if Rank(queue[i]) > rank {
          insertAt := i;
          break;
        }
      }
      InsertIs(queue, guest, insertAt);
      queue := queue[..insertAt] + [guest] + queue[insertAt..];
      position := insertAt + 1;
    }

    /** Takes the first servable surname group out of the queue; minors passed over become held. */
    method PickNext() returns (bundle: Option<Queue>, held: Queue)
      modifies this`queue, (set g | g in queue)`status
      ensures queue == AfterPick(old(queue))
      ensures bundle == if Bundle(old(queue)) == [] then None else Some(Bundle(old(queue)))
      ensures forall g :: g in old(queue) ==>
                g.status == if Among(old(queue), FirstServable(old(queue)), g) then Held else old(g.status)
      ensures held == old(NewlyHeld(queue, FirstServable(queue)))
    {
      hide Bundle, AfterPick, FirstServable, FindFamily, Family, Adult;
      ghost var q := queue;
      bundle, held := None, [];
      for idx := 0 to |queue|
        invariant queue == q && bundle == None
        invariant forall j :: 0 <= j < idx ==> !Servable(q, Family(q[j]))
        invariant forall g :: g in q ==> g.status == if Among(q, idx, g) then Held else old(g.status)
        invariant held == old(NewlyHeld(queue, idx))
      {
        var guest := queue[idx];
        var family := FindFamily(queue, guest.surname, idx);
        FamilyHasAdult(q, idx);
        if !Adult(guest) {
          var hasAdult := exists i :: i in family && Adult(queue[i]);
          if !hasAdult {
            AmongNext(q, idx);
            AmongIsMembership(q, idx, guest);
            if guest.status != Held {
              guest.status := Held;
              held := held + [guest];
            }
            continue;
          }
        }
        assert idx == FirstServable(q);
        var b := TakeOut(idx, family);
        bundle := Some(b);
        return;
      }
      assert FirstServable(q) == |q|;
      NobodyServable(q);
    }

    /** Builds the bundle of the leader at `idx` and pops its members from the back of the queue. */
    method TakeOut(idx: nat, family: seq<nat>) returns (bundle: Queue)
      requires idx < |queue| && family == FindFamily(queue, queue[idx].surname, idx)
      requires idx == FirstServable(queue)
      modifies this`queue
      ensures bundle == Bundle(old(queue)) && bundle != []
      ensures queue == AfterPick(old(queue))
    {
      hide Bundle, BundleAt, AfterPick, FirstServable, FindFamily, SortDescending, OutsideFamily, Family;
      BundleIsWholeFamily(queue);
      PullOrder(queue, idx);
      FindFamilyAscends(queue, queue[idx].surname, idx, idx + 1);
      ReversedIndex(family);
      var pull := SortDescending([idx] + family);
      bundle := [queue[idx]];
      for n := 0 to |pull|
        invariant |bundle| == if n <= |family| then n + 1 else n
        invariant bundle[0] == queue[idx]
        invariant forall k :: 1 <= k < |bundle| ==> bundle[k] == queue[pull[k - 1]]
      {
        if pull[n] != idx { bundle := bundle + [queue[pull[n]]]; }
      }
      forall k | 0 <= k < |family| ensures family[k] < |queue| && bundle[|family| - k] == queue[family[k]] {
        assert pull[|family| - k - 1] == family[k];
      }
      BundleInPullOrder(queue, idx, family, bundle);
      ServedFamily(queue);
      PopAll(idx, family, pull);
    }

    method PopAll(idx: nat, ghost family: seq<nat>, pull: seq<nat>)
      requires idx < |queue| && family == FindFamily(queue, queue[idx].surname, idx, idx + 1)
      requires pull == Reversed(family) + [idx]
      requires forall j :: 0 <= j < idx ==> Family(queue[j]) != Family(queue[idx])
      modifies this`queue
      ensures queue == OutsideFamily(old(queue), Family(old(queue)[idx]))
    {
      hide OutsideFamily, Family, FindFamily, Reversed;
      ghost var q, f := queue, Family(queue[idx]);
      NoMembers([], f);
      assert q[|q|..] == [];
      ReversedIndex(family);
      FindFamilyAscends(q, q[idx].surname, idx, idx + 1);
      FamilyPositions(q, idx, idx + 1);
      ghost var b := |q|;
      for n := 0 to |pull|
        invariant b == (if n == 0 then |q| else pull[n - 1]) && b <= |q| && queue == q[..b] + OutsideFamily(q[b..], f)
      {
        var i := pull[n];
        NextPull(q, idx, family, n, i);
        PopStep(q, i, b);
        assert queue[..i] == q[..i];
        queue := queue[..i] + queue[i + 1..];
        b := i;
      }
      PopsFromTheLeader(q, idx);
    }

    /** First half of a worker round: pick a bundle and put its leader in the booth. */
    method StartNext() returns (held: Queue)
      requires Valid() && inService == []
      modifies this`queue, this`currentlyProcessing, this`inService, (set g | g in queue)`status
      ensures Valid() && View() == Started(old(View()))
      ensures forall g :: g in inService ==> g.status == Processing
      ensures forall g :: g in old(queue) && g !in inService ==>
                g.status == if Among(old(queue), FirstServable(old(queue)), g) then Held else old(g.status)
      ensures held == old(NewlyHeld(queue, FirstServable(queue)))
    {
      hide Bundle, AfterPick, FirstServable, Among, NewlyHeld;
      BundleMembers(queue);
      var bundle;
      bundle, held := PickNext();
      if bundle.Some? {
        ServeAll(bundle.value, Processing);
        currentlyProcessing, inService := bundle.value[0], bundle.value;
      }
    }

    /** Second half of a worker round: everybody in the bundle is processed, and published in bundle order, and the
        booth empties. */
    method Finish() returns (published: Queue)
      requires Valid()
      modifies this`currentlyProcessing, this`inService, (set g | g in inService)`status
      ensures Valid() && View() == Finished(old(View())) && published == old(inService)
      ensures forall g :: g in published ==> g.status == Processed
    {
      ServeAll(inService, Processed);
      published := inService;
      currentlyProcessing, inService := null, [];
    }

    static method ServeAll(bundle: Queue, status: Status)
      modifies (set g | g in bundle)`status
      ensures forall g :: g in bundle ==> g.status == status
    {
      for i := 0 to |bundle|
        invariant forall j :: 0 <= j < i ==> bundle[j].status == status
      {
        bundle[i].status := status;
      }
    }
  }
}
