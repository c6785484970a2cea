/** The gates by value: who waits and who is served where, and what assigning, opening and closing make of it. */
module AirportFloor {
  import opened Wrappers
  import opened Decimals
  import opened AirportQueue
  import opened AirportOrder
  import opened AirportWaiting
  import opened Balancing

  // ----- redistribution, on the queues alone

  function Lengths(qs: seq<Queue>): (ls: seq<nat>)
    ensures |ls| == |qs|
    ensures forall i :: 0 <= i < |qs| ==> ls[i] == |qs[i]|
  {
    if qs == [] then [] else [|qs[0]|] + Lengths(qs[1..])
  }

  /** Each displaced guest in turn joins the shortest queue of the moment. */
  function Redistribute(qs: seq<Queue>, displaced: Queue): (r: seq<Queue>)
    requires qs != []
    ensures |r| == |qs|
    decreases displaced
  {
    if displaced == [] then qs else
      var k := ArgMin(Lengths(qs));
      Redistribute(qs[k := Insert(qs[k], displaced[0])], displaced[1..])
  }

  function People(qs: seq<Queue>): multiset<Guest> {
    if qs == [] then multiset{} else multiset(qs[0]) + People(qs[1..])
  }

  lemma {:induction false} PeopleUpdate(qs: seq<Queue>, k: nat, q: Queue)
    requires k < |qs|
    ensures People(qs[k := q]) + multiset(qs[k]) == People(qs) + multiset(q)
  {
    var t := qs[1..];
    if k > 0 {
      assert qs[k := q][1..] == t[k - 1 := q] && qs[k := q][0] == qs[0];
      PeopleUpdate(t, k - 1, q);
      var a := multiset(qs[0]);
      assert a + People(t[k - 1 := q]) + multiset(qs[k]) == a + (People(t[k - 1 := q]) + multiset(qs[k]));
      assert a + People(t) + multiset(q) == a + (People(t) + multiset(q));
    } else {
      assert qs[k := q][1..] == t;
    }
  }

  lemma OneMorePerson(qs: seq<Queue>, k: nat, g: Guest)
    requires k < |qs|
    ensures People(qs[k := Insert(qs[k], g)]) == People(qs) + multiset{g}
  {
    hide People, Insert;
    InsertPeople(qs[k], g);
    PeopleUpdate(qs, k, Insert(qs[k], g));
    var m, after := multiset(qs[k]), People(qs[k := Insert(qs[k], g)]);
    assert after == after + m - m;
    assert People(qs) + multiset{g} == People(qs) + (m + multiset{g}) - m;
  }

  lemma InsertPeople(q: Queue, g: Guest)
    ensures multiset(Insert(q, g)) == multiset(q) + multiset{g} && |Insert(q, g)| == |q| + 1
  {
    assert q == q[..InsertAt(q, Rank(g))] + q[InsertAt(q, Rank(g))..];
  }

  lemma InsertMembers(q: Queue, g: Guest)
    ensures g in Insert(q, g) && forall x :: x in q ==> x in Insert(q, g)
  {
    hide Insert;
    InsertPeople(q, g);
    forall x ensures x in Insert(q, g) <==> x in multiset(q) + multiset{g} {
      assert x in Insert(q, g) <==> x in multiset(Insert(q, g));
    }
  }

  /** Redistribution loses and duplicates nobody and keeps every target queue in rank order. */
  lemma {:induction false} RedistributeConserves(qs: seq<Queue>, displaced: Queue)
    requires qs != []
    ensures People(Redistribute(qs, displaced)) == People(qs) + multiset(displaced)
    ensures (forall i :: 0 <= i < |qs| ==> Sorted(qs[i])) ==>
              forall i :: 0 <= i < |qs| ==> Sorted(Redistribute(qs, displaced)[i])
    decreases displaced
  {
    hide Sorted, Insert, People, ArgMin, Lengths;
    if displaced != [] {
      var k := ArgMin(Lengths(qs));
      var q := Insert(qs[k], displaced[0]);
      if Sorted(qs[k]) { InsertKeepsSorted(qs[k], displaced[0]); }
      OneMorePerson(qs, k, displaced[0]);
      RedistributeConserves(qs[k := q], displaced[1..]);
      assert displaced == [displaced[0]] + displaced[1..];
    }
  }

  lemma {:induction false} RedistributeIsGreedy(qs: seq<Queue>, displaced: Queue)
    requires qs != []
    ensures Lengths(Redistribute(qs, displaced)) == Greedy(Lengths(qs), |displaced|)
    decreases displaced
  {
    hide Insert, ArgMin, Lengths;
    if displaced != [] {
      var k := ArgMin(Lengths(qs));
      var q := Insert(qs[k], displaced[0]);
      InsertPeople(qs[k], displaced[0]);
      assert Lengths(qs[k := q]) == Lengths(qs)[k := Lengths(qs)[k] + 1];
      RedistributeIsGreedy(qs[k := q], displaced[1..]);
    }
  }

  lemma {:induction false} PeopleCount(qs: seq<Queue>)
    ensures |People(qs)| == Sum(Lengths(qs))
  {
    if qs != [] {
      PeopleCount(qs[1..]);
      assert Lengths(qs)[1..] == Lengths(qs[1..]);
    }
  }

  lemma RedistributeOne(qs: seq<Queue>, g: Guest, rest: Queue)
    requires qs != []
    ensures var k := ArgMin(Lengths(qs));
            Redistribute(qs, [g] + rest) == Redistribute(qs[k := Insert(qs[k], g)], rest)
  {
    assert ([g] + rest)[1..] == rest;
  }

  lemma RedistributeNone(qs: seq<Queue>)
    requires qs != []
    ensures Redistribute(qs, []) == qs
  {
  }

  lemma NoLonger(a: Queue, b: Queue)
    requires multiset(a) <= multiset(b)
    ensures |a| <= |b|
  {
    var m, n := multiset(a), multiset(b);
    assert n == m + (n - m);
    assert |n| == |m| + |n - m|;
    assert |m| == |a| && |n| == |b|;
  }

  /** However else the displaced guests are split over the same queues, the longest queue is no shorter. */
  lemma RedistributeIsOptimal(qs: seq<Queue>, displaced: Queue, other: seq<Queue>)
    requires qs != [] && |other| == |qs|
    requires forall i :: 0 <= i < |qs| ==> multiset(qs[i]) <= multiset(other[i])
    requires People(other) == People(qs) + multiset(displaced)
    ensures Max(Lengths(Redistribute(qs, displaced))) <= Max(Lengths(other))
  {
    hide Max, Greedy, Sum, People, Redistribute, Lengths;
    RedistributeIsGreedy(qs, displaced);
    PeopleCount(qs);
    PeopleCount(other);
    forall i | 0 <= i < |qs| ensures |qs[i]| <= |other[i]| { NoLonger(qs[i], other[i]); }
    GreedyIsOptimal(Lengths(qs), |displaced|, Lengths(other));
  }

  // ----- gates by value

  datatype Error = GateExists | InvalidGateType | NoGateToCopy | GateNotFound | LastGateOfType | NoCandidateGate

  datatype Ticket = Ticket(gate: string, position: nat, queueSize: nat, estimatedWait: real)

  /** A gate: `bundle` is what its worker is serving, and the booth shows its leader. */
  datatype Station = Station(id: string, kind: string, processingTime: real, queue: Queue, booth: Option<Guest>,
                             bundle: Queue) {
    /** The guests that leave the gate when it closes: the one in the booth first, then the queue. */
    function Displaced(): Queue {
      (if booth.None? then [] else [booth.value]) + queue
    }
  }

  type Floor = seq<Station>

  predicate Eligible(kind: string, passport: string) {
    kind == "ALL" || (passport == "EU" && kind == "EU")
  }

  /** The first gate of that type with a shortest queue, or |floor|. */
  function Shortest(floor: Floor, kind: string): (k: nat)
    ensures k <= |floor|
    ensures k == |floor| <==> forall i :: 0 <= i < |floor| ==> floor[i].kind != kind
    ensures k < |floor| ==>
              && floor[k].kind == kind
              && (forall i :: 0 <= i < |floor| && floor[i].kind == kind ==> |floor[k].queue| <= |floor[i].queue|)
              && (forall i :: 0 <= i < k && floor[i].kind == kind ==> |floor[k].queue| < |floor[i].queue|)
  {
    if floor == [] then 0
    else
      var n := |floor| - 1;
      var k := Shortest(floor[..n], kind);
      if floor[n].kind != kind then (if k == n then n + 1 else k)
      else if k == n || |floor[n].queue| < |floor[k].queue| then n else k
  }

  /** Where the gate `id` is, or |floor|. */
  function Find(floor: Floor, id: string): (k: nat)
    ensures k <= |floor|
    ensures k < |floor| ==> floor[k].id == id
    ensures forall i :: 0 <= i < k ==> floor[i].id != id
  {
    if floor == [] || floor[0].id == id then 0 else 1 + Find(floor[1..], id)
  }

  lemma {:induction false} FindIs(floor: Floor, id: string, k: nat)
    requires k <= |floor| && (k < |floor| ==> floor[k].id == id) && forall i :: 0 <= i < k ==> floor[i].id != id
    ensures Find(floor, id) == k
  {
    if k > 0 { FindIs(floor[1..], id, k - 1); }
  }

  function Join(floor: Floor, k: nat, guest: Guest): (Floor, Result<Ticket, Error>)
    requires k < |floor|
  {
    var s := floor[k];
    var at := InsertAt(s.queue, Rank(guest));
    (floor[k := s.(queue := Insert(s.queue, guest))],
     Success(Ticket(s.id, at + 1, |s.queue| + 1, Estimate(at, s.booth.Some?, s.processingTime))))
  }

  function AssignStep(floor: Floor, guest: Guest): (Floor, Result<Ticket, Error>) {
    var all, eu := Shortest(floor, "ALL"), Shortest(floor, "EU");
    if all == |floor| || (guest.passport == "EU" && eu == |floor|) then (floor, Failure(NoCandidateGate))
    else if guest.passport == "EU" && |floor[all].queue| >= |floor[eu].queue| then Join(floor, eu, guest)
    else Join(floor, all, guest)
  }

  function OpenStep(floor: Floor, id: string, kind: string, timeEu: real, timeAll: real): (Floor, Option<Error>) {
    if Find(floor, id) < |floor| then (floor, Some(GateExists))
    else if kind != "EU" && kind != "ALL" then (floor, Some(InvalidGateType))
    else if floor == [] then (floor, Some(NoGateToCopy))
    else (floor + [Station(id, kind, if kind == "EU" then timeEu else timeAll, [], None, [])], None)
  }

  /** The queues of the gates of a type, except one gate. */
  function QueuesOf(floor: Floor, kind: string, except: string): seq<Queue> {
    if floor == [] then []
    else
      (if floor[0].kind == kind && floor[0].id != except then [floor[0].queue] else [])
      + QueuesOf(floor[1..], kind, except)
  }

  /** The other gates once `except` is gone and the gates of its type have the queues `qs`. */
  function Spread(floor: Floor, kind: string, except: string, qs: seq<Queue>): Floor {
    if floor == [] then []
    else if floor[0].id == except then Spread(floor[1..], kind, except, qs)
    else if floor[0].kind == kind && qs != [] then
      [floor[0].(queue := qs[0])] + Spread(floor[1..], kind, except, qs[1..])
    else [floor[0]] + Spread(floor[1..], kind, except, qs)
  }

  function CloseStep(floor: Floor, id: string): (Floor, Result<nat, Error>) {
    var k := Find(floor, id);
    if k == |floor| then (floor, Failure(GateNotFound))
    else
      var s := floor[k];
      var qs := QueuesOf(floor, s.kind, id);
      if qs == [] then (floor, Failure(LastGateOfType))
      else (Spread(floor, s.kind, id, Redistribute(qs, s.Displaced())), Success(|s.Displaced()|))
  }

  /** First half of a worker round. */
  function Started(s: Station): Station {
    var bundle := Bundle(s.queue);
    s.(queue := AfterPick(s.queue), bundle := bundle, booth := if bundle == [] then s.booth else Some(bundle[0]))
  }

  /** Second half of a worker round. */
  function Finished(s: Station): Station { s.(booth := None, bundle := []) }

  function Numbered(kind: string, processingTime: real, n: int): Floor {
    seq(if n < 0 then 0 else n, i requires i >= 0 =>
          Station(kind + "-" + Decimal(i + 1), kind, processingTime, [], None, []))
  }

  /** The gates of a fresh start. */
  function Initial(eu: int, all: int, timeEu: real, timeAll: real): Floor {
    Numbered("EU", timeEu, eu) + Numbered("ALL", timeAll, all)
  }

  /** A fresh start: the EU gates and then the others, numbered from 1, each of its own type and time, and nobody
      there. */
  lemma InitialIs(eu: nat, all: nat, timeEu: real, timeAll: real)
    ensures |Initial(eu, all, timeEu, timeAll)| == eu + all
    ensures forall i :: 0 <= i < eu ==>
              Initial(eu, all, timeEu, timeAll)[i] == Station("EU-" + Decimal(i + 1), "EU", timeEu, [], None, [])
    ensures forall i :: eu <= i < eu + all ==>
              Initial(eu, all, timeEu, timeAll)[i] ==
              Station("ALL-" + Decimal(i - eu + 1), "ALL", timeAll, [], None, [])
  {
    hide Numbered, Decimal;
    var first, second := Numbered("EU", timeEu, eu), Numbered("ALL", timeAll, all);
    NumberedIs("EU", timeEu, eu);
    NumberedIs("ALL", timeAll, all);
    assert "EU" + "-" == "EU-" && "ALL" + "-" == "ALL-";
    assert Initial(eu, all, timeEu, timeAll) == first + second;
    forall i | eu <= i < eu + all ensures (first + second)[i] == second[i - eu] {}
  }

  lemma NumberedIs(kind: string, processingTime: real, n: nat)
    ensures |Numbered(kind, processingTime, n)| == n
    ensures forall i :: 0 <= i < n ==>
              Numbered(kind, processingTime, n)[i] ==
              Station(kind + "-" + Decimal(i + 1), kind, processingTime, [], None, [])
  {
    hide Decimal;
  }

  ghost predicate DistinctIds(floor: Floor) {
    forall i, j :: 0 <= i < j < |floor| ==> floor[i].id != floor[j].id
  }

  lemma InitialIsDistinct(eu: int, all: int, timeEu: real, timeAll: real)
    ensures DistinctIds(Initial(eu, all, timeEu, timeAll))
  {
    var floor, n := Initial(eu, all, timeEu, timeAll), |Numbered("EU", timeEu, eu)|;
    forall i, j | 0 <= i < j < |floor| ensures floor[i].id != floor[j].id {
      if j < n {
        NumberedApart("EU", i + 1, j + 1);
      } else if i >= n {
        NumberedApart("ALL", i - n + 1, j - n + 1);
      } else {
        assert floor[i].id[0] == 'E' && floor[j].id[0] == 'A';
      }
    }
  }

  lemma NumberedApart(kind: string, a: nat, b: nat)
    requires a != b
    ensures kind + "-" + Decimal(a) != kind + "-" + Decimal(b)
  {
    var s, t := kind + "-" + Decimal(a), kind + "-" + Decimal(b);
    assert s[|kind| + 1..] == Decimal(a) && t[|kind| + 1..] == Decimal(b);
    if s == t { DecimalIsInjective(a, b); }
  }

  // ----- assignment

  /** A guest is refused exactly when a type of gate the code looks at is missing. Otherwise the guest joins a queue
      that no gate the passport allows undercuts, an EU gate on a tie. */
  lemma AssignIsShortest(floor: Floor, guest: Guest)
    ensures var (after, r) := AssignStep(floor, guest);
            && (r.Failure? <==> || (forall s :: s in floor ==> s.kind != "ALL")
                                || (guest.passport == "EU" && forall s :: s in floor ==> s.kind != "EU"))
            && (r.Failure? ==> after == floor)
            && (r.Success? ==> exists k :: 0 <= k < |floor| && Chosen(floor, guest, k)
                                           && Accepted(floor, after, k, guest, r.value))
  {
    hide Chosen, Accepted, Join;
    var all, eu := Shortest(floor, "ALL"), Shortest(floor, "EU");
    if all == |floor| {
      forall s | s in floor ensures s.kind != "ALL" {}
    } else {
      assert floor[all] in floor;
      if eu == |floor| {
        forall s | s in floor ensures s.kind != "EU" {}
      } else {
        assert floor[eu] in floor;
      }
      if guest.passport != "EU" || eu < |floor| {
        var k := if guest.passport == "EU" && |floor[all].queue| >= |floor[eu].queue| then eu else all;
        IsChosen(floor, guest, k);
        JoinIsAccepted(floor, k, guest);
      }
    }
  }

  lemma IsChosen(floor: Floor, guest: Guest, k: nat)
    requires var all, eu := Shortest(floor, "ALL"), Shortest(floor, "EU");
            && all < |floor| && (guest.passport == "EU" ==> eu < |floor|)
            && k == if guest.passport == "EU" && |floor[all].queue| >= |floor[eu].queue| then eu else all
    ensures Chosen(floor, guest, k)
  {
  }

  /** `after` is the floor once the guest joined gate `k` in order of precedence, and the ticket tells the gate, the
      place taken there, the length of the queue, and one processing time for everybody in front and for a busy
      booth. */
  ghost predicate Accepted(floor: Floor, after: Floor, k: nat, guest: Guest, t: Ticket)
    requires k < |floor|
  {
    && |after| == |floor| && after == floor[k := floor[k].(queue := after[k].queue)]
    && t.gate == floor[k].id && PutIn(floor[k].queue, guest, t.position, after[k].queue)
    && t.queueSize == |after[k].queue|
    && t.estimatedWait == TimeUntil(t.position - 1, floor[k].booth.Some?, floor[k].processingTime)
  }

  lemma JoinIsAccepted(floor: Floor, k: nat, guest: Guest)
    requires k < |floor|
    ensures Join(floor, k, guest).1.Success?
    ensures Accepted(floor, Join(floor, k, guest).0, k, guest, Join(floor, k, guest).1.value)
  {
    hide Insert, InsertAt, PutIn, Estimate, TimeUntil, Rank;
    var s := floor[k];
    InsertPutsIn(s.queue, guest);
    InsertPeople(s.queue, guest);
    EstimateIs(InsertAt(s.queue, Rank(guest)), s.booth.Some?, s.processingTime);
  }

  /** A gate the passport allows with the shortest queue of all such gates: an EU gate on a tie, then the first. */
  ghost predicate Chosen(floor: Floor, guest: Guest, k: nat)
    requires k < |floor|
  {
    && Eligible(floor[k].kind, guest.passport)
    && forall i :: 0 <= i < |floor| && i != k && Eligible(floor[i].kind, guest.passport) ==>
         || |floor[k].queue| < |floor[i].queue|
         || (|floor[k].queue| == |floor[i].queue|
             && (if floor[i].kind == floor[k].kind then k < i else floor[k].kind == "EU"))
  }

  // ----- places

  function PlaceFrom(q: Queue, guestId: string, i: nat): Option<nat>
    requires i <= |q|
    decreases |q| - i
  {
    if i == |q| then None else if q[i].guestId == guestId then Some(i + 1) else PlaceFrom(q, guestId, i + 1)
  }

  function PositionAt(s: Station, guestId: string): Option<nat> {
    if s.booth.Some? && s.booth.value.guestId == guestId then Some(0) else PlaceFrom(s.queue, guestId, 0)
  }

  /** With one record per guest id, the reported place is the guest's own, and nobody else's. */
  lemma PositionIsTruePlace(q: Queue, k: nat, guestId: string)
    requires forall i, j :: 0 <= i < j < |q| ==> q[i].guestId != q[j].guestId
    ensures k < |q| && q[k].guestId == guestId ==> PlaceFrom(q, guestId, 0) == Some(k + 1)
    ensures PlaceFrom(q, guestId, 0) == None <==> forall g :: g in q ==> g.guestId != guestId
  {
    var i := 0;
    while i < |q| && q[i].guestId != guestId
      invariant i <= |q| && forall j :: 0 <= j < i ==> q[j].guestId != guestId
      invariant PlaceFrom(q, guestId, 0) == PlaceFrom(q, guestId, i)
    {
      i := i + 1;
    }
  }

  /** What is left of the wait at a gate; the guest in the booth has none. */
  function EstimateAt(s: Station, guestId: string): Option<real> {
    match PositionAt(s, guestId)
    case None => None
    case Some(n) => Some(if n == 0 then 0.0 else Estimate(n - 1, s.booth.Some?, s.processingTime))
  }

  /** The guest's true place at a gate: 0 in the booth; in the queue, one more than the number of guests in front;
      and none for a guest who is at neither place. */
  ghost predicate IsPlace(s: Station, guestId: string, r: Option<nat>) {
    if s.booth.Some? && s.booth.value.guestId == guestId then r == Some(0)
    else match r
      case None => forall i :: 0 <= i < |s.queue| ==> s.queue[i].guestId != guestId
      case Some(n) => && 1 <= n <= |s.queue| && s.queue[n - 1].guestId == guestId
                      && forall i :: 0 <= i < n - 1 ==> s.queue[i].guestId != guestId
  }

  lemma {:induction false} PlaceIs(q: Queue, guestId: string, i: nat)
    requires i <= |q|
    ensures match PlaceFrom(q, guestId, i)
            case None => forall j :: i <= j < |q| ==> q[j].guestId != guestId
            case Some(n) => && i < n <= |q| && q[n - 1].guestId == guestId
                            && forall j :: i <= j < n - 1 ==> q[j].guestId != guestId
    decreases |q| - i
  {
    if i < |q| && q[i].guestId != guestId { PlaceIs(q, guestId, i + 1); }
  }

  lemma PositionIsPlace(s: Station, guestId: string)
    ensures IsPlace(s, guestId, PositionAt(s, guestId))
  {
    PlaceIs(s.queue, guestId, 0);
  }

  /** What is still to wait at a gate: nothing in the booth; in the queue, one processing time for each guest in front
      and one more while somebody is in the booth; and no answer for a guest who is at neither place. */
  ghost predicate IsWait(s: Station, guestId: string, r: Option<real>) {
    if s.booth.Some? && s.booth.value.guestId == guestId then r == Some(0.0)
    else match r
      case None => forall i :: 0 <= i < |s.queue| ==> s.queue[i].guestId != guestId
      case Some(t) => exists i :: 0 <= i < |s.queue| && s.queue[i].guestId == guestId
                                  && (forall j :: 0 <= j < i ==> s.queue[j].guestId != guestId)
                                  && t == TimeUntil(i, s.booth.Some?, s.processingTime)
  }

  lemma EstimateIsWait(s: Station, guestId: string)
    ensures IsWait(s, guestId, EstimateAt(s, guestId))
  {
    hide PlaceFrom, Estimate, TimeUntil;
    PlaceIs(s.queue, guestId, 0);
    match PlaceFrom(s.queue, guestId, 0)
    case None =>
    case Some(n) => EstimateIs(n - 1, s.booth.Some?, s.processingTime);
  }

  /** With one record for each guest id, the guest at index `i` is told `i` processing times while the booth is empty,
      and `i + 1` while somebody else is in it. */
  lemma GuestIsToldWait(s: Station, i: nat)
    requires i < |s.queue| && forall j, k :: 0 <= j < k < |s.queue| ==> s.queue[j].guestId != s.queue[k].guestId
    requires s.booth.Some? ==> s.booth.value.guestId != s.queue[i].guestId
    ensures var r := EstimateAt(s, s.queue[i].guestId);
            r.Some? && r.value == if s.booth.None? then i as real * s.processingTime
                                  else (i + 1) as real * s.processingTime
  {
    hide PlaceFrom, Estimate;
    PlaceIs(s.queue, s.queue[i].guestId, 0);
    assert PlaceFrom(s.queue, s.queue[i].guestId, 0) == Some(i + 1);
    EstimateIs(i, s.booth.Some?, s.processingTime);
  }

  /** The estimate is missing exactly for guests neither in the booth nor in the queue: being held does not matter. */
  lemma EstimateIffAtGate(s: Station, guestId: string)
    ensures EstimateAt(s, guestId) == None
            <==> && (s.booth.None? || s.booth.value.guestId != guestId)
                 && forall g :: g in s.queue ==> g.guestId != guestId
  {
    NoPlaceIffAbsent(s.queue, guestId, 0);
  }

  /** With one record for each guest, a worker round leaves an estimate of nothing more to wait, in the booth, to
      the leader of the bundle and to nobody else it serves: the others being processed have no estimate at all. */
  lemma ServedTogetherEstimates(s: Station, g: Guest)
    requires s.booth.None? && g in Started(s).bundle
    requires forall i, j :: 0 <= i < j < |s.queue| ==> s.queue[i].guestId != s.queue[j].guestId
    ensures EstimateAt(Started(s), g.guestId) == if g == Started(s).bundle[0] then Some(0.0) else None
  {
    hide Bundle, AfterPick, OutsideFamily, Family;
    var t := Started(s);
    PickIsExact(s.queue);
    assert t.bundle == Bundle(s.queue) && t.queue == AfterPick(s.queue) && t.booth == Some(t.bundle[0]);
    var f := Family(t.bundle[0]);
    assert t.bundle[0] in t.bundle;
    forall x | x in s.queue && x.guestId == g.guestId ensures x == g {
      assert g in s.queue;
      var i :| 0 <= i < |s.queue| && s.queue[i] == x;
      var j :| 0 <= j < |s.queue| && s.queue[j] == g;
    }
    forall x | x in t.queue ensures x.guestId != g.guestId { FamilyMember(s.queue, f, x); }
    EstimateIffAtGate(t, g.guestId);
  }

  lemma {:induction false} NoPlaceIffAbsent(q: Queue, guestId: string, i: nat)
    requires i <= |q|
    ensures PlaceFrom(q, guestId, i) == None <==> forall j :: i <= j < |q| ==> q[j].guestId != guestId
    decreases |q| - i
  {
    if i < |q| { NoPlaceIffAbsent(q, guestId, i + 1); }
  }

  // ----- closing

  function AllQueues(floor: Floor): (qs: seq<Queue>)
    ensures |qs| == |floor| && forall i :: 0 <= i < |floor| ==> qs[i] == floor[i].queue
  {
    seq(|floor|, i requires 0 <= i < |floor| => floor[i].queue)
  }

  function AllBundles(floor: Floor): (qs: seq<Queue>)
    ensures |qs| == |floor| && forall i :: 0 <= i < |floor| ==> qs[i] == floor[i].bundle
  {
    seq(|floor|, i requires 0 <= i < |floor| => floor[i].bundle)
  }

  /** Re-queueing a bundle leader on top of the queue adds one person; nothing else does. */
  lemma BoothIsExtra(displaced: Queue, queue: Queue, waiting: multiset<Guest>)
    requires |displaced| >= |queue| && displaced[|displaced| - |queue|..] == queue
    ensures waiting + multiset(displaced) == waiting + multiset(queue) <==> displaced == queue
  {
    assert |waiting + multiset(displaced)| == |waiting| + |displaced|;
    assert |waiting + multiset(queue)| == |waiting| + |queue|;
    if |displaced| == |queue| { assert displaced[0..] == displaced; }
  }

  ghost predicate AllSorted(qs: seq<Queue>) { forall i :: 0 <= i < |qs| ==> Sorted(qs[i]) }

  /** The queues a closing gate's guests went to: still in rank order, and with everybody in them once exactly when its
      booth was empty. */
  lemma ClosingIsSound(qs: seq<Queue>, closing: Station)
    requires qs != []
    ensures AllSorted(qs) ==> AllSorted(Redistribute(qs, closing.Displaced()))
    ensures People(Redistribute(qs, closing.Displaced())) == People(qs) + multiset(closing.queue)
            <==> closing.booth.None?
  {
    hide Redistribute, People, Sorted;
    RedistributeConserves(qs, closing.Displaced());
    BoothIsExtra(closing.Displaced(), closing.queue, People(qs));
  }

  function Removed(floor: Floor, id: string): Floor {
    if floor == [] then [] else (if floor[0].id == id then [] else [floor[0]]) + Removed(floor[1..], id)
  }

  lemma {:induction false} NobodyRemoved(floor: Floor, id: string)
    requires forall i :: 0 <= i < |floor| ==> floor[i].id != id
    ensures Removed(floor, id) == floor
  {
    if floor != [] { NobodyRemoved(floor[1..], id); }
  }

  /** `after` differs from `before` in the gate `except` and the queues of a type only. */
  ghost predicate SameBut(before: Floor, after: Floor, kind: string, except: string) {
    && |before| == |after|
    && forall i :: 0 <= i < |after| ==>
         && before[i].id == after[i].id && before[i].kind == after[i].kind
         && (after[i].id != except ==> after[i] == before[i].(queue := after[i].queue))
         && (after[i].id != except && after[i].kind != kind ==> after[i] == before[i])
  }

  lemma AreSameBut(before: Floor, after: Floor, kind: string, except: string)
    requires |before| == |after|
    requires forall i :: 0 <= i < |after| ==> before[i].id == after[i].id && before[i].kind == after[i].kind
    requires forall i :: 0 <= i < |after| && after[i].id != except ==> after[i] == before[i].(queue := after[i].queue)
    requires forall i :: 0 <= i < |after| && after[i].id != except && after[i].kind != kind ==>
            after[i].queue == before[i].queue
    ensures SameBut(before, after, kind, except)
  {
  }

  /** The floor after a close, from what it did to each gate. */
  lemma {:induction false} SpreadIs(before: Floor, after: Floor, kind: string, except: string)
    requires SameBut(before, after, kind, except)
    ensures Removed(after, except) == Spread(before, kind, except, QueuesOf(after, kind, except))
  {
    if after != [] {
      var s, t := after[0], after[1..];
      forall i | 0 <= i < |t| ensures t[i] == after[i + 1] && before[1..][i] == before[i + 1] {}
      SpreadIs(before[1..], t, kind, except);
      NothingInFront(QueuesOf(t, kind, except));
      if s.id != except && s.kind == kind {
        assert QueuesOf(after, kind, except)[1..] == QueuesOf(t, kind, except);
      }
    }
  }

  /** The queues a close leaves alone. */
  function Others(floor: Floor, kind: string, except: string): seq<Queue> {
    if floor == [] then []
    else
      (if floor[0].kind != kind && floor[0].id != except then [floor[0].queue] else [])
      + Others(floor[1..], kind, except)
  }

  lemma NothingInFront(qs: seq<Queue>)
    ensures [] + qs == qs
  {
  }

  lemma PeopleFirst(q: Queue, rest: seq<Queue>)
    ensures People([q] + rest) == multiset(q) + People(rest)
  {
    assert ([q] + rest)[1..] == rest;
  }

  lemma {:induction false} PeopleSplit(floor: Floor, kind: string, except: string)
    requires DistinctIds(floor)
    ensures var k := Find(floor, except);
            People(AllQueues(floor)) == People(QueuesOf(floor, kind, except)) + People(Others(floor, kind, except))
                                        + if k < |floor| then multiset(floor[k].queue) else multiset{}
  {
    hide People;
    if floor != [] {
      var s, t := floor[0], floor[1..];
      PeopleSplit(t, kind, except);
      assert AllQueues(floor) == [s.queue] + AllQueues(t);
      PeopleFirst(s.queue, AllQueues(t));
      PeopleFirst(s.queue, QueuesOf(t, kind, except));
      PeopleFirst(s.queue, Others(t, kind, except));
      NothingInFront(QueuesOf(t, kind, except));
      NothingInFront(Others(t, kind, except));
      if s.id == except {
        forall i | 0 <= i < |t| ensures t[i].id != except { assert t[i] == floor[i + 1]; }
        assert Find(t, except) == |t|;
      } else {
        assert Find(floor, except) == 1 + Find(t, except);
        assert Find(t, except) < |t| ==> floor[Find(floor, except)] == t[Find(t, except)];
      }
    } else {
      NoPeople();
      assert AllQueues(floor) == [];
    }
  }

  lemma NoPeople()
    ensures People([]) == multiset{}
  {
  }

  lemma {:induction false} PeopleAfterSpread(floor: Floor, kind: string, except: string, qs: seq<Queue>)
    requires |qs| == |QueuesOf(floor, kind, except)|
    ensures People(AllQueues(Spread(floor, kind, except, qs))) == People(qs) + People(Others(floor, kind, except))
  {
    hide People;
    NoPeople();
    if floor != [] {
      var s, t := floor[0], floor[1..];
      PeopleFirst(s.queue, Others(t, kind, except));
      NothingInFront(QueuesOf(t, kind, except));
      NothingInFront(Others(t, kind, except));
      if s.id != except && s.kind == kind {
        PeopleAfterSpread(t, kind, except, qs[1..]);
        PeopleFirst(qs[0], qs[1..]);
        assert qs == [qs[0]] + qs[1..];
        AllQueuesFirst(s.(queue := qs[0]), Spread(t, kind, except, qs[1..]));
      } else {
        PeopleAfterSpread(t, kind, except, qs);
        AllQueuesFirst(s, Spread(t, kind, except, qs));
      }
    } else {
      assert AllQueues(floor) == [] && qs == [];
    }
  }

  lemma AllQueuesFirst(s: Station, t: Floor)
    ensures AllQueues([s] + t) == [s.queue] + AllQueues(t)
    ensures People(AllQueues([s] + t)) == multiset(s.queue) + People(AllQueues(t))
  {
    assert AllQueues([s] + t) == [s.queue] + AllQueues(t);
    PeopleFirst(s.queue, AllQueues(t));
  }

  /** Closing keeps everybody who waits, once, exactly when the booth is empty: a guest in the booth is queued again
      while still being served. */
  lemma ClosingKeepsPeopleIffBoothEmpty(floor: Floor, id: string)
    requires DistinctIds(floor) && CloseStep(floor, id).1.Success?
    ensures People(AllQueues(CloseStep(floor, id).0)) == People(AllQueues(floor))
            <==> floor[Find(floor, id)].booth.None?
  {
    hide People, AllQueues, Redistribute, Others, QueuesOf, Spread, Find, DistinctIds;
    var s := floor[Find(floor, id)];
    var qs := QueuesOf(floor, s.kind, id);
    RedistributeConserves(qs, s.Displaced());
    PeopleSplit(floor, s.kind, id);
    RedistributeKeepsCount(qs, s.Displaced());
    PeopleAfterSpread(floor, s.kind, id, Redistribute(qs, s.Displaced()));
    BoothIsExtra(s.Displaced(), s.queue, People(qs) + People(Others(floor, s.kind, id)));
    assert People(qs) + multiset(s.Displaced()) + People(Others(floor, s.kind, id))
        == People(qs) + People(Others(floor, s.kind, id)) + multiset(s.Displaced());
  }

  lemma RedistributeKeepsCount(qs: seq<Queue>, displaced: Queue)
    requires qs != []
    ensures |Redistribute(qs, displaced)| == |qs|
  {
  }
}
