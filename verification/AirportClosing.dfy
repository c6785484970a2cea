/** Where everybody goes when a gate closes, and in which order. */
module AirportClosing {
  import opened Wrappers
  import opened Subsequences
  import opened AirportQueue
  import opened Balancing
  import opened AirportFloor

  // ----- on the queues alone

  /** The queue each displaced guest joins, as `Redistribute` fills them. */
  function Destinations(qs: seq<Queue>, displaced: Queue): (to: seq<nat>)
    requires qs != []
    ensures |to| == |displaced| && forall n :: 0 <= n < |to| ==> to[n] < |qs|
    decreases displaced
  {
    if displaced == [] then [] else
      var k := ArgMin(Lengths(qs));
      [k] + Destinations(qs[k := Insert(qs[k], displaced[0])], displaced[1..])
  }

  /** The guests that are sent to `i`, in their order. */
  function SentTo(guests: Queue, to: seq<nat>, i: nat): Queue
    requires |to| == |guests|
  {
    if guests == [] then [] else (if to[0] == i then [guests[0]] else []) + SentTo(guests[1..], to[1..], i)
  }

  lemma {:induction false} SentToAt(guests: Queue, to: seq<nat>, i: nat) returns (at: seq<nat>)
    requires |to| == |guests|
    ensures SubsequenceAt(guests, SentTo(guests, to, i), at)
    ensures forall n :: 0 <= n < |to| ==> (n in at <==> to[n] == i)
  {
    hide SubsequenceAt;
    if guests == [] {
      NothingPicked();
      return [];
    }
    var a := SentToAt(guests[1..], to[1..], i);
    at := Shifted(a);
    if to[0] == i {
      TakesFirst(guests, SentTo(guests[1..], to[1..], i), a);
      at := [0] + at;
    } else {
      SkipsFirst(guests, SentTo(guests[1..], to[1..], i), a);
      assert SentTo(guests, to, i) == SentTo(guests[1..], to[1..], i);
    }
    forall n | 0 <= n < |to| ensures n in at <==> to[n] == i {
      ShiftedMember(a, n);
      assert n > 0 ==> to[1..][n - 1] == to[n];
    }
  }

  lemma NothingPicked()
    ensures SubsequenceAt<Guest>([], [], [])
  {
  }

  /** A queue that takes in displaced guests is the stable sort of whoever came there before, and then of those sent
      there, in their order. */
  lemma {:induction false} RedistributePlaces(qs: seq<Queue>, displaced: Queue, i: nat, log: Queue)
    requires i < |qs| && qs[i] == ByRank(log)
    ensures Redistribute(qs, displaced)[i] == ByRank(log + SentTo(displaced, Destinations(qs, displaced), i))
    decreases displaced
  {
    hide ByRank, Insert, ArgMin, Lengths;
    if displaced == [] {
      assert log + [] == log;
    } else {
      var k, g := ArgMin(Lengths(qs)), displaced[0];
      var after := qs[k := Insert(qs[k], g)];
      var more := if k == i then log + [g] else log;
      if k == i { InsertKeepsArrivalOrder(log, g); }
      RedistributePlaces(after, displaced[1..], i, more);
      var rest := SentTo(displaced[1..], Destinations(after, displaced[1..]), i);
      assert Destinations(qs, displaced)[1..] == Destinations(after, displaced[1..]);
      assert more + rest == log + SentTo(displaced, Destinations(qs, displaced), i);
    }
  }

  /** When guest number `n` is placed, that many wait in queue `i`: those of before, and those placed there since. */
  function Load(queue: Queue, to: seq<nat>, n: nat, i: nat): nat
    requires n <= |to|
  {
    |queue| + multiset(to[..n])[i]
  }

  lemma {:induction false} JoinsShortest(qs: seq<Queue>, displaced: Queue, n: nat, i: nat)
    requires qs != [] && n < |displaced| && i < |qs|
    ensures var to := Destinations(qs, displaced);
            && Load(qs[to[n]], to, n, to[n]) <= Load(qs[i], to, n, i)
            && (i < to[n] ==> Load(qs[to[n]], to, n, to[n]) < Load(qs[i], to, n, i))
    decreases displaced
  {
    hide Insert, ArgMin, Lengths, Load;
    var k, to := ArgMin(Lengths(qs)), Destinations(qs, displaced);
    if n == 0 {
      LoadFirst(qs[i], to, i);
      LoadFirst(qs[k], to, k);
    } else {
      InsertPeople(qs[k], displaced[0]);
      var after := qs[k := Insert(qs[k], displaced[0])];
      var rest := Destinations(after, displaced[1..]);
      JoinsShortest(after, displaced[1..], n - 1, i);
      LoadNext(qs[i], after[i], k, rest, n - 1, i);
      LoadNext(qs[to[n]], after[to[n]], k, rest, n - 1, to[n]);
    }
  }

  lemma LoadFirst(queue: Queue, to: seq<nat>, i: nat)
    ensures Load(queue, to, 0, i) == |queue|
  {
    assert to[..0] == [];
  }

  lemma LoadNext(queue: Queue, after: Queue, k: nat, rest: seq<nat>, n: nat, i: nat)
    requires n <= |rest| && |after| == |queue| + if i == k then 1 else 0
    ensures Load(queue, [k] + rest, n + 1, i) == Load(after, rest, n, i)
  {
    assert ([k] + rest)[..n + 1] == [k] + rest[..n];
  }

  // ----- on the gates

  /** The gates that take in the guests of the closing one. */
  function Receivers(floor: Floor, kind: string, except: string): (r: seq<nat>)
    ensures |r| == |QueuesOf(floor, kind, except)|
  {
    if floor == [] then []
    else
      (if floor[0].kind == kind && floor[0].id != except then [0] else [])
      + Shifted(Receivers(floor[1..], kind, except))
  }

  /** The place of gate `i` once gate `k` is gone. */
  function Slid(i: nat, k: nat): nat {
    if i <= k then i else i - 1
  }

  /** `r` are the gates of the type but for gate `k`, in their order. */
  ghost predicate AreReceivers(floor: Floor, kind: string, k: nat, r: seq<nat>) {
    && Positions(r, |floor|)
    && forall i :: 0 <= i < |floor| ==> (i in r <==> i != k && floor[i].kind == kind)
  }

  /** The gates after a close, gate by gate. */
  ghost predicate SpreadOut(floor: Floor, kind: string, k: nat, qs: seq<Queue>, r: seq<nat>, after: Floor) {
    && |r| == |qs| && |after| == (if k < |floor| then |floor| - 1 else |floor|)
    && (forall m :: 0 <= m < |r| ==> r[m] < |floor| && r[m] != k)
    && (forall m :: 0 <= m < |r| ==> after[Slid(r[m], k)] == floor[r[m]].(queue := qs[m]))
    && (forall i :: 0 <= i < |floor| && i != k && floor[i].kind != kind ==> after[Slid(i, k)] == floor[i])
  }

  lemma FirstGone(floor: Floor, kind: string, qs: seq<Queue>, r: seq<nat>, after: Floor)
    requires floor != [] && SpreadOut(floor[1..], kind, |floor| - 1, qs, r, after)
    ensures SpreadOut(floor, kind, 0, qs, Shifted(r), after)
  {
    hide Shifted;
    var t := floor[1..];
    forall m | 0 <= m < |r| ensures after[Slid(Shifted(r)[m], 0)] == floor[Shifted(r)[m]].(queue := qs[m]) {
      assert Slid(Shifted(r)[m], 0) == r[m] == Slid(r[m], |t|) && floor[Shifted(r)[m]] == t[r[m]];
    }
    forall i | 0 < i < |floor| && floor[i].kind != kind ensures after[Slid(i, 0)] == floor[i] {
      assert Slid(i, 0) == i - 1 == Slid(i - 1, |t|) && floor[i] == t[i - 1];
    }
  }

  lemma FirstStays(floor: Floor, kind: string, k: nat, qs: seq<Queue>, r: seq<nat>, after: Floor, s: Station)
    requires floor != [] && k < |floor| && SpreadOut(floor[1..], kind, k, qs, r, after)
    requires floor[0].kind != kind ==> s == floor[0]
    ensures SpreadOut(floor, kind, k + 1, qs, Shifted(r), [s] + after)
  {
    hide Shifted;
    var t := floor[1..];
    forall m | 0 <= m < |r|
      ensures Shifted(r)[m] < |floor| && Shifted(r)[m] != k + 1
      ensures ([s] + after)[Slid(Shifted(r)[m], k + 1)] == floor[Shifted(r)[m]].(queue := qs[m])
    {
      assert Slid(Shifted(r)[m], k + 1) == Slid(r[m], k) + 1 && floor[Shifted(r)[m]] == t[r[m]];
    }
    forall i | 0 <= i < |floor| && i != k + 1 && floor[i].kind != kind
      ensures ([s] + after)[Slid(i, k + 1)] == floor[i]
    {
      if i > 0 { assert Slid(i, k + 1) == Slid(i - 1, k) + 1 && floor[i] == t[i - 1]; }
    }
  }

  lemma FirstTakesIn(floor: Floor, kind: string, k: nat, q: Queue, qs: seq<Queue>, r: seq<nat>, after: Floor)
    requires floor != [] && SpreadOut(floor, kind, k + 1, qs, r, [floor[0].(queue := q)] + after)
    ensures SpreadOut(floor, kind, k + 1, [q] + qs, [0] + r, [floor[0].(queue := q)] + after)
  {
  }

  lemma OneMoreReceiver(floor: Floor, kind: string, k: nat, rest: nat, r: seq<nat>)
    requires floor != [] && AreReceivers(floor[1..], kind, rest, r)
    requires if k == 0 then rest == |floor| - 1 else rest == k - 1
    ensures AreReceivers(floor, kind, k, if k != 0 && floor[0].kind == kind then [0] + Shifted(r) else Shifted(r))
  {
    var all := if k != 0 && floor[0].kind == kind then [0] + Shifted(r) else Shifted(r);
    forall i | 0 <= i < |floor| ensures i in all <==> i != k && floor[i].kind == kind {
      ShiftedMember(r, i);
      assert i > 0 ==> floor[1..][i - 1] == floor[i];
    }
  }

  lemma {:induction false} ReceiversAre(floor: Floor, kind: string, except: string)
    requires DistinctIds(floor)
    ensures AreReceivers(floor, kind, Find(floor, except), Receivers(floor, kind, except))
  {
    hide Find, AreReceivers, Shifted;
    if floor == [] {
      NoReceivers(kind);
    } else {
      var t := floor[1..];
      FindInRest(floor, except);
      ReceiversAre(t, kind, except);
      var r := Receivers(t, kind, except);
      assert [] + Shifted(r) == Shifted(r);
      OneMoreReceiver(floor, kind, Find(floor, except), Find(t, except), r);
    }
  }

  lemma NoReceivers(kind: string)
    ensures forall k :: AreReceivers([], kind, k, [])
  {
  }

  lemma {:induction false} SpreadIsOut(floor: Floor, kind: string, except: string, qs: seq<Queue>)
    requires DistinctIds(floor) && |qs| == |QueuesOf(floor, kind, except)|
    ensures SpreadOut(floor, kind, Find(floor, except), qs, Receivers(floor, kind, except),
                      Spread(floor, kind, except, qs))
  {
    hide SpreadOut, Shifted;
    if floor == [] {
      NothingSpread(kind);
      assert qs == [] && Receivers(floor, kind, except) == [];
    } else {
      var s, t := floor[0], floor[1..];
      NothingInFront(QueuesOf(t, kind, except));
      FindInRest(floor, except);
      var r := Receivers(t, kind, except);
      if s.id == except {
        SpreadIsOut(t, kind, except, qs);
        FirstGone(floor, kind, qs, r, Spread(t, kind, except, qs));
        assert Receivers(floor, kind, except) == Shifted(r);
      } else if s.kind == kind {
        SpreadIsOut(t, kind, except, qs[1..]);
        assert qs == [qs[0]] + qs[1..];
        var after := Spread(t, kind, except, qs[1..]);
        FirstStays(floor, kind, Find(t, except), qs[1..], r, after, s.(queue := qs[0]));
        FirstTakesIn(floor, kind, Find(t, except), qs[0], qs[1..], Shifted(r), after);
      } else {
        SpreadIsOut(t, kind, except, qs);
        FirstStays(floor, kind, Find(t, except), qs, r, Spread(t, kind, except, qs), s);
        assert Receivers(floor, kind, except) == Shifted(r);
      }
    }
  }

  lemma NothingSpread(kind: string)
    ensures SpreadOut([], kind, 0, [], [], [])
  {
  }

  lemma FindInRest(floor: Floor, id: string)
    requires floor != [] && DistinctIds(floor)
    ensures if floor[0].id == id then Find(floor, id) == 0 && Find(floor[1..], id) == |floor| - 1
            else Find(floor, id) == Find(floor[1..], id) + 1
    ensures DistinctIds(floor[1..])
  {
    var t := floor[1..];
    forall i | 0 <= i < |t| ensures t[i] == floor[i + 1] {}
  }

  lemma {:induction false} ReceiversQueues(floor: Floor, kind: string, except: string)
    ensures forall m :: 0 <= m < |Receivers(floor, kind, except)| ==>
              Receivers(floor, kind, except)[m] < |floor|
              && QueuesOf(floor, kind, except)[m] == floor[Receivers(floor, kind, except)[m]].queue
  {
    if floor != [] { ReceiversQueues(floor[1..], kind, except); }
  }

  /** The gate each of the guests leaving gate `k` joins. */
  function Targets(floor: Floor, k: nat, guests: Queue): (to: seq<nat>)
    requires k < |floor| && QueuesOf(floor, floor[k].kind, floor[k].id) != []
    ensures |to| == |guests|
  {
    Through(Receivers(floor, floor[k].kind, floor[k].id),
            Destinations(QueuesOf(floor, floor[k].kind, floor[k].id), guests))
  }

  function Through(r: seq<nat>, to: seq<nat>): (t: seq<nat>)
    requires forall n :: 0 <= n < |to| ==> to[n] < |r|
    ensures |t| == |to| && forall n :: 0 <= n < |to| ==> t[n] == r[to[n]]
  {
    seq(|to|, n requires 0 <= n < |to| => r[to[n]])
  }

  lemma {:induction false} ThroughKeeps(guests: Queue, r: seq<nat>, to: seq<nat>, m: nat)
    requires |to| == |guests| && m < |r| && forall n :: 0 <= n < |to| ==> to[n] < |r|
    requires forall i, j :: 0 <= i < j < |r| ==> r[i] < r[j]
    ensures SentTo(guests, Through(r, to), r[m]) == SentTo(guests, to, m)
  {
    if guests != [] {
      assert Through(r, to)[1..] == Through(r, to[1..]);
      ThroughKeeps(guests[1..], r, to[1..], m);
    }
  }

  lemma {:induction false} NobodySent(guests: Queue, to: seq<nat>, i: nat)
    requires |to| == |guests| && forall n :: 0 <= n < |to| ==> to[n] != i
    ensures SentTo(guests, to, i) == []
  {
    if guests != [] { NobodySent(guests[1..], to[1..], i); }
  }

  lemma {:induction false} ThroughCounts(r: seq<nat>, to: seq<nat>, n: nat, m: nat)
    requires n <= |to| && m < |r| && forall j :: 0 <= j < |to| ==> to[j] < |r|
    requires forall i, j :: 0 <= i < j < |r| ==> r[i] < r[j]
    ensures multiset(Through(r, to)[..n])[r[m]] == multiset(to[..n])[m]
  {
    if n > 0 {
      ThroughCounts(r, to, n - 1, m);
      assert to[..n] == to[..n - 1] + [to[n - 1]];
      assert Through(r, to)[..n] == Through(r, to)[..n - 1] + [r[to[n - 1]]];
    }
  }

  lemma ByRankAppend(q: Queue, more: Queue)
    ensures ByRank(ByRank(q) + more) == ByRank(q + more)
  {
    hide ByRank;
    forall r: nat | r <= 2 ensures OfRank(ByRank(q) + more, r) == OfRank(q + more, r) {
      OfRankConcat(ByRank(q), more, r);
      OfRankConcat(q, more, r);
      ClassOfByRank(q, r);
    }
    SameClasses(ByRank(q) + more, q + more);
  }

  lemma SameClasses(a: Queue, b: Queue)
    requires forall r: nat :: r <= 2 ==> OfRank(a, r) == OfRank(b, r)
    ensures ByRank(a) == ByRank(b)
  {
  }

  // ----- the close

  /** What closing gate `k` makes of the gates when the guests `leaving` go to the gates `to`, one after the other. Each
      joins the gate of the type where the fewest wait at that moment, the first such gate on a tie; and the queue
      there becomes the stable sort of its old queue and then of the guests sent there, in the order they left. */
  ghost predicate ClosedInOrder(floor: Floor, k: nat, leaving: Queue, to: seq<nat>, after: Floor)
    requires k < |floor|
  {
    && |to| == |leaving| && |after| == |floor| - 1
    && (forall n :: 0 <= n < |to| ==> JoinsFirstShortest(floor, k, to, n))
    && (forall i :: 0 <= i < |floor| && i != k ==> StandsInOrder(floor[i], leaving, to, i, after[Slid(i, k)]))
  }

  /** Gate `i` before and after: only its queue changed, to the stable sort of the queue it had and then of those sent
      there, who are at the places `at` among those leaving. */
  ghost predicate StandsInOrder(before: Station, leaving: Queue, to: seq<nat>, i: nat, after: Station) {
    && after == before.(queue := after.queue)
    && exists at :: SentAt(to, |leaving|, i, at) && after.queue == ByRank(before.queue + PickedAt(leaving, at))
  }

  /** The places, front to back, of those who are sent to `i`. */
  ghost predicate SentAt(to: seq<nat>, n: nat, i: nat, at: seq<nat>) {
    Positions(at, n) && forall m :: 0 <= m < |to| ==> (m in at <==> to[m] == i)
  }

  ghost predicate Receiving(floor: Floor, k: nat, i: nat)
    requires k < |floor|
  {
    i < |floor| && i != k && floor[i].kind == floor[k].kind
  }

  ghost predicate JoinsFirstShortest(floor: Floor, k: nat, to: seq<nat>, n: nat)
    requires k < |floor| && n < |to|
  {
    Receiving(floor, k, to[n]) && forall i: nat :: Receiving(floor, k, i) ==> Undercuts(floor, to, n, i)
  }

  ghost predicate Undercuts(floor: Floor, to: seq<nat>, n: nat, i: nat)
    requires n < |to| && to[n] < |floor| && i < |floor|
  {
    && Load(floor[to[n]].queue, to, n, to[n]) <= Load(floor[i].queue, to, n, i)
    && (i < to[n] ==> Load(floor[to[n]].queue, to, n, to[n]) < Load(floor[i].queue, to, n, i))
  }

  lemma SentIsPicked(before: Station, leaving: Queue, to: seq<nat>, i: nat, after: Station)
    requires |to| == |leaving| && after == before.(queue := ByRank(before.queue + SentTo(leaving, to, i)))
    ensures StandsInOrder(before, leaving, to, i, after)
  {
    hide ByRank, SentTo;
    var at := SentToAt(leaving, to, i);
    assert SentTo(leaving, to, i) == PickedAt(leaving, at);
    assert SentAt(to, |leaving|, i, at);
  }

  /** What closing does to the gates, with the queues of the type the stable sorts of `logs`. */
  lemma GateAfterClose(floor: Floor, k: nat, i: nat, log: Queue)
    requires DistinctIds(floor) && k < |floor| && CloseStep(floor, floor[k].id).1.Success?
    requires i < |floor| && i != k && floor[i].queue == ByRank(log)
    ensures var after, leaving := CloseStep(floor, floor[k].id).0, floor[k].Displaced();
            var to := Targets(floor, k, leaving);
            && |after| == |floor| - 1
            && after[Slid(i, k)] == floor[i].(queue := ByRank(log + SentTo(leaving, to, i)))
  {
    hide ByRank, QueuesOf, Spread, Receivers, Redistribute, Destinations, SentTo, Find;
    FoundAt(floor, k);
    var s := floor[k];
    var qs := QueuesOf(floor, s.kind, s.id);
    var r, leaving := Receivers(floor, s.kind, s.id), s.Displaced();
    SpreadIsOut(floor, s.kind, s.id, Redistribute(qs, leaving));
    ReceiversAre(floor, s.kind, s.id);
    ReceiversQueues(floor, s.kind, s.id);
    if floor[i].kind == s.kind {
      var m :| 0 <= m < |r| && r[m] == i;
      RedistributePlaces(qs, leaving, m, log);
      ThroughKeeps(leaving, r, Destinations(qs, leaving), m);
    } else {
      NobodySent(leaving, Targets(floor, k, leaving), i);
      assert log + [] == log;
    }
  }

  lemma FoundAt(floor: Floor, k: nat)
    requires DistinctIds(floor) && k < |floor|
    ensures Find(floor, floor[k].id) == k
  {
    hide Find;
    var j := Find(floor, floor[k].id);
    assert j < |floor|;
  }

  lemma TargetsJoinShortest(floor: Floor, k: nat, leaving: Queue, n: nat)
    requires DistinctIds(floor) && k < |floor| && QueuesOf(floor, floor[k].kind, floor[k].id) != []
    requires n < |leaving|
    ensures JoinsFirstShortest(floor, k, Targets(floor, k, leaving), n)
  {
    hide QueuesOf, Receivers, Destinations, Find, Load, Undercuts;
    FoundAt(floor, k);
    var s := floor[k];
    var qs, r := QueuesOf(floor, s.kind, s.id), Receivers(floor, s.kind, s.id);
    ReceiversAre(floor, s.kind, s.id);
    ReceiversQueues(floor, s.kind, s.id);
    var to := Destinations(qs, leaving);
    assert r[to[n]] in r;
    forall i: nat | Receiving(floor, k, i) ensures Undercuts(floor, Through(r, to), n, i) {
      var m :| 0 <= m < |r| && r[m] == i;
      OneUndercuts(floor, qs, r, leaving, n, m);
    }
  }

  lemma OneUndercuts(floor: Floor, qs: seq<Queue>, r: seq<nat>, leaving: Queue, n: nat, m: nat)
    requires qs != [] && |r| == |qs| && n < |leaving| && m < |r|
    requires Positions(r, |floor|) && forall j :: 0 <= j < |r| ==> qs[j] == floor[r[j]].queue
    ensures Undercuts(floor, Through(r, Destinations(qs, leaving)), n, r[m])
  {
    hide Destinations, Load;
    var to := Destinations(qs, leaving);
    ThroughLoads(qs[m], r, to, n, m);
    ThroughLoads(qs[to[n]], r, to, n, to[n]);
    JoinsShortest(qs, leaving, n, m);
  }

  lemma ThroughLoads(queue: Queue, r: seq<nat>, to: seq<nat>, n: nat, m: nat)
    requires n <= |to| && m < |r| && forall j :: 0 <= j < |to| ==> to[j] < |r|
    requires forall i, j :: 0 <= i < j < |r| ==> r[i] < r[j]
    ensures Load(queue, Through(r, to), n, r[m]) == Load(queue, to, n, m)
  {
    ThroughCounts(r, to, n, m);
  }

  /** After a close, the gates but the closed one are found in their order. */
  lemma FindAfterClose(floor: Floor, k: nat, id: string)
    requires DistinctIds(floor) && k < |floor| && CloseStep(floor, floor[k].id).1.Success?
    ensures var after, i := CloseStep(floor, floor[k].id).0, Find(floor, id);
            Find(after, id) == if i == |floor| || i == k then |after| else Slid(i, k)
  {
    hide QueuesOf, Spread, Receivers, Redistribute, Find;
    FoundAt(floor, k);
    var s := floor[k];
    var qs := Redistribute(QueuesOf(floor, s.kind, s.id), s.Displaced());
    SpreadIsOut(floor, s.kind, s.id, qs);
    ReceiversAre(floor, s.kind, s.id);
    var r, after := Receivers(floor, s.kind, s.id), Spread(floor, s.kind, s.id, qs);
    forall j | 0 <= j < |after| ensures after[j].id == floor[if j < k then j else j + 1].id {
      var i := if j < k then j else j + 1;
      assert j == Slid(i, k);
      if floor[i].kind == s.kind {
        var m :| 0 <= m < |r| && r[m] == i;
        assert after[Slid(r[m], k)] == floor[r[m]].(queue := qs[m]);
      }
    }
    var i := Find(floor, id);
    FindIs(after, id, if i == |floor| || i == k then |after| else Slid(i, k));
  }

  /** Closing a gate whose type has another, with every queue in rank order: whoever is in the booth and then the queue,
      front to back, go one after the other to the shortest queue of the moment, and stand there behind everybody of
      their rank. */
  lemma ClosingPlacesInOrder(floor: Floor, k: nat)
    requires DistinctIds(floor) && k < |floor| && CloseStep(floor, floor[k].id).1.Success?
    requires forall i :: 0 <= i < |floor| ==> Sorted(floor[i].queue)
    ensures var leaving := (if floor[k].booth.None? then [] else [floor[k].booth.value]) + floor[k].queue;
            && CloseStep(floor, floor[k].id).1.value == |leaving|
            && exists to :: ClosedInOrder(floor, k, leaving, to, CloseStep(floor, floor[k].id).0)
  {
    hide CloseStep, StandsInOrder, JoinsFirstShortest, Sorted, SentTo, Targets, ByRank;
    var s, leaving := floor[k], floor[k].Displaced();
    CloseSucceeds(floor, k);
    var to, after := Targets(floor, k, leaving), CloseStep(floor, floor[k].id).0;
    forall n | 0 <= n < |to| ensures JoinsFirstShortest(floor, k, to, n) { TargetsJoinShortest(floor, k, leaving, n); }
    forall i | 0 <= i < |floor| && i != k ensures StandsInOrder(floor[i], leaving, to, i, after[Slid(i, k)]) {
      SortedIsByRank(floor[i].queue);
      GateAfterClose(floor, k, i, floor[i].queue);
      SentIsPicked(floor[i], leaving, to, i, after[Slid(i, k)]);
    }
    assert ClosedInOrder(floor, k, leaving, to, after);
  }

  lemma CloseSucceeds(floor: Floor, k: nat)
    requires DistinctIds(floor) && k < |floor| && CloseStep(floor, floor[k].id).1.Success?
    ensures QueuesOf(floor, floor[k].kind, floor[k].id) != []
    ensures |CloseStep(floor, floor[k].id).0| == |floor| - 1
    ensures CloseStep(floor, floor[k].id).1.value == |floor[k].Displaced()|
  {
    hide QueuesOf, Spread, Find;
    FoundAt(floor, k);
    var s := floor[k];
    SpreadIsOut(floor, s.kind, s.id, Redistribute(QueuesOf(floor, s.kind, s.id), s.Displaced()));
  }

  /** With one other gate of the type, its queue becomes the stable sort of its own guests, whoever was in the closing
      gate's booth, and the whole closing queue. */
  lemma OneReceiverTakesAll(floor: Floor, k: nat, i: nat)
    requires DistinctIds(floor) && k < |floor| && CloseStep(floor, floor[k].id).1.Success?
    requires forall i :: 0 <= i < |floor| ==> Sorted(floor[i].queue)
    requires i < |floor| && i != k && floor[i].kind == floor[k].kind
    requires forall j :: 0 <= j < |floor| && floor[j].kind == floor[k].kind ==> j == i || j == k
    ensures var s, after := floor[k], CloseStep(floor, floor[k].id).0;
            && Slid(i, k) < |after| && after[Slid(i, k)].id == floor[i].id
            && after[Slid(i, k)].queue
               == ByRank(floor[i].queue + (if s.booth.None? then [] else [s.booth.value]) + s.queue)
  {
    hide CloseStep, Sorted, SentTo, Targets, ByRank, JoinsFirstShortest;
    var s, leaving := floor[k], floor[k].Displaced();
    CloseSucceeds(floor, k);
    var to := Targets(floor, k, leaving);
    forall n | 0 <= n < |to| ensures to[n] == i {
      TargetsJoinShortest(floor, k, leaving, n);
      OnlyReceiver(floor, k, i, to, n);
    }
    SortedIsByRank(floor[i].queue);
    GateAfterClose(floor, k, i, floor[i].queue);
    AllSent(leaving, to, i);
    assert floor[i].queue + leaving
        == floor[i].queue + (if s.booth.None? then [] else [s.booth.value]) + s.queue;
  }

  lemma OnlyReceiver(floor: Floor, k: nat, i: nat, to: seq<nat>, n: nat)
    requires k < |floor| && n < |to| && JoinsFirstShortest(floor, k, to, n)
    requires forall j :: 0 <= j < |floor| && floor[j].kind == floor[k].kind ==> j == i || j == k
    ensures to[n] == i
  {
  }

  lemma {:induction false} AllSent(guests: Queue, to: seq<nat>, i: nat)
    requires |to| == |guests| && forall n :: 0 <= n < |to| ==> to[n] == i
    ensures SentTo(guests, to, i) == guests
  {
    if guests != [] { AllSent(guests[1..], to[1..], i); }
  }
}
