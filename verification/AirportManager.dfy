/** All passport gates: assignment to the shortest queue, opening, and closing with redistribution. */
module AirportManager {
  import opened Wrappers
  import opened Decimals
  import opened AirportQueue
  import opened AirportOrder
  import opened AirportFloor
  import opened AirportGate
  import opened AirportWaiting
  import opened Balancing

  function Views(gates: seq<Gate>): (floor: Floor)
    reads gates
    ensures |floor| == |gates| && forall i :: 0 <= i < |gates| ==> floor[i] == gates[i].View()
  {
    if gates == [] then [] else [gates[0].View()] + Views(gates[1..])
  }

  function OfType(gates: seq<Gate>, gateType: string, except: string): (r: seq<Gate>)
    ensures forall g :: g in r ==> g in gates && g.gateType == gateType && g.gateId != except
    ensures forall g :: g in gates ==> g.gateType == gateType && g.gateId != except ==> g in r
  {
    if gates == [] then []
    else
      var g := gates[0];
      (if g.gateType == gateType && g.gateId != except then [g] else []) + OfType(gates[1..], gateType, except)
  }

  function Queues(gates: seq<Gate>): (qs: seq<Queue>)
    reads gates
    ensures |qs| == |gates|
    ensures forall i :: 0 <= i < |gates| ==> qs[i] == gates[i].queue
  {
    if gates == [] then [] else [gates[0].queue] + Queues(gates[1..])
  }

  ghost predicate Distinct(gates: seq<Gate>) {
    forall i, j :: 0 <= i < j < |gates| ==> gates[i].gateId != gates[j].gateId
  }

  lemma {:induction false} OfTypeKeepsDistinct(gates: seq<Gate>, gateType: string, except: string)
    requires Distinct(gates)
    ensures Distinct(OfType(gates, gateType, except))
  {
    if gates != [] {
      OfTypeKeepsDistinct(gates[1..], gateType, except);
      var rest := OfType(gates[1..], gateType, except);
      forall i | 0 <= i < |rest| ensures rest[i].gateId != gates[0].gateId { assert rest[i] in gates[1..]; }
    }
  }

  lemma {:induction false} QueuesOfViews(gates: seq<Gate>, gateType: string, except: string)
    ensures Queues(OfType(gates, gateType, except)) == QueuesOf(Views(gates), gateType, except)
  {
    if gates != [] {
      QueuesOfViews(gates[1..], gateType, except);
      assert Views(gates)[1..] == Views(gates[1..]);
    }
  }

  function Without(gates: seq<Gate>, gateId: string): seq<Gate> {
    if gates == [] then []
    else if gates[0].gateId == gateId then gates[1..]
    else [gates[0]] + Without(gates[1..], gateId)
  }

  lemma {:induction false} WithoutMember(gates: seq<Gate>, gate: Gate, g: Gate)
    requires Distinct(gates) && gate in gates
    ensures g in Without(gates, gate.gateId) <==> g in gates && g != gate
  {
    var t := gates[1..];
    if gates[0].gateId != gate.gateId { WithoutMember(t, gate, g); }
  }

  lemma {:induction false} WithoutKeepsDistinct(gates: seq<Gate>, gate: Gate)
    requires Distinct(gates) && gate in gates
    ensures Distinct(Without(gates, gate.gateId))
  {
    var t := gates[1..];
    if gates[0].gateId != gate.gateId {
      WithoutKeepsDistinct(t, gate);
      var rest := Without(t, gate.gateId);
      forall i | 0 <= i < |rest| ensures rest[i].gateId != gates[0].gateId {
        WithoutMember(t, gate, rest[i]);
        assert rest[i] in t;
      }
    }
  }

  lemma {:induction false} WithoutIsRemoved(gates: seq<Gate>, except: string)
    requires Distinct(gates)
    ensures Views(Without(gates, except)) == Removed(Views(gates), except)
  {
    if gates != [] {
      var t := gates[1..];
      assert Views(gates)[1..] == Views(t);
      if gates[0].gateId == except {
        forall i | 0 <= i < |t| ensures t[i].gateId != except {}
        NobodyRemoved(Views(t), except);
      } else {
        WithoutIsRemoved(t, except);
        assert Views(Without(gates, except)) == [gates[0].View()] + Views(Without(t, except));
      }
    }
  }

  /** Everybody waits at one of these gates and is recorded there. */
  ghost predicate Rehomed(gates: seq<Gate>, guests: Queue)
    reads set g | g in gates, set g | g in guests
  {
    forall g :: g in guests ==> exists i :: 0 <= i < |gates| && g in gates[i].queue && g.gate == gates[i].gateId
  }

  lemma OneLonger(q: Queue, g: Guest)
    ensures |Insert(q, g)| == |q| + 1
  {
  }

  lemma StillThere(gates: seq<Gate>, closing: Gate, targets: seq<Gate>, guests: Queue)
    requires Distinct(gates) && closing in gates && Rehomed(targets, guests)
    requires targets == OfType(gates, closing.gateType, closing.gateId)
    ensures Rehomed(Without(gates, closing.gateId), guests)
  {
    hide OfType, Without, Distinct;
    forall g | g in guests
      ensures exists i :: 0 <= i < |Without(gates, closing.gateId)| && g in Without(gates, closing.gateId)[i].queue
                          && g.gate == Without(gates, closing.gateId)[i].gateId
    {
      var i :| 0 <= i < |targets| && g in targets[i].queue && g.gate == targets[i].gateId;
      WithoutMember(gates, closing, targets[i]);
      assert targets[i] in Without(gates, closing.gateId);
    }
  }

  lemma ViewsConcat(a: seq<Gate>, b: seq<Gate>)
    ensures Views(a + b) == Views(a) + Views(b)
  {
  }

  lemma DistinctByView(gates: seq<Gate>)
    requires DistinctIds(Views(gates))
    ensures Distinct(gates)
  {
    forall i, j | 0 <= i < j < |gates| ensures gates[i].gateId != gates[j].gateId {
      assert Views(gates)[i].id != Views(gates)[j].id;
    }
  }

  lemma OnlyOne(gates: seq<Gate>, gate: Gate)
    requires Distinct(gates) && gate in gates
    ensures forall h :: h in gates && h.gateId == gate.gateId ==> h == gate
  {
  }

  /** The gate that answers to an id. */
  ghost predicate IsFirst(gates: seq<Gate>, g: Gate, gateId: string) {
    exists k :: 0 <= k < |gates| && gates[k] == g && g.gateId == gateId
                && forall i :: 0 <= i < k ==> gates[i].gateId != gateId
  }

  lemma FoundIsFirst(gates: seq<Gate>, gateId: string)
    ensures var k := Find(Views(gates), gateId);
            if k == |gates| then forall g :: !IsFirst(gates, g, gateId)
            else gates[k].gateId == gateId && forall g :: IsFirst(gates, g, gateId) <==> g == gates[k]
  {
    hide Views;
    var k := Find(Views(gates), gateId);
    forall i | 0 <= i < |gates| ensures gates[i].gateId == Views(gates)[i].id {}
    if k < |gates| { assert IsFirst(gates, gates[k], gateId); }
  }

  /** Nobody is left at a closed gate. */
  ghost predicate LeftBy(gate: Gate, before: Station)
    reads gate
  {
    gate.View() == before.(queue := [], booth := None) && !gate.active
  }

  class GateManager {
    /** The gates in the order they were opened, one for each id. */
    var gates: seq<Gate>
    const processingTimeEu: real
    const processingTimeAll: real

    ghost predicate Valid()
      reads this
    {
      Distinct(gates)
    }

    function Floor(): Floor
      reads this, gates
      ensures |Floor()| == |gates|
    {
      Views(gates)
    }

    ghost function Named(gateId: string): (named: set<Gate>)
      reads this
    {
      set g | g in gates && g.gateId == gateId
    }

    /** Who has to leave if the gate closes. */
    ghost function Leaving(gateId: string): (guests: set<Guest>)
      reads this, gates
    {
      set g, h | h in gates && h.gateId == gateId && g in h.View().Displaced() :: g
    }

    constructor (euCount: int, allCount: int, processingTimeEu: real, processingTimeAll: real)
      ensures this.processingTimeEu == processingTimeEu && this.processingTimeAll == processingTimeAll
      ensures Valid() && Floor() == Initial(euCount, allCount, processingTimeEu, processingTimeAll)
      ensures forall g :: g in gates ==> fresh(g) && g.Valid() && g.active
    {
      this.processingTimeEu, this.processingTimeAll := processingTimeEu, processingTimeAll;
      new;
      hide Views, Numbered, Distinct, Gate.Valid;
      var eu := NewGates("EU", processingTimeEu, euCount);
      var all := NewGates("ALL", processingTimeAll, allCount);
      gates := eu + all;
      ViewsConcat(eu, all);
      InitialIsDistinct(euCount, allCount, processingTimeEu, processingTimeAll);
      DistinctByView(gates);
    }

    static method NewGates(kind: string, processingTime: real, n: int) returns (gates: seq<Gate>)
      ensures Views(gates) == Numbered(kind, processingTime, n)
      ensures forall g :: g in gates ==> fresh(g) && g.Valid() && g.active
    {
      hide Views;
      gates := [];
      var numbered := Numbered(kind, processingTime, n);
      for i := 0 to |numbered|
        invariant |gates| == i && forall j :: 0 <= j < i ==> gates[j].View() == numbered[j]
        invariant forall g :: g in gates ==> fresh(g) && g.Valid() && g.active
      {
        var gate := new Gate(kind + "-" + Decimal(i + 1), kind, processingTime);
        gates := gates + [gate];
      }
    }

    /** The first gate of that type with a shortest queue, or |gates|. */
    method ShortestQueueGate(gateType: string) returns (k: nat)
      ensures k == Shortest(Floor(), gateType) <= |gates|
      ensures k == |gates| <==> forall g :: g in gates ==> g.gateType != gateType
      ensures k < |gates| ==>
                && gates[k].gateType == gateType
                && (forall i :: 0 <= i < |gates| && gates[i].gateType == gateType ==>
                    |gates[k].queue| <= |gates[i].queue|)
                && (forall i :: 0 <= i < k && gates[i].gateType == gateType ==> |gates[k].queue| < |gates[i].queue|)
    {
      hide Views;
      k := Shortest(Floor(), gateType);
      assert forall i :: 0 <= i < |gates| ==>
          Floor()[i].kind == gates[i].gateType && Floor()[i].queue == gates[i].queue;
    }

    /** The guest joins the queue that `AssignStep` chooses, and is recorded there. */
    method AssignAndEnqueue(guest: Guest) returns (r: Result<Ticket, Error>)
      requires Valid()
      modifies guest`status, guest`gate, (set g | g in gates)`queue
      ensures (Floor(), r) == AssignStep(old(Floor()), guest)
      ensures guest.status == (if r.Success? then Queued else old(guest.status))
      ensures guest.gate == (if r.Success? then r.value.gate else old(guest.gate))
    {
      hide Views, Shortest, Distinct, Join;
      var k := ShortestQueueGate("ALL");
      if k == |gates| { return Failure(NoCandidateGate); }
      if guest.passport == "EU" {
        var eu := ShortestQueueGate("EU");
        if eu == |gates| { return Failure(NoCandidateGate); }
        if |gates[k].queue| >= |gates[eu].queue| { k := eu; }
      }
      r := JoinQueue(k, guest);
    }

    method JoinQueue(k: nat, guest: Guest) returns (r: Result<Ticket, Error>)
      requires Valid() && k < |gates|
      modifies guest`status, guest`gate, (set g | g in gates)`queue
      ensures (Floor(), r) == Join(old(Floor()), k, guest)
      ensures r.Success? && guest.status == Queued && guest.gate == r.value.gate
    {
      hide Views, Insert, InsertAt, PutIn;
      ghost var floor := Floor();
      var gate := gates[k];
      guest.status, guest.gate := Queued, gate.gateId;
      var position := gate.Enqueue(guest);
      forall i | 0 <= i < |gates| && i != k ensures Floor()[i] == floor[i] {
        assert gates[i].gateId != gates[k].gateId;
      }
      assert Floor()[k] == floor[k].(queue := Insert(floor[k].queue, guest));
      assert Floor() == floor[k := floor[k].(queue := Insert(floor[k].queue, guest))];
      OneLonger(floor[k].queue, guest);
      var estimate := Estimate(position - 1, gate.currentlyProcessing != null, gate.processingTime);
      return Success(Ticket(gate.gateId, position, |gate.queue|, estimate));
    }

    method OpenGate(gateId: string, gateType: string) returns (r: Result<Gate, Error>)
      requires Valid()
      modifies this`gates
      ensures Valid()
      ensures var (after, error) := OpenStep(old(Floor()), gateId, gateType, processingTimeEu, processingTimeAll);
              Floor() == after && match error case None => r.Success? case Some(e) => r == Failure(e)
      ensures r.Success? ==> fresh(r.value) && r.value.Valid() && gates == old(gates) + [r.value]
      ensures r.Failure? ==> gates == old(gates)
      ensures r == Failure(GateExists) <==> exists g :: g in old(gates) && g.gateId == gateId
      ensures r == Failure(InvalidGateType) ==> gateType != "EU" && gateType != "ALL"
      ensures r == Failure(NoGateToCopy) ==> old(gates) == []
      ensures r.Success? ==> (gateType == "EU" || gateType == "ALL") && old(gates) != []
      ensures r.Success? ==>
                && r.value.gateId == gateId && r.value.gateType == gateType && r.value.active
                && r.value.queue == [] && r.value.currentlyProcessing == null
                && (gateType == "EU" ==> r.value.processingTime == processingTimeEu)
                && (gateType == "ALL" ==> r.value.processingTime == processingTimeAll)
    {
      var k := Find(Floor(), gateId);
      if k < |gates| { return Failure(GateExists); }
      if gateType != "EU" && gateType != "ALL" { return Failure(InvalidGateType); }
      if gates == [] { return Failure(NoGateToCopy); }
      var gate := new Gate(gateId, gateType, if gateType == "EU" then processingTimeEu else processingTimeAll);
      forall i | 0 <= i < |gates| ensures gates[i].gateId != gateId { assert Floor()[i].id != gateId; }
      ghost var floor := Floor();
      gates := gates + [gate];
      assert Floor() == floor + [gate.View()];
      return Success(gate);
    }

    /** One displaced guest joins the shortest of the target queues. */
    static method MoveToShortest(targets: seq<Gate>, guest: Guest)
      requires targets != [] && Distinct(targets)
      modifies guest`gate, (set g | g in targets)`queue
      ensures var k := ArgMin(Lengths(old(Queues(targets))));
              && Queues(targets) == old(Queues(targets))[k := Insert(old(Queues(targets))[k], guest)]
              && guest.gate == targets[k].gateId
    {
      hide Insert, Lengths, ArgMin, Queues, PutIn;
      var k := ArgMin(Lengths(Queues(targets)));
      ghost var qs := Queues(targets);
      guest.gate := targets[k].gateId;
      var position := targets[k].Enqueue(guest);
      forall i | 0 <= i < |targets| && i != k ensures targets[i].queue == qs[i] {
        assert targets[i].gateId != targets[k].gateId;
      }
      assert Queues(targets) == qs[k := Insert(qs[k], guest)];
    }

    static method MoveAll(targets: seq<Gate>, displaced: Queue)
      requires targets != [] && Distinct(targets)
      modifies (set g | g in displaced)`gate, (set g | g in targets)`queue
      ensures Queues(targets) == Redistribute(old(Queues(targets)), displaced)
      ensures Rehomed(targets, displaced)
    {
      hide Insert, Lengths, ArgMin, Queues, Redistribute;
      ghost var before := Queues(targets);
      for n := 0 to |displaced|
        invariant Redistribute(Queues(targets), displaced[n..]) == Redistribute(before, displaced)
        invariant forall j :: 0 <= j < n ==>
                    exists i :: 0 <= i < |targets| && displaced[j] in Queues(targets)[i]
                        && displaced[j].gate == targets[i].gateId
      {
        assert displaced[n..] == [displaced[n]] + displaced[n + 1..];
        ghost var qs := Queues(targets);
        RedistributeOne(qs, displaced[n], displaced[n + 1..]);
        MoveToShortest(targets, displaced[n]);
        ghost var k := ArgMin(Lengths(qs));
        InsertMembers(qs[k], displaced[n]);
        assert displaced[n] in Queues(targets)[k];
        forall i, g | 0 <= i < |targets| && g in qs[i] ensures g in Queues(targets)[i] {}
      }
      assert displaced[|displaced|..] == [];
      RedistributeNone(Queues(targets));
    }

    /** Empties a gate into the queues of `targets`. Everybody is kept, and nobody doubled, exactly when the
        booth is empty: a guest in the booth is queued again while still being served. */
    static method Vacate(closing: Gate, targets: seq<Gate>) returns (displaced: Queue)
      requires targets != [] && Distinct(targets) && closing !in targets
      modifies closing`queue, closing`active, closing`currentlyProcessing, (set g | g in targets)`queue
      modifies (set g | g in closing.View().Displaced())`status, (set g | g in closing.View().Displaced())`gate
      ensures displaced == old(closing.View().Displaced())
      ensures LeftBy(closing, old(closing.View()))
      ensures Queues(targets) == Redistribute(old(Queues(targets)), displaced)
      ensures Rehomed(targets, displaced)
      ensures old(closing.currentlyProcessing) != null ==> old(closing.currentlyProcessing).status == Queued
      ensures forall g :: g in old(closing.queue) && g != old(closing.currentlyProcessing) ==> g.status == old(g.status)
      ensures old(AllSorted(Queues(targets))) ==> AllSorted(Queues(targets))
      ensures People(Queues(targets)) == old(People(Queues(targets))) + multiset(old(closing.queue))
              <==> old(closing.currentlyProcessing) == null
    {
      hide Redistribute, People, Queues, AllSorted, Rehomed;
      displaced := closing.View().Displaced();
      ghost var before := Queues(targets);
      ClosingIsSound(before, closing.View());
      closing.active, closing.queue := false, [];
      if closing.currentlyProcessing != null {
        closing.currentlyProcessing.status := Queued;
        closing.currentlyProcessing := null;
      }
      assert Queues(targets) == before;
      MoveAll(targets, displaced);
    }

    /** Empties a gate into the other gates of its type. */
    method MoveOut(closing: Gate, targets: seq<Gate>) returns (displaced: Queue)
      requires Valid() && closing in gates && targets != []
              && targets == OfType(gates, closing.gateType, closing.gateId)
      modifies closing`queue, closing`active, closing`currentlyProcessing, (set g | g in targets)`queue
      modifies (set g | g in closing.View().Displaced())`status, (set g | g in closing.View().Displaced())`gate
      ensures displaced == old(closing.View()).Displaced() && LeftBy(closing, old(closing.View()))
      ensures SameBut(old(Floor()), Floor(), closing.gateType, closing.gateId)
      ensures QueuesOf(old(Floor()), closing.gateType, closing.gateId) != []
      ensures QueuesOf(Floor(), closing.gateType, closing.gateId)
           == Redistribute(QueuesOf(old(Floor()), closing.gateType, closing.gateId), displaced)
      ensures Rehomed(targets, displaced)
      ensures old(closing.currentlyProcessing) != null ==> old(closing.currentlyProcessing).status == Queued
      ensures forall g :: g in old(closing.queue) && g != old(closing.currentlyProcessing) ==> g.status == old(g.status)
    {
      hide Redistribute, Queues, OfType, Rehomed, Views, QueuesOf, LeftBy, Distinct, SameBut;
      QueuesOfViews(gates, closing.gateType, closing.gateId);
      OfTypeKeepsDistinct(gates, closing.gateType, closing.gateId);
      ghost var floor := Floor();
      displaced := Vacate(closing, targets);
      QueuesOfViews(gates, closing.gateType, closing.gateId);
      OnlyOne(gates, closing);
      forall i | 0 <= i < |gates|
        ensures Floor()[i].id == floor[i].id == gates[i].gateId && Floor()[i].kind == floor[i].kind == gates[i].gateType
        ensures gates[i] != closing ==> Floor()[i] == floor[i].(queue := gates[i].queue)
        ensures gates[i] != closing && gates[i].gateType != closing.gateType ==> gates[i].queue == floor[i].queue
      {
        assert Floor()[i] == gates[i].View();
      }
      AreSameBut(floor, Floor(), closing.gateType, closing.gateId);
    }

    /** Closes a gate unless it is unknown or the last of its type; its guests go to the gates of its type. */
    method CloseGate(gateId: string) returns (r: Result<nat, Error>)
      requires Valid()
      modifies this`gates, (set g | g in gates)`queue, Named(gateId)`active, Named(gateId)`currentlyProcessing
      modifies Leaving(gateId)`status, Leaving(gateId)`gate
      ensures Valid()
      ensures (Floor(), r) == CloseStep(old(Floor()), gateId)
      ensures r.Failure? ==> gates == old(gates) && forall g :: g in gates ==> unchanged(g)
      ensures r.Failure? ==> forall g :: g in Leaving(gateId) ==> unchanged(g)
      ensures r.Success? ==>
                && gates == Without(old(gates), gateId)
                && forall h :: h in old(Named(gateId)) ==>
                     && LeftBy(h, old(h.View()))
                     && Rehomed(gates, old(h.View()).Displaced())
                     && (old(h.currentlyProcessing) != null ==> old(h.currentlyProcessing).status == Queued)
                     && forall g :: g in old(h.queue) && g != old(h.currentlyProcessing) ==> g.status == old(g.status)
    {
      hide Redistribute, Without, OfType, Rehomed, Views, Spread, QueuesOf, Find, Distinct, SameBut, LeftBy, Removed;
      var k := Find(Floor(), gateId);
      if k == |gates| { return Failure(GateNotFound); }
      var closing := gates[k];
      var sameType := OfType(gates, closing.gateType, gateId);
      QueuesOfViews(gates, closing.gateType, gateId);
      if sameType == [] { return Failure(LastGateOfType); }
      ghost var floor := Floor();
      OnlyOne(gates, closing);
      var displaced := MoveOut(closing, sameType);
      WithoutKeepsDistinct(gates, closing);
      SpreadIs(floor, Floor(), closing.gateType, gateId);
      WithoutIsRemoved(gates, gateId);
      StillThere(gates, closing, sameType, displaced);
      gates := Without(gates, gateId);
      return Success(|displaced|);
    }

    /** The place of a guest at a gate: 0 in the booth, then the 1-based place in the queue. */
    method GetGuestPosition(guestId: string, gateId: string) returns (r: Option<nat>)
      ensures r == var k := Find(Floor(), gateId); if k == |gates| then None else PositionAt(Floor()[k], guestId)
      ensures (forall g :: g in gates ==> g.gateId != gateId) ==> r == None
      ensures forall g :: IsFirst(gates, g, gateId) ==> IsPlace(g.View(), guestId, r)
    {
      hide Views, IsFirst, IsPlace;
      FoundIsFirst(gates, gateId);
      var k := Find(Floor(), gateId);
      if k == |gates| { return None; }
      var g := gates[k];
      PositionIsPlace(g.View(), guestId);
      if g.currentlyProcessing != null && g.currentlyProcessing.guestId == guestId { return Some(0); }
      for i := 0 to |g.queue|
        invariant PlaceFrom(g.queue, guestId, 0) == PlaceFrom(g.queue, guestId, i)
      {
        if g.queue[i].guestId == guestId { return Some(i + 1); }
      }
      return None;
    }

    /** The live estimate at a gate; the guest in the booth has none left to wait for. */
    method GetEstimatedWait(guestId: string, gateId: string) returns (r: Option<real>)
      ensures r == var k := Find(Floor(), gateId); if k == |gates| then None else EstimateAt(Floor()[k], guestId)
      ensures (forall g :: g in gates ==> g.gateId != gateId) ==> r == None
      ensures forall g :: IsFirst(gates, g, gateId) ==> IsWait(g.View(), guestId, r)
    {
      hide Views, IsFirst, IsWait;
      FoundIsFirst(gates, gateId);
      var k := Find(Floor(), gateId);
      if k == |gates| { return None; }
      var g := gates[k];
      EstimateIsWait(g.View(), guestId);
      if g.currentlyProcessing != null && g.currentlyProcessing.guestId == guestId { return Some(0.0); }
      for i := 0 to |g.queue|
        invariant PlaceFrom(g.queue, guestId, 0) == PlaceFrom(g.queue, guestId, i)
      {
        if g.queue[i].guestId == guestId {
          return Some(Estimate(i, g.currentlyProcessing != null, g.processingTime));
        }
      }
      return None;
    }
  }
}
