/** What every reachable state of the cache middleware satisfies, whatever the interleaving. */
module GatewaySafety {
  import opened GatewayCapture
  import opened GatewayCache
  import opened GatewayProtocol

  // ----- single flight

  predicate Leads(s: State, r: nat, f: nat) {
    r < |s.requests| && s.requests[r].phase.Leading? && s.requests[r].phase.flight == f
  }

  /** The flight of an unfinished leader is its own, of its key, and listed until it is unlinked. */
  ghost predicate LeaderOk(s: State, r: nat)
    requires r < |s.requests|
  {
    s.requests[r].phase.Leading? ==>
      var k, f, stage := s.requests[r].key, s.requests[r].phase.flight, s.requests[r].phase.stage;
      && f < |s.table| && s.table[f].leader == r && s.table[f].key == k && !s.table[f].done
      && (!stage.Unlinked? ==> k in s.flights && s.flights[k] == f)
  }

  ghost predicate FollowerOk(s: State, r: nat)
    requires r < |s.requests|
  {
    var p := s.requests[r].phase;
    && (p.Waiting? ==> p.flight < |s.table| && s.table[p.flight].key == s.requests[r].key)
    && (p.Released? ==> p.flight < |s.table| && s.table[p.flight].key == s.requests[r].key
                        && s.table[p.flight].done && s.table[p.flight].result.response.cacheable)
  }

  ghost predicate FlightOk(s: State, f: nat)
    requires f < |s.table|
  {
    s.table[f].leader < |s.requests| && (s.table[f].done || Leads(s, s.table[f].leader, f))
  }

  ghost predicate ListedOk(s: State, k: string)
    requires k in s.flights
  {
    var f := s.flights[k];
    && f < |s.table| && s.table[f].key == k && !s.table[f].done
    && Leads(s, s.table[f].leader, f) && !s.requests[s.table[f].leader].phase.stage.Unlinked?
  }

  ghost predicate Structure(s: State) {
    && (forall r :: 0 <= r < |s.requests| ==> LeaderOk(s, r))
    && (forall r :: 0 <= r < |s.requests| ==> FollowerOk(s, r))
    && (forall f :: 0 <= f < |s.table| ==> FlightOk(s, f))
    && (forall k :: k in s.flights ==> ListedOk(s, k))
  }

  lemma LeadersKept(s: State, r: nat, move: Move)
    requires Structure(s) && r < |s.requests| && Can(s, r, move)
    ensures var s' := Moved(s, r, move); forall q :: 0 <= q < |s'.requests| ==> LeaderOk(s', q)
  {
    hide Captured, LookupEntry, AfterLookup;
    var s' := Moved(s, r, move);
    assert LeaderOk(s, r);
    forall q | 0 <= q < |s'.requests| ensures LeaderOk(s', q) { assert LeaderOk(s, q); }
  }

  lemma FollowersKept(s: State, r: nat, move: Move)
    requires Structure(s) && r < |s.requests| && Can(s, r, move)
    ensures var s' := Moved(s, r, move); forall q :: 0 <= q < |s'.requests| ==> FollowerOk(s', q)
  {
    hide Captured, LookupEntry, AfterLookup;
    var s' := Moved(s, r, move);
    assert LeaderOk(s, r);
    if s.requests[r].key in s.flights { assert ListedOk(s, s.requests[r].key); }
    forall q | 0 <= q < |s'.requests| ensures FollowerOk(s', q) { assert FollowerOk(s, q); }
  }

  lemma FlightsKept(s: State, r: nat, move: Move)
    requires Structure(s) && r < |s.requests| && Can(s, r, move)
    ensures var s' := Moved(s, r, move); forall f :: 0 <= f < |s'.table| ==> FlightOk(s', f)
  {
    hide Captured, LookupEntry, AfterLookup;
    var s' := Moved(s, r, move);
    assert LeaderOk(s, r);
    forall f | 0 <= f < |s'.table| ensures FlightOk(s', f) {
      if f < |s.table| { assert FlightOk(s, f); }
    }
  }

  lemma ListedKept(s: State, r: nat, move: Move)
    requires Structure(s) && r < |s.requests| && Can(s, r, move)
    ensures var s' := Moved(s, r, move); forall k :: k in s'.flights ==> ListedOk(s', k)
  {
    hide Captured, LookupEntry, AfterLookup;
    var s' := Moved(s, r, move);
    assert LeaderOk(s, r);
    forall k | k in s'.flights ensures ListedOk(s', k) {
      if k in s.flights { assert ListedOk(s, k); }
    }
  }

  lemma StructureKept(s: State, step: Step)
    requires Structure(s) && Enabled(s, step)
    ensures Structure(Apply(s, step))
  {
    hide LeaderOk, FollowerOk, FlightOk, ListedOk, Moved, Can;
    match step
    case Act(r, move) =>
      LeadersKept(s, r, move);
      FollowersKept(s, r, move);
      FlightsKept(s, r, move);
      ListedKept(s, r, move);
    case _ =>
      QuietSteps(s, step);
  }

  lemma QuietSteps(s: State, step: Step)
    requires Structure(s) && !step.Act?
    ensures Structure(Apply(s, step))
  {
    var s' := Apply(s, step);
    forall q | 0 <= q < |s'.requests| ensures LeaderOk(s', q) && FollowerOk(s', q) {
      if q < |s.requests| { assert LeaderOk(s, q) && FollowerOk(s, q); }
    }
    forall f | 0 <= f < |s'.table| ensures FlightOk(s', f) { assert FlightOk(s, f); }
    forall k | k in s'.flights ensures ListedOk(s', k) { assert ListedOk(s, k); }
  }

  lemma {:induction false} StructureAlways(s: State, steps: seq<Step>)
    requires Structure(s) && Runs(s, steps)
    ensures Structure(After(s, steps))
    decreases steps
  {
    hide Structure, Enabled, Apply;
    if steps != [] {
      StructureKept(s, steps[0]);
      StructureAlways(Apply(s, steps[0]), steps[1..]);
    }
  }

  /** A request that leads the open flight of its key, that is, between opening it and unlinking it. */
  predicate LeadsOpen(s: State, r: nat, k: string) {
    && r < |s.requests| && s.requests[r].key == k
    && s.requests[r].phase.Leading? && !s.requests[r].phase.stage.Unlinked?
  }

  /** In every reachable state a key has an open flight exactly when it has a live leader, and then just one;
      a waiting follower's flight is done or has a live leader of the follower's key. */
  lemma SingleFlight(now: int, ttl: nat, steps: seq<Step>, k: string)
    requires Runs(Initial(now, ttl), steps)
    ensures var s := After(Initial(now, ttl), steps);
            && (k in s.flights <==> exists r :: LeadsOpen(s, r, k))
            && (k in s.flights ==> s.flights[k] < |s.table| && !s.table[s.flights[k]].done)
            && (forall r, q :: LeadsOpen(s, r, k) && LeadsOpen(s, q, k) ==> r == q)
            && (forall r :: 0 <= r < |s.requests| && s.requests[r].phase.Waiting? ==>
                  var f := s.requests[r].phase.flight;
                  && f < |s.table|
                  && (s.table[f].done
                      || (Leads(s, s.table[f].leader, f) && s.requests[s.table[f].leader].key == s.requests[r].key)))
  {
    StructureAlways(Initial(now, ttl), steps);
    var s := After(Initial(now, ttl), steps);
    if k in s.flights {
      assert ListedOk(s, k);
      var r := s.table[s.flights[k]].leader;
      assert LeaderOk(s, r);
      assert LeadsOpen(s, r, k);
    }
    forall r | LeadsOpen(s, r, k) ensures k in s.flights && r == s.table[s.flights[k]].leader { assert LeaderOk(s, r); }
    forall r | 0 <= r < |s.requests| && s.requests[r].phase.Waiting?
      ensures var f := s.requests[r].phase.flight;
              && f < |s.table|
              && (s.table[f].done
                  || (Leads(s, s.table[f].leader, f) && s.requests[s.table[f].leader].key == s.requests[r].key))
    {
      var f := s.requests[r].phase.flight;
      assert FollowerOk(s, r);
      assert FlightOk(s, f);
      if !s.table[f].done { assert LeaderOk(s, s.table[f].leader); }
    }
  }

  // ----- progress

  /** How many moves a request has left at most. */
  function Left(p: Phase): nat {
    match p
    case Arrived => 8
    case Missed(_) => 7
    case Leading(_, stage, _) =>
      (match stage
       case Fetching => 6
       case Fetched(_, _) => 5
       case Stamped(_, _, _) => 4
       case Settled(_) => 3
       case Assigned => 2
       case Unlinked => 1)
    case Waiting(_, _, _, _) => 2
    case Released(_, _, _) => 1
    case FetchingAlone => 1
    case Finished(_) => 0
  }

  function TotalLeft(requests: seq<Request>): nat {
    if requests == [] then 0 else Left(requests[0].phase) + TotalLeft(requests[1..])
  }

  lemma {:induction false} TotalLeftUpdate(requests: seq<Request>, r: nat, q: Request)
    requires r < |requests|
    ensures TotalLeft(requests[r := q]) + Left(requests[r].phase) == TotalLeft(requests) + Left(q.phase)
  {
    hide Left;
    if r > 0 {
      assert requests[r := q][1..] == requests[1..][r - 1 := q];
      TotalLeftUpdate(requests[1..], r - 1, q);
    } else {
      assert requests[r := q][1..] == requests[1..];
    }
  }

  lemma {:induction false} TotalLeftAppend(requests: seq<Request>, q: Request)
    ensures TotalLeft(requests + [q]) == TotalLeft(requests) + Left(q.phase)
  {
    hide Left;
    if requests != [] {
      assert (requests + [q])[1..] == requests[1..] + [q];
      TotalLeftAppend(requests[1..], q);
    }
  }

  lemma MoveShrinks(s: State, r: nat, move: Move)
    requires r < |s.requests| && Can(s, r, move)
    ensures var s' := Moved(s, r, move);
            |s'.requests| == |s.requests| && s'.requests == s.requests[r := s'.requests[r]]
            && Left(s'.requests[r].phase) < Left(s.requests[r].phase)
  {
    hide Captured, LookupEntry, AfterLookup;
  }

  function Moves(steps: seq<Step>): nat {
    if steps == [] then 0 else (if steps[0].Act? then 1 else 0) + Moves(steps[1..])
  }

  function Arrivals(steps: seq<Step>): nat {
    if steps == [] then 0 else (if steps[0].Arrive? then 1 else 0) + Arrivals(steps[1..])
  }

  /** Every run takes at most eight moves for each request, whatever the schedule. */
  lemma {:induction false} MovesAreBounded(s: State, steps: seq<Step>)
    requires Runs(s, steps)
    ensures Moves(steps) + TotalLeft(After(s, steps).requests) <= TotalLeft(s.requests) + 8 * Arrivals(steps)
    decreases steps
  {
    hide Moved, Can;
    if steps != [] {
      var t := Apply(s, steps[0]);
      match steps[0] {
        case Act(r, move) =>
          MoveShrinks(s, r, move);
          TotalLeftUpdate(s.requests, r, t.requests[r]);
          assert TotalLeft(t.requests) < TotalLeft(s.requests);
        case Arrive(k) =>
          TotalLeftAppend(s.requests, Request(k, Arrived));
          assert TotalLeft(t.requests) == TotalLeft(s.requests) + 8;
        case Tick(_) =>
      }
      MovesAreBounded(t, steps[1..]);
    }
  }

  /** No request is stuck: an unfinished one can move, or waits for a leader of its key that can. */
  lemma NobodyIsStuck(s: State, r: nat)
    requires Structure(s) && r < |s.requests| && !s.requests[r].phase.Finished?
    ensures exists q, move :: 0 <= q < |s.requests| && Can(s, q, move) && s.requests[q].key == s.requests[r].key
  {
    var p := s.requests[r].phase;
    assert FollowerOk(s, r);
    assert LeaderOk(s, r);
    var q := r;
    if p.Waiting? && !s.table[p.flight].done {
      assert FlightOk(s, p.flight);
      q := s.table[p.flight].leader;
      assert LeaderOk(s, q);
    }
    var move := NextMove(s.requests[q].phase);
    assert Can(s, q, move);
  }

  function NextMove(p: Phase): Move {
    match p
    case Arrived => Lookup
    case Missed(_) => Begin
    case Leading(_, stage, _) =>
      (match stage
       case Fetching => Panic
       case Fetched(_, _) => Stamp
       case Stamped(_, _, _) => Put
       case Settled(_) => Assign
       case Assigned => Unlink
       case Unlinked => CloseDone)
    case Waiting(_, _, _, _) => Wake
    case Released(_, _, _) => Recheck
    case _ => Panic
  }

  /** Every request finishes: a run that cannot be extended by a move has answered everybody. */
  lemma EveryRequestFinishes(now: int, ttl: nat, steps: seq<Step>)
    requires Runs(Initial(now, ttl), steps)
    requires var s := After(Initial(now, ttl), steps); forall r, move :: 0 <= r < |s.requests| ==> !Can(s, r, move)
    ensures var s := After(Initial(now, ttl), steps);
            forall r :: 0 <= r < |s.requests| ==> s.requests[r].phase.Finished?
    ensures Moves(steps) <= 8 * Arrivals(steps)
  {
    hide Can, Runs, After, Structure;
    var s := After(Initial(now, ttl), steps);
    InitialStructure(now, ttl);
    StructureAlways(Initial(now, ttl), steps);
    MovesAreBounded(Initial(now, ttl), steps);
    forall r | 0 <= r < |s.requests| ensures s.requests[r].phase.Finished? {
      if !s.requests[r].phase.Finished? { NobodyIsStuck(s, r); }
    }
  }

  lemma InitialStructure(now: int, ttl: nat)
    ensures Structure(Initial(now, ttl))
  {
  }
}
