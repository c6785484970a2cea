/** The cache's promises, over every run of the middleware, and the runs that break the looser ones. */
module GatewayTheorems {
  import opened Wrappers
  import opened GatewayCapture
  import opened GatewayCache
  import opened GatewayProtocol
  import opened GatewaySafety
  import opened GatewayTruth

  /** Every hit replays, whole, the status and body of a non-streaming 200 response to the same key. */
  lemma HitsAreTrue(now: int, ttl: nat, steps: seq<Step>, r: nat)
    requires Runs(Initial(now, ttl), steps)
    requires var s := After(Initial(now, ttl), steps);
             r < |s.requests| && s.requests[r].phase.Finished? && s.requests[r].phase.outcome.Hit?
    ensures var s := After(Initial(now, ttl), steps);
            var hit := s.requests[r].phase.outcome;
            && hit.fetch < |s.fetches| && s.fetches[hit.fetch].key == s.requests[r].key
            && var calls := s.fetches[hit.fetch].calls;
               && hit.status == 200 == ClientStatus(calls, "").0 && !("text/event-stream" <= ClientStatus(calls, "").1)
               && hit.body == Bodies(calls)
  {
    hide Runs, After, Structure;
    Reachable(now, ttl, steps);
    var s := After(Initial(now, ttl), steps);
    assert HitOk(s, r);
    CaptureIsExact(s.fetches[s.requests[r].phase.outcome.fetch].calls);
  }

  /** A hit is within its expiry exactly when it is served from the entry table, and is then at most ttl old.
      A hit served from a joined flight always replays an expired entry; its response was received after the
      request joined exactly when the leader was still fetching at that moment. */
  lemma HitsAreFreshIffFromTable(now: int, ttl: nat, steps: seq<Step>, r: nat)
    requires Runs(Initial(now, ttl), steps)
    requires var s := After(Initial(now, ttl), steps);
             r < |s.requests| && s.requests[r].phase.Finished? && s.requests[r].phase.outcome.Hit?
    ensures var s := After(Initial(now, ttl), steps);
            var hit := s.requests[r].phase.outcome;
            && hit.origin.store < |s.stores|
            && var st := s.stores[hit.origin.store];
               && st.key == s.requests[r].key && st.fetch == hit.fetch && st.at <= hit.at
               && (hit.at <= st.expires <==> hit.origin.FromCache?)
               && (hit.origin.FromCache? ==> hit.at - st.at <= ttl)
               && (hit.origin.FromFlight? ==> (hit.origin.fetches <= hit.fetch <==> hit.origin.fetching))
  {
    hide Runs, After, Structure;
    Reachable(now, ttl, steps);
    var s := After(Initial(now, ttl), steps);
    assert HitOk(s, r);
    assert StoreOk(s, s.requests[r].phase.outcome.origin.store);
  }

  /** The life of an entry, in any state: if its leader stamps it now and stores it `d` later, and a request of its key
      looks `e` later still, that request is answered with the stored response exactly when `d + e` is at most the
      ttl. */
  lemma EntryLivesForTtl(s: State, r: nat, q: nat, d: nat, e: nat)
    requires r < |s.requests| && Can(s, r, Stamp) && s.requests[r].phase.stage.response.cacheable
    requires q < |s.requests| && s.requests[q] == Request(s.requests[r].key, Arrived)
    ensures var response, t := s.requests[r].phase.stage.response, LookAfter(s, r, q, d, e);
            && (d + e <= s.ttl ==>
                  && t.requests[q].phase.Finished? && t.requests[q].phase.outcome.Hit?
                  && t.requests[q].phase.outcome.status == response.status
                  && t.requests[q].phase.outcome.body == response.body)
            && (d + e > s.ttl ==> t.requests[q].phase.Missed? && s.requests[r].key !in t.entries)
  {
  }

  function LookAfter(s: State, r: nat, q: nat, d: nat, e: nat): State
    requires r < |s.requests| && Can(s, r, Stamp) && s.requests[r].phase.stage.response.cacheable
    requires q < |s.requests| && s.requests[q] == Request(s.requests[r].key, Arrived)
  {
    var stamped := Apply(Apply(s, Act(r, Stamp)), Tick(d));
    var stored := Apply(Apply(stamped, Act(r, Put)), Tick(e));
    Apply(stored, Act(q, Lookup))
  }

  /** An entry is always the result of the latest flight of its key that stored one. */
  lemma EntriesAreLatest(now: int, ttl: nat, steps: seq<Step>, k: string)
    requires Runs(Initial(now, ttl), steps)
    requires k in After(Initial(now, ttl), steps).entries
    ensures var s := After(Initial(now, ttl), steps);
            var e := s.entries[k];
            && e.store < |s.stores| && s.stores[e.store].key == k && s.stores[e.store].fetch < |s.fetches|
            && Response(e.status, e.body, true) == Captured(s.fetches[s.stores[e.store].fetch].calls)
            && forall i :: 0 <= i < |s.stores| && s.stores[i].key == k && i != e.store ==>
                 i < e.store && s.stores[i].flight < s.stores[e.store].flight
  {
    hide Runs, After, Structure, Captured;
    Reachable(now, ttl, steps);
    assert EntryOk(After(Initial(now, ttl), steps), k);
  }

  // ----- asking the backend again

  /** The request is at the backend: as the leader of a flight, or alone. */
  predicate Asking(p: Phase) { (p.Leading? && p.stage.Fetching?) || p.FetchingAlone? }

  /** The move takes the request to the backend: no flight of its key is open, or the flight it joined has closed
      without a response to replay. */
  predicate StartsAsking(s: State, r: nat, move: Move)
    requires r < |s.requests| && Can(s, r, move)
  {
    var p := s.requests[r].phase;
    || (move.Begin? && s.requests[r].key !in s.flights)
    || (move.Wake? && !s.table[p.flight].result.response.cacheable)
  }

  /** Somebody stored, since the request's lookup, a response to its key that has not expired. */
  ghost predicate StoredSince(s: State, r: nat)
    requires r < |s.requests| && (s.requests[r].phase.Missed? || s.requests[r].phase.Waiting?)
  {
    exists i :: && s.requests[r].phase.stores <= i < |s.stores| && s.stores[i].key == s.requests[r].key
                && s.now <= s.stores[i].expires
  }

  /** Between a request's miss and its answer, the table holds a fresh entry for its key exactly when somebody stored,
      since its lookup, a response that has not expired. */
  lemma FreshIffStoredSince(s: State, r: nat)
    requires Inv(s) && r < |s.requests| && (s.requests[r].phase.Missed? || s.requests[r].phase.Waiting?)
    ensures LookupEntry(s.entries, s.requests[r].key, s.now).Some? <==> StoredSince(s, r)
  {
    hide Structure;
    var k := s.requests[r].key;
    assert MissOk(s, r);
    if LookupEntry(s.entries, k, s.now).Some? { assert EntryOk(s, k); }
    if i :| && s.requests[r].phase.stores <= i < |s.stores| && s.stores[i].key == k && s.now <= s.stores[i].expires {
      assert StoreOk(s, i);
    }
  }

  /** There are two ways to the backend and no third. */
  lemma AsksIff(s: State, r: nat, move: Move)
    requires Structure(s) && r < |s.requests| && Can(s, r, move)
    ensures Asking(Moved(s, r, move).requests[r].phase) <==> StartsAsking(s, r, move)
    ensures StartsAsking(s, r, move) ==> s.requests[r].phase.Missed? || s.requests[r].phase.Waiting?
    ensures StartsAsking(s, r, move) ==> Moved(s, r, move).entries == s.entries && Moved(s, r, move).now == s.now
  {
    hide Captured, LookupEntry, AfterLookup;
    assert LeaderOk(s, r);
  }

  /** Over every run and for every move: the move takes its request to the backend beside a fresh entry exactly when
      the request missed and finds no open flight, or waited for a flight that closed without a response to replay,
      and somebody stored, since its lookup, a response that has not expired. */
  lemma AsksBesideFreshIff(now: int, ttl: nat, steps: seq<Step>, r: nat, move: Move)
    requires Runs(Initial(now, ttl), steps)
    requires var s := After(Initial(now, ttl), steps); r < |s.requests| && Can(s, r, move)
    ensures var s := After(Initial(now, ttl), steps);
            var k, s' := s.requests[r].key, Apply(s, Act(r, move));
            (Asking(s'.requests[r].phase) && LookupEntry(s'.entries, k, s'.now).Some?)
            <==> && StartsAsking(s, r, move) && (s.requests[r].phase.Missed? || s.requests[r].phase.Waiting?)
                 && StoredSince(s, r)
  {
    hide Runs, After, Structure, History, StartsAsking, StoredSince, Moved, Can;
    Reachable(now, ttl, steps);
    var s := After(Initial(now, ttl), steps);
    assert Structure(s);
    AsksIff(s, r, move);
    if StartsAsking(s, r, move) { FreshIffStoredSince(s, r); }
  }

  /** Two requests of one key are at the backend at the same time only if one of them gave up on a flight that had
      nothing to replay. */
  lemma OverlapNeedsUnreplayableFlight(now: int, ttl: nat, steps: seq<Step>, r: nat, q: nat)
    requires Runs(Initial(now, ttl), steps)
    requires var s := After(Initial(now, ttl), steps);
             && r < |s.requests| && q < |s.requests| && r != q && s.requests[r].key == s.requests[q].key
             && Asking(s.requests[r].phase) && Asking(s.requests[q].phase)
    ensures var s := After(Initial(now, ttl), steps);
            s.requests[r].phase.FetchingAlone? || s.requests[q].phase.FetchingAlone?
  {
    hide Runs, After;
    var s := After(Initial(now, ttl), steps);
    StructureAlways(Initial(now, ttl), steps);
    assert LeaderOk(s, r) && LeaderOk(s, q);
  }

  // ----- runs that break the looser promises

  ghost predicate Reaches(s: State, t: State) {
    exists steps :: Runs(s, steps) && After(s, steps) == t
  }

  lemma {:induction false} RunsConcat(s: State, a: seq<Step>, b: seq<Step>)
    requires Runs(s, a) && Runs(After(s, a), b)
    ensures Runs(s, a + b) && After(s, a + b) == After(After(s, a), b)
    decreases a
  {
    hide Enabled, Apply;
    if a == [] {
      assert a + b == b;
    } else {
      RunsConcat(Apply(s, a[0]), a[1..], b);
      assert (a + b)[1..] == a[1..] + b;
    }
  }

  lemma Extend(s: State, t: State, step: Step)
    requires Reaches(s, t) && Enabled(t, step)
    ensures Reaches(s, Apply(t, step))
  {
    hide Enabled, Apply;
    var steps :| Runs(s, steps) && After(s, steps) == t;
    var one := [step];
    assert one[1..] == [];
    assert Runs(t, one) && After(t, one) == Apply(t, step);
    RunsConcat(s, steps, one);
  }

  const PAGE: seq<Call> := [Call.WriteHeader(200), Call.Write("x")]
  const PAGE_RESPONSE := Response(200, "x", true)

  /** A flight of key "k" whose leader has received a page, at time 0 with a ttl of 10. */
  const PAGE_RECEIVED := State(0, 10, map[], map["k" := 0], [FlightRecord("k", 0, Some(0), NO_RESULT, false)],
                              [Request("k", Leading(0, Fetched(PAGE_RESPONSE, 0), false))], [Fetch("k", PAGE)], [])

  lemma PageIsReceived()
    ensures Reaches(Initial(0, 10), PAGE_RECEIVED)
  {
    var s0 := Initial(0, 10);
    var none: seq<Step> := [];
    assert Runs(s0, none) && After(s0, none) == s0;
    Extend(s0, s0, Arrive("k"));
    var s1 := Apply(s0, Arrive("k"));
    Extend(s0, s1, Act(0, Lookup));
    var s2 := Apply(s1, Act(0, Lookup));
    Extend(s0, s2, Act(0, Begin));
    var s3 := Apply(s2, Act(0, Begin));
    Extend(s0, s3, Act(0, Respond(PAGE)));
    assert Captured(PAGE) == PAGE_RESPONSE;
    assert Apply(s3, Act(0, Respond(PAGE))) == PAGE_RECEIVED;
  }

  /** The same flight once the page is stored; its leader stalls before closing it. */
  const PAGE_STORED := PAGE_RECEIVED.(entries := map["k" := Entry(200, "x", 10, 0)],
                                    requests := [
                                      Request("k", Leading(0, Settled(Published(PAGE_RESPONSE, 0, 0)), false))],
                                    stores := [Stored("k", 0, 0, 0, 10)])

  lemma PageIsStored()
    ensures Reaches(Initial(0, 10), PAGE_STORED)
  {
    PageIsReceived();
    hide Reaches;
    var s0, s1 := Initial(0, 10), PAGE_RECEIVED;
    Extend(s0, s1, Act(0, Stamp));
    var s2 := Apply(s1, Act(0, Stamp));
    Extend(s0, s2, Act(0, Put));
    assert Apply(s2, Act(0, Put)) == PAGE_STORED;
  }

  /** The page expires at 10; at 11 a second request misses it and joins the flight, which is still open. */
  const STALE_JOINED := PAGE_STORED.(now := 11, entries := map[],
                                   requests := PAGE_STORED.requests + [Request("k", Waiting(1, 0, 1, false))])

  lemma StaleIsJoined()
    ensures Reaches(Initial(0, 10), STALE_JOINED)
  {
    PageIsStored();
    hide Reaches;
    var s0, s1 := Initial(0, 10), PAGE_STORED;
    Extend(s0, s1, Tick(11));
    var s2 := Apply(s1, Tick(11));
    Extend(s0, s2, Arrive("k"));
    var s3 := Apply(s2, Arrive("k"));
    Extend(s0, s3, Act(1, Lookup));
    var s4 := Apply(s3, Act(1, Lookup));
    Extend(s0, s4, Act(1, Begin));
    assert Apply(s4, Act(1, Begin)) == STALE_JOINED;
  }

  lemma StaleIsPublished() returns (s: State)
    ensures Reaches(Initial(0, 10), s)
    ensures s.now == 11 && s.entries == map[] && |s.table| == 1 && s.table[0].done
    ensures s.table[0].result == Published(PAGE_RESPONSE, 0, 0)
    ensures |s.requests| == 2 && s.requests[1] == Request("k", Waiting(1, 0, 1, false))
            && s.stores == PAGE_STORED.stores
  {
    StaleIsJoined();
    hide Reaches;
    var s0, s1 := Initial(0, 10), STALE_JOINED;
    Extend(s0, s1, Act(0, Assign));
    var s2 := Apply(s1, Act(0, Assign));
    Extend(s0, s2, Act(0, Unlink));
    var s3 := Apply(s2, Act(0, Unlink));
    Extend(s0, s3, Act(0, CloseDone));
    s := Apply(s3, Act(0, CloseDone));
  }

  /** A hit can be older than ttl and older than the request's own arrival: a leader that stalls between
      storing its page and closing its flight hands the expired page to a request that joins meanwhile. */
  lemma StaleHit()
    ensures exists s, hit: Outcome ::
              && Reaches(Initial(0, 10), s) && |s.requests| == 2 && s.requests[1] == Request("k", Finished(hit))
              && hit.Hit? && hit.origin.FromFlight? && hit.origin.store < |s.stores|
              && hit.at - s.stores[hit.origin.store].at > 10 && hit.fetch < hit.origin.fetches
  {
    var s1 := StaleIsPublished();
    hide Reaches;
    var s0 := Initial(0, 10);
    Extend(s0, s1, Act(1, Wake));
    var s2 := Apply(s1, Act(1, Wake));
    Extend(s0, s2, Act(1, Recheck));
    var s3 := Apply(s2, Act(1, Recheck));
    var hit := Hit(200, "x", 0, 11, FromFlight(0, 0, 1, false));
    assert s3.requests[1] == Request("k", Finished(hit));
  }

  /** Two requests for "k" have missed; the first has fetched and stored its page. */
  lemma BothMissed() returns (s: State)
    ensures Reaches(Initial(0, 10), s)
    ensures s.now == 0 && s.entries == map["k" := Entry(200, "x", 10, 0)] && s.flights == map["k" := 0]
            && |s.table| == 1
    ensures s.requests == [Request("k", Leading(0, Settled(Published(PAGE_RESPONSE, 0, 0)), false)),
            Request("k", Missed(0))]
  {
    PageIsReceived();
    hide Reaches;
    var s0, s1 := Initial(0, 10), PAGE_RECEIVED;
    Extend(s0, s1, Arrive("k"));
    var s2 := Apply(s1, Arrive("k"));
    Extend(s0, s2, Act(1, Lookup));
    var s3 := Apply(s2, Act(1, Lookup));
    Extend(s0, s3, Act(0, Stamp));
    var s4 := Apply(s3, Act(0, Stamp));
    Extend(s0, s4, Act(0, Put));
    s := Apply(s4, Act(0, Put));
  }

  /** The backend can be asked again while a fresh entry is in the table: a request that missed before the
      entry was stored and begins after the flight was unlinked leads a second flight. */
  lemma SecondFlightBesideFreshEntry()
    ensures exists s :: Reaches(Initial(0, 10), s) && LookupEntry(s.entries, "k", s.now).Some?
                        && |s.requests| == 2 && s.requests[1] == Request("k", Leading(1, Fetching, false))
  {
    var s1 := BothMissed();
    hide Reaches;
    var s0 := Initial(0, 10);
    Extend(s0, s1, Act(0, Assign));
    var s2 := Apply(s1, Act(0, Assign));
    Extend(s0, s2, Act(0, Unlink));
    var s3 := Apply(s2, Act(0, Unlink));
    Extend(s0, s3, Act(1, Begin));
    var s4 := Apply(s3, Act(1, Begin));
    assert s4.requests[1] == Request("k", Leading(1, Fetching, false));
  }

  const FAILURE: seq<Call> := [Call.WriteHeader(500)]
  const FAILURE_RESPONSE := Response(500, "", false)

  /** Request 0 led a flight that failed and closed; request 1 missed before, joined it, and has not woken yet. */
  const FLIGHT_FAILED := State(0, 10, map[], map[],
                              [FlightRecord("k", 0, Some(0), Published(FAILURE_RESPONSE, 0, 0), true)],
                              [Request("k", Finished(Served)), Request("k", Waiting(0, 0, 0, true))],
                              [Fetch("k", FAILURE)], [])

  lemma FlightIsJoined() returns (s: State)
    ensures Reaches(Initial(0, 10), s)
    ensures s == State(0, 10, map[], map["k" := 0], [FlightRecord("k", 0, None, NO_RESULT, false)],
                       [Request("k", Leading(0, Fetching, false)), Request("k", Waiting(0, 0, 0, true))], [], [])
  {
    var s0 := Initial(0, 10);
    var none: seq<Step> := [];
    assert Runs(s0, none) && After(s0, none) == s0;
    hide Reaches;
    assert Reaches(s0, s0) by { StartIsReached(s0); }
    Extend(s0, s0, Arrive("k"));
    var s1 := Apply(s0, Arrive("k"));
    Extend(s0, s1, Act(0, Lookup));
    var s2 := Apply(s1, Act(0, Lookup));
    Extend(s0, s2, Arrive("k"));
    var s3 := Apply(s2, Arrive("k"));
    Extend(s0, s3, Act(1, Lookup));
    var s4 := Apply(s3, Act(1, Lookup));
    Extend(s0, s4, Act(0, Begin));
    var s5 := Apply(s4, Act(0, Begin));
    Extend(s0, s5, Act(1, Begin));
    s := Apply(s5, Act(1, Begin));
  }

  lemma StartIsReached(s: State)
    ensures Reaches(s, s)
  {
    var none: seq<Step> := [];
    assert Runs(s, none) && After(s, none) == s;
  }

  lemma FlightHasFailed()
    ensures Reaches(Initial(0, 10), FLIGHT_FAILED)
  {
    var s1 := FlightIsJoined();
    hide Reaches;
    var s0 := Initial(0, 10);
    Extend(s0, s1, Act(0, Respond(FAILURE)));
    assert Captured(FAILURE) == FAILURE_RESPONSE;
    var s2 := Apply(s1, Act(0, Respond(FAILURE)));
    Extend(s0, s2, Act(0, Stamp));
    var s3 := Apply(s2, Act(0, Stamp));
    Extend(s0, s3, Act(0, Assign));
    var s4 := Apply(s3, Act(0, Assign));
    Extend(s0, s4, Act(0, Unlink));
    var s5 := Apply(s4, Act(0, Unlink));
    Extend(s0, s5, Act(0, CloseDone));
    assert Apply(s5, Act(0, CloseDone)) == FLIGHT_FAILED;
  }

  lemma ThirdLeads() returns (s: State)
    ensures Reaches(Initial(0, 10), s)
    ensures s == FLIGHT_FAILED.(flights := map["k" := 1],
                               table := FLIGHT_FAILED.table + [FlightRecord("k", 2, None, NO_RESULT, false)],
                               requests := FLIGHT_FAILED.requests + [Request("k", Leading(1, Fetching, false))])
  {
    FlightHasFailed();
    hide Reaches;
    var s0, s1 := Initial(0, 10), FLIGHT_FAILED;
    Extend(s0, s1, Arrive("k"));
    var s2 := Apply(s1, Arrive("k"));
    Extend(s0, s2, Act(2, Lookup));
    var s3 := Apply(s2, Act(2, Lookup));
    Extend(s0, s3, Act(2, Begin));
    s := Apply(s3, Act(2, Begin));
  }

  /** A follower of the failed flight asks on its own while the leader of the next flight is asking. */
  lemma FollowerAsksBesideLeader()
    ensures exists s :: Reaches(Initial(0, 10), s) && |s.requests| == 3
                        && s.requests[1] == Request("k", FetchingAlone)
                        && s.requests[2] == Request("k", Leading(1, Fetching, false))
  {
    var s1 := ThirdLeads();
    hide Reaches;
    var s0 := Initial(0, 10);
    Extend(s0, s1, Act(1, Wake));
    var s2 := Apply(s1, Act(1, Wake));
    assert s2.requests[1] == Request("k", FetchingAlone);
  }

  /** A follower of the failed flight asks on its own although the next flight, still open, has stored a fresh page. */
  lemma FollowerAsksBesideFreshEntry()
    ensures exists s :: Reaches(Initial(0, 10), s) && LookupEntry(s.entries, "k", s.now).Some? && "k" in s.flights
                        && |s.requests| == 3 && s.requests[1] == Request("k", FetchingAlone)
  {
    var s1 := ThirdLeads();
    hide Reaches;
    var s0 := Initial(0, 10);
    Extend(s0, s1, Act(2, Respond(PAGE)));
    assert Captured(PAGE) == PAGE_RESPONSE;
    var s2 := Apply(s1, Act(2, Respond(PAGE)));
    Extend(s0, s2, Act(2, Stamp));
    var s3 := Apply(s2, Act(2, Stamp));
    Extend(s0, s3, Act(2, Put));
    var s4 := Apply(s3, Act(2, Put));
    Extend(s0, s4, Act(1, Wake));
    var s5 := Apply(s4, Act(1, Wake));
    assert s5.requests[1] == Request("k", FetchingAlone);
  }
}
