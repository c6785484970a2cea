/** What a cache hit replays, and how old it can be, in every reachable state of the cache middleware. */
module GatewayTruth {
  import opened Wrappers
  import opened GatewayCapture
  import opened GatewayCache
  import opened GatewayProtocol
  import opened GatewaySafety

  /** `response` is what the capture kept of backend response number `n`, given to a request for `k`. */
  ghost predicate Backed(s: State, k: string, response: Response, n: nat) {
    n < |s.fetches| && s.fetches[n].key == k && response == Captured(s.fetches[n].calls)
  }

  /** A `set`: of a cacheable response, not expired later than ttl after it, and still in the table or expired. */
  ghost predicate StoreOk(s: State, i: nat)
    requires i < |s.stores|
  {
    var st := s.stores[i];
    && st.fetch < |s.fetches| && s.fetches[st.fetch].key == st.key && Captured(s.fetches[st.fetch].calls).cacheable
    && st.at <= s.now && st.expires <= st.at + s.ttl && st.flight < |s.table|
    && (st.expires < s.now || (st.key in s.entries && st.expires <= s.entries[st.key].expires))
  }

  /** An entry is the latest `set` of its key. */
  ghost predicate EntryOk(s: State, k: string)
    requires k in s.entries
  {
    var e := s.entries[k];
    && e.store < |s.stores| && s.stores[e.store].key == k && s.stores[e.store].expires == e.expires
    && Backed(s, k, Response(e.status, e.body, true), s.stores[e.store].fetch)
    && forall j :: e.store < j < |s.stores| ==> s.stores[j].key != k
  }

  ghost predicate ResultOk(s: State, f: nat, p: Published)
    requires f < |s.table|
  {
    p.response.cacheable ==>
      && Backed(s, s.table[f].key, p.response, p.fetch) && s.table[f].fetch == Some(p.fetch)
      && p.store < |s.stores| && s.stores[p.store].key == s.table[f].key
      && s.stores[p.store].flight == f && s.stores[p.store].fetch == p.fetch
  }

  ghost predicate TableOk(s: State, f: nat)
    requires f < |s.table|
  {
    ResultOk(s, f, s.table[f].result) && (s.table[f].fetch.Some? ==> s.table[f].fetch.value < |s.fetches|)
  }

  /** Until its leader stores, a flight is later than every flight of its key that stored. */
  ghost predicate NotYetStored(s: State, k: string, f: nat) {
    forall i :: 0 <= i < |s.stores| && s.stores[i].key == k ==> s.stores[i].flight < f
  }

  ghost predicate StageOk(s: State, r: nat)
    requires r < |s.requests|
  {
    var p, k := s.requests[r].phase, s.requests[r].key;
    p.Leading? && p.flight < |s.table| ==>
      match p.stage
      case Fetching => s.table[p.flight].fetch == None && NotYetStored(s, k, p.flight)
      case Fetched(response, n) =>
        Backed(s, k, response, n) && s.table[p.flight].fetch == Some(n) && NotYetStored(s, k, p.flight)
      case Stamped(response, n, expires) =>
        && Backed(s, k, response, n) && response.cacheable && s.table[p.flight].fetch == Some(n)
        && NotYetStored(s, k, p.flight) && expires <= s.now + s.ttl
        && forall i :: 0 <= i < |s.stores| && s.stores[i].key == k ==> s.stores[i].expires <= expires
      case Settled(result) => ResultOk(s, p.flight, result)
      case _ => true
  }

  /** Until a request that missed is answered or asks, the table holds nothing for it older than its lookup. */
  ghost predicate MissOk(s: State, r: nat)
    requires r < |s.requests|
  {
    var p, k := s.requests[r].phase, s.requests[r].key;
    p.Missed? || p.Waiting? ==> p.stores <= |s.stores| && (k in s.entries ==> p.stores <= s.entries[k].store)
  }

  /** The response of a joined flight comes after the join exactly when the leader was fetching then. */
  ghost predicate JoinOk(s: State, r: nat)
    requires r < |s.requests|
  {
    var p := s.requests[r].phase;
    (p.Waiting? || p.Released?) && p.flight < |s.table| ==>
      && p.fetches <= |s.fetches|
      && (s.table[p.flight].fetch.Some? ==> (p.fetches <= s.table[p.flight].fetch.value <==> p.fetching))
      && (!p.fetching ==> !LeaderFetching(s, p.flight))
  }

  /** A replayed response, where it came from, and whether it had expired. */
  ghost predicate HitOk(s: State, r: nat)
    requires r < |s.requests|
  {
    var k := s.requests[r].key;
    match s.requests[r].phase
    case Finished(Hit(status, body, n, at, origin)) =>
      && Backed(s, k, Response(status, body, true), n) && at <= s.now
      && origin.store < |s.stores| && s.stores[origin.store].key == k && s.stores[origin.store].fetch == n
      && s.stores[origin.store].at <= at
      && (origin.FromCache? ==> at <= s.stores[origin.store].expires)
      && (origin.FromFlight? ==> s.stores[origin.store].expires < at && s.stores[origin.store].flight == origin.flight
                                 && (origin.fetches <= n <==> origin.fetching))
    case _ => true
  }

  /** `set`s of one key happen in the order their flights began, with later and later expiry. */
  ghost predicate StoresInFlightOrder(s: State) {
    forall i, j :: 0 <= i < j < |s.stores| && s.stores[i].key == s.stores[j].key ==>
      s.stores[i].flight < s.stores[j].flight && s.stores[i].expires <= s.stores[j].expires
  }

  ghost predicate History(s: State) {
    && (forall i :: 0 <= i < |s.stores| ==> StoreOk(s, i))
    && (forall k :: k in s.entries ==> EntryOk(s, k))
    && (forall f :: 0 <= f < |s.table| ==> TableOk(s, f))
    && (forall r :: 0 <= r < |s.requests| ==> StageOk(s, r))
    && (forall r :: 0 <= r < |s.requests| ==> MissOk(s, r))
    && (forall r :: 0 <= r < |s.requests| ==> JoinOk(s, r))
    && (forall r :: 0 <= r < |s.requests| ==> HitOk(s, r))
    && StoresInFlightOrder(s)
  }

  ghost predicate Inv(s: State) { Structure(s) && History(s) }

  /** Moves other than a `set` store nothing, and drop at most an expired entry. */
  ghost predicate StoresNothing(s: State, s': State, k: string) {
    && s'.stores == s.stores && s.fetches <= s'.fetches && |s.table| <= |s'.table| && s'.now == s.now && s'.ttl == s.ttl
    && (s'.entries == s.entries || (k in s.entries && s.entries[k].expires < s.now && s'.entries == s.entries - {k}))
  }

  lemma OthersStoreNothing(s: State, r: nat, move: Move)
    requires r < |s.requests| && Can(s, r, move) && !move.Put?
    ensures StoresNothing(s, Moved(s, r, move), s.requests[r].key)
  {
    hide Captured;
  }

  lemma StoresKept(s: State, r: nat, move: Move)
    requires Inv(s) && r < |s.requests| && Can(s, r, move)
    ensures var s' := Moved(s, r, move); forall i :: 0 <= i < |s'.stores| ==> StoreOk(s', i)
  {
    hide Captured, Structure, StageOk, EntryOk, TableOk, HitOk, JoinOk, MissOk, StoresInFlightOrder, Moved, Can;
    if move.Put? {
      PutKeepsStores(s, r);
    } else {
      OthersStoreNothing(s, r, move);
      var s' := Moved(s, r, move);
      forall i | 0 <= i < |s'.stores| ensures StoreOk(s', i) { assert StoreOk(s, i); }
    }
  }

  lemma PutKeepsStores(s: State, r: nat)
    requires Inv(s) && r < |s.requests| && Can(s, r, Put)
    ensures var s' := Moved(s, r, Put); forall i :: 0 <= i < |s'.stores| ==> StoreOk(s', i)
  {
    hide Captured, TableOk, HitOk, JoinOk, MissOk, FollowerOk, FlightOk, ListedOk, StoresInFlightOrder;
    var s' := Moved(s, r, Put);
    assert LeaderOk(s, r) && StageOk(s, r);
    if s.requests[r].key in s.entries { assert EntryOk(s, s.requests[r].key); }
    forall i | 0 <= i < |s'.stores| ensures StoreOk(s', i) {
      if i < |s.stores| { assert StoreOk(s, i); }
    }
  }

  lemma EntriesKept(s: State, r: nat, move: Move)
    requires Inv(s) && r < |s.requests| && Can(s, r, move)
    ensures var s' := Moved(s, r, move); forall k :: k in s'.entries ==> EntryOk(s', k)
  {
    hide Captured, Structure, StageOk, StoreOk, TableOk, HitOk, JoinOk, MissOk, StoresInFlightOrder, Moved, Can;
    if move.Put? {
      PutKeepsEntries(s, r);
    } else {
      OthersStoreNothing(s, r, move);
      var s' := Moved(s, r, move);
      forall k | k in s'.entries ensures EntryOk(s', k) { assert EntryOk(s, k); }
    }
  }

  lemma PutKeepsEntries(s: State, r: nat)
    requires Inv(s) && r < |s.requests| && Can(s, r, Put)
    ensures var s' := Moved(s, r, Put); forall k :: k in s'.entries ==> EntryOk(s', k)
  {
    hide Captured, StoreOk, TableOk, HitOk, JoinOk, MissOk, FollowerOk, FlightOk, ListedOk, StoresInFlightOrder;
    var s' := Moved(s, r, Put);
    assert LeaderOk(s, r) && StageOk(s, r);
    forall k | k in s'.entries ensures EntryOk(s', k) {
      if k in s.entries { assert EntryOk(s, k); }
    }
  }

  lemma TableKept(s: State, r: nat, move: Move)
    requires Inv(s) && r < |s.requests| && Can(s, r, move)
    ensures var s' := Moved(s, r, move); forall f :: 0 <= f < |s'.table| ==> TableOk(s', f)
  {
    hide Captured, StoreOk, EntryOk, HitOk, JoinOk, MissOk, FollowerOk, FlightOk, ListedOk, StoresInFlightOrder;
    var s' := Moved(s, r, move);
    assert LeaderOk(s, r) && StageOk(s, r);
    forall f | 0 <= f < |s'.table| ensures TableOk(s', f) {
      if f < |s.table| { assert TableOk(s, f); }
    }
  }

  /** What one move of `r` leaves as it was, whichever move it is. */
  ghost predicate Frame(s: State, s': State, r: nat)
    requires r < |s.requests|
  {
    var p := s.requests[r].phase;
    && s'.now == s.now && s'.ttl == s.ttl && s.fetches <= s'.fetches
    && |s'.requests| == |s.requests| && s'.requests == s.requests[r := s'.requests[r]]
    && s'.requests[r].key == s.requests[r].key
    && (s'.stores == s.stores
        || (p.Leading? && p.stage.Stamped?
            && s'.stores == s.stores + [Stored(s.requests[r].key, p.flight, p.stage.fetch, s.now, p.stage.expires)]))
    && |s.table| <= |s'.table|
    && (forall f :: 0 <= f < |s.table| ==>
          && s'.table[f].key == s.table[f].key && s'.table[f].leader == s.table[f].leader
          && (s'.table[f] == s.table[f] || Leads(s, r, f))
          && (s'.table[f].fetch == s.table[f].fetch
              || (Leads(s, r, f) && p.stage.Fetching? && s'.table[f].fetch == Some(|s.fetches|)))
          && (LeaderFetching(s', f) ==> LeaderFetching(s, f)))
  }

  lemma MoveFrame(s: State, r: nat, move: Move)
    requires Structure(s) && r < |s.requests| && Can(s, r, move)
    ensures Frame(s, Moved(s, r, move), r)
  {
    hide Captured, AfterLookup, LookupEntry, LeaderFetching, FlightOk, FollowerOk, ListedOk;
    assert LeaderOk(s, r);
    NobodyElseFetches(s, r, move);
  }

  lemma NobodyElseFetches(s: State, r: nat, move: Move)
    requires Structure(s) && r < |s.requests| && Can(s, r, move)
    ensures forall f :: 0 <= f < |s.table| && LeaderFetching(Moved(s, r, move), f) ==> LeaderFetching(s, f)
  {
    hide Captured, AfterLookup, LookupEntry, FollowerOk, ListedOk;
    assert LeaderOk(s, r);
    forall f | 0 <= f < |s.table| && LeaderFetching(Moved(s, r, move), f) ensures LeaderFetching(s, f) {
      assert FlightOk(s, f);
    }
  }

  lemma OwnStageKept(s: State, r: nat, move: Move)
    requires Inv(s) && r < |s.requests| && Can(s, r, move)
    ensures StageOk(Moved(s, r, move), r)
  {
    hide Captured, EntryOk, HitOk, JoinOk, MissOk, AfterLookup, LookupEntry;
    assert LeaderOk(s, r) && StageOk(s, r);
    forall i | 0 <= i < |s.stores| ensures s.stores[i].flight < |s.table| && s.stores[i].expires <= s.now + s.ttl {
      assert StoreOk(s, i);
    }
  }

  lemma OtherStageKept(s: State, s': State, r: nat, q: nat)
    requires r < |s.requests| && q < |s.requests| && q != r && Frame(s, s', r)
    requires LeaderOk(s, r) && LeaderOk(s, q) && StageOk(s, q)
    ensures StageOk(s', q)
  {
    hide Captured, LeaderFetching;
    if s.requests[q].phase.Leading? {
      var f := s.requests[q].phase.flight;
      assert s.table[f].leader == q && s'.table[f] == s.table[f];
    }
  }

  lemma StagesKept(s: State, r: nat, move: Move)
    requires Inv(s) && r < |s.requests| && Can(s, r, move)
    ensures var s' := Moved(s, r, move); forall q :: 0 <= q < |s'.requests| ==> StageOk(s', q)
  {
    hide Moved, Can, LeaderOk, StageOk;
    MoveFrame(s, r, move);
    var s' := Moved(s, r, move);
    forall q | 0 <= q < |s'.requests| ensures StageOk(s', q) {
      if q == r { OwnStageKept(s, r, move); } else { OtherStageKept(s, s', r, q); }
    }
  }

  lemma MissesKept(s: State, r: nat, move: Move)
    requires Inv(s) && r < |s.requests| && Can(s, r, move)
    ensures var s' := Moved(s, r, move); forall q :: 0 <= q < |s'.requests| ==> MissOk(s', q)
  {
    hide Captured, StoreOk, EntryOk, TableOk, StageOk, HitOk, JoinOk, FollowerOk, FlightOk, ListedOk,
        StoresInFlightOrder;
    var s' := Moved(s, r, move);
    forall q | 0 <= q < |s'.requests| ensures MissOk(s', q) { assert MissOk(s, q); }
  }

  lemma OwnJoinKept(s: State, r: nat, move: Move)
    requires Inv(s) && r < |s.requests| && Can(s, r, move)
    ensures JoinOk(Moved(s, r, move), r)
  {
    hide Captured, StoreOk, EntryOk, HitOk, MissOk, AfterLookup, LookupEntry, ResultOk, StoresInFlightOrder;
    var k := s.requests[r].key;
    assert JoinOk(s, r) && FollowerOk(s, r);
    if k in s.flights {
      var f := s.flights[k];
      assert ListedOk(s, k) && TableOk(s, f) && StageOk(s, s.table[f].leader);
    }
  }

  lemma OtherJoinKept(s: State, s': State, r: nat, q: nat)
    requires r < |s.requests| && q < |s.requests| && q != r && Frame(s, s', r)
    requires LeaderOk(s, r) && JoinOk(s, q) && FollowerOk(s, q)
    ensures JoinOk(s', q)
  {
    hide Captured;
  }

  lemma JoinsKept(s: State, r: nat, move: Move)
    requires Inv(s) && r < |s.requests| && Can(s, r, move)
    ensures var s' := Moved(s, r, move); forall q :: 0 <= q < |s'.requests| ==> JoinOk(s', q)
  {
    hide Moved, Can, LeaderOk, FollowerOk, JoinOk;
    MoveFrame(s, r, move);
    var s' := Moved(s, r, move);
    forall q | 0 <= q < |s'.requests| ensures JoinOk(s', q) {
      if q == r { OwnJoinKept(s, r, move); } else { OtherJoinKept(s, s', r, q); }
    }
  }

  lemma OwnHitKept(s: State, r: nat, move: Move)
    requires Inv(s) && r < |s.requests| && Can(s, r, move)
    ensures HitOk(Moved(s, r, move), r)
  {
    hide Captured, StageOk, MissOk, LeaderOk, FlightOk, ListedOk, StoresInFlightOrder;
    assert HitOk(s, r) && JoinOk(s, r) && FollowerOk(s, r);
    var k, p := s.requests[r].key, s.requests[r].phase;
    if k in s.entries { assert EntryOk(s, k) && StoreOk(s, s.entries[k].store); }
    if p.Released? {
      assert TableOk(s, p.flight);
      assert StoreOk(s, s.table[p.flight].result.store);
    }
  }

  lemma HitsKept(s: State, r: nat, move: Move)
    requires Inv(s) && r < |s.requests| && Can(s, r, move)
    ensures var s' := Moved(s, r, move); forall q :: 0 <= q < |s'.requests| ==> HitOk(s', q)
  {
    MoveFrame(s, r, move);
    OwnHitKept(s, r, move);
    hide Captured, StoreOk, EntryOk, StageOk, MissOk, JoinOk, Moved, Can, Structure;
    var s' := Moved(s, r, move);
    forall q | 0 <= q < |s'.requests| ensures HitOk(s', q) { assert q != r ==> HitOk(s, q); }
  }

  lemma StoreOrderKept(s: State, r: nat, move: Move)
    requires Inv(s) && r < |s.requests| && Can(s, r, move)
    ensures StoresInFlightOrder(Moved(s, r, move))
  {
    hide Captured, StoreOk, EntryOk, TableOk, MissOk, HitOk, JoinOk, FollowerOk, FlightOk, ListedOk;
    assert LeaderOk(s, r) && StageOk(s, r);
  }

  lemma QuietStores(s: State, step: Step)
    requires Inv(s) && !step.Act?
    ensures var s' := Apply(s, step);
            && (forall i :: 0 <= i < |s'.stores| ==> StoreOk(s', i))
            && (forall k :: k in s'.entries ==> EntryOk(s', k))
            && (forall f :: 0 <= f < |s'.table| ==> TableOk(s', f))
  {
    hide Captured, StageOk, MissOk, JoinOk, HitOk, FollowerOk, ListedOk, LeaderOk, StoresInFlightOrder;
    var s' := Apply(s, step);
    forall i | 0 <= i < |s'.stores| ensures StoreOk(s', i) { assert StoreOk(s, i); }
    forall k | k in s'.entries ensures EntryOk(s', k) { assert EntryOk(s, k); }
    forall f | 0 <= f < |s'.table| ensures TableOk(s', f) { assert TableOk(s, f) && FlightOk(s, f); }
  }

  lemma QuietHistory(s: State, step: Step)
    requires Inv(s) && !step.Act?
    ensures History(Apply(s, step))
  {
    hide Captured, StoreOk, EntryOk, TableOk;
    QuietStores(s, step);
    var s' := Apply(s, step);
    forall q | 0 <= q < |s'.requests| ensures StageOk(s', q) && MissOk(s', q) && JoinOk(s', q) && HitOk(s', q) {
      if q < |s.requests| { assert StageOk(s, q) && MissOk(s, q) && JoinOk(s, q) && HitOk(s, q) && FollowerOk(s, q); }
    }
  }

  lemma InvKept(s: State, step: Step)
    requires Inv(s) && Enabled(s, step)
    ensures Inv(Apply(s, step))
  {
    StructureKept(s, step);
    hide Structure, StoreOk, EntryOk, TableOk, StageOk, MissOk, JoinOk, HitOk, StoresInFlightOrder, Moved, Can;
    match step {
      case Act(r, move) =>
        StoresKept(s, r, move);
        EntriesKept(s, r, move);
        TableKept(s, r, move);
        StagesKept(s, r, move);
        MissesKept(s, r, move);
        JoinsKept(s, r, move);
        HitsKept(s, r, move);
        StoreOrderKept(s, r, move);
      case _ =>
        QuietHistory(s, step);
    }
  }

  /** Every state of every interleaving satisfies the invariant. */
  lemma {:induction false} InvAlways(s: State, steps: seq<Step>)
    requires Inv(s) && Runs(s, steps)
    ensures Inv(After(s, steps))
    decreases steps
  {
    hide Inv, Enabled, Apply;
    if steps != [] {
      InvKept(s, steps[0]);
      InvAlways(Apply(s, steps[0]), steps[1..]);
    }
  }

  lemma Reachable(now: int, ttl: nat, steps: seq<Step>)
    requires Runs(Initial(now, ttl), steps)
    ensures Inv(After(Initial(now, ttl), steps)) && After(Initial(now, ttl), steps).ttl == ttl
  {
    assert Inv(Initial(now, ttl));
    InvAlways(Initial(now, ttl), steps);
    TtlNeverChanges(Initial(now, ttl), steps);
  }

  lemma {:induction false} TtlNeverChanges(s: State, steps: seq<Step>)
    requires Runs(s, steps)
    ensures After(s, steps).ttl == s.ttl
    decreases steps
  {
    if steps != [] { TtlNeverChanges(Apply(s, steps[0]), steps[1..]); }
  }
}
