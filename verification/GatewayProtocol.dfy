/** The cache middleware as a transition system: every interleaving of the steps that concurrent requests
    take between lock acquisitions, channel operations and backend calls. */
module GatewayProtocol {
  import opened Wrappers
  import opened GatewayCapture
  import opened GatewayCache

  /** What a flight publishes. `fetch` and `store` number the backend response and the `set` behind it. */
  datatype Published = Published(response: Response, fetch: nat, store: nat)

  /** A flight on the heap. `fetch` numbers the response its leader received, once it has. */
  datatype FlightRecord = FlightRecord(key: string, leader: nat, fetch: Option<nat>, result: Published, done: bool)

  /** Where the leader of a flight stands between its locks and calls. */
  datatype Stage =
    | Fetching
    | Fetched(response: Response, fetch: nat)
    | Stamped(response: Response, fetch: nat, expires: int)
    | Settled(result: Published)
    | Assigned
    | Unlinked

  datatype Origin = FromCache(store: nat) | FromFlight(flight: nat, store: nat, fetches: nat, fetching: bool)

  datatype Outcome =
    | Hit(status: int, body: string, fetch: nat, at: int, origin: Origin)
    | Served
    | Panicked

  /** `Missed` and `Waiting` remember how many `set`s there were at the lookup; `Waiting` also how many responses
      there were when the request joined its flight, and whether the leader was still fetching. */
  datatype Phase =
    | Arrived
    | Missed(stores: nat)
    | Leading(flight: nat, stage: Stage, panicked: bool)
    | Waiting(stores: nat, flight: nat, fetches: nat, fetching: bool)
    | Released(flight: nat, fetches: nat, fetching: bool)
    | FetchingAlone
    | Finished(outcome: Outcome)

  datatype Request = Request(key: string, phase: Phase)

  /** One backend response, and one `set`, in the order they happened. */
  datatype Fetch = Fetch(key: string, calls: seq<Call>)
  datatype Stored = Stored(key: string, flight: nat, fetch: nat, at: int, expires: int)

  datatype State = State(
    now: int,
    ttl: nat,
    entries: Entries,
    flights: map<string, nat>,
    table: seq<FlightRecord>,
    requests: seq<Request>,
    fetches: seq<Fetch>,
    stores: seq<Stored>)

  datatype Move =
    | Lookup
    | Begin
    | Respond(calls: seq<Call>)
    | Panic
    | Stamp
    | Put
    | Assign
    | Unlink
    | CloseDone
    | Wake
    | Recheck

  datatype Step = Tick(elapsed: nat) | Arrive(key: string) | Act(r: nat, move: Move)

  const NO_RESULT := Published(FRESH.captured, 0, 0)

  function Initial(now: int, ttl: nat): State {
    State(now, ttl, map[], map[], [], [], [], [])
  }

  /** Which move the request `r` can take; only the backend's answer, or its panic, is a choice. */
  predicate Can(s: State, r: nat, move: Move)
    requires r < |s.requests|
  {
    var p := s.requests[r].phase;
    match move
    case Lookup => p.Arrived?
    case Begin => p.Missed?
    case Respond(_) => (p.Leading? && p.stage.Fetching?) || p.FetchingAlone?
    case Panic => (p.Leading? && p.stage.Fetching?) || p.FetchingAlone?
    case Stamp => p.Leading? && p.stage.Fetched?
    case Put => p.Leading? && p.stage.Stamped?
    case Assign => p.Leading? && p.stage.Settled? && p.flight < |s.table|
    case Unlink => p.Leading? && p.stage.Assigned?
    case CloseDone => p.Leading? && p.stage.Unlinked? && p.flight < |s.table|
    case Wake => p.Waiting? && p.flight < |s.table| && s.table[p.flight].done
    case Recheck => p.Released? && p.flight < |s.table|
  }

  predicate Enabled(s: State, step: Step) {
    step.Act? ==> step.r < |s.requests| && Can(s, step.r, step.move)
  }

  function SetPhase(s: State, r: nat, p: Phase): State
    requires r < |s.requests|
  {
    s.(requests := s.requests[r := s.requests[r].(phase := p)])
  }

  function Apply(s: State, step: Step): State
    requires Enabled(s, step)
  {
    match step
    case Tick(d) => s.(now := s.now + d)
    case Arrive(k) => s.(requests := s.requests + [Request(k, Arrived)])
    case Act(r, move) => Moved(s, r, move)
  }

  function Moved(s: State, r: nat, move: Move): State
    requires r < |s.requests| && Can(s, r, move)
  {
    var p := s.requests[r].phase;
    match move
    case Lookup => ApplyLookup(s, r)
    case Begin => ApplyBegin(s, r)
    case Respond(calls) => ApplyRespond(s, r, calls)
    case Panic =>
      SetPhase(s, r, if p.Leading? then p.(stage := Settled(NO_RESULT), panicked := true) else Finished(Panicked))
    case Stamp =>
      var f := p.stage;
      SetPhase(s, r, p.(stage := if f.response.cacheable then Stamped(f.response, f.fetch, s.now + s.ttl)
                                 else Settled(Published(f.response, f.fetch, 0))))
    case Put => ApplyPut(s, r)
    case Assign =>
      SetPhase(s, r, p.(stage := Assigned)).(table := s.table[p.flight := s.table[p.flight].(result := p.stage.result)])
    case Unlink =>
      SetPhase(s, r, p.(stage := Unlinked)).(flights := s.flights - {s.requests[r].key})
    case CloseDone =>
      SetPhase(s, r, Finished(if p.panicked then Panicked else Served))
        .(table := s.table[p.flight := s.table[p.flight].(done := true)])
    case Wake =>
      var replayable := s.table[p.flight].result.response.cacheable;
      SetPhase(s, r, if replayable then Released(p.flight, p.fetches, p.fetching) else FetchingAlone)
    case Recheck => ApplyRecheck(s, r)
  }

  function ApplyLookup(s: State, r: nat): State
    requires r < |s.requests|
  {
    var k := s.requests[r].key;
    var found := LookupEntry(s.entries, k, s.now);
    SetPhase(s, r, if found.Some? then HitFrom(s, k, found.value) else Missed(|s.stores|))
      .(entries := AfterLookup(s.entries, k, s.now))
  }

  function HitFrom(s: State, k: string, e: Entry): Phase {
    Finished(Hit(e.status, e.body, if e.store < |s.stores| then s.stores[e.store].fetch else 0, s.now,
        FromCache(e.store)))
  }

  function ApplyBegin(s: State, r: nat): State
    requires r < |s.requests| && s.requests[r].phase.Missed?
  {
    var k := s.requests[r].key;
    if k in s.flights then
      var f := s.flights[k];
      SetPhase(s, r, Waiting(s.requests[r].phase.stores, f, |s.fetches|, LeaderFetching(s, f)))
    else
      SetPhase(s, r, Leading(|s.table|, Fetching, false))
        .(table := s.table + [FlightRecord(k, r, None, NO_RESULT, false)], flights := s.flights[k := |s.table|])
  }

  predicate LeaderFetching(s: State, f: nat) {
    && f < |s.table| && s.table[f].leader < |s.requests|
    && s.requests[s.table[f].leader].phase.Leading?
    && s.requests[s.table[f].leader].phase.flight == f
    && s.requests[s.table[f].leader].phase.stage.Fetching?
  }

  function ApplyRespond(s: State, r: nat, calls: seq<Call>): State
    requires r < |s.requests|
  {
    var p, n := s.requests[r].phase, |s.fetches|;
    var s' := s.(fetches := s.fetches + [Fetch(s.requests[r].key, calls)]);
    if p.Leading? && p.flight < |s.table| then
      SetPhase(s', r, p.(stage := Fetched(Captured(calls), n)))
        .(table := s.table[p.flight := s.table[p.flight].(fetch := Some(n))])
    else
      SetPhase(s', r, Finished(Served))
  }

  function ApplyPut(s: State, r: nat): State
    requires r < |s.requests| && s.requests[r].phase.Leading? && s.requests[r].phase.stage.Stamped?
  {
    var p, k, n := s.requests[r].phase, s.requests[r].key, |s.stores|;
    var g := p.stage;
    SetPhase(s, r, p.(stage := Settled(Published(g.response, g.fetch, n))))
      .(entries := s.entries[k := Entry(g.response.status, g.response.body, g.expires, n)],
        stores := s.stores + [Stored(k, p.flight, g.fetch, s.now, g.expires)])
  }

  function ApplyRecheck(s: State, r: nat): State
    requires r < |s.requests| && s.requests[r].phase.Released? && s.requests[r].phase.flight < |s.table|
  {
    var p, k := s.requests[r].phase, s.requests[r].key;
    var found := LookupEntry(s.entries, k, s.now);
    var res := s.table[p.flight].result;
    SetPhase(s, r, if found.Some? then HitFrom(s, k, found.value)
                   else Finished(Hit(res.response.status, res.response.body, res.fetch, s.now,
                                     FromFlight(p.flight, res.store, p.fetches, p.fetching))))
      .(entries := AfterLookup(s.entries, k, s.now))
  }

  // ----- runs

  predicate Runs(s: State, steps: seq<Step>)
    decreases steps
  {
    steps == [] || (Enabled(s, steps[0]) && Runs(Apply(s, steps[0]), steps[1..]))
  }

  function After(s: State, steps: seq<Step>): State
    requires Runs(s, steps)
    decreases steps
  {
    if steps == [] then s else After(Apply(s, steps[0]), steps[1..])
  }
}
