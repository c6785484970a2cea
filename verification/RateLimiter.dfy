/** The gateway's fixed-window rate limiter, one window for each client. */
module RateLimiter {
  import opened Wrappers
  import opened Counting
  import opened SlidingWindow

  datatype Window = Window(count: nat, reset: int)

  /** One request of a client: a new window if there is none or it has ended, then admit below the limit. */
  function Check(w: Option<Window>, limit: int, per: nat, now: int): (Window, bool) {
    var open := if w.None? || now > w.value.reset then Window(0, now + per) else w.value;
    if open.count >= limit then (open, false) else (open.(count := open.count + 1), true)
  }

  function Get(clients: map<string, Window>, key: string): Option<Window> {
    if key in clients then Some(clients[key]) else None
  }

  class RateLimiter {
    var clients: map<string, Window>
    var limit: int
    var per: nat

    constructor (limit: int, per: nat)
      ensures clients == map[] && this.limit == limit && this.per == per
    {
      clients, this.limit, this.per := map[], limit, per;
    }

    /** A new window length of zero or less leaves the old one. */
    method SetLimits(limit: int, per: int)
      modifies this`limit, this`per
      ensures this.limit == limit && this.per == if per > 0 then per else old(this.per)
    {
      this.limit := limit;
      if per > 0 { this.per := per; }
    }

    method Allow(key: string, now: int) returns (ok: bool)
      modifies this`clients
      ensures var (w, admitted) := Check(Get(old(clients), key), limit, per, now);
              ok == admitted && clients == old(clients)[key := w]
    {
      if key !in clients || now > clients[key].reset {
        clients := clients[key := Window(0, now + per)];
      }
      var w := clients[key];
      if w.count >= limit { return false; }
      clients := clients[key := w.(count := w.count + 1)];
      return true;
    }

    /** The middleware: a limit of zero or less lets everything through. */
    method Admit(key: string, now: int) returns (ok: bool)
      modifies this`clients
      ensures limit <= 0 ==> ok && clients == old(clients)
      ensures limit > 0 ==>
                var (w, admitted) := Check(Get(old(clients), key), limit, per, now);
                ok == admitted && clients == old(clients)[key := w]
    {
      if limit <= 0 { return true; }
      ok := Allow(key, now);
    }
  }

  // ----- runs with a fixed limit and window length

  datatype Request = Request(key: string, now: int)

  /** The decisions on a run of requests of any clients. */
  function Decide(clients: map<string, Window>, limit: int, per: nat, requests: seq<Request>): (d: seq<bool>)
    ensures |d| == |requests|
    decreases requests
  {
    if requests == [] then [] else
      var r := requests[0];
      var (w, ok) := Check(Get(clients, r.key), limit, per, r.now);
      [ok] + Decide(clients[r.key := w], limit, per, requests[1..])
  }

  /** The decisions on one client alone. */
  function DecideOne(w: Option<Window>, limit: int, per: nat, times: seq<int>): seq<bool>
    decreases times
  {
    if times == [] then [] else
      var (w', ok) := Check(w, limit, per, times[0]);
      [ok] + DecideOne(Some(w'), limit, per, times[1..])
  }

  function TimesOf(requests: seq<Request>, key: string): seq<int> {
    if requests == [] then []
    else (if requests[0].key == key then [requests[0].now] else []) + TimesOf(requests[1..], key)
  }

  function DecisionsFor(requests: seq<Request>, decisions: seq<bool>, key: string): seq<bool>
    requires |requests| == |decisions|
  {
    if requests == [] then []
    else (if requests[0].key == key then [decisions[0]] else []) + DecisionsFor(requests[1..], decisions[1..], key)
  }

  /** Other clients' traffic never changes a client's outcome. */
  lemma {:induction false} ClientsAreIndependent(clients: map<string, Window>, limit: int, per: nat,
                                                 requests: seq<Request>, key: string)
    ensures DecisionsFor(requests, Decide(clients, limit, per, requests), key)
            == DecideOne(Get(clients, key), limit, per, TimesOf(requests, key))
    decreases requests
  {
    hide Check;
    if requests != [] {
      var r := requests[0];
      var (w, ok) := Check(Get(clients, r.key), limit, per, r.now);
      var rest := Decide(clients[r.key := w], limit, per, requests[1..]);
      assert Decide(clients, limit, per, requests)[1..] == rest;
      ClientsAreIndependent(clients[r.key := w], limit, per, requests[1..], key);
      if r.key == key {
        assert TimesOf(requests, key) == [r.now] + TimesOf(requests[1..], key);
        assert TimesOf(requests, key)[1..] == TimesOf(requests[1..], key);
      } else {
        assert Get(clients[r.key := w], key) == Get(clients, key);
        assert TimesOf(requests, key) == TimesOf(requests[1..], key);
      }
    }
  }

  /** The window of a client after a run, and what it admitted, each with the window that counted it. */
  datatype Client = Client(window: Option<Window>, uses: seq<Use>)

  function Next(c: Client, limit: int, per: nat, now: int): Client {
    var (w, ok) := Check(c.window, limit, per, now);
    Client(Some(w), if ok then c.uses + [Use(now, w.reset - per)] else c.uses)
  }

  function ClientRun(c: Client, limit: int, per: nat, times: seq<int>): Client
    decreases times
  {
    if times == [] then c else ClientRun(Next(c, limit, per, times[0]), limit, per, times[1..])
  }

  const NEW_CLIENT := Client(None, [])

  ghost predicate NonDecreasing(times: seq<int>) {
    forall i, j :: 0 <= i < j < |times| ==> times[i] <= times[j]
  }

  /** The state of a client at time `now`: its counter is the number of its admissions in its window. */
  ghost predicate ClientOk(c: Client, limit: nat, per: nat, now: int) {
    && Windowed(c.uses, per)
    && (forall w :: CountWindow(c.uses, w) <= limit)
    && (forall i :: 0 <= i < |c.uses| ==> c.uses[i].time <= now && c.uses[i].time <= c.uses[i].window + per)
    && (c.window.None? ==> c.uses == [])
    && (c.window.Some? ==>
          && c.window.value.count == CountWindow(c.uses, c.window.value.reset - per)
          && c.window.value.reset - per <= now
          && forall i :: 0 <= i < |c.uses| ==>
               var start := c.window.value.reset - per;
               c.uses[i].window == start || (c.uses[i].time < start && c.uses[i].window + per <= start))
  }

  /** A window that opens has admitted nothing yet. */
  lemma OpeningKeepsOk(c: Client, limit: nat, per: nat, before: int, now: int)
    requires ClientOk(c, limit, per, before) && before <= now
    requires c.window.None? || now > c.window.value.reset
    ensures ClientOk(Client(Some(Window(0, now + per)), c.uses), limit, per, now)
  {
    hide CountWindow, Windowed;
    NoneInWindow(c.uses, now);
  }

  lemma AdmittingKeepsOk(c: Client, limit: nat, per: nat, now: int)
    requires ClientOk(c, limit, per, now) && c.window.Some? && now <= c.window.value.reset
            && c.window.value.count < limit
    ensures var w := c.window.value;
            ClientOk(Client(Some(Window(w.count + 1, w.reset)), c.uses + [Use(now, w.reset - per)]), limit, per, now)
  {
    hide CountWindow, Windowed;
    var start := c.window.value.reset - per;
    var uses := c.uses + [Use(now, start)];
    forall w ensures CountWindow(uses, w) == CountWindow(c.uses, w) + if start == w then 1 else 0 {
      CountWindowAppend(c.uses, Use(now, start), w);
    }
    WindowedAppend(c, limit, per, now);
  }

  lemma WindowedAppend(c: Client, limit: nat, per: nat, now: int)
    requires ClientOk(c, limit, per, now) && c.window.Some?
    ensures Windowed(c.uses + [Use(now, c.window.value.reset - per)], per)
  {
    hide CountWindow;
  }

  lemma NextKeepsOk(c: Client, limit: nat, per: nat, before: int, now: int)
    requires ClientOk(c, limit, per, before) && before <= now
    ensures ClientOk(Next(c, limit, per, now), limit, per, now)
  {
    hide ClientOk;
    var current := c;
    if c.window.None? || now > c.window.value.reset {
      current := Client(Some(Window(0, now + per)), c.uses);
      OpeningKeepsOk(c, limit, per, before, now);
    } else {
      LaterIsOk(c, limit, per, before, now);
    }
    if current.window.value.count < limit { AdmittingKeepsOk(current, limit, per, now); }
  }

  lemma LaterIsOk(c: Client, limit: nat, per: nat, before: int, now: int)
    requires ClientOk(c, limit, per, before) && before <= now
    ensures ClientOk(c, limit, per, now)
  {
    hide CountWindow, Windowed;
  }

  lemma {:induction false} RunKeepsOk(c: Client, limit: nat, per: nat, before: int, times: seq<int>)
    requires ClientOk(c, limit, per, before) && NonDecreasing(times) && (times != [] ==> before <= times[0])
    ensures ClientOk(ClientRun(c, limit, per, times), limit, per, if times == [] then before else times[|times| - 1])
    decreases times
  {
    hide ClientOk, Next;
    if times != [] {
      NextKeepsOk(c, limit, per, before, times[0]);
      RunKeepsOk(Next(c, limit, per, times[0]), limit, per, times[0], times[1..]);
    }
  }

  /** A request is refused exactly when its client has `limit` admissions in a window that is still open. */
  lemma RefusedIffWindowIsFull(limit: nat, per: nat, times: seq<int>, now: int)
    requires limit > 0 && NonDecreasing(times + [now])
    ensures var c := ClientRun(NEW_CLIENT, limit, per, times);
            !Check(c.window, limit, per, now).1
            <==> && c.window.Some? && now <= c.window.value.reset
                 && CountWindow(c.uses, c.window.value.reset - per) == limit
  {
    forall i | 0 <= i < |times| ensures (times + [now])[i] == times[i] {}
    RunKeepsOk(NEW_CLIENT, limit, per, if times == [] then now else times[0], times);
  }

  /** What `ClientRun` records as admitted is what `DecideOne` admits. */
  function Admitted(times: seq<int>, decisions: seq<bool>): seq<int> {
    if times == [] || decisions == [] then []
    else (if decisions[0] then [times[0]] else []) + Admitted(times[1..], decisions[1..])
  }

  function Times(uses: seq<Use>): seq<int> {
    if uses == [] then [] else [uses[0].time] + Times(uses[1..])
  }

  lemma {:induction false} TimesAppend(uses: seq<Use>, u: Use)
    ensures Times(uses + [u]) == Times(uses) + [u.time]
  {
    if uses != [] {
      assert (uses + [u])[1..] == uses[1..] + [u];
      TimesAppend(uses[1..], u);
    }
  }

  lemma {:induction false} RunRecordsDecisions(c: Client, limit: int, per: nat, times: seq<int>)
    ensures Times(ClientRun(c, limit, per, times).uses)
            == Times(c.uses) + Admitted(times, DecideOne(c.window, limit, per, times))
    decreases times
  {
    hide Check;
    if times != [] {
      var (w, ok) := Check(c.window, limit, per, times[0]);
      var d := DecideOne(Some(w), limit, per, times[1..]);
      assert DecideOne(c.window, limit, per, times)[1..] == d;
      if ok { TimesAppend(c.uses, Use(times[0], w.reset - per)); }
      RunRecordsDecisions(Next(c, limit, per, times[0]), limit, per, times[1..]);
    }
  }

  function CountTimes(times: seq<int>, lo: int, hi: int): nat {
    if times == [] then 0 else (if lo <= times[0] <= hi then 1 else 0) + CountTimes(times[1..], lo, hi)
  }

  lemma {:induction false} CountInIsCountTimes(uses: seq<Use>, lo: int, hi: int)
    ensures CountIn(uses, lo, hi) == CountTimes(Times(uses), lo, hi)
  {
    if uses != [] {
      CountInIsCountTimes(uses[1..], lo, hi);
      assert Times(uses)[1..] == Times(uses[1..]);
    }
  }

  lemma {:induction false} TimesOfNonDecreasing(requests: seq<Request>, key: string)
    requires forall i, j :: 0 <= i < j < |requests| ==> requests[i].now <= requests[j].now
    ensures NonDecreasing(TimesOf(requests, key))
    ensures forall t :: t in TimesOf(requests, key) ==> exists i :: 0 <= i < |requests| && requests[i].now == t
  {
    if requests != [] {
      TimesOfNonDecreasing(requests[1..], key);
      var rest := TimesOf(requests[1..], key);
      forall k | 0 <= k < |rest| ensures requests[0].now <= rest[k] { assert rest[k] in rest; }
      forall t | t in rest ensures exists i :: 0 <= i < |requests| && requests[i].now == t {
        var i :| 0 <= i < |requests[1..]| && requests[1..][i].now == t;
        assert requests[i + 1].now == t;
      }
    }
  }

  /** How many requests of a client, of those at or between two times, were admitted. */
  ghost function AdmittedIn(requests: seq<Request>, decisions: seq<bool>, key: string, lo: int, hi: int): nat
    requires |requests| == |decisions|
  {
    Count(|requests|,
      (i: nat) => i < |requests| && requests[i].key == key && decisions[i] && lo <= requests[i].now <= hi)
  }

  lemma {:induction false} AdmittedCount(requests: seq<Request>, decisions: seq<bool>, key: string, lo: int, hi: int)
    requires |requests| == |decisions|
    ensures CountTimes(Admitted(TimesOf(requests, key), DecisionsFor(requests, decisions, key)), lo, hi)
            == AdmittedIn(requests, decisions, key, lo, hi)
  {
    if requests != [] {
      var r, d := requests[1..], decisions[1..];
      AdmittedCount(r, d, key, lo, hi);
      CountFirst(|r|,
        (i: nat) => i < |requests| && requests[i].key == key && decisions[i] && lo <= requests[i].now <= hi,
        (i: nat) => i < |r| && r[i].key == key && d[i] && lo <= r[i].now <= hi);
      var t, later := TimesOf(r, key), DecisionsFor(r, d, key);
      if requests[0].key == key {
        assert TimesOf(requests, key)[1..] == t && DecisionsFor(requests, decisions, key)[1..] == later;
        if decisions[0] {
          var both := [requests[0].now] + Admitted(t, later);
          assert Admitted(TimesOf(requests, key), DecisionsFor(requests, decisions, key)) == both;
          assert both[1..] == Admitted(t, later);
        } else {
          assert Admitted(TimesOf(requests, key), DecisionsFor(requests, decisions, key)) == Admitted(t, later);
        }
      } else {
        assert TimesOf(requests, key) == t && DecisionsFor(requests, decisions, key) == later;
      }
    }
  }

  /** The admitted requests of a client, among any traffic: each window of a client has at most `limit`, so
      any closed interval of the window length has at most 2·limit. */
  lemma RateIsBounded(limit: nat, per: nat, requests: seq<Request>, key: string, lo: int)
    requires forall i, j :: 0 <= i < j < |requests| ==> requests[i].now <= requests[j].now
    ensures var decisions := DecisionsFor(requests, Decide(map[], limit, per, requests), key);
            var admitted := Admitted(TimesOf(requests, key), decisions);
            CountTimes(admitted, lo, lo + per) <= 2 * limit
    ensures AdmittedIn(requests, Decide(map[], limit, per, requests), key, lo, lo + per) <= 2 * limit
    ensures var c := ClientRun(NEW_CLIENT, limit, per, TimesOf(requests, key));
            forall w :: CountWindow(c.uses, w) <= limit
  {
    hide ClientRun, Decide, DecideOne, CountTimes, CountIn, Admitted, TimesOf, AdmittedIn;
    AdmittedCount(requests, Decide(map[], limit, per, requests), key, lo, lo + per);
    var times := TimesOf(requests, key);
    ClientsAreIndependent(map[], limit, per, requests, key);
    TimesOfNonDecreasing(requests, key);
    RunRecordsDecisions(NEW_CLIENT, limit, per, times);
    var admitted := Admitted(times, DecideOne(None, limit, per, times));
    assert Times(NEW_CLIENT.uses) + admitted == admitted;
    assert Get(map[], key) == None;
    var uses := ClientRun(NEW_CLIENT, limit, per, times).uses;
    RunKeepsOk(NEW_CLIENT, limit, per, if times == [] then 0 else times[0], times);
    CountInIsCountTimes(uses, lo, lo + per);
    TwiceTheLimit(uses, per, limit, lo);
  }
}
