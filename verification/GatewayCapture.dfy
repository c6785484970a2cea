/** The gateway's response capture: what it remembers of a response while passing it through. */
module GatewayCapture {
  import opened Subsequences

  /** What a backend handler does with its response writer. */
  datatype Call = SetContentType(value: string) | WriteHeader(code: int) | Write(bytes: string)

  datatype Response = Response(status: int, body: string, cacheable: bool)

  predicate Streaming(contentType: string) { "text/event-stream" <= contentType }

  /** The capture's fields, and what has been passed on to the client. */
  datatype View = View(contentType: string, captured: Response, decided: bool, sent: seq<Call>)

  const FRESH := View("", Response(0, "", false), false, [])

  function OnHeader(v: View, code: int): View {
    var w := if v.decided then v
             else v.(captured := v.captured.(status := code, cacheable := code == 200 && !Streaming(v.contentType)),
                 decided := true);
    w.(sent := w.sent + [WriteHeader(code)])
  }

  function OnCall(v: View, call: Call): View {
    match call
    case SetContentType(t) => v.(contentType := t)
    case WriteHeader(code) => OnHeader(v, code)
    case Write(b) =>
      var w := if v.decided then v else OnHeader(v, 200);
      w.(captured := if w.captured.cacheable then w.captured.(body := w.captured.body + b) else w.captured,
         sent := w.sent + [Write(b)])
  }

  function Run(v: View, calls: seq<Call>): View
    decreases calls
  {
    if calls == [] then v else Run(OnCall(v, calls[0]), calls[1..])
  }

  function Captured(calls: seq<Call>): Response { Run(FRESH, calls).captured }

  class CacheCapture {
    var contentType: string
    var buf: string
    var status: int
    var cacheable: bool
    var decided: bool
    var sent: seq<Call>

    constructor ()
      ensures Abstract() == FRESH
    {
      contentType, buf, status, cacheable, decided, sent := "", "", 0, false, false, [];
    }

    function Abstract(): View
      reads this
    {
      View(contentType, Response(status, buf, cacheable), decided, sent)
    }

    method WriteHeader(code: int)
      modifies this
      ensures Abstract() == OnCall(old(Abstract()), Call.WriteHeader(code))
      ensures sent == old(sent) + [Call.WriteHeader(code)]
    {
      if !decided {
        status := code;
        cacheable := code == 200 && !Streaming(contentType);
        decided := true;
      }
      sent := sent + [Call.WriteHeader(code)];
    }

    method Write(b: string)
      modifies this
      ensures Abstract() == OnCall(old(Abstract()), Call.Write(b))
      ensures sent == old(sent) + (if old(decided) then [] else [Call.WriteHeader(200)]) + [Call.Write(b)]
    {
      if !decided { WriteHeader(200); }
      if cacheable { buf := buf + b; }
      sent := sent + [Call.Write(b)];
    }
  }

  // ----- what the captured response says about the calls

  function Bodies(calls: seq<Call>): string {
    if calls == [] then "" else (if calls[0].Write? then calls[0].bytes else "") + Bodies(calls[1..])
  }

  /** The status that decides the capture, with the content type of that moment: that of the first header or body
      call. */
  function FirstStatus(calls: seq<Call>, contentType: string): (r: (int, string))
    decreases calls
  {
    if calls == [] then (0, contentType)
    else match calls[0]
      case SetContentType(t) => FirstStatus(calls[1..], t)
      case WriteHeader(code) => (code, contentType)
      case Write(_) => (200, contentType)
  }

  /** A status sent ahead of the response itself; switching protocols is a response. */
  predicate Informational(code: int) { 100 <= code < 200 && code != 101 }

  /** The status of the response the client gets, with the content type of that moment: informational headers come
      before it, and a handler that sends nothing answers 200. */
  function ClientStatus(calls: seq<Call>, contentType: string): (r: (int, string))
    decreases calls
  {
    if calls == [] then (200, contentType)
    else match calls[0]
      case SetContentType(t) => ClientStatus(calls[1..], t)
      case WriteHeader(code) =>
        if Informational(code) then ClientStatus(calls[1..], contentType) else (code, contentType)
      case Write(_) => (200, contentType)
  }

  /** Some header or body is written. */
  predicate Answers(calls: seq<Call>) {
    calls != [] && (!calls[0].SetContentType? || Answers(calls[1..]))
  }

  lemma {:induction false} ClientStatusIsFinal(calls: seq<Call>, contentType: string)
    ensures !Informational(ClientStatus(calls, contentType).0)
    decreases calls
  {
    if calls != [] && calls[0].SetContentType? { ClientStatusIsFinal(calls[1..], calls[0].value); }
    if calls != [] && calls[0].WriteHeader? { ClientStatusIsFinal(calls[1..], contentType); }
  }

  lemma {:induction false} FirstStatusIsClients(calls: seq<Call>, contentType: string)
    ensures Answers(calls) && !Informational(FirstStatus(calls, contentType).0) ==>
              FirstStatus(calls, contentType) == ClientStatus(calls, contentType)
    ensures !Answers(calls) ==> FirstStatus(calls, contentType).0 == 0 && ClientStatus(calls, contentType).0 == 200
    decreases calls
  {
    if calls != [] && calls[0].SetContentType? { FirstStatusIsClients(calls[1..], calls[0].value); }
  }

  lemma {:induction false} RunDecided(v: View, calls: seq<Call>)
    requires v.decided
    ensures var w := Run(v, calls).captured;
            && w.status == v.captured.status && w.cacheable == v.captured.cacheable
            && w.body == v.captured.body + if v.captured.cacheable then Bodies(calls) else ""
    decreases calls
  {
    hide Streaming;
    var body := v.captured.body;
    if calls == [] {
      assert body + "" == body;
    } else {
      var w, rest := OnCall(v, calls[0]), Bodies(calls[1..]);
      RunDecided(w, calls[1..]);
      if calls[0].Write? {
        var b := calls[0].bytes;
        assert (body + b) + rest == body + (b + rest);
      } else {
        assert "" + rest == rest;
      }
      assert body + "" == body;
    }
  }

  lemma {:induction false} RunUndecided(v: View, calls: seq<Call>)
    requires !v.decided && v.captured == FRESH.captured
    ensures var w, first := Run(v, calls).captured, FirstStatus(calls, v.contentType);
            && w.status == first.0
            && (w.cacheable <==> first.0 == 200 && !Streaming(first.1))
            && w.body == if w.cacheable then Bodies(calls) else ""
    decreases calls
  {
    if calls != [] {
      var v' := OnCall(v, calls[0]);
      if calls[0].SetContentType? {
        RunUndecided(v', calls[1..]);
      } else {
        RunDecided(v', calls[1..]);
      }
    }
  }

  /** A cacheable capture is whole: a 200 that does not stream, with the status the client got and every body byte.
      A capture that is not keeps no body. */
  lemma CaptureIsExact(calls: seq<Call>)
    ensures var c, first := Captured(calls), FirstStatus(calls, "");
            && c.status == first.0
            && (c.cacheable <==> first.0 == 200 && !("text/event-stream" <= first.1))
            && (c.cacheable ==> first == ClientStatus(calls, ""))
            && c.body == if c.cacheable then Bodies(calls) else ""
  {
    RunUndecided(FRESH, calls);
    FirstStatusIsClients(calls, "");
  }

  /** The captured status is the client's exactly when the handler answers and does not begin with an informational
      status: such a status decides the capture, and the response behind it is never cached. */
  lemma CapturedStatusIsClientsIff(calls: seq<Call>)
    ensures Captured(calls).status == ClientStatus(calls, "").0
            <==> Answers(calls) && !Informational(FirstStatus(calls, "").0)
    ensures Informational(FirstStatus(calls, "").0) ==> !Captured(calls).cacheable
  {
    RunUndecided(FRESH, calls);
    FirstStatusIsClients(calls, "");
    ClientStatusIsFinal(calls, "");
  }

  // ----- what the client gets

  lemma {:induction false} BodiesConcat(a: seq<Call>, b: seq<Call>)
    ensures Bodies(a + b) == Bodies(a) + Bodies(b)
  {
    if a == [] {
      assert a + b == b;
    } else {
      assert (a + b)[1..] == a[1..] + b;
      BodiesConcat(a[1..], b);
    }
  }

  /** The tee is transparent: the client receives every byte the handler writes, cacheable or not. */
  lemma {:induction false} ClientSeesEverything(v: View, calls: seq<Call>)
    ensures Bodies(Run(v, calls).sent) == Bodies(v.sent) + Bodies(calls)
    decreases calls
  {
    if calls != [] {
      var w := OnCall(v, calls[0]);
      ClientSeesEverything(w, calls[1..]);
      match calls[0]
      case SetContentType(_) =>
      case WriteHeader(code) => BodiesConcat(v.sent, [WriteHeader(code)]);
      case Write(b) =>
        var u := if v.decided then v else OnHeader(v, 200);
        BodiesConcat(v.sent, [WriteHeader(200)]);
        BodiesConcat(u.sent, [Write(b)]);
        assert Bodies([Write(b)]) == b;
    }
  }

  /** The header and body calls. */
  function Passed(calls: seq<Call>): seq<Call> {
    if calls == [] then [] else (if calls[0].SetContentType? then [] else [calls[0]]) + Passed(calls[1..])
  }

  /** They are all the header and body calls, unchanged and in order. */
  lemma {:induction false} PassedAt(calls: seq<Call>) returns (at: seq<nat>)
    ensures SubsequenceAt(calls, Passed(calls), at)
    ensures forall i :: 0 <= i < |calls| ==> (i in at <==> !calls[i].SetContentType?)
  {
    hide SubsequenceAt;
    if calls == [] {
      NothingPassed();
      return [];
    }
    var a := PassedAt(calls[1..]);
    at := Shifted(a);
    if calls[0].SetContentType? {
      SkipsFirst(calls, Passed(calls[1..]), a);
      assert Passed(calls) == Passed(calls[1..]);
    } else {
      TakesFirst(calls, Passed(calls[1..]), a);
      at := [0] + at;
    }
    forall i | 0 <= i < |calls| ensures i in at <==> !calls[i].SetContentType? {
      ShiftedMember(a, i);
      assert i > 0 ==> calls[1..][i - 1] == calls[i];
    }
  }

  lemma NothingPassed()
    ensures SubsequenceAt<Call>([], [], [])
  {
  }

  /** The status a body call implies when nothing was sent before. */
  function Implied(decided: bool, passed: seq<Call>): seq<Call> {
    if !decided && passed != [] && passed[0].Write? then [WriteHeader(200)] else []
  }

  lemma {:induction false} RunSends(v: View, calls: seq<Call>)
    ensures Run(v, calls).sent == v.sent + Implied(v.decided, Passed(calls)) + Passed(calls)
    decreases calls
  {
    if calls != [] {
      RunSends(OnCall(v, calls[0]), calls[1..]);
      if calls[0].SetContentType? { assert Passed(calls) == Passed(calls[1..]); }
    }
  }

  lemma {:induction false} SameStatusWithoutTypes(calls: seq<Call>, contentType: string)
    ensures ClientStatus(Passed(calls), "").0 == ClientStatus(calls, contentType).0
    decreases calls
  {
    if calls != [] {
      var t, rest := if calls[0].SetContentType? then calls[0].value else contentType, Passed(calls[1..]);
      SameStatusWithoutTypes(calls[1..], t);
      if calls[0].SetContentType? {
        assert Passed(calls) == rest;
      } else {
        assert Passed(calls)[0] == calls[0] && Passed(calls)[1..] == rest;
      }
    }
  }

  lemma ImpliedKeepsStatus(passed: seq<Call>)
    ensures ClientStatus(Implied(false, passed) + passed, "").0 == ClientStatus(passed, "").0
  {
    if Implied(false, passed) == [] {
      assert Implied(false, passed) + passed == passed;
    } else {
      assert (Implied(false, passed) + passed)[0] == WriteHeader(200);
    }
  }

  /** The client is sent the header and body calls of the handler, unchanged and in order, and nothing else but a 200 in
      front when the first of them is a body; so it gets the status the handler gave. */
  lemma ClientGetsHandlersCalls(calls: seq<Call>)
    ensures var sent, passed := Run(FRESH, calls).sent, Passed(calls);
            && sent == (if passed != [] && passed[0].Write? then [WriteHeader(200)] else []) + passed
            && ClientStatus(sent, "").0 == ClientStatus(calls, "").0
  {
    hide Run, Passed, ClientStatus;
    RunSends(FRESH, calls);
    SameStatusWithoutTypes(calls, "");
    ImpliedKeepsStatus(Passed(calls));
    assert [] + Implied(false, Passed(calls)) == Implied(false, Passed(calls));
  }

  /** The client's status is the first header call that is not a 1xx other than 101, unless a body comes before it; and
      200 when there is none. */
  lemma {:induction false} ClientStatusIs(calls: seq<Call>, contentType: string, k: nat)
    requires k <= |calls|
    requires forall i :: 0 <= i < k ==>
               calls[i].SetContentType?
               || (calls[i].WriteHeader? && 100 <= calls[i].code < 200 && calls[i].code != 101)
    ensures k == |calls| || calls[k].Write? ==> ClientStatus(calls, contentType).0 == 200
    ensures k < |calls| && calls[k].WriteHeader? && !(100 <= calls[k].code < 200 && calls[k].code != 101) ==>
              ClientStatus(calls, contentType).0 == calls[k].code
    decreases k
  {
    if k > 0 {
      var t := if calls[0].SetContentType? then calls[0].value else contentType;
      forall i | 0 <= i < k - 1 ensures calls[1..][i] == calls[i + 1] {}
      ClientStatusIs(calls[1..], t, k - 1);
    }
  }
}
