/** The broadcast bus: who is connected, what each connection is sent, and what its reader sees. */
module BroadcastBus {
  import opened Wrappers
  import opened BroadcastJson
  import opened BroadcastSse

  // ----- events on the wire

  datatype IslandEvent = IslandEvent(id: string, channel: string, eventType: string, message: string, sender: string,
                                     guestId: Option<string>, guestName: Option<string>, data: Option<Json>)

  /** An event as the bus stringifies it; absent fields are left out. */
  function AsJson(e: IslandEvent): Json {
    Object(Always(e) + (OptionalText("guest_id", e.guestId)
        + (OptionalText("guest_name", e.guestName) + OptionalData(e.data))))
  }

  function Always(e: IslandEvent): seq<Member> {
    [Member("id", Text(e.id)), Member("channel", Text(e.channel)), Member("event_type", Text(e.eventType)),
     Member("message", Text(e.message)), Member("sender", Text(e.sender))]
  }

  function OptionalText(name: string, field: Option<string>): seq<Member> {
    if field.Some? then [Member(name, Text(field.value))] else []
  }

  function OptionalData(data: Option<Json>): seq<Member> {
    if data.Some? then [Member("data", data.value)] else []
  }

  function Wire(e: IslandEvent): string { "data: " + Print(AsJson(e)) + "\n\n" }

  const GREETING := ": connected"

  ghost predicate EventOk(e: IslandEvent) { e.data.Some? ==> WellFormed(e.data.value) }

  lemma EventIsWellFormed(e: IslandEvent)
    requires EventOk(e)
    ensures WellFormed(AsJson(e))
  {
    hide WellFormed;
    var members := AsJson(e).members;
    forall i | 0 <= i < |members| ensures WellFormed(members[i].value) {
      if e.data.None? || members[i].value != e.data.value { TextIsWellFormed(members[i].value.s); }
    }
    NamesDiffer(e);
    ObjectIsWellFormed(members);
  }

  lemma TextIsWellFormed(s: string)
    ensures WellFormed(Text(s))
  {
  }

  lemma ObjectIsWellFormed(members: seq<Member>)
    requires DistinctNames(members) && forall i :: 0 <= i < |members| ==> WellFormed(members[i].value)
    ensures WellFormed(Object(members))
  {
  }

  lemma NamesDiffer(e: IslandEvent)
    ensures DistinctNames(AsJson(e).members)
  {
    assert |"id"| == 2 && |"channel"| == 7 && |"event_type"| == 10 && |"message"| == 7 && |"sender"| == 6;
    assert |"guest_id"| == 8 && |"guest_name"| == 10 && |"data"| == 4;
    assert "channel"[0] == 'c' && "message"[0] == 'm' && "event_type"[0] == 'e' && "guest_name"[0] == 'g';
  }

  /** No two events have the same JSON, so a frame tells which event it is. */
  lemma JsonTellsEvent(e: IslandEvent, f: IslandEvent)
    requires AsJson(e) == AsJson(f)
    ensures e == f
  {
    hide Always, OptionalText, OptionalData;
    var g, h := OptionalText("guest_id", e.guestId), OptionalText("guest_id", f.guestId);
    var i, j := OptionalText("guest_name", e.guestName), OptionalText("guest_name", f.guestName);
    var k, l := OptionalData(e.data), OptionalData(f.data);
    AlwaysTells(e, f, g + (i + k), h + (j + l));
    OptionalTell(e, f);
    SameFirst(g, i + k, h, j + l, "guest_id");
    SameFirst(i, k, j, l, "guest_name");
  }

  lemma AlwaysTells(e: IslandEvent, f: IslandEvent, x: seq<Member>, y: seq<Member>)
    requires Always(e) + x == Always(f) + y
    ensures e.id == f.id && e.channel == f.channel && e.eventType == f.eventType && e.message == f.message
            && e.sender == f.sender
    ensures x == y
  {
    var s, t := Always(e) + x, Always(f) + y;
    assert s[0] == t[0] && s[1] == t[1] && s[2] == t[2] && s[3] == t[3] && s[4] == t[4];
    assert s[5..] == x && t[5..] == y;
  }

  lemma OptionalTell(e: IslandEvent, f: IslandEvent)
    ensures forall name, a, b :: OptionalText(name, a) == OptionalText(name, b) ==> a == b
    ensures OptionalData(e.data) == OptionalData(f.data) ==> e.data == f.data
    ensures forall name, a, m :: m in OptionalText(name, a) ==> m.name == name
    ensures forall name, a :: |OptionalText(name, a)| <= 1
    ensures forall d, m :: m in OptionalData(d) ==> m.name == "data"
    ensures "guest_id" != "guest_name" && "guest_id" != "data" && "guest_name" != "data"
  {
    assert |"guest_id"| == 8 && |"guest_name"| == 10 && |"data"| == 4;
    forall name, a, b | OptionalText(name, a) == OptionalText(name, b) ensures a == b {
      if a.Some? { assert OptionalText(name, b)[0] == Member(name, Text(a.value)); }
      if b.Some? { assert OptionalText(name, a)[0] == Member(name, Text(b.value)); }
    }
    if e.data.Some? && OptionalData(e.data) == OptionalData(f.data) {
      assert OptionalData(f.data)[0].value == e.data.value;
    }
  }

  /** An optional member in front of members of other names can be told apart from its absence. */
  lemma SameFirst(x: seq<Member>, a: seq<Member>, y: seq<Member>, b: seq<Member>, name: string)
    requires |x| <= 1 && |y| <= 1 && (forall m :: m in x + y ==> m.name == name)
    requires (forall m :: m in a + b ==> m.name != name) && x + a == y + b
    ensures x == y && a == b
  {
    forall m | m in x + y ensures m !in a && m !in b {
      assert m in a ==> m in a + b;
      assert m in b ==> m in a + b;
    }
    assert x != [] ==> x[0] in x + y && (x + a)[0] == x[0];
    assert y != [] ==> y[0] in x + y && (y + b)[0] == y[0];
    assert x == [] ==> x + a == a;
    assert y == [] ==> y + b == b;
    assert a == (x + a)[|x|..] && b == (y + b)[|y|..];
  }

  /** One event on the wire reads back as one unnamed frame with exactly the event's JSON. */
  lemma WireReadsBack(e: IslandEvent, rest: string)
    requires EventOk(e)
    ensures Drain(Wire(e) + rest) == ([Frame(None, Value(AsJson(e)))] + Drain(rest).0, Drain(rest).1)
  {
    hide Drain, ParseBlock, Print, ParseJson, AsJson;
    var text := Print(AsJson(e));
    EventIsWellFormed(e);
    PrintPrintable(AsJson(e));
    EventIsObject(e);
    ObjectEnds(AsJson(e));
    NoBreaks(text);
    DataBlock(text);
    JsonRoundTrip(AsJson(e));
    DrainBlock("data: " + text, rest);
    assert Wire(e) + rest == "data: " + text + "\n\n" + rest;
  }

  lemma EventIsObject(e: IslandEvent)
    ensures AsJson(e).Object?
  {
  }

  // ----- the bus

  /** A connection and the channels it was granted when it connected. */
  datatype Connection<K> = Connection(key: K, allowed: set<string>)

  /** What one broadcast writes to the connection `key`: once for each of its registrations. */
  function Sent<K(==)>(clients: seq<Connection<K>>, key: K, e: IslandEvent): string {
    if clients == [] then ""
    else
      var n := |clients| - 1;
      Sent(clients[..n], key, e) + if clients[n].key == key && e.channel in clients[n].allowed then Wire(e) else ""
  }

  lemma SentToNone<K>(e: IslandEvent)
    ensures forall key: K :: Sent([], key, e) == ""
  {
  }

  lemma SentNext<K>(clients: seq<Connection<K>>, n: nat, e: IslandEvent)
    requires n < |clients|
    ensures forall key :: Sent(clients[..n + 1], key, e) == Sent(clients[..n], key, e)
                            + if clients[n].key == key && e.channel in clients[n].allowed then Wire(e) else ""
  {
    assert clients[..n + 1][..n] == clients[..n];
  }

  function WithoutFirst<K(==)>(clients: seq<Connection<K>>, key: K): seq<Connection<K>> {
    if clients == [] then []
    else if clients[0].key == key then clients[1..]
    else [clients[0]] + WithoutFirst(clients[1..], key)
  }

  class Response {
    var written: string

    constructor ()
      ensures written == ""
    {
      written := "";
    }
  }

  class EventBus {
    var clients: seq<Connection<Response>>

    constructor ()
      ensures clients == []
    {
      clients := [];
    }

    method AddClient(res: Response, allowed: set<string>)
      modifies this, res
      ensures res.written == old(res.written) + ": connected\n\n"
      ensures clients == old(clients) + [Connection(res, allowed)]
    {
      assert GREETING + "\n\n" == ": connected\n\n";
      res.written := res.written + (GREETING + "\n\n");
      clients := clients + [Connection(res, allowed)];
    }

    method RemoveClient(res: Response)
      modifies this
      ensures clients == WithoutFirst(old(clients), res)
      ensures (forall i :: 0 <= i < |old(clients)| ==> old(clients)[i].key != res) ==> clients == old(clients)
      ensures forall i :: 0 <= i < |old(clients)| && old(clients)[i].key == res
                          && (forall j :: 0 <= j < i ==> old(clients)[j].key != res) ==>
                clients == old(clients)[..i] + old(clients)[i + 1..]
    {
      var index := 0;
      while index < |clients| && clients[index].key != res
        invariant index <= |clients| && forall j :: 0 <= j < index ==> clients[j].key != res
        invariant WithoutFirst(clients, res) == clients[..index] + WithoutFirst(clients[index..], res)
      {
        assert clients[index..][1..] == clients[index + 1..];
        index := index + 1;
      }
      if index < |clients| {
        assert clients[index..][1..] == clients[index + 1..];
        clients := clients[..index] + clients[index + 1..];
      } else {
        assert clients[..index] == clients;
      }
    }

    method Broadcast(e: IslandEvent)
      modifies (set c | c in clients :: c.key)
      ensures forall c :: c in clients ==> c.key.written == old(c.key.written) + Sent(clients, c.key, e)
    {
      hide Wire, Sent;
      SentToNone<Response>(e);
      for n := 0 to |clients|
        invariant forall c :: c in clients ==> c.key.written == old(c.key.written) + Sent(clients[..n], c.key, e)
      {
        SentNext(clients, n, e);
        if e.channel in clients[n].allowed { clients[n].key.written := clients[n].key.written + Wire(e); }
      }
      assert clients[..|clients|] == clients;
    }
  }

  // ----- runs

  datatype Op = Connect(key: nat, allowed: set<string>) | Disconnect(key: nat) | Publish(event: IslandEvent)

  function Step(clients: seq<Connection<nat>>, op: Op): seq<Connection<nat>> {
    match op
    case Connect(key, allowed) => clients + [Connection(key, allowed)]
    case Disconnect(key) => WithoutFirst(clients, key)
    case Publish(_) => clients
  }

  /** Every byte written to the connection `key`. */
  function Bytes(clients: seq<Connection<nat>>, ops: seq<Op>, key: nat): string
    decreases ops
  {
    if ops == [] then ""
    else
      (match ops[0]
       case Connect(k, _) => if k == key then GREETING + "\n\n" else ""
       case Disconnect(_) => ""
       case Publish(e) => Sent(clients, key, e))
      + Bytes(Step(clients, ops[0]), ops[1..], key)
  }

  /** The events published while `key` is connected, on the channels it was granted. */
  function Granted(open: Option<set<string>>, ops: seq<Op>, key: nat): seq<IslandEvent>
    decreases ops
  {
    if ops == [] then []
    else match ops[0]
      case Connect(k, allowed) => Granted(if k == key then Some(allowed) else open, ops[1..], key)
      case Disconnect(k) => Granted(if k == key then None else open, ops[1..], key)
      case Publish(e) =>
        (if open.Some? && e.channel in open.value then [e] else []) + Granted(open, ops[1..], key)
  }

  function Frames(events: seq<IslandEvent>): seq<Frame> {
    if events == [] then [] else [Frame(None, Value(AsJson(events[0])))] + Frames(events[1..])
  }

  /** The frames a reader sees tell exactly which events were sent, in which order. */
  lemma {:induction false} FramesTellEvents(a: seq<IslandEvent>, b: seq<IslandEvent>)
    requires Frames(a) == Frames(b)
    ensures a == b
  {
    hide AsJson;
    if a != [] && b != [] {
      assert Frames(a)[0] == Frames(b)[0] && Frames(a)[1..] == Frames(b)[1..];
      JsonTellsEvent(a[0], b[0]);
      FramesTellEvents(a[1..], b[1..]);
    }
  }

  /** `key` is registered once when it is open, and not otherwise. */
  ghost predicate Registered(clients: seq<Connection<nat>>, key: nat, open: Option<set<string>>) {
    if open.None? then forall i :: 0 <= i < |clients| ==> clients[i].key != key
    else exists i :: 0 <= i < |clients| && clients[i] == Connection(key, open.value)
                     && forall j :: 0 <= j < |clients| && j != i ==> clients[j].key != key
  }

  lemma {:induction false} SentToOne(clients: seq<Connection<nat>>, key: nat, open: Option<set<string>>, e: IslandEvent)
    requires Registered(clients, key, open)
    ensures Sent(clients, key, e) == if open.Some? && e.channel in open.value then Wire(e) else ""
  {
    hide Wire;
    if clients != [] {
      var n := |clients| - 1;
      if clients[n].key == key {
        assert Registered(clients[..n], key, None);
        SentToOne(clients[..n], key, None, e);
      } else {
        if open.Some? {
          var i :| 0 <= i < |clients| && clients[i] == Connection(key, open.value)
                   && forall j :: 0 <= j < |clients| && j != i ==> clients[j].key != key;
          assert clients[..n][i] == Connection(key, open.value);
        }
        SentToOne(clients[..n], key, open, e);
      }
    }
  }

  lemma {:induction false} WithoutFirstIs(clients: seq<Connection<nat>>, k: nat, key: nat, open: Option<set<string>>)
    requires Registered(clients, key, open)
    ensures Registered(WithoutFirst(clients, k), key, if k == key then None else open)
  {
    if clients != [] {
      var t := clients[1..];
      var rest := WithoutFirst(t, k);
      var open' := if k == key then None else open;
      if clients[0].key == key {
        assert Registered(t, key, None);
        if k != key {
          WithoutFirstIs(t, k, key, None);
          assert WithoutFirst(clients, k)[0] == Connection(key, open.value);
        }
      } else {
        if open.Some? {
          var i :| 0 <= i < |clients| && clients[i] == Connection(key, open.value)
                   && forall j :: 0 <= j < |clients| && j != i ==> clients[j].key != key;
          assert t[i - 1] == Connection(key, open.value);
        }
        assert Registered(t, key, open);
        if clients[0].key != k {
          WithoutFirstIs(t, k, key, open);
          RegisteredPrepend(clients[0], rest, key, open');
        }
      }
    }
  }

  lemma RegisteredPrepend(c: Connection<nat>, clients: seq<Connection<nat>>, key: nat, open: Option<set<string>>)
    requires c.key != key && Registered(clients, key, open)
    ensures Registered([c] + clients, key, open)
  {
    if open.Some? {
      var i :| 0 <= i < |clients| && clients[i] == Connection(key, open.value)
               && forall j :: 0 <= j < |clients| && j != i ==> clients[j].key != key;
      assert ([c] + clients)[i + 1] == Connection(key, open.value);
    }
  }

  lemma ConnectRegisters(clients: seq<Connection<nat>>, k: nat, allowed: set<string>, key: nat,
                         open: Option<set<string>>)
    requires Registered(clients, key, open) && (k == key ==> open.None?)
    ensures Registered(clients + [Connection(k, allowed)], key, if k == key then Some(allowed) else open)
  {
    var after := clients + [Connection(k, allowed)];
    if k == key {
      assert after[|clients|] == Connection(key, allowed);
    } else if open.Some? {
      var i :| 0 <= i < |clients| && clients[i] == Connection(key, open.value)
               && forall j :: 0 <= j < |clients| && j != i ==> clients[j].key != key;
      assert after[i] == Connection(key, open.value);
    }
  }

  /** No connection connects again while it is open. */
  predicate ConnectsWhenClosed(open: bool, ops: seq<Op>, key: nat)
    decreases ops
  {
    ops == [] || match ops[0]
                 case Connect(k, _) => (k == key ==> !open) && ConnectsWhenClosed(open || k == key, ops[1..], key)
                 case Disconnect(k) => ConnectsWhenClosed(open && k != key, ops[1..], key)
                 case Publish(_) => ConnectsWhenClosed(open, ops[1..], key)
  }

  ghost predicate EventsOk(ops: seq<Op>) {
    forall i :: 0 <= i < |ops| && ops[i].Publish? ==> EventOk(ops[i].event)
  }

  lemma GreetingReadsBack(rest: string)
    ensures Drain(GREETING + "\n\n" + rest) == Drain(rest)
  {
    hide Drain, ParseBlock;
    CommentBlock("connected");
    assert ": " + "connected" == GREETING;
    DrainBlock(GREETING, rest);
    assert [] + Drain(rest).0 == Drain(rest).0;
  }

  lemma {:induction false} BytesReadBack(clients: seq<Connection<nat>>, ops: seq<Op>, key: nat,
                                         open: Option<set<string>>)
    requires Registered(clients, key, open) && ConnectsWhenClosed(open.Some?, ops, key) && EventsOk(ops)
    ensures Drain(Bytes(clients, ops, key)) == (Frames(Granted(open, ops, key)), "")
    decreases ops
  {
    hide Drain, Registered, WithoutFirst, Wire, Sent, GREETING, EventOk, AsJson;
    if ops == [] {
      NothingToDrain();
    } else {
      var next := Step(clients, ops[0]);
      var rest := Bytes(next, ops[1..], key);
      match ops[0]
      case Connect(k, allowed) =>
        ConnectRegisters(clients, k, allowed, key, open);
        BytesReadBack(next, ops[1..], key, if k == key then Some(allowed) else open);
        if k == key { GreetingReadsBack(rest); } else { assert "" + rest == rest; }
      case Disconnect(k) =>
        WithoutFirstIs(clients, k, key, open);
        BytesReadBack(next, ops[1..], key, if k == key then None else open);
        assert "" + rest == rest;
      case Publish(e) =>
        SentToOne(clients, key, open, e);
        BytesReadBack(next, ops[1..], key, open);
        var events := Granted(open, ops[1..], key);
        if open.Some? && e.channel in open.value {
          WireReadsBack(e, rest);
          assert ([e] + events)[1..] == events;
        } else {
          assert "" + rest == rest;
          assert [] + events == events;
        }
    }
  }

  lemma NothingToDrain()
    ensures Drain("") == ([], "")
  {
  }

  /** Round trip: for any run of connects, disconnects and broadcasts, and any chunking of the bytes written
      to a connection, its reader sees exactly the events broadcast while it was connected on its granted
      channels, in order, and nothing is left over. */
  lemma ReaderSeesGrantedEvents(ops: seq<Op>, key: nat, chunks: seq<string>)
    requires ConnectsWhenClosed(false, ops, key) && EventsOk(ops) && Concat(chunks) == Bytes([], ops, key)
    ensures FeedAll("", chunks) == (Frames(Granted(None, ops, key)), "")
  {
    hide Drain, Bytes, Granted, Frames, FeedAll, Concat;
    BytesReadBack([], ops, key, None);
    ChunkingDoesNotMatter("", chunks);
    assert "" + Concat(chunks) == Concat(chunks);
  }
}
