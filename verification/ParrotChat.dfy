/** The parrot's tool loops: what a chat turn streams, and what it leaves to be stored. */
module ParrotChat {
  import opened Wrappers
  import opened Decimals
  import opened ParrotMessages

  const MAX_TOOL_ROUNDS: nat := 5
  const FALLBACK := "I wasn't able to fully process your request. Please try rephrasing your question."

  // ----- reassembling streamed tool calls

  /** A piece of a tool call; an empty string stands for a field the piece does not carry. */
  datatype Fragment = Fragment(index: int, id: string, name: string, arguments: string)

  datatype Chunk = Chunk(content: string, fragments: seq<Fragment>)

  datatype Slot = Slot(id: string, name: string, arguments: string)

  function FragmentsOf(chunks: seq<Chunk>): seq<Fragment> {
    if chunks == [] then [] else FragmentsOf(chunks[..|chunks| - 1]) + chunks[|chunks| - 1].fragments
  }

  function ContentOf(chunks: seq<Chunk>): string {
    if chunks == [] then "" else ContentOf(chunks[..|chunks| - 1]) + chunks[|chunks| - 1].content
  }

  /** The fragments of one call, in order. */
  function OfIndex(fs: seq<Fragment>, index: int): seq<Fragment> {
    if fs == [] then []
    else OfIndex(fs[..|fs| - 1], index) + if fs[|fs| - 1].index == index then [fs[|fs| - 1]] else []
  }

  function ArgumentsOf(fs: seq<Fragment>): string {
    if fs == [] then "" else ArgumentsOf(fs[..|fs| - 1]) + fs[|fs| - 1].arguments
  }

  function LastId(fs: seq<Fragment>): string {
    if fs == [] then "" else if fs[|fs| - 1].id != "" then fs[|fs| - 1].id else LastId(fs[..|fs| - 1])
  }

  function LastName(fs: seq<Fragment>): string {
    if fs == [] then "" else if fs[|fs| - 1].name != "" then fs[|fs| - 1].name else LastName(fs[..|fs| - 1])
  }

  ghost function Indices(fs: seq<Fragment>): set<int> {
    if fs == [] then {} else Indices(fs[..|fs| - 1]) + {fs[|fs| - 1].index}
  }

  /** One assembled call, from its own fragments alone: arguments concatenated in order, last id and name. */
  function SlotAt(fs: seq<Fragment>, index: int): Slot {
    var own := OfIndex(fs, index);
    Slot(LastId(own), LastName(own), ArgumentsOf(own))
  }

  ghost function SlotsOf(fs: seq<Fragment>): map<int, Slot> {
    map index | index in Indices(fs) :: SlotAt(fs, index)
  }

  lemma {:induction false} OfIndexEmpty(fs: seq<Fragment>, index: int)
    ensures OfIndex(fs, index) == [] <==> index !in Indices(fs)
  {
    if fs != [] {
      var front := fs[..|fs| - 1];
      OfIndexEmpty(front, index);
    }
  }

  method AddFragment(slots: map<int, Slot>, f: Fragment, ghost before: seq<Fragment>) returns (r: map<int, Slot>)
    requires slots == SlotsOf(before)
    ensures r == SlotsOf(before + [f])
  {
    hide SlotAt;
    r := slots;
    OfIndexEmpty(before, f.index);
    SlotAtEmpty(before, f.index);
    SlotsStep(before, f);
    if f.index !in r { r := r[f.index := Slot("", "", "")]; }
    var slot := r[f.index];
    if f.id != "" { slot := slot.(id := f.id); }
    if f.name != "" { slot := slot.(name := f.name); }
    slot := slot.(arguments := slot.arguments + f.arguments);
    r := r[f.index := slot];
  }

  lemma SlotAtEmpty(fs: seq<Fragment>, index: int)
    ensures OfIndex(fs, index) == [] ==> SlotAt(fs, index) == Slot("", "", "")
  {
  }

  function Merged(was: Slot, f: Fragment): Slot {
    Slot(if f.id != "" then f.id else was.id, if f.name != "" then f.name else was.name, was.arguments + f.arguments)
  }

  lemma SlotAtAppend(before: seq<Fragment>, f: Fragment, index: int)
    ensures SlotAt(before + [f], index)
            == if index == f.index then Merged(SlotAt(before, index), f) else SlotAt(before, index)
  {
    var fs, own := before + [f], OfIndex(before, index);
    assert fs[..|fs| - 1] == before;
    if index == f.index {
      assert OfIndex(fs, index) == own + [f];
      assert (own + [f])[..|own + [f]| - 1] == own;
    } else {
      assert OfIndex(fs, index) == own;
    }
  }

  lemma SlotsStep(before: seq<Fragment>, f: Fragment)
    ensures SlotsOf(before + [f]) == SlotsOf(before)[f.index := Merged(SlotAt(before, f.index), f)]
  {
    hide SlotAt, Merged;
    assert (before + [f])[..|before|] == before;
    assert Indices(before + [f]) == Indices(before) + {f.index};
    forall index ensures SlotAt(before + [f], index) ==
                           if index == f.index then Merged(SlotAt(before, index), f) else SlotAt(before, index)
    {
      SlotAtAppend(before, f, index);
    }
  }

  lemma FragmentsOfNext(chunks: seq<Chunk>, n: nat)
    requires n < |chunks|
    ensures FragmentsOf(chunks[..n + 1]) == FragmentsOf(chunks[..n]) + chunks[n].fragments
    ensures ContentOf(chunks[..n + 1]) == ContentOf(chunks[..n]) + chunks[n].content
  {
    assert chunks[..n + 1][..n] == chunks[..n];
  }

  // ----- the calls of a round, by index

  function CallOf(index: int, slot: Slot): Call {
    Call(if slot.id != "" then slot.id else "call_" + Decimal(index),
         if slot.name != "" then Some(slot.name) else None,
         slot.arguments)
  }

  ghost predicate Ascending(s: seq<int>) {
    forall i, j :: 0 <= i < j < |s| ==> s[i] < s[j]
  }

  ghost predicate IsOrderOf(order: seq<int>, keys: set<int>) {
    Ascending(order) && forall k :: k in order <==> k in keys
  }

  lemma {:induction false} Smallest(keys: set<int>, k: int) returns (least: int)
    requires k in keys
    ensures least in keys && forall j :: j in keys ==> least <= j
    decreases keys
  {
    least := k;
    if j :| j in keys && j < k {
      least := Smallest(keys - {k}, j);
      assert forall i :: i in keys ==> i == k || i in keys - {k};
    }
  }

  lemma AnyOf<T>(s: set<T>) returns (x: T)
    requires s != {}
    ensures x in s
  {
    x :| x in s;
  }

  method SortedKeys(keys: set<int>) returns (order: seq<int>)
    ensures IsOrderOf(order, keys) && |order| == |keys|
  {
    order := [];
    var rest := keys;
    while rest != {}
      invariant rest <= keys && |order| + |rest| == |keys|
      invariant Ascending(order) && forall k :: k in order <==> k in keys && k !in rest
      invariant forall k, j :: k in order && j in rest ==> k < j
      decreases rest
    {
      ghost var any := AnyOf(rest);
      ghost var smallest := Smallest(rest, any);
      var least :| least in rest && forall j :: j in rest ==> least <= j;
      forall i | 0 <= i < |order| ensures order[i] < least { assert order[i] in order; }
      order := order + [least];
      rest := rest - {least};
    }
  }

  // ----- a turn, group by group

  /** An assistant message with its calls, and the content of the tool row that answers each. */
  datatype Group = Group(calls: seq<Call>, preamble: Option<string>, results: seq<string>)

  /** The tool rows of the calls answered so far. */
  function Rows(calls: seq<Call>, results: seq<string>): seq<Message> {
    var n := if |results| <= |calls| then |results| else |calls|;
    seq(n, i requires 0 <= i < |results| && i < |calls| => ToolRow(calls[i].id, results[i]))
  }

  /** The messages of a group; an unfinished group has fewer rows than calls. */
  function GroupMessages(g: Group): seq<Message> {
    [Calls(g.calls, g.preamble)] + Rows(g.calls, g.results)
  }

  ghost predicate Complete(groups: seq<Group>) {
    forall i :: 0 <= i < |groups| ==> |groups[i].results| == |groups[i].calls|
  }

  function TurnMessages(groups: seq<Group>): seq<Message> {
    if groups == [] then [] else TurnMessages(groups[..|groups| - 1]) + GroupMessages(groups[|groups| - 1])
  }

  lemma GroupOwnsRows(g: Group)
    ensures OwnedRows(GroupMessages(g))
  {
    var s := GroupMessages(g);
    forall p | 0 <= p < |s| && s[p].ToolRow? ensures exists c :: OwnedBy(s, p, c) { assert OwnedBy(s, p, 0); }
  }

  /** Stored messages of any turn, finished or cut short: every tool row follows its own call. */
  lemma {:induction false} TurnOwnsRows(groups: seq<Group>)
    ensures OwnedRows(TurnMessages(groups))
  {
    if groups != [] {
      var n := |groups| - 1;
      TurnOwnsRows(groups[..n]);
      GroupOwnsRows(groups[n]);
      OwnedRowsConcat(TurnMessages(groups[..n]), GroupMessages(groups[n]));
    }
  }

  // ----- the streaming turn

  datatype Event = Token(delta: string) | Status(kind: string, name: Option<string>) | Done(reply: string) | Error

  /** One streamed completion: its chunks, and whether the stream then breaks off with an error. */
  datatype Round = Round(chunks: seq<Chunk>, fails: bool)

  function Tokens(events: seq<Event>): string {
    if events == [] then ""
    else Tokens(events[..|events| - 1]) + if events[|events| - 1].Token? then events[|events| - 1].delta else ""
  }

  lemma TokensAppend(events: seq<Event>, e: Event)
    ensures Tokens(events + [e]) == Tokens(events) + if e.Token? then e.delta else ""
  {
    assert (events + [e])[..|events|] == events;
  }

  lemma {:induction false} TokensConcat(a: seq<Event>, b: seq<Event>)
    ensures Tokens(a + b) == Tokens(a) + Tokens(b)
  {
    if b == [] {
      assert a + b == a;
    } else {
      var n := |b| - 1;
      assert (a + b)[..|a + b| - 1] == a + b[..n];
      TokensConcat(a, b[..n]);
    }
  }

  /** Everything streamed in the first `n` rounds. */
  function Streamed(model: nat -> Round, n: nat): string {
    if n == 0 then "" else Streamed(model, n - 1) + ContentOf(model(n - 1).chunks)
  }

  /** What the client is sent for the chunks of a round, for `n` answered calls, for a group, and for whole groups. */
  function TokenEvents(chunks: seq<Chunk>): seq<Event> {
    if chunks == [] then []
    else
      var n := |chunks| - 1;
      TokenEvents(chunks[..n]) + if chunks[n].content != "" then [Token(chunks[n].content)] else []
  }

  function CallEvents(calls: seq<Call>, n: nat): seq<Event>
    requires n <= |calls|
  {
    if n == 0 then []
    else CallEvents(calls, n - 1) + [Status("tool_call", calls[n - 1].name), Status("tool_result", calls[n - 1].name)]
  }

  function StatusEvents(g: Group): seq<Event> {
    if |g.results| < |g.calls| then CallEvents(g.calls, |g.results|) + [Status("tool_call", g.calls[|g.results|].name)]
    else CallEvents(g.calls, |g.calls|)
  }

  function RoundEvents(model: nat -> Round, groups: seq<Group>): seq<Event> {
    if groups == [] then []
    else
      var n := |groups| - 1;
      RoundEvents(model, groups[..n]) + (TokenEvents(model(n).chunks) + StatusEvents(groups[n]))
  }

  lemma RoundEventsNext(model: nat -> Round, groups: seq<Group>, g: Group)
    ensures RoundEvents(model, groups + [g]) == RoundEvents(model, groups)
            + (TokenEvents(model(|groups|).chunks) + StatusEvents(g))
  {
    assert (groups + [g])[..|groups|] == groups;
  }

  lemma TokenEventsNext(chunks: seq<Chunk>, n: nat)
    requires n < |chunks|
    ensures TokenEvents(chunks[..n + 1])
            == if chunks[n].content != "" then TokenEvents(chunks[..n]) + [Token(chunks[n].content)]
                else TokenEvents(chunks[..n])
  {
    assert chunks[..n + 1][..n] == chunks[..n];
  }

  lemma NothingRead()
    ensures FragmentsOf([]) == [] && ContentOf([]) == "" && Tokens([]) == "" && TokenEvents([]) == []
            && SlotsOf([]) == map[]
  {
  }

  method ReadStream(chunks: seq<Chunk>) returns (content: string, slots: map<int, Slot>, events: seq<Event>)
    ensures content == ContentOf(chunks) == Tokens(events) && slots == SlotsOf(FragmentsOf(chunks))
    ensures events == TokenEvents(chunks)
  {
    hide SlotsOf, OfIndex, FragmentsOf, ContentOf, Tokens, TokenEvents;
    content, slots, events := "", map[], [];
    NothingRead();
    for n := 0 to |chunks|
      invariant content == ContentOf(chunks[..n]) == Tokens(events) && slots == SlotsOf(FragmentsOf(chunks[..n]))
      invariant events == TokenEvents(chunks[..n])
    {
      TokenEventsNext(chunks, n);
      FragmentsOfNext(chunks, n);
      if chunks[n].content != "" {
        content := content + chunks[n].content;
        TokensAppend(events, Token(chunks[n].content));
        events := events + [Token(chunks[n].content)];
      }
      ghost var before := FragmentsOf(chunks[..n]);
      var fs := chunks[n].fragments;
      assert before + fs[..0] == before;
      for i := 0 to |fs|
        invariant slots == SlotsOf(before + fs[..i])
      {
        slots := AddFragment(slots, fs[i], before + fs[..i]);
        assert before + fs[..i] + [fs[i]] == before + fs[..i + 1];
      }
      assert fs[..|fs|] == fs;
    }
    assert chunks[..|chunks|] == chunks;
  }

  /** The calls of a round are its slots in the order of their indices. */
  ghost predicate AreCallsOf(calls: seq<Call>, fs: seq<Fragment>) {
    exists order :: IsOrderOf(order, Indices(fs)) && |calls| == |order|
                    && forall i :: 0 <= i < |order| ==> calls[i] == CallOf(order[i], SlotAt(fs, order[i]))
  }

  lemma {:induction false} OrderIsUnique(a: seq<int>, b: seq<int>, keys: set<int>)
    requires IsOrderOf(a, keys) && IsOrderOf(b, keys)
    ensures a == b
  {
    assert |a| > 0 ==> a[0] in a;
    assert |b| > 0 ==> b[0] in b;
    if a != [] && b != [] {
      assert a[0] in b && b[0] in a;
      var k :| 0 <= k < |b| && b[k] == a[0];
      var j :| 0 <= j < |a| && a[j] == b[0];
      assert a[0] == b[0];
      forall x ensures x in a[1..] <==> x in keys - {a[0]} { assert a == [a[0]] + a[1..]; }
      forall x ensures x in b[1..] <==> x in keys - {a[0]} { assert b == [b[0]] + b[1..]; }
      OrderIsUnique(a[1..], b[1..], keys - {a[0]});
      assert a == [a[0]] + a[1..] && b == [b[0]] + b[1..];
    }
  }

  /** The deltas of each call, put together, are the same. */
  ghost predicate SameCalls(a: seq<Fragment>, b: seq<Fragment>) {
    && Indices(a) == Indices(b)
    && forall index ::
         && ArgumentsOf(OfIndex(a, index)) == ArgumentsOf(OfIndex(b, index))
         && LastId(OfIndex(a, index)) == LastId(OfIndex(b, index))
         && LastName(OfIndex(a, index)) == LastName(OfIndex(b, index))
  }

  /** However the deltas of a round are cut into pieces and interleaved, the same list of calls comes out. */
  lemma CuttingDoesNotMatter(a: seq<Fragment>, b: seq<Fragment>, callsA: seq<Call>, callsB: seq<Call>)
    requires SameCalls(a, b) && AreCallsOf(callsA, a) && AreCallsOf(callsB, b)
    ensures callsA == callsB
  {
    hide IsOrderOf, Indices, ArgumentsOf, LastId, LastName, OfIndex;
    var order :| IsOrderOf(order, Indices(a)) && |callsA| == |order|
                 && forall i :: 0 <= i < |order| ==> callsA[i] == CallOf(order[i], SlotAt(a, order[i]));
    var other :| IsOrderOf(other, Indices(b)) && |callsB| == |other|
                 && forall i :: 0 <= i < |other| ==> callsB[i] == CallOf(other[i], SlotAt(b, other[i]));
    OrderIsUnique(order, other, Indices(a));
    forall i | 0 <= i < |order| ensures callsA[i] == callsB[i] { assert SlotAt(a, order[i]) == SlotAt(b, order[i]); }
  }

  lemma {:induction false} OfIndexConcat(a: seq<Fragment>, b: seq<Fragment>, index: int)
    ensures OfIndex(a + b, index) == OfIndex(a, index) + OfIndex(b, index)
  {
    if b == [] {
      assert a + b == a;
    } else {
      assert (a + b)[..|a + b| - 1] == a + b[..|b| - 1];
      OfIndexConcat(a, b[..|b| - 1], index);
    }
  }

  lemma {:induction false} IndicesConcat(a: seq<Fragment>, b: seq<Fragment>)
    ensures Indices(a + b) == Indices(a) + Indices(b)
  {
    if b == [] {
      assert a + b == a;
    } else {
      assert (a + b)[..|a + b| - 1] == a + b[..|b| - 1];
      IndicesConcat(a, b[..|b| - 1]);
    }
  }

  lemma {:induction false} TextsConcat(a: seq<Fragment>, b: seq<Fragment>)
    ensures ArgumentsOf(a + b) == ArgumentsOf(a) + ArgumentsOf(b)
    ensures LastId(a + b) == if LastId(b) != "" then LastId(b) else LastId(a)
    ensures LastName(a + b) == if LastName(b) != "" then LastName(b) else LastName(a)
  {
    if b == [] {
      assert a + b == a;
    } else {
      assert (a + b)[..|a + b| - 1] == a + b[..|b| - 1];
      TextsConcat(a, b[..|b| - 1]);
    }
  }

  /** One delta sent in two pieces, anywhere in a stream. */
  lemma OnePieceOrTwo(before: seq<Fragment>, f: Fragment, more: string, after: seq<Fragment>)
    ensures SameCalls(before + [f.(arguments := f.arguments + more)] + after,
                      before + [f, Fragment(f.index, "", "", more)] + after)
  {
    var one, two := [f.(arguments := f.arguments + more)], [f, Fragment(f.index, "", "", more)];
    assert one[..0] == [] && two[..1] == [f] && [f][..0] == [];
    IndicesConcat(before + one, after);
    IndicesConcat(before, one);
    IndicesConcat(before + two, after);
    IndicesConcat(before, two);
    assert Indices(one) == {f.index} == Indices(two);
    forall index
      ensures var a, b := OfIndex(before + one + after, index), OfIndex(before + two + after, index);
              ArgumentsOf(a) == ArgumentsOf(b) && LastId(a) == LastId(b) && LastName(a) == LastName(b)
    {
      PiecesAgree(f, more, index);
      AroundAgree(before, one, two, after, index);
    }
  }

  lemma PiecesAgree(f: Fragment, more: string, index: int)
    ensures var a := OfIndex([f.(arguments := f.arguments + more)], index);
            var b := OfIndex([f, Fragment(f.index, "", "", more)], index);
            ArgumentsOf(a) == ArgumentsOf(b) && LastId(a) == LastId(b) && LastName(a) == LastName(b)
  {
    var one, two := [f.(arguments := f.arguments + more)], [f, Fragment(f.index, "", "", more)];
    assert one[..0] == [] && two[..1] == [f] && [f][..0] == [];
    if f.index == index {
      assert OfIndex(one, index) == one && OfIndex([f], index) == [f] && OfIndex(two, index) == two;
      assert ArgumentsOf([f]) == f.arguments;
    } else {
      assert OfIndex(one, index) == [] && OfIndex([f], index) == [] && OfIndex(two, index) == [];
    }
  }

  lemma AroundAgree(before: seq<Fragment>, one: seq<Fragment>, two: seq<Fragment>, after: seq<Fragment>, index: int)
    requires var a, b := OfIndex(one, index), OfIndex(two, index);
             ArgumentsOf(a) == ArgumentsOf(b) && LastId(a) == LastId(b) && LastName(a) == LastName(b)
    ensures var a, b := OfIndex(before + one + after, index), OfIndex(before + two + after, index);
            ArgumentsOf(a) == ArgumentsOf(b) && LastId(a) == LastId(b) && LastName(a) == LastName(b)
  {
    hide OfIndex, ArgumentsOf, LastId, LastName;
    var x, y := OfIndex(before, index), OfIndex(after, index);
    OfIndexConcat(before + one, after, index);
    OfIndexConcat(before, one, index);
    OfIndexConcat(before + two, after, index);
    OfIndexConcat(before, two, index);
    TextsConcat(x + OfIndex(one, index), y);
    TextsConcat(x, OfIndex(one, index));
    TextsConcat(x + OfIndex(two, index), y);
    TextsConcat(x, OfIndex(two, index));
  }

  /** With no ids from the model, the made-up ids of a group differ. */
  lemma MadeUpIdsDiffer(calls: seq<Call>, fs: seq<Fragment>)
    requires AreCallsOf(calls, fs) && forall f :: f in fs ==> f.id == ""
    ensures forall i, j :: 0 <= i < j < |calls| ==> calls[i].id != calls[j].id
  {
    hide OfIndex, LastId;
    var order :| IsOrderOf(order, Indices(fs)) && |calls| == |order|
                 && forall i :: 0 <= i < |order| ==> calls[i] == CallOf(order[i], SlotAt(fs, order[i]));
    forall i, j | 0 <= i < j < |calls| ensures calls[i].id != calls[j].id {
      NoIds(fs, order[i]);
      NoIds(fs, order[j]);
      assert ("call_" + Decimal(order[i]))[5..] == Decimal(order[i])
          && ("call_" + Decimal(order[j]))[5..] == Decimal(order[j]);
      if Decimal(order[i]) == Decimal(order[j]) { DecimalIsInjective(order[i], order[j]); }
    }
  }

  lemma {:induction false} NoIds(fs: seq<Fragment>, index: int)
    requires forall f :: f in fs ==> f.id == ""
    ensures LastId(OfIndex(fs, index)) == "" && forall f :: f in OfIndex(fs, index) ==> f.id == ""
  {
    if fs != [] {
      var front := fs[..|fs| - 1];
      NoIds(front, index);
      if fs[|fs| - 1].index == index {
        var own := OfIndex(fs, index);
        assert own[..|own| - 1] == OfIndex(front, index);
      } else {
        assert OfIndex(fs, index) == OfIndex(front, index);
      }
    }
  }

  lemma SlotsLookup(fs: seq<Fragment>)
    ensures SlotsOf(fs).Keys == Indices(fs)
    ensures forall index :: index in SlotsOf(fs) ==> SlotsOf(fs)[index] == SlotAt(fs, index)
  {
    hide SlotAt;
  }

  method CallsOf(slots: map<int, Slot>, ghost fs: seq<Fragment>) returns (calls: seq<Call>)
    requires slots == SlotsOf(fs)
    ensures AreCallsOf(calls, fs) && |calls| == |slots|
  {
    hide SlotsOf, SlotAt, CallOf;
    SlotsLookup(fs);
    var order := SortedKeys(slots.Keys);
    calls := [];
    for n := 0 to |order|
      invariant |calls| == n && forall i :: 0 <= i < n ==> calls[i] == CallOf(order[i], SlotAt(fs, order[i]))
    {
      assert order[n] in order;
      calls := calls + [CallOf(order[n], slots[order[n]])];
    }
  }

  /** Runs the calls of a group until one raises. */
  method RunTools(calls: seq<Call>, tool: nat -> Option<string>)
      returns (results: seq<string>, events: seq<Event>, ok: bool)
    ensures |results| <= |calls| && (ok <==> |results| == |calls|) && Tokens(events) == ""
    ensures forall i :: 0 <= i < |results| ==> tool(i) == Some(results[i])
    ensures !ok ==> tool(|results|) == None
    ensures forall preamble :: events == StatusEvents(Group(calls, preamble, results))
  {
    results, events := [], [];
    for n := 0 to |calls|
      invariant |results| == n && Tokens(events) == "" && events == CallEvents(calls, n)
      invariant forall i :: 0 <= i < n ==> tool(i) == Some(results[i])
    {
      TokensAppend(events, Status("tool_call", calls[n].name));
      events := events + [Status("tool_call", calls[n].name)];
      var result := tool(n);
      if result == None { return results, events, false; }
      TokensAppend(events, Status("tool_result", calls[n].name));
      events := events + [Status("tool_result", calls[n].name)];
      results := results + [result.value];
    }
    ok := true;
  }

  lemma TurnAppend(groups: seq<Group>, g: Group)
    ensures TurnMessages(groups + [g]) == TurnMessages(groups) + GroupMessages(g)
  {
    assert (groups + [g])[..|groups|] == groups;
  }

  /** A group is what its round asked for, answered by what its tools returned. */
  ghost predicate GroupOf(g: Group, round: Round, tool: nat -> Option<string>) {
    && AreCallsOf(g.calls, FragmentsOf(round.chunks)) && |g.results| <= |g.calls|
    && g.preamble == (if ContentOf(round.chunks) == "" then None else Some(ContentOf(round.chunks)))
    && (forall i :: 0 <= i < |g.results| ==> tool(i) == Some(g.results[i]))
    && (|g.results| < |g.calls| ==> tool(|g.results|) == None)
  }

  datatype RoundEnd = Broke | Answered | Asked(group: Group)

  /** One round: the stream breaks, or answers, or asks for tools, which run until one raises. */
  method PlayRound(round: Round, tool: nat -> Option<string>)
      returns (end: RoundEnd, content: string, events: seq<Event>)
    ensures content == ContentOf(round.chunks) == Tokens(events)
    ensures end.Broke? <==> round.fails
    ensures end.Answered? <==> !round.fails && FragmentsOf(round.chunks) == []
    ensures end.Asked? ==> GroupOf(end.group, round, tool) && |end.group.results| <= |end.group.calls|
    ensures events == TokenEvents(round.chunks) + if end.Asked? then StatusEvents(end.group) else []
  {
    hide SlotsOf, FragmentsOf, ContentOf, AreCallsOf, Tokens, TokenEvents, StatusEvents;
    var slots;
    content, slots, events := ReadStream(round.chunks);
    ghost var fs := FragmentsOf(round.chunks);
    if round.fails { return Broke, content, events; }
    SlotsEmptyIff(fs);
    if slots == map[] { return Answered, content, events; }
    var calls := CallsOf(slots, fs);
    var results, statuses, ok := RunTools(calls, tool);
    TokensConcat(events, statuses);
    return Asked(Group(calls, if content == "" then None else Some(content), results)), content, events + statuses;
  }

  /** What a streaming turn that ran the rounds of `groups` stores, sends and replies.
      A completed turn leaves the user message, at most five complete groups in the order of their rounds,
      and one answer; a turn cut short, by its stream or by a tool, leaves the user message and its groups so
      far. The token deltas add up to the reply exactly when the turn either answers and streamed something,
      or runs out of rounds and streamed nothing. */
  ghost predicate StreamOutcome(text: string, censored: bool, model: nat -> Round, tool: nat -> nat -> Option<string>,
                                groups: seq<Group>, messages: seq<Message>, events: seq<Event>, reply: string,
                                completed: bool) {
    var n := |groups|;
    && n <= MAX_TOOL_ROUNDS
    && (forall r :: 0 <= r < n ==> GroupOf(groups[r], model(r), tool(r)) && FragmentsOf(model(r).chunks) != [])
    && messages == [User(text, censored)] + TurnMessages(groups) + (if completed then [Answer(reply)] else [])
    && (if completed then Complete(groups) else Complete(groups) || Complete(groups[..n - 1]))
    && (n < MAX_TOOL_ROUNDS && Complete(groups) ==> if completed then Answers(model(n)) else model(n).fails)
    && (!completed && Complete(groups) ==> n < MAX_TOOL_ROUNDS)
    && events == RoundEvents(model, groups)
                 + (if n < MAX_TOOL_ROUNDS && Complete(groups) then TokenEvents(model(n).chunks) else [])
                 + (if !completed then [Error] else if n < MAX_TOOL_ROUNDS then [Done(reply)]
                     else [Token(FALLBACK), Done(FALLBACK)])
    && (completed ==>
          var all := Streamed(model, if n < MAX_TOOL_ROUNDS then n + 1 else n);
          && reply == (if n < MAX_TOOL_ROUNDS && all != "" then all else FALLBACK)
          && (Tokens(events) == reply <==> (n < MAX_TOOL_ROUNDS <==> all != "")))
  }

  ghost predicate Answers(round: Round) { !round.fails && FragmentsOf(round.chunks) == [] }

  /** A turn whose rounds so far all asked for tools and got their results. */
  ghost predicate SoFar(text: string, censored: bool, model: nat -> Round, tool: nat -> nat -> Option<string>,
                        groups: seq<Group>, messages: seq<Message>, events: seq<Event>, streamed: string) {
    && |groups| <= MAX_TOOL_ROUNDS && Complete(groups)
    && (forall r :: 0 <= r < |groups| ==> GroupOf(groups[r], model(r), tool(r)) && FragmentsOf(model(r).chunks) != [])
    && messages == [User(text, censored)] + TurnMessages(groups)
    && streamed == Streamed(model, |groups|) == Tokens(events)
    && events == RoundEvents(model, groups)
  }

  lemma TurnBegins(text: string, censored: bool, model: nat -> Round, tool: nat -> nat -> Option<string>)
    ensures SoFar(text, censored, model, tool, [], [User(text, censored)], [], "")
  {
    assert [User(text, censored)] + [] == [User(text, censored)];
  }

  lemma TurnBreaks(text: string, censored: bool, model: nat -> Round, tool: nat -> nat -> Option<string>,
                   groups: seq<Group>, messages: seq<Message>, events: seq<Event>, streamed: string)
    requires SoFar(text, censored, model, tool, groups, messages, events, streamed)
    requires |groups| < MAX_TOOL_ROUNDS && model(|groups|).fails
    ensures StreamOutcome(text, censored, model, tool, groups, messages,
                          events + TokenEvents(model(|groups|).chunks) + [Error], FALLBACK, false)
  {
    hide GroupOf, TurnMessages, RoundEvents, TokenEvents;
    assert messages + [] == messages;
  }

  lemma TurnAnswers(text: string, censored: bool, model: nat -> Round, tool: nat -> nat -> Option<string>,
                    groups: seq<Group>, messages: seq<Message>, events: seq<Event>, streamed: string,
                    more: seq<Event>, reply: string)
    requires SoFar(text, censored, model, tool, groups, messages, events, streamed)
    requires |groups| < MAX_TOOL_ROUNDS && Answers(model(|groups|)) && more == TokenEvents(model(|groups|).chunks)
    requires Tokens(more) == ContentOf(model(|groups|).chunks)
    requires var all := streamed + ContentOf(model(|groups|).chunks); reply == if all != "" then all else FALLBACK
    ensures StreamOutcome(text, censored, model, tool, groups, messages + [Answer(reply)],
                          events + more + [Done(reply)], reply, true)
  {
    hide GroupOf, TurnMessages, RoundEvents, TokenEvents, Tokens, ContentOf, FragmentsOf;
    TokensConcat(events, more);
    TokensAppend(events + more, Done(reply));
    assert Tokens(events + more) + "" == Tokens(events + more);
  }

  lemma TurnContinues(text: string, censored: bool, model: nat -> Round, tool: nat -> nat -> Option<string>,
                      groups: seq<Group>, messages: seq<Message>, events: seq<Event>, streamed: string,
                      more: seq<Event>, group: Group)
    requires SoFar(text, censored, model, tool, groups, messages, events, streamed) && |groups| < MAX_TOOL_ROUNDS
    requires GroupOf(group, model(|groups|), tool(|groups|)) && FragmentsOf(model(|groups|).chunks) != []
    requires more == TokenEvents(model(|groups|).chunks) + StatusEvents(group)
    requires Tokens(more) == ContentOf(model(|groups|).chunks) && |group.results| == |group.calls|
    ensures SoFar(text, censored, model, tool, groups + [group], messages + GroupMessages(group), events + more,
                  streamed + ContentOf(model(|groups|).chunks))
  {
    hide GroupOf, TurnMessages, GroupMessages, RoundEvents, TokenEvents, StatusEvents, Tokens, ContentOf, FragmentsOf,
        Streamed;
    TokensConcat(events, more);
    StreamedNext(model, |groups|);
    TurnAppend(groups, group);
    RoundEventsNext(model, groups, group);
    assert messages + GroupMessages(group) == [User(text, censored)] + (TurnMessages(groups) + GroupMessages(group));
  }

  lemma TurnFails(text: string, censored: bool, model: nat -> Round, tool: nat -> nat -> Option<string>,
                  groups: seq<Group>, messages: seq<Message>, events: seq<Event>, streamed: string,
                  more: seq<Event>, group: Group)
    requires SoFar(text, censored, model, tool, groups, messages, events, streamed) && |groups| < MAX_TOOL_ROUNDS
    requires GroupOf(group, model(|groups|), tool(|groups|)) && FragmentsOf(model(|groups|).chunks) != []
    requires more == TokenEvents(model(|groups|).chunks) + StatusEvents(group) && |group.results| < |group.calls|
    ensures StreamOutcome(text, censored, model, tool, groups + [group], messages + GroupMessages(group),
                          events + more + [Error], FALLBACK, false)
  {
    hide GroupOf, TurnMessages, GroupMessages, RoundEvents, TokenEvents, StatusEvents, Tokens, ContentOf, FragmentsOf,
        Streamed;
    var all := groups + [group];
    TurnAppend(groups, group);
    RoundEventsNext(model, groups, group);
    assert all[..|groups|] == groups && all[|groups|] == group;
    assert messages + GroupMessages(group) == [User(text, censored)] + TurnMessages(all) + [];
    assert events + more == RoundEvents(model, all) + [];
  }

  lemma TurnRunsOut(text: string, censored: bool, model: nat -> Round, tool: nat -> nat -> Option<string>,
                    groups: seq<Group>, messages: seq<Message>, events: seq<Event>, streamed: string)
    requires SoFar(text, censored, model, tool, groups, messages, events, streamed) && |groups| == MAX_TOOL_ROUNDS
    ensures StreamOutcome(text, censored, model, tool, groups, messages + [Answer(FALLBACK)],
                          events + [Token(FALLBACK), Done(FALLBACK)], FALLBACK, true)
  {
    hide GroupOf, TurnMessages, GroupMessages, RoundEvents, TokenEvents, StatusEvents, Tokens, ContentOf, FragmentsOf,
        Streamed;
    TokensAppend(events, Token(FALLBACK));
    TokensAppend(events + [Token(FALLBACK)], Done(FALLBACK));
    assert events + [Token(FALLBACK)] + [Done(FALLBACK)] == events + [Token(FALLBACK), Done(FALLBACK)];
    assert events + [] == events;
    LonelyFallback(streamed);
  }

  lemma LonelyFallback(streamed: string)
    ensures streamed + FALLBACK + "" == FALLBACK <==> streamed == ""
  {
    assert |streamed + FALLBACK + ""| == |streamed| + |FALLBACK|;
  }

  /** A streaming turn. `model` and `tool` stand for the completions and the tool results, of any kind. */
  method ChatStream(text: string, censored: bool, model: nat -> Round, tool: nat -> nat -> Option<string>)
    returns (messages: seq<Message>, events: seq<Event>, reply: string, completed: bool)
    ensures exists groups :: StreamOutcome(text, censored, model, tool, groups, messages, events, reply, completed)
  {
    hide SoFar, StreamOutcome, FragmentsOf, ContentOf, GroupOf, Tokens, GroupMessages, TokenEvents, StatusEvents;
    messages, events := [User(text, censored)], [];
    var streamed := "";
    ghost var groups: seq<Group> := [];
    TurnBegins(text, censored, model, tool);
    for round := 0 to MAX_TOOL_ROUNDS
      invariant |groups| == round && SoFar(text, censored, model, tool, groups, messages, events, streamed)
    {
      var end, content, more := PlayRound(model(round), tool(round));
      match end
      case Broke =>
        assert more == TokenEvents(model(|groups|).chunks);
        TurnBreaks(text, censored, model, tool, groups, messages, events, streamed);
        return messages, events + more + [Error], FALLBACK, false;
      case Answered =>
        reply := if streamed + content != "" then streamed + content else FALLBACK;
        assert more == TokenEvents(model(|groups|).chunks);
        TurnAnswers(text, censored, model, tool, groups, messages, events, streamed, more, reply);
        return messages + [Answer(reply)], events + more + [Done(reply)], reply, true;
      case Asked(group) =>
        if |group.results| < |group.calls| {
          TurnFails(text, censored, model, tool, groups, messages, events, streamed, more, group);
          return messages + GroupMessages(group), events + more + [Error], FALLBACK, false;
        }
        TurnContinues(text, censored, model, tool, groups, messages, events, streamed, more, group);
        messages, events := messages + GroupMessages(group), events + more;
        streamed, groups := streamed + content, groups + [group];
    }
    TurnRunsOut(text, censored, model, tool, groups, messages, events, streamed);
    return messages + [Answer(FALLBACK)], events + [Token(FALLBACK), Done(FALLBACK)], FALLBACK, true;
  }

  lemma NothingYet(model: nat -> Round)
    ensures Tokens([]) == Streamed(model, 0) == "" && TurnMessages([]) == []
  {
  }

  lemma StreamedNext(model: nat -> Round, n: nat)
    ensures Streamed(model, n + 1) == Streamed(model, n) + ContentOf(model(n).chunks)
  {
  }

  lemma SlotsEmptyIff(fs: seq<Fragment>)
    ensures SlotsOf(fs) == map[] <==> fs == []
  {
    if fs != [] { assert fs[|fs| - 1].index in SlotsOf(fs); }
  }

  /** Whatever a turn leaves to be stored starts at its user message and keeps tool rows with their calls. */
  lemma TurnIsStorable(text: string, censored: bool, groups: seq<Group>, reply: Option<string>)
    ensures var turn := [User(text, censored)] + TurnMessages(groups)
                        + if reply.Some? then [Answer(reply.value)] else [];
            turn[0].User? && OwnedRows(turn)
  {
    hide TurnMessages;
    TurnOwnsRows(groups);
    OwnedRowsConcat([User(text, censored)], TurnMessages(groups));
    OwnedRowsConcat([User(text, censored)] + TurnMessages(groups), if reply.Some? then [Answer(reply.value)] else []);
  }

  // ----- the turn without streaming

  /** A whole completion. `calls` can be missing even when the model stopped to call tools. */
  datatype Completion = Completion(content: Option<string>, calls: Option<seq<Call>>, stoppedForTools: bool)

  predicate AsksForTools(c: Completion) {
    c.stoppedForTools || (c.calls.Some? && c.calls.value != [])
  }

  /** What a turn without streaming that ran the rounds of `groups` returns; it has no reply when a tool, or a
      missing call list, raises. */
  ghost predicate ChatOutcome(text: string, censored: bool, model: nat -> Completion,
                              tool: nat -> nat -> Option<string>,
                              groups: seq<Group>, messages: seq<Message>, reply: Option<string>) {
    var n := |groups|;
    && n <= MAX_TOOL_ROUNDS && Complete(groups)
    && (forall r :: 0 <= r < n ==> GroupOfCompletion(groups[r], model(r), tool(r)))
    && messages == [User(text, censored)] + TurnMessages(groups) + (if reply.Some? then [Answer(reply.value)] else [])
    && (reply.Some? ==>
          && (n < MAX_TOOL_ROUNDS ==> !AsksForTools(model(n)))
          && reply.value == (if n < MAX_TOOL_ROUNDS && model(n).content.Some? && model(n).content.value != ""
                             then model(n).content.value
                             else FALLBACK))
    && (reply.None? ==>
          && n < MAX_TOOL_ROUNDS && AsksForTools(model(n))
          && (model(n).calls.None? || exists i :: 0 <= i < |model(n).calls.value| && tool(n)(i).None?))
  }

  ghost predicate GroupOfCompletion(g: Group, c: Completion, tool: nat -> Option<string>) {
    && AsksForTools(c) && c.calls == Some(g.calls) && g.preamble == c.content
    && forall i :: 0 <= i < |g.results| ==> tool(i) == Some(g.results[i])
  }

  method Chat(text: string, censored: bool, model: nat -> Completion, tool: nat -> nat -> Option<string>)
    returns (reply: Option<string>, messages: seq<Message>)
    ensures exists groups :: ChatOutcome(text, censored, model, tool, groups, messages, reply)
  {
    hide GroupMessages, TurnMessages, Tokens;
    messages := [User(text, censored)];
    ghost var groups: seq<Group> := [];
    assert messages == [User(text, censored)] + [];
    NothingYet(_ => Round([], false));
    for round := 0 to MAX_TOOL_ROUNDS
      invariant |groups| == round && Complete(groups)
      invariant forall r :: 0 <= r < round ==> GroupOfCompletion(groups[r], model(r), tool(r))
      invariant messages == [User(text, censored)] + TurnMessages(groups)
    {
      var c := model(round);
      if !AsksForTools(c) {
        var answer := if c.content.Some? && c.content.value != "" then c.content.value else FALLBACK;
        assert ChatOutcome(text, censored, model, tool, groups, messages + [Answer(answer)], Some(answer));
        return Some(answer), messages + [Answer(answer)];
      }
      assert messages + [] == messages;
      if c.calls == None {
        assert ChatOutcome(text, censored, model, tool, groups, messages, None);
        return None, messages;
      }
      var results, statuses, ok := RunTools(c.calls.value, tool(round));
      if !ok {
        assert ChatOutcome(text, censored, model, tool, groups, messages, None);
        return None, messages;
      }
      var group := Group(c.calls.value, c.content, results);
      TurnAppend(groups, group);
      assert messages + GroupMessages(group) == [User(text, censored)] + (TurnMessages(groups) + GroupMessages(group));
      messages, groups := messages + GroupMessages(group), groups + [group];
    }
    assert ChatOutcome(text, censored, model, tool, groups, messages + [Answer(FALLBACK)], Some(FALLBACK));
    return Some(FALLBACK), messages + [Answer(FALLBACK)];
  }
}
