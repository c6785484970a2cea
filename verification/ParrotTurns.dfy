/** What a streamed turn stores and sends, in terms of the deltas themselves and what the tools returned. */
module ParrotTurns {
  import opened Wrappers
  import opened Decimals
  import opened Subsequences
  import opened ParrotMessages
  import opened ParrotChat

  /** The parts, put together. */
  function Flat<T>(parts: seq<seq<T>>): seq<T> {
    if parts == [] then [] else parts[0] + Flat(parts[1..])
  }

  lemma {:induction false} FlatAppend<T>(parts: seq<seq<T>>, last: seq<T>)
    ensures Flat(parts + [last]) == Flat(parts) + last
  {
    if parts == [] {
      assert parts + [last] == [last] && last + [] == last;
      assert Flat([last]) == last + Flat<T>([]);
    } else {
      assert (parts + [last])[1..] == parts[1..] + [last];
      FlatAppend(parts[1..], last);
      assert parts[0] + (Flat(parts[1..]) + last) == parts[0] + Flat(parts[1..]) + last;
    }
  }

  // ----- the calls of a round

  /** The deltas of one call are those at the places `own`. The call has their arguments put together in order, the last
      name among them that is not empty, and the last such id, or one made up from the index. */
  ghost predicate Assembled(call: Call, fs: seq<Fragment>, index: int, own: seq<nat>) {
    && Positions(own, |fs|) && (forall i :: 0 <= i < |fs| ==> (i in own <==> fs[i].index == index))
    && call.arguments == Flat(Arguments(PickedAt(fs, own)))
    && (if forall k :: 0 <= k < |own| ==> fs[own[k]].name == "" then call.name == None
        else exists k :: 0 <= k < |own| && fs[own[k]].name != "" && call.name == Some(fs[own[k]].name)
                         && forall j :: k < j < |own| ==> fs[own[j]].name == "")
    && (if forall k :: 0 <= k < |own| ==> fs[own[k]].id == "" then call.id == "call_" + Decimal(index)
        else exists k :: 0 <= k < |own| && fs[own[k]].id != "" && call.id == fs[own[k]].id
                         && forall j :: k < j < |own| ==> fs[own[j]].id == "")
  }

  function Arguments(fs: seq<Fragment>): (a: seq<string>)
    ensures |a| == |fs| && forall i :: 0 <= i < |fs| ==> a[i] == fs[i].arguments
  {
    seq(|fs|, i requires 0 <= i < |fs| => fs[i].arguments)
  }

  /** Call number `i` is assembled from the deltas of the `i`-th smallest index. */
  ghost predicate AssembledInOrder(calls: seq<Call>, fs: seq<Fragment>, order: seq<int>) {
    && Ascending(order) && (forall k :: k in order <==> HasIndex(fs, k))
    && |calls| == |order|
    && forall i :: 0 <= i < |calls| ==> IsAssembled(calls[i], fs, order[i])
  }

  ghost predicate HasIndex(fs: seq<Fragment>, k: int) { exists i :: 0 <= i < |fs| && fs[i].index == k }

  ghost predicate IsAssembled(call: Call, fs: seq<Fragment>, index: int) {
    exists own :: Assembled(call, fs, index, own)
  }

  lemma {:induction false} IndicesAre(fs: seq<Fragment>, k: int)
    ensures k in Indices(fs) <==> HasIndex(fs, k)
  {
    if fs != [] {
      var n := |fs| - 1;
      IndicesAre(fs[..n], k);
      if i :| 0 <= i < n && fs[..n][i].index == k { assert fs[i].index == k; }
      if i :| 0 <= i < |fs| && fs[i].index == k { assert i < n ==> fs[..n][i].index == k; }
    }
  }

  lemma {:induction false} OfIndexAt(fs: seq<Fragment>, index: int) returns (own: seq<nat>)
    ensures Positions(own, |fs|) && OfIndex(fs, index) == PickedAt(fs, own)
    ensures forall i :: 0 <= i < |fs| ==> (i in own <==> fs[i].index == index)
  {
    own := [];
    if fs != [] {
      var n := |fs| - 1;
      own := OfIndexAt(fs[..n], index);
      if fs[n].index == index { own := own + [n]; }
    }
  }

  lemma {:induction false} ArgumentsAre(fs: seq<Fragment>)
    ensures ArgumentsOf(fs) == Flat(Arguments(fs))
  {
    if fs != [] {
      var n := |fs| - 1;
      ArgumentsAre(fs[..n]);
      FlatAppend(Arguments(fs[..n]), fs[n].arguments);
      assert Arguments(fs) == Arguments(fs[..n]) + [fs[n].arguments];
    }
  }

  lemma {:induction false} LastIdIs(fs: seq<Fragment>)
    ensures if forall k :: 0 <= k < |fs| ==> fs[k].id == "" then LastId(fs) == ""
            else exists k :: 0 <= k < |fs| && fs[k].id != "" && LastId(fs) == fs[k].id
                             && forall j :: k < j < |fs| ==> fs[j].id == ""
  {
    if fs != [] {
      var n := |fs| - 1;
      LastIdIs(fs[..n]);
      if fs[n].id == "" && exists k :: 0 <= k < n && fs[..n][k].id != "" {
        var k :| 0 <= k < n && fs[..n][k].id != "" && LastId(fs[..n]) == fs[..n][k].id
                 && forall j :: k < j < n ==> fs[..n][j].id == "";
        assert fs[k].id != "" && forall j :: k < j < n ==> fs[..n][j].id == fs[j].id;
      } else if fs[n].id == "" {
        forall k | 0 <= k < |fs| ensures fs[k].id == "" { assert k < n ==> fs[..n][k].id == ""; }
      }
    }
  }

  lemma {:induction false} LastNameIs(fs: seq<Fragment>)
    ensures if forall k :: 0 <= k < |fs| ==> fs[k].name == "" then LastName(fs) == ""
            else exists k :: 0 <= k < |fs| && fs[k].name != "" && LastName(fs) == fs[k].name
                             && forall j :: k < j < |fs| ==> fs[j].name == ""
  {
    if fs != [] {
      var n := |fs| - 1;
      LastNameIs(fs[..n]);
      if fs[n].name == "" && exists k :: 0 <= k < n && fs[..n][k].name != "" {
        var k :| 0 <= k < n && fs[..n][k].name != "" && LastName(fs[..n]) == fs[..n][k].name
                 && forall j :: k < j < n ==> fs[..n][j].name == "";
        assert fs[k].name != "" && forall j :: k < j < n ==> fs[..n][j].name == fs[j].name;
      } else if fs[n].name == "" {
        forall k | 0 <= k < |fs| ensures fs[k].name == "" { assert k < n ==> fs[..n][k].name == ""; }
      }
    }
  }

  lemma CallIsAssembled(fs: seq<Fragment>, index: int) returns (own: seq<nat>)
    ensures Assembled(CallOf(index, SlotAt(fs, index)), fs, index, own)
  {
    hide OfIndex, ArgumentsOf, LastId, LastName, Flat;
    own := OfIndexAt(fs, index);
    var mine := PickedAt(fs, own);
    ArgumentsAre(mine);
    LastIdIs(mine);
    LastNameIs(mine);
    assert forall k :: 0 <= k < |own| ==> mine[k] == fs[own[k]];
  }

  /** Every list of calls that a round stores is put together from the round's deltas, index by index. */
  lemma CallsAreAssembled(calls: seq<Call>, fs: seq<Fragment>)
    requires AreCallsOf(calls, fs)
    ensures exists order :: AssembledInOrder(calls, fs, order)
  {
    hide Indices, SlotAt, CallOf, Assembled, HasIndex;
    var order :| IsOrderOf(order, Indices(fs)) && |calls| == |order|
                 && forall i :: 0 <= i < |order| ==> calls[i] == CallOf(order[i], SlotAt(fs, order[i]));
    forall k ensures k in order <==> HasIndex(fs, k) { IndicesAre(fs, k); }
    forall i | 0 <= i < |calls| ensures IsAssembled(calls[i], fs, order[i]) {
      var own := CallIsAssembled(fs, order[i]);
    }
    assert AssembledInOrder(calls, fs, order);
  }

  // ----- what a turn reads

  function AllFragments(chunks: seq<Chunk>): (a: seq<seq<Fragment>>)
    ensures |a| == |chunks| && forall i :: 0 <= i < |chunks| ==> a[i] == chunks[i].fragments
  {
    seq(|chunks|, i requires 0 <= i < |chunks| => chunks[i].fragments)
  }

  function AllContents(chunks: seq<Chunk>): (a: seq<string>)
    ensures |a| == |chunks| && forall i :: 0 <= i < |chunks| ==> a[i] == chunks[i].content
  {
    seq(|chunks|, i requires 0 <= i < |chunks| => chunks[i].content)
  }

  /** A token for every piece of content that is not empty. */
  function AllTokens(chunks: seq<Chunk>): (a: seq<seq<Event>>)
    ensures |a| == |chunks|
    ensures forall i :: 0 <= i < |chunks| ==>
              a[i] == if chunks[i].content == "" then [] else [Token(chunks[i].content)]
  {
    seq(|chunks|, i requires 0 <= i < |chunks| =>
      if chunks[i].content == "" then [] else [Token(chunks[i].content)])
  }

  lemma {:induction false} FragmentsRead(chunks: seq<Chunk>)
    ensures FragmentsOf(chunks) == Flat(AllFragments(chunks))
  {
    hide Flat;
    if chunks == [] {
      NothingFlat<Fragment>();
      assert AllFragments(chunks) == [];
    } else {
      var n := |chunks| - 1;
      FragmentsRead(chunks[..n]);
      FlatAppend(AllFragments(chunks[..n]), chunks[n].fragments);
      assert AllFragments(chunks) == AllFragments(chunks[..n]) + [chunks[n].fragments];
    }
  }

  lemma {:induction false} ContentsRead(chunks: seq<Chunk>)
    ensures ContentOf(chunks) == Flat(AllContents(chunks))
  {
    hide Flat;
    if chunks == [] {
      NothingFlat<char>();
      assert AllContents(chunks) == [];
    } else {
      var n := |chunks| - 1;
      ContentsRead(chunks[..n]);
      FlatAppend(AllContents(chunks[..n]), chunks[n].content);
      assert AllContents(chunks) == AllContents(chunks[..n]) + [chunks[n].content];
    }
  }

  lemma {:induction false} TokensSent(chunks: seq<Chunk>)
    ensures TokenEvents(chunks) == Flat(AllTokens(chunks))
  {
    hide Flat;
    if chunks == [] {
      NothingFlat<Event>();
      assert AllTokens(chunks) == [];
    } else {
      var n := |chunks| - 1;
      var tokens := if chunks[n].content == "" then [] else [Token(chunks[n].content)];
      TokensSent(chunks[..n]);
      FlatAppend(AllTokens(chunks[..n]), tokens);
      assert AllTokens(chunks) == AllTokens(chunks[..n]) + [tokens];
    }
  }

  lemma NothingFlat<T>()
    ensures Flat<T>([]) == []
  {
  }

  /** What a round reads and sends on, chunk by chunk. */
  lemma RoundReads(chunks: seq<Chunk>)
    ensures FragmentsOf(chunks) == Flat(AllFragments(chunks))
    ensures ContentOf(chunks) == Flat(AllContents(chunks))
    ensures TokenEvents(chunks) == Flat(AllTokens(chunks))
  {
    hide FragmentsOf, ContentOf, TokenEvents, Flat;
    FragmentsRead(chunks);
    ContentsRead(chunks);
    TokensSent(chunks);
  }

  // ----- what a turn stores

  /** The messages of a group: its call list, and for each result a row with the id of the call at the same place. */
  function GroupRows(g: Group): (rows: seq<Message>)
    requires |g.results| <= |g.calls|
    ensures |rows| == |g.results| + 1 && rows[0] == Calls(g.calls, g.preamble)
    ensures forall i :: 0 <= i < |g.results| ==> rows[i + 1] == ToolRow(g.calls[i].id, g.results[i])
  {
    [Calls(g.calls, g.preamble)]
    + seq(|g.results|, i requires 0 <= i < |g.results| => ToolRow(g.calls[i].id, g.results[i]))
  }

  function AllRows(groups: seq<Group>): (a: seq<seq<Message>>)
    requires forall r :: 0 <= r < |groups| ==> |groups[r].results| <= |groups[r].calls|
    ensures |a| == |groups| && forall r :: 0 <= r < |groups| ==> a[r] == GroupRows(groups[r])
  {
    seq(|groups|, r requires 0 <= r < |groups| => GroupRows(groups[r]))
  }

  lemma {:induction false} TurnRows(groups: seq<Group>)
    requires forall r :: 0 <= r < |groups| ==> |groups[r].results| <= |groups[r].calls|
    ensures TurnMessages(groups) == Flat(AllRows(groups))
  {
    if groups != [] {
      var n := |groups| - 1;
      TurnRows(groups[..n]);
      FlatAppend(AllRows(groups[..n]), GroupRows(groups[n]));
      assert AllRows(groups) == AllRows(groups[..n]) + [GroupRows(groups[n])];
      assert GroupMessages(groups[n]) == GroupRows(groups[n]);
    }
  }

  /** A status before and after each tool that returned, and one before a tool that raised. */
  lemma {:induction false} CallStatuses(calls: seq<Call>, n: nat)
    requires n <= |calls|
    ensures |CallEvents(calls, n)| == 2 * n
    ensures forall i :: 0 <= i < n ==>
              && CallEvents(calls, n)[2 * i] == Status("tool_call", calls[i].name)
              && CallEvents(calls, n)[2 * i + 1] == Status("tool_result", calls[i].name)
  {
    if n > 0 { CallStatuses(calls, n - 1); }
  }

  lemma GroupStatuses(g: Group)
    requires |g.results| <= |g.calls|
    ensures var e, n := StatusEvents(g), |g.results|;
            && |e| == (if n < |g.calls| then 2 * n + 1 else 2 * n)
            && (forall i :: 0 <= i < n ==>
                  && e[2 * i] == Status("tool_call", g.calls[i].name)
                  && e[2 * i + 1] == Status("tool_result", g.calls[i].name))
            && (n < |g.calls| ==> e[2 * n] == Status("tool_call", g.calls[n].name))
  {
    hide CallEvents;
    CallStatuses(g.calls, |g.results|);
  }

  function AllRoundEvents(model: nat -> Round, groups: seq<Group>): (a: seq<seq<Event>>)
    ensures |a| == |groups|
    ensures forall r :: 0 <= r < |groups| ==> a[r] == Flat(AllTokens(model(r).chunks)) + StatusEvents(groups[r])
  {
    seq(|groups|, r requires 0 <= r < |groups| => Flat(AllTokens(model(r).chunks)) + StatusEvents(groups[r]))
  }

  lemma {:induction false} TurnSends(model: nat -> Round, groups: seq<Group>)
    ensures RoundEvents(model, groups) == Flat(AllRoundEvents(model, groups))
  {
    hide TokenEvents, StatusEvents, Flat;
    if groups == [] {
      NothingFlat<Event>();
      assert AllRoundEvents(model, groups) == [];
    } else {
      var n := |groups| - 1;
      var last := Flat(AllTokens(model(n).chunks)) + StatusEvents(groups[n]);
      TurnSends(model, groups[..n]);
      RoundReads(model(n).chunks);
      FlatAppend(AllRoundEvents(model, groups[..n]), last);
      assert AllRoundEvents(model, groups) == AllRoundEvents(model, groups[..n]) + [last];
    }
  }

  /** Everything said in the first `n` rounds. */
  function AllSaid(model: nat -> Round, n: nat): (a: seq<string>)
    ensures |a| == n && forall r :: 0 <= r < n ==> a[r] == Flat(AllContents(model(r).chunks))
  {
    seq(n, r requires 0 <= r < n => Flat(AllContents(model(r).chunks)))
  }

  lemma {:induction false} StreamedIs(model: nat -> Round, n: nat)
    ensures Streamed(model, n) == Flat(AllSaid(model, n))
  {
    if n > 0 {
      StreamedIs(model, n - 1);
      RoundReads(model(n - 1).chunks);
      FlatAppend(AllSaid(model, n - 1), Flat(AllContents(model(n - 1).chunks)));
      assert AllSaid(model, n) == AllSaid(model, n - 1) + [Flat(AllContents(model(n - 1).chunks))];
    }
  }

  /** A group in terms of what was streamed: its calls are assembled from the deltas of its round, its preamble is the
      text of its round if there was any, and its results are what the tools returned until one raised. */
  ghost predicate PlainGroup(g: Group, round: Round, tool: nat -> Option<string>) {
    var said := Flat(AllContents(round.chunks));
    && (exists order :: AssembledInOrder(g.calls, Flat(AllFragments(round.chunks)), order))
    && |g.calls| > 0 && |g.results| <= |g.calls| && g.preamble == (if said == "" then None else Some(said))
    && (forall i :: 0 <= i < |g.results| ==> tool(i) == Some(g.results[i]))
    && (|g.results| < |g.calls| ==> tool(|g.results|) == None)
  }

  lemma GroupIsPlain(g: Group, round: Round, tool: nat -> Option<string>)
    requires GroupOf(g, round, tool) && FragmentsOf(round.chunks) != []
    ensures PlainGroup(g, round, tool)
  {
    hide AreCallsOf, AssembledInOrder, FragmentsOf, ContentOf, Flat;
    RoundReads(round.chunks);
    CallsAreAssembled(g.calls, FragmentsOf(round.chunks));
    SomeCall(g.calls, FragmentsOf(round.chunks));
  }

  lemma SomeCall(calls: seq<Call>, fs: seq<Fragment>)
    requires AreCallsOf(calls, fs) && fs != []
    ensures calls != []
  {
    var order :| IsOrderOf(order, Indices(fs)) && |calls| == |order|;
    assert fs[|fs| - 1].index in Indices(fs);
  }

  /** A finished or broken streaming turn in terms of what was streamed and what the tools returned: the messages it
      leaves to be stored, what the client is sent, and the reply. */
  lemma StreamedTurnIs(text: string, censored: bool, model: nat -> Round, tool: nat -> nat -> Option<string>,
                       groups: seq<Group>, messages: seq<Message>, events: seq<Event>, reply: string, completed: bool)
    requires StreamOutcome(text, censored, model, tool, groups, messages, events, reply, completed)
    ensures |groups| <= 5 && forall r :: 0 <= r < |groups| ==> PlainGroup(groups[r], model(r), tool(r))
    ensures messages == [User(text, censored)] + Flat(AllRows(groups)) + if completed then [Answer(reply)] else []
    ensures Flat(AllRoundEvents(model, groups)) <= events
    ensures var rest, n := events[|Flat(AllRoundEvents(model, groups))|..], |groups|;
            if completed && n < 5 then rest == Flat(AllTokens(model(n).chunks)) + [Done(reply)]
            else if completed then rest == [Token(reply), Done(reply)]
            else rest == (if Complete(groups) then Flat(AllTokens(model(n).chunks)) else []) + [Error]
    ensures completed && |groups| < 5 ==>
              var said := Flat(AllSaid(model, |groups| + 1));
              Flat(AllFragments(model(|groups|).chunks)) == [] && reply == if said != "" then said else FALLBACK
    ensures completed && |groups| == 5 ==> reply == FALLBACK
  {
    hide GroupOf, PlainGroup, TurnMessages, RoundEvents, TokenEvents, Streamed, Flat, FragmentsOf, Tokens;
    forall r | 0 <= r < |groups|
      ensures PlainGroup(groups[r], model(r), tool(r)) && |groups[r].results| <= |groups[r].calls|
    {
      GroupIsPlain(groups[r], model(r), tool(r));
      NoMoreResults(groups[r], model(r), tool(r));
    }
    TurnRows(groups);
    TurnSends(model, groups);
    RoundReads(model(|groups|).chunks);
    StreamedIs(model, |groups| + 1);
  }

  lemma NoMoreResults(g: Group, round: Round, tool: nat -> Option<string>)
    requires PlainGroup(g, round, tool)
    ensures |g.results| <= |g.calls|
  {
    hide AssembledInOrder, Flat;
  }
}
