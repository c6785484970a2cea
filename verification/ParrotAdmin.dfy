/** The parrot's admin view of a stored conversation. */
module ParrotAdmin {
  import opened Wrappers
  import opened ParrotMessages
  import opened ParrotChat
  import opened ParrotHistory

  datatype Row =
    | UserRow(text: string)
    | AnswerRow(text: string)
    | CallsRow(calls: seq<Call>, preamble: Option<string>)
    | ResultRow(id: string, name: Option<string>, content: string)

  /** The names of a call list by id: of calls that share an id, the last with a name. */
  function Names(calls: seq<Call>): map<string, string> {
    if calls == [] then map[]
    else
      var c := calls[|calls| - 1];
      var m := Names(calls[..|calls| - 1]);
      if c.name.Some? then m[c.id := c.name.value] else m
  }

  function NameIn(group: map<string, string>, id: string): Option<string> {
    if id in group then Some(group[id]) else None
  }

  function NormalizeMessage(m: Message, group: map<string, string>): Row {
    match m
    case User(text, _) => UserRow(text)
    case Answer(text) => AnswerRow(text)
    case Calls(calls, preamble) => CallsRow(calls, preamble)
    case ToolRow(id, content) => ResultRow(id, NameIn(group, id), content)
  }

  /** The call names in force at position `p`: those of the nearest call list before it. */
  function GroupAt(s: seq<Message>, p: nat): map<string, string>
    requires p <= |s|
  {
    if p == 0 then map[]
    else if s[p - 1].Calls? && s[p - 1].calls != [] then Names(s[p - 1].calls)
    else GroupAt(s, p - 1)
  }

  method NamesOf(calls: seq<Call>) returns (group: map<string, string>)
    ensures group == Names(calls)
  {
    group := map[];
    for i := 0 to |calls|
      invariant group == Names(calls[..i])
    {
      assert calls[..i + 1][..i] == calls[..i];
      if calls[i].name.Some? { group := group[calls[i].id := calls[i].name.value]; }
    }
    assert calls[..|calls|] == calls;
  }

  lemma FirstGroup(s: seq<Message>)
    ensures GroupAt(s, 0) == map[]
  {
  }

  lemma NextGroup(s: seq<Message>, p: nat)
    requires p < |s|
    ensures GroupAt(s, p + 1) == if s[p].Calls? && s[p].calls != [] then Names(s[p].calls) else GroupAt(s, p)
  {
  }

  lemma RowIs(m: Message, group: map<string, string>)
    ensures match m
            case User(text, _) => NormalizeMessage(m, group) == UserRow(text)
            case Answer(text) => NormalizeMessage(m, group) == AnswerRow(text)
            case Calls(calls, preamble) => NormalizeMessage(m, group) == CallsRow(calls, preamble)
            case ToolRow(id, content) => exists name :: NormalizeMessage(m, group) == ResultRow(id, name, content)
  {
  }

  lemma OnlyToolRowsNeedNames(m: Message, a: map<string, string>, b: map<string, string>)
    ensures !m.ToolRow? ==> NormalizeMessage(m, a) == NormalizeMessage(m, b)
  {
  }

  method NormalizeTranscript(messages: seq<Message>) returns (out: seq<Row>)
    ensures |out| == |messages|
    ensures forall p :: 0 <= p < |messages| ==> out[p] == NormalizeMessage(messages[p], GroupAt(messages, p))
    ensures forall p :: 0 <= p < |messages| ==>
              match messages[p]
              case User(text, _) => out[p] == UserRow(text)
              case Answer(text) => out[p] == AnswerRow(text)
              case Calls(calls, preamble) => out[p] == CallsRow(calls, preamble)
              case ToolRow(id, content) => out[p].ResultRow? && out[p].id == id && out[p].content == content
  {
    hide Names, NormalizeMessage, GroupAt;
    out := [];
    assert GroupAt(messages, 0) == map[] by { FirstGroup(messages); }
    var group: map<string, string> := map[];
    for p := 0 to |messages|
      invariant |out| == p && group == GroupAt(messages, p)
      invariant forall j :: 0 <= j < p ==> out[j] == NormalizeMessage(messages[j], GroupAt(messages, j))
    {
      var m := messages[p];
      if m.Calls? && m.calls != [] { group := NamesOf(m.calls); }
      NextGroup(messages, p);
      OnlyToolRowsNeedNames(m, group, GroupAt(messages, p));
      out := out + [NormalizeMessage(m, group)];
    }
    forall p | 0 <= p < |messages|
      ensures match messages[p]
              case User(text, _) => out[p] == UserRow(text)
              case Answer(text) => out[p] == AnswerRow(text)
              case Calls(calls, preamble) => out[p] == CallsRow(calls, preamble)
              case ToolRow(id, content) => out[p].ResultRow? && out[p].id == id && out[p].content == content
    {
      RowIs(messages[p], GroupAt(messages, p));
    }
  }

  lemma {:induction false} GroupAtBelow(s: seq<Message>, p: nat, c: nat)
    requires c < p <= |s| && s[c].Calls? && s[c].calls != []
    requires forall j :: c < j < p ==> s[j].ToolRow?
    ensures GroupAt(s, p) == Names(s[c].calls)
  {
    if c < p - 1 { GroupAtBelow(s, p - 1, c); }
  }

  /** Which name an id resolves to: that of its last named call. */
  lemma {:induction false} NamesAreLast(calls: seq<Call>, i: nat)
    requires i < |calls| && calls[i].name.Some?
    requires forall j :: i < j < |calls| && calls[j].id == calls[i].id ==> calls[j].name.None?
    ensures NameIn(Names(calls), calls[i].id) == calls[i].name
  {
    var n := |calls| - 1;
    if i < n {
      assert calls[..n][i] == calls[i];
      NamesAreLast(calls[..n], i);
    }
  }

  lemma {:induction false} NoNameIff(calls: seq<Call>, id: string)
    ensures NameIn(Names(calls), id) == None
            <==> forall j :: 0 <= j < |calls| && calls[j].id == id ==> calls[j].name.None?
  {
    if calls != [] {
      var front := calls[..|calls| - 1];
      NoNameIff(front, id);
      assert forall j :: 0 <= j < |front| ==> front[j] == calls[j];
    }
  }

  /** A tool row of a stored log shows the name of its own call exactly when the last named call of its group with
      that id has the same name; for a call without a name, exactly when no call of its group with that id has one.
      Ids repeated in other groups do not matter. */
  lemma RowShowsOwnName(s: seq<Message>, p: nat, c: nat)
    requires OwnedBy(s, p, c)
    ensures var calls, i := s[c].calls, p - c - 1;
            NormalizeMessage(s[p], GroupAt(s, p)) == ResultRow(s[p].id, calls[i].name, s[p].content)
            <==> if calls[i].name.Some? then calls[LastIndex(calls, i)].name == calls[i].name
                 else forall j :: 0 <= j < |calls| && calls[j].id == calls[i].id ==> calls[j].name.None?
  {
    GroupAtBelow(s, p, c);
    var calls, i := s[c].calls, p - c - 1;
    if calls[i].name.Some? { NamesAreLast(calls, LastIndex(calls, i)); } else { NoNameIff(calls, calls[i].id); }
  }

  /** The last named call that shares the id of call `i`. */
  ghost function LastIndex(calls: seq<Call>, i: nat): (k: nat)
    requires i < |calls| && calls[i].name.Some?
    ensures i <= k < |calls| && calls[k].id == calls[i].id && calls[k].name.Some?
    ensures forall j :: k < j < |calls| && calls[j].id == calls[i].id ==> calls[j].name.None?
    decreases |calls|
  {
    var n := |calls| - 1;
    if i == n || (calls[n].id == calls[i].id && calls[n].name.Some?) then n
    else LastIndex(calls[..n], i)
  }

  ghost predicate DistinctIds(calls: seq<Call>) {
    forall i, j :: 0 <= i < j < |calls| ==> calls[i].id != calls[j].id
  }

  ghost predicate DistinctWithinGroups(s: seq<Message>) {
    forall m :: m in s && m.Calls? ==> DistinctIds(m.calls)
  }

  lemma {:induction false} FlattenKeepsDistinct(batches: seq<seq<Message>>)
    requires forall b :: b in batches ==> DistinctWithinGroups(b)
    ensures DistinctWithinGroups(Flatten(batches))
  {
    hide DistinctIds;
    if batches != [] {
      var front, last := batches[..|batches| - 1], batches[|batches| - 1];
      assert last in batches;
      FlattenKeepsDistinct(front);
      forall m | m in Flatten(batches) && m.Calls? ensures DistinctIds(m.calls) {
        assert m in Flatten(front) || m in last;
      }
    }
  }

  /** After any appends of turns and any trimming, every stored tool row still has its own call, and shows
      that call's name, even when ids repeat from group to group. */
  lemma StoredRowsShowOwnNames(batches: seq<seq<Message>>, max: nat, p: nat)
    requires forall b: seq<Message> :: b in batches && b != [] ==> b[0].User?
    requires forall b :: b in batches ==> OwnedRows(b) && DistinctWithinGroups(b)
    requires p < |Stored(batches, max)| && Stored(batches, max)[p].ToolRow?
    ensures exists c: nat :: OwnedBy(Stored(batches, max), p, c) && ShowsName(Stored(batches, max), p, c)
  {
    hide Stored, Flatten, KeepFrom, GroupAt, DistinctIds, NormalizeMessage;
    IncrementalIsBatch(batches, max);
    FlattenKeepsDistinct(batches);
    var s := Stored(batches, max);
    var c: nat :| OwnedBy(s, p, c);
    assert s[c] in Flatten(batches);
    RowShowsOwnName(s, p, c);
    DistinctHasOneIndex(s[c].calls, p - c - 1);
  }

  /** The row at `p` shows the name of the call it answers, one of the group at `c`. */
  predicate ShowsName(s: seq<Message>, p: nat, c: nat)
    requires OwnedBy(s, p, c)
  {
    NormalizeMessage(s[p], GroupAt(s, p)) == ResultRow(s[p].id, s[c].calls[p - c - 1].name, s[p].content)
  }

  lemma DistinctHasOneIndex(calls: seq<Call>, i: nat)
    requires DistinctIds(calls) && i < |calls|
    ensures calls[i].name.Some? ==> LastIndex(calls, i) == i
    ensures forall j :: 0 <= j < |calls| && calls[j].id == calls[i].id ==> j == i
  {
    forall j | 0 <= j < |calls| && j != i ensures calls[j].id != calls[i].id {
      if j < i { assert calls[j].id != calls[i].id; } else { assert calls[i].id != calls[j].id; }
    }
  }

  // ----- from the streamed turn to the transcript

  /** One streamed turn: what was asked, what the model and the tools answered, and what came of it. */
  datatype Turn = Turn(text: string, censored: bool, model: nat -> Round, tool: nat -> nat -> Option<string>,
                       groups: seq<Group>, messages: seq<Message>, events: seq<Event>, reply: string, completed: bool)

  /** What `ChatStream` can leave, with no id twice in one group. */
  ghost predicate TurnOk(t: Turn) {
    && StreamOutcome(t.text, t.censored, t.model, t.tool, t.groups, t.messages, t.events, t.reply, t.completed)
    && forall i :: 0 <= i < |t.groups| ==> DistinctIds(t.groups[i].calls)
  }

  ghost function MessagesOf(turns: seq<Turn>): (batches: seq<seq<Message>>)
    ensures |batches| == |turns| && forall i :: 0 <= i < |turns| ==> batches[i] == turns[i].messages
  {
    seq(|turns|, i requires 0 <= i < |turns| => turns[i].messages)
  }

  lemma {:induction false} GroupsKeepDistinct(groups: seq<Group>)
    requires forall i :: 0 <= i < |groups| ==> DistinctIds(groups[i].calls)
    ensures DistinctWithinGroups(TurnMessages(groups))
  {
    hide DistinctIds;
    if groups != [] {
      var front, last := groups[..|groups| - 1], groups[|groups| - 1];
      GroupsKeepDistinct(front);
      forall m | m in TurnMessages(groups) && m.Calls? ensures DistinctIds(m.calls) {
        assert m in TurnMessages(front) || m in GroupMessages(last);
      }
    }
  }

  lemma TurnLeaves(t: Turn)
    requires TurnOk(t)
    ensures t.messages == [User(t.text, t.censored)] + TurnMessages(t.groups)
                          + if t.completed then [Answer(t.reply)] else []
  {
    hide DistinctIds, TurnMessages, RoundEvents, GroupOf, Tokens, Streamed, TokenEvents, FragmentsOf;
  }

  lemma TurnMakesBatch(t: Turn)
    requires TurnOk(t)
    ensures t.messages != [] && t.messages[0].User? && OwnedRows(t.messages) && DistinctWithinGroups(t.messages)
  {
    hide DistinctIds, TurnMessages, StreamOutcome, OwnedRows;
    TurnLeaves(t);
    TurnIsStorable(t.text, t.censored, t.groups, if t.completed then Some(t.reply) else None);
    GroupsKeepDistinct(t.groups);
    forall m | m in t.messages && m.Calls? ensures DistinctIds(m.calls) { assert m in TurnMessages(t.groups); }
  }

  /** End to end: after any list of streamed turns, finished or cut short, each stored in turn and trimmed, every
      tool row in the store still follows the call it answers and is shown under that call's name. */
  lemma StreamedTurnsShowOwnNames(turns: seq<Turn>, max: nat, p: nat)
    requires forall t :: t in turns ==> TurnOk(t)
    requires var s := Stored(MessagesOf(turns), max); p < |s| && s[p].ToolRow?
    ensures var s := Stored(MessagesOf(turns), max);
            exists c: nat :: OwnedBy(s, p, c) && ShowsName(s, p, c)
  {
    hide TurnOk, Stored, ShowsName, OwnedBy, OwnedRows, DistinctWithinGroups;
    var batches := MessagesOf(turns);
    forall b: seq<Message> | b in batches ensures b != [] && b[0].User? && OwnedRows(b) && DistinctWithinGroups(b) {
      var i :| 0 <= i < |batches| && batches[i] == b;
      TurnMakesBatch(turns[i]);
    }
    StoredRowsShowOwnNames(batches, max, p);
  }
}
