/** The parrot's conversation store: appending with trimming, reading, and eviction. */
module ParrotHistory {
  import opened Subsequences
  import opened ParrotMessages

  predicate IsContent(m: Message) { m.User? || m.Answer? }

  /** How many content messages a list holds. */
  function Content(s: seq<Message>): nat {
    if s == [] then 0 else (if IsContent(s[0]) then 1 else 0) + Content(s[1..])
  }

  // ----- trimming, as a specification over the whole log

  predicate Keepable(log: seq<Message>, max: int, k: nat)
    requires k < |log|
  {
    log[k].User? && Content(log[k..]) <= max
  }

  function KeepFrom(log: seq<Message>, max: int, i: nat): (k: nat)
    requires i <= |log|
    ensures i <= k <= |log|
    ensures forall j :: i <= j < k ==> !Keepable(log, max, j)
    ensures k < |log| ==> Keepable(log, max, k)
    decreases |log| - i
  {
    if i == |log| || Keepable(log, max, i) then i else KeepFrom(log, max, i + 1)
  }

  /** The whole log when it fits; otherwise its longest suffix that starts at a user message and fits. */
  function Trimmed(log: seq<Message>, max: int): seq<Message> {
    if Content(log) <= max then log else log[KeepFrom(log, max, 0)..]
  }

  /** `Trimmed` keeps the most it can: any fitting suffix that starts at a user message is part of it. */
  lemma TrimmedIsLongest(log: seq<Message>, max: nat, j: nat)
    requires j <= |log|
    ensures Content(Trimmed(log, max)) <= max
    ensures Trimmed(log, max) == log[|log| - |Trimmed(log, max)|..]
    ensures Trimmed(log, max) == log || Trimmed(log, max) == [] || Trimmed(log, max)[0].User?
    ensures j < |log| && log[j].User? && Content(log[j..]) <= max ==> |log[j..]| <= |Trimmed(log, max)|
  {
    if Content(log) > max {
      var k := KeepFrom(log, max, 0);
      assert j < |log| && log[j].User? && Content(log[j..]) <= max ==> Keepable(log, max, j);
    }
  }

  lemma {:induction false} ContentConcat(a: seq<Message>, b: seq<Message>)
    ensures Content(a + b) == Content(a) + Content(b)
  {
    if a == [] {
      assert a + b == b;
    } else {
      assert (a + b)[1..] == a[1..] + b;
      ContentConcat(a[1..], b);
    }
  }

  lemma {:induction false} KeepFromIs(log: seq<Message>, max: int, i: nat, k: nat)
    requires i <= k <= |log|
    requires forall j :: i <= j < k ==> !Keepable(log, max, j)
    requires k < |log| ==> Keepable(log, max, k)
    ensures KeepFrom(log, max, i) == k
    decreases k - i
  {
    hide Keepable;
    if i < k { KeepFromIs(log, max, i + 1, k); }
  }

  /** Cutting a log first at `k`, where nothing before `k` can be kept, changes nothing. */
  lemma CutThenTrim(log: seq<Message>, max: int, k: nat)
    requires k <= |log| && Content(log) > max
    requires forall j :: 0 <= j < k ==> !Keepable(log, max, j)
    requires k < |log| ==> log[k].User?
    ensures Trimmed(log[k..], max) == Trimmed(log, max)
  {
    hide Content;
    var t := log[k..];
    forall j | 0 <= j < |t| ensures Keepable(t, max, j) <==> Keepable(log, max, j + k) {
      assert t[j..] == log[j + k..];
    }
    if Content(t) <= max {
      KeepFromIs(log, max, 0, k);
    } else {
      var m := KeepFrom(t, max, 0);
      forall j | 0 <= j < m + k ensures j < |log| && !Keepable(log, max, j) {
        assert j >= k ==> !Keepable(t, max, j - k);
      }
      KeepFromIs(log, max, 0, m + k);
      assert t[m..] == log[m + k..];
    }
  }

  /** Trimming what is stored and then the rest is trimming the whole log. */
  lemma TrimAfterTrim(a: seq<Message>, b: seq<Message>, max: int)
    requires b != [] ==> b[0].User?
    ensures Trimmed(Trimmed(a, max) + b, max) == Trimmed(a + b, max)
  {
    hide Content, KeepFrom;
    if Content(a) > max {
      var k := KeepFrom(a, max, 0);
      var log := a + b;
      ContentConcat(a, b);
      forall j | 0 <= j < k ensures !Keepable(log, max, j) {
        assert !Keepable(a, max, j);
        assert log[j..] == a[j..] + b;
        ContentConcat(a[j..], b);
      }
      assert log[k..] == a[k..] + b;
      CutThenTrim(log, max, k);
    }
  }

  function Flatten(batches: seq<seq<Message>>): seq<Message> {
    if batches == [] then [] else Flatten(batches[..|batches| - 1]) + batches[|batches| - 1]
  }

  /** What the store holds after appending batch after batch, trimming each time. */
  function Stored(batches: seq<seq<Message>>, max: int): seq<Message> {
    if batches == [] then []
    else Trimmed(Stored(batches[..|batches| - 1], max) + batches[|batches| - 1], max)
  }

  /** Incremental trimming equals trimming the unbounded log once, and keeps every tool row with its call. */
  lemma {:induction false} IncrementalIsBatch(batches: seq<seq<Message>>, max: nat)
    requires forall b: seq<Message> :: b in batches && b != [] ==> b[0].User?
    ensures Stored(batches, max) == Trimmed(Flatten(batches), max)
    ensures (forall b :: b in batches ==> OwnedRows(b)) ==>
            OwnedRows(Flatten(batches)) && OwnedRows(Stored(batches, max))
  {
    if batches != [] {
      var front, last := batches[..|batches| - 1], batches[|batches| - 1];
      IncrementalIsBatch(front, max);
      TrimAfterTrim(Flatten(front), last, max);
      if forall b :: b in batches ==> OwnedRows(b) {
        OwnedRowsConcat(Flatten(front), last);
        TrimKeepsOwnedRows(Flatten(batches), max);
      }
    }
  }

  lemma TrimKeepsOwnedRows(log: seq<Message>, max: int)
    requires OwnedRows(log)
    ensures OwnedRows(Trimmed(log, max))
  {
    hide OwnedRows;
    if Content(log) > max { OwnedRowsFromUser(log, KeepFrom(log, max, 0)); }
  }

  // ----- the store

  datatype Entry = Entry(messages: seq<Message>, lastAccessed: int)

  function Visible(s: seq<Message>): seq<Message> {
    if s == [] then [] else (if IsContent(s[0]) then [s[0]] else []) + Visible(s[1..])
  }

  lemma {:induction false} VisibleIsContent(s: seq<Message>)
    ensures |Visible(s)| == Content(s)
    ensures forall m :: m in Visible(s) <==> m in s && IsContent(m)
  {
    if s != [] {
      VisibleIsContent(s[1..]);
      assert s == [s[0]] + s[1..];
    }
  }

  /** `picked` are the user messages and the answers of `s`, all of them, in order, at the positions `at`. */
  ghost predicate PicksContent(s: seq<Message>, picked: seq<Message>, at: seq<nat>) {
    SubsequenceAt(s, picked, at) && forall i :: 0 <= i < |s| ==> (i in at <==> s[i].User? || s[i].Answer?)
  }

  lemma {:induction false} VisiblePicksContent(s: seq<Message>) returns (at: seq<nat>)
    ensures PicksContent(s, Visible(s), at)
  {
    hide SubsequenceAt;
    if s == [] {
      NothingPicked();
      return [];
    }
    var rest := VisiblePicksContent(s[1..]);
    at := Shifted(rest);
    if IsContent(s[0]) {
      TakesFirst(s, Visible(s[1..]), rest);
      at := [0] + at;
    } else {
      SkipsFirst(s, Visible(s[1..]), rest);
      assert Visible(s) == Visible(s[1..]);
    }
    forall i | 0 <= i < |s| ensures i in at <==> s[i].User? || s[i].Answer? {
      ShiftedMember(rest, i);
      assert i > 0 ==> s[1..][i - 1] == s[i];
    }
  }

  lemma NothingPicked()
    ensures SubsequenceAt<Message>([], [], [])
  {
  }

  /** What the limit counts: the user messages and the answers. */
  lemma {:induction false} ContentCounts(s: seq<Message>)
    ensures Content(s) == |set i | 0 <= i < |s| && (s[i].User? || s[i].Answer?)|
  {
    if s != [] {
      var n, t := |s| - 1, s[..|s| - 1];
      ContentCounts(t);
      assert s == t + [s[n]];
      ContentConcat(t, [s[n]]);
      var before := set i | 0 <= i < |t| && (t[i].User? || t[i].Answer?);
      var counted := set i | 0 <= i < |s| && (s[i].User? || s[i].Answer?);
      assert counted == before + if IsContent(s[n]) then {n} else {};
    }
  }

  type Table = map<string, Entry>

  predicate Expired(t: Table, id: string, now: int, ttl: int) {
    id in t && now - t[id].lastAccessed > ttl
  }

  /** The ids of `order` that have not expired, and those that are not in `gone`. */
  function Unexpired(order: seq<string>, t: Table, now: int, ttl: int): seq<string> {
    if order == [] then []
    else (if Expired(t, order[0], now, ttl) then [] else [order[0]]) + Unexpired(order[1..], t, now, ttl)
  }

  function Age(t: Table, id: string): int { if id in t then t[id].lastAccessed else 0 }

  function InsertByAge(id: string, s: seq<string>, t: Table): seq<string> {
    if s == [] || Age(t, id) <= Age(t, s[0]) then [id] + s else [s[0]] + InsertByAge(id, s[1..], t)
  }

  /** Stable sort by last access, oldest first. */
  function SortByAge(s: seq<string>, t: Table): seq<string> {
    if s == [] then [] else InsertByAge(s[0], SortByAge(s[1..], t), t)
  }

  ghost predicate ByAge(s: seq<string>, t: Table) {
    forall i, j :: 0 <= i < j < |s| ==> Age(t, s[i]) <= Age(t, s[j])
  }

  ghost predicate Distinct(s: seq<string>) {
    forall i, j :: 0 <= i < j < |s| ==> s[i] != s[j]
  }

  ghost function Ids(s: seq<string>): set<string> { set id | id in s }

  lemma {:induction false} InsertByAgeKeeps(id: string, s: seq<string>, t: Table)
    ensures multiset(InsertByAge(id, s, t)) == multiset(s) + multiset{id}
  {
    hide Age;
    if s != [] {
      assert s == [s[0]] + s[1..];
      InsertByAgeKeeps(id, s[1..], t);
    }
  }

  lemma {:induction false} InsertByAgeSorts(id: string, s: seq<string>, t: Table)
    requires ByAge(s, t)
    ensures ByAge(InsertByAge(id, s, t), t)
  {
    hide Age;
    if s != [] && Age(t, id) > Age(t, s[0]) {
      var rest := InsertByAge(id, s[1..], t);
      InsertByAgeSorts(id, s[1..], t);
      InsertByAgeKeeps(id, s[1..], t);
      forall k | 0 <= k < |rest| ensures Age(t, s[0]) <= Age(t, rest[k]) {
        assert rest[k] in multiset(rest);
        assert rest[k] == id || rest[k] in s[1..];
      }
      OldestInFront(s[0], rest, t);
    }
  }

  lemma OldestInFront(id: string, rest: seq<string>, t: Table)
    requires ByAge(rest, t) && forall k :: 0 <= k < |rest| ==> Age(t, id) <= Age(t, rest[k])
    ensures ByAge([id] + rest, t)
  {
    hide Age;
  }

  lemma {:induction false} SortByAgeSorts(s: seq<string>, t: Table)
    ensures ByAge(SortByAge(s, t), t) && multiset(SortByAge(s, t)) == multiset(s)
  {
    hide ByAge;
    if s == [] {
      SortedIfEmpty(t);
    } else {
      SortByAgeSorts(s[1..], t);
      InsertByAgeSorts(s[0], SortByAge(s[1..], t), t);
      InsertByAgeKeeps(s[0], SortByAge(s[1..], t), t);
      assert s == [s[0]] + s[1..];
    }
  }

  lemma SortedIfEmpty(t: Table)
    ensures ByAge([], t)
  {
  }

  lemma {:induction false} DistinctCount(s: seq<string>)
    ensures Distinct(s) <==> |Ids(s)| == |s|
    ensures |Ids(s)| <= |s|
  {
    if s != [] {
      var rest := s[1..];
      DistinctCount(rest);
      assert Ids(s) == Ids(rest) + {s[0]};
      if s[0] in rest {
        assert Ids(s) == Ids(rest);
        var j :| 0 <= j < |rest| && rest[j] == s[0];
        assert s[0] == s[j + 1];
      } else {
        assert Distinct(s) <==> Distinct(rest) by {
          if Distinct(s) {
            forall i, j | 0 <= i < j < |rest| ensures rest[i] != rest[j] { assert s[i + 1] != s[j + 1]; }
          }
        }
      }
    }
  }

  lemma SamePeopleStayDistinct(a: seq<string>, b: seq<string>)
    requires Distinct(a) && multiset(a) == multiset(b)
    ensures Distinct(b) && Ids(a) == Ids(b) && |a| == |b|
  {
    assert |multiset(a)| == |a| && |multiset(b)| == |b|;
    forall id ensures id in a <==> id in b { assert id in multiset(a) <==> id in multiset(b); }
    assert Ids(a) == Ids(b);
    DistinctCount(a);
    DistinctCount(b);
  }

  lemma SuffixDistinct(s: seq<string>, n: nat)
    requires Distinct(s) && n <= |s|
    ensures Distinct(s[n..])
  {
  }

  lemma OldestFirst(s: seq<string>, n: nat, t: Table, gone: string, kept: string)
    requires ByAge(s, t) && n <= |s| && gone in s && gone !in s[n..] && kept in s[n..]
    ensures Age(t, gone) <= Age(t, kept)
  {
    hide Age;
    var i :| 0 <= i < |s| && s[i] == gone;
    var j :| 0 <= j < |s[n..]| && s[n..][j] == kept;
    forall k | n <= k < |s| ensures s[k] in s[n..] { assert s[n..][k - n] == s[k]; }
    assert i < n;
    assert s[n + j] == kept;
  }

  lemma {:induction false} UnexpiredIds(order: seq<string>, t: Table, now: int, ttl: int)
    requires Distinct(order)
    ensures var r := Unexpired(order, t, now, ttl);
            Distinct(r) && forall id :: id in r <==> id in order && !Expired(t, id, now, ttl)
  {
    hide Expired;
    if order != [] {
      UnexpiredIds(order[1..], t, now, ttl);
      var rest := Unexpired(order[1..], t, now, ttl);
      forall k | 0 <= k < |rest| ensures rest[k] != order[0] { assert rest[k] in rest; }
    }
  }

  class ConversationStore {
    const maxMessages: nat
    const ttl: int
    const maxConversations: nat
    var conversations: Table
    /** The guest ids in insertion order. */
    var order: seq<string>

    ghost predicate Valid()
      reads this
    {
      Distinct(order) && Ids(order) == conversations.Keys
    }

    constructor (maxMessages: nat, ttl: int, maxConversations: nat)
      ensures Valid() && conversations == map[]
      ensures this.maxMessages == maxMessages && this.ttl == ttl && this.maxConversations == maxConversations
    {
      this.maxMessages, this.ttl, this.maxConversations := maxMessages, ttl, maxConversations;
      conversations, order := map[], [];
    }

    method GetMessages(guestId: string, now: int) returns (messages: seq<Message>)
      requires Valid()
      modifies this`conversations
      ensures Valid()
      ensures guestId !in old(conversations) ==> messages == [] && conversations == old(conversations)
      ensures guestId in old(conversations) ==>
                && messages == old(conversations)[guestId].messages
                && conversations == old(conversations)[guestId := Entry(messages, now)]
    {
      if guestId !in conversations { return []; }
      messages := conversations[guestId].messages;
      conversations := conversations[guestId := Entry(messages, now)];
    }

    method Append(guestId: string, messages: seq<Message>, now: int)
      requires Valid()
      modifies this`conversations, this`order
      ensures Valid()
      ensures var before := if guestId in old(conversations) then old(conversations)[guestId].messages else [];
              conversations == old(conversations)[guestId := Entry(Trimmed(before + messages, maxMessages), now)]
    {
      var stored := [];
      if guestId in conversations {
        stored := conversations[guestId].messages;
      } else {
        order := order + [guestId];
      }
      stored := Trim(stored + messages);
      conversations := conversations[guestId := Entry(stored, now)];
    }

    method GetVisible(guestId: string) returns (messages: seq<Message>)
      ensures guestId !in conversations ==> messages == []
      ensures guestId in conversations ==>
                && |messages| == Content(conversations[guestId].messages)
                && exists at :: PicksContent(conversations[guestId].messages, messages, at)
    {
      if guestId !in conversations { return []; }
      messages := Visible(conversations[guestId].messages);
      VisibleIsContent(conversations[guestId].messages);
      ghost var at := VisiblePicksContent(conversations[guestId].messages);
    }

    /** Forgets every conversation that is not listed. */
    method KeepOnly(ids: seq<string>)
      requires Distinct(ids) && Ids(ids) <= conversations.Keys
      modifies this`conversations, this`order
      ensures Valid() && order == ids && |conversations| == |ids|
      ensures forall id :: id in conversations <==> id in ids
      ensures forall id :: id in conversations ==>
              id in old(conversations) && conversations[id] == old(conversations)[id]
    {
      order := ids;
      forall id | id in ids ensures id in conversations { assert id in Ids(ids); }
      conversations := map id | id in ids :: conversations[id];
      assert Ids(order) == conversations.Keys;
      DistinctCount(order);
      assert |conversations| == |conversations.Keys|;
    }

    method DropExpired(now: int)
      requires Valid()
      modifies this`conversations, this`order
      ensures Valid()
      ensures forall id ::
                id in conversations <==>
                id in old(conversations) && now - old(conversations)[id].lastAccessed <= ttl
      ensures forall id :: id in conversations ==> conversations[id] == old(conversations)[id]
    {
      hide Unexpired, Distinct;
      UnexpiredIds(order, conversations, now, ttl);
      forall id ensures id in order <==> id in conversations { assert id in order <==> id in Ids(order); }
      KeepOnly(Unexpired(order, conversations, now, ttl));
    }

    method EvictOldest()
      requires Valid()
      modifies this`conversations, this`order
      ensures Valid() && |conversations| <= maxConversations
      ensures forall id :: id in conversations ==>
              id in old(conversations) && conversations[id] == old(conversations)[id]
      ensures forall id :: id in old(conversations) && id !in conversations ==>
                && |conversations| == maxConversations
                && forall kept :: kept in conversations ==>
                    old(conversations)[id].lastAccessed <= conversations[kept].lastAccessed
    {
      hide SortByAge, ByAge, Distinct;
      forall id ensures id in order <==> id in conversations { assert id in order <==> id in Ids(order); }
      DistinctCount(order);
      assert |conversations| == |conversations.Keys|;
      if |conversations| > maxConversations {
        var byAge := SortByAge(order, conversations);
        SortByAgeSorts(order, conversations);
        SamePeopleStayDistinct(order, byAge);
        var n := |byAge| - maxConversations;
        ghost var before := conversations;
        SuffixDistinct(byAge, n);
        assert Ids(byAge[n..]) <= conversations.Keys;
        KeepOnly(byAge[n..]);
        forall id, kept | id in before && id !in conversations && kept in conversations
          ensures before[id].lastAccessed <= conversations[kept].lastAccessed
        {
          assert id in Ids(byAge);
          OldestFirst(byAge, n, before, id, kept);
        }
      }
    }

    /** Drops conversations idle for longer than the ttl, then the least recently used beyond the capacity. */
    method Cleanup(now: int)
      requires Valid()
      modifies this`conversations, this`order
      ensures Valid() && |conversations| <= maxConversations
      ensures forall id :: id in conversations ==>
                && id in old(conversations) && conversations[id] == old(conversations)[id]
                && now - old(conversations)[id].lastAccessed <= ttl
      ensures forall id ::
                id in old(conversations) && id !in conversations && now - old(conversations)[id].lastAccessed <= ttl ==>
                && |conversations| == maxConversations
                && forall kept :: kept in conversations ==>
                    old(conversations)[id].lastAccessed <= conversations[kept].lastAccessed
    {
      DropExpired(now);
      EvictOldest();
    }

    /** Drops turns from the front until the content count fits. */
    method Trim(log: seq<Message>) returns (msgs: seq<Message>)
      ensures msgs == Trimmed(log, maxMessages)
    {
      msgs := log;
      var count := Content(log);
      ghost var p := 0;
      while count > maxMessages && msgs != []
        invariant p <= |log| && msgs == log[p..] && count == Content(msgs)
        invariant forall j :: 0 <= j < p ==> !Keepable(log, maxMessages, j)
        invariant 0 < p < |log| ==> log[p].User?
        invariant p > 0 ==> Content(log) > maxMessages
        decreases |msgs|
      {
        ghost var start := p;
        if msgs[0].User? {
          msgs := msgs[1..];
          count := count - 1;
          p := p + 1;
        }
        while msgs != [] && !msgs[0].User?
          invariant start <= p <= |log| && msgs == log[p..] && count == Content(msgs)
          invariant forall j :: 0 <= j < p ==> !Keepable(log, maxMessages, j)
          invariant p == start ==> start < |log| && !log[start].User?
          decreases |msgs|
        {
          if msgs[0].Answer? { count := count - 1; }
          msgs := msgs[1..];
          p := p + 1;
        }
      }
      assert log[0..] == log;
      if p > 0 {
        KeepFromIs(log, maxMessages, 0, p);
      }
    }
  }
}
