/** What a frame carries: the event's fields on the wire, and the frame of a block in terms of its lines. */
module BroadcastFrames {
  import opened Wrappers
  import opened Subsequences
  import opened BroadcastJson
  import opened BroadcastSse
  import opened BroadcastBus

  // ----- the fields of an event

  /** The value of the first member of that name. */
  function Field(members: seq<Member>, name: string): Option<Json> {
    if members == [] then None
    else if members[0].name == name then Some(members[0].value) else Field(members[1..], name)
  }

  lemma FieldFirst(m: Member, rest: seq<Member>, name: string)
    ensures Field([m] + rest, name) == if m.name == name then Some(m.value) else Field(rest, name)
  {
    assert ([m] + rest)[1..] == rest;
  }

  lemma {:induction false} FieldBehind(a: seq<Member>, b: seq<Member>, name: string)
    requires forall m :: m in a ==> m.name != name
    ensures Field(a + b, name) == Field(b, name)
  {
    if a == [] {
      assert a + b == b;
    } else {
      assert a + b == [a[0]] + (a[1..] + b);
      FieldFirst(a[0], a[1..] + b, name);
      FieldBehind(a[1..], b, name);
    }
  }

  function OptionalField(field: Option<string>): Option<Json> {
    if field.None? then None else Some(Text(field.value))
  }

  /** Which member of the JSON carries which field of the event; a field that is absent has no member. */
  lemma FieldsOfEvent(e: IslandEvent)
    ensures AsJson(e).Object?
    ensures var members := AsJson(e).members;
            && Field(members, "id") == Some(Text(e.id)) && Field(members, "channel") == Some(Text(e.channel))
            && Field(members, "event_type") == Some(Text(e.eventType))
            && Field(members, "message") == Some(Text(e.message)) && Field(members, "sender") == Some(Text(e.sender))
            && Field(members, "guest_id") == OptionalField(e.guestId)
            && Field(members, "guest_name") == OptionalField(e.guestName)
            && Field(members, "data") == e.data
  {
    hide OptionalText, OptionalData, Field;
    FixedFields(e, OptionalText("guest_id", e.guestId)
                   + (OptionalText("guest_name", e.guestName) + OptionalData(e.data)));
    OptionalFields(e);
  }

  lemma FixedFields(e: IslandEvent, rest: seq<Member>)
    ensures var members := Always(e) + rest;
            && Field(members, "id") == Some(Text(e.id)) && Field(members, "channel") == Some(Text(e.channel))
            && Field(members, "event_type") == Some(Text(e.eventType))
            && Field(members, "message") == Some(Text(e.message)) && Field(members, "sender") == Some(Text(e.sender))
            && Field(members, "guest_id") == Field(rest, "guest_id")
            && Field(members, "guest_name") == Field(rest, "guest_name")
            && Field(members, "data") == Field(rest, "data")
  {
    hide Field;
    WordsDiffer();
    var a, b := Member("id", Text(e.id)), Member("channel", Text(e.channel));
    var c, d := Member("event_type", Text(e.eventType)), Member("message", Text(e.message));
    var f := Member("sender", Text(e.sender));
    var after4 := [f] + rest;
    var after3 := [d] + after4;
    var after2 := [c] + after3;
    var after1 := [b] + after2;
    assert Always(e) + rest == [a] + after1;
    forall name: string
      ensures Field(Always(e) + rest, name)
              == if name == "id" then Some(a.value) else if name == "channel" then Some(b.value)
                 else if name == "event_type" then Some(c.value) else if name == "message" then Some(d.value)
                 else if name == "sender" then Some(f.value) else Field(rest, name)
    {
      FieldFirst(a, after1, name);
      FieldFirst(b, after2, name);
      FieldFirst(c, after3, name);
      FieldFirst(d, after4, name);
      FieldFirst(f, rest, name);
    }
  }

  lemma WordsDiffer()
    ensures "id" != "channel" && "id" != "event_type" && "id" != "message" && "id" != "sender"
    ensures "channel" != "event_type" && "channel" != "message" && "channel" != "sender"
    ensures "event_type" != "message" && "event_type" != "sender" && "message" != "sender"
    ensures "guest_id" !in ["id", "channel", "event_type", "message", "sender"]
    ensures "guest_name" !in ["id", "channel", "event_type", "message", "sender"]
    ensures "data" !in ["id", "channel", "event_type", "message", "sender"]
    ensures "guest_id" != "guest_name" && "guest_id" != "data" && "guest_name" != "data"
  {
    assert |"id"| == 2 && |"channel"| == 7 && |"event_type"| == 10 && |"message"| == 7 && |"sender"| == 6;
    assert |"guest_id"| == 8 && |"guest_name"| == 10 && |"data"| == 4;
    assert "channel"[0] == 'c' && "message"[0] == 'm' && "event_type"[0] == 'e' && "guest_name"[0] == 'g';
  }

  lemma OptionalFields(e: IslandEvent)
    ensures var rest := OptionalText("guest_id", e.guestId)
                        + (OptionalText("guest_name", e.guestName) + OptionalData(e.data));
            && Field(rest, "guest_id") == OptionalField(e.guestId)
            && Field(rest, "guest_name") == OptionalField(e.guestName)
            && Field(rest, "data") == e.data
  {
    hide Field;
    WordsDiffer();
    var i, n, d := OptionalText("guest_id", e.guestId), OptionalText("guest_name", e.guestName), OptionalData(e.data);
    DataField(e.data);
    forall name: string
      ensures Field(i + (n + d), name)
              == if name == "guest_id" && e.guestId.Some? then OptionalField(e.guestId)
                 else if name == "guest_name" && e.guestName.Some? then OptionalField(e.guestName)
                 else if name == "data" then e.data else None
    {
      OptionalInFront("guest_id", e.guestId, n + d, name);
      OptionalInFront("guest_name", e.guestName, d, name);
    }
  }

  lemma OptionalInFront(own: string, field: Option<string>, rest: seq<Member>, name: string)
    ensures Field(OptionalText(own, field) + rest, name)
            == if name == own && field.Some? then OptionalField(field) else Field(rest, name)
  {
    hide Field;
    if field.Some? {
      FieldFirst(Member(own, Text(field.value)), rest, name);
    } else {
      assert OptionalText(own, field) + rest == rest;
    }
  }

  lemma DataField(data: Option<Json>)
    ensures forall name :: Field(OptionalData(data), name) == if name == "data" then data else None
  {
  }

  // ----- the text of a value

  function CommaJoined(parts: seq<string>): string {
    if parts == [] then "" else if |parts| == 1 then parts[0] else parts[0] + "," + CommaJoined(parts[1..])
  }

  function Printed(items: seq<Json>): (texts: seq<string>)
    ensures |texts| == |items| && forall i :: 0 <= i < |items| ==> texts[i] == Print(items[i])
  {
    seq(|items|, i requires 0 <= i < |items| => Print(items[i]))
  }

  function PrintedMembers(members: seq<Member>): (texts: seq<string>)
    ensures |texts| == |members|
    ensures forall i :: 0 <= i < |members| ==>
              texts[i] == "\"" + Escape(members[i].name) + "\":" + Print(members[i].value)
  {
    seq(|members|, i requires 0 <= i < |members| =>
      "\"" + Escape(members[i].name) + "\":" + Print(members[i].value))
  }

  lemma {:induction false} ItemsAreJoined(items: seq<Json>)
    ensures PrintItems(items) == CommaJoined(Printed(items))
  {
    hide Print;
    if items != [] {
      ItemsAreJoined(items[1..]);
      assert Printed(items)[1..] == Printed(items[1..]);
      if |items| == 1 { assert PrintItems(items) == Print(items[0]) + "" + ""; }
    }
  }

  lemma {:induction false} MembersAreJoined(members: seq<Member>)
    ensures PrintMembers(members) == CommaJoined(PrintedMembers(members))
  {
    hide Print, Escape;
    if members != [] {
      MembersAreJoined(members[1..]);
      assert PrintedMembers(members)[1..] == PrintedMembers(members[1..]);
      var text := Quote(members[0].name) + ":" + Print(members[0].value);
      assert text == PrintedMembers(members)[0];
      if |members| == 1 { assert PrintMembers(members) == text + "" + ""; }
    }
  }

  /** The text of every kind of value. */
  lemma PrintIs(j: Json)
    ensures match j
            case Null => Print(j) == "null"
            case Bool(b) => Print(j) == if b then "true" else "false"
            case Number(digits) => Print(j) == digits
            case Text(s) => Print(j) == "\"" + Escape(s) + "\""
            case Array(items) => Print(j) == "[" + CommaJoined(Printed(items)) + "]"
            case Object(members) => Print(j) == "{" + CommaJoined(PrintedMembers(members)) + "}"
  {
    match j
    case Array(items) => ItemsAreJoined(items);
    case Object(members) => MembersAreJoined(members);
    case _ =>
  }

  const HEX_DIGITS := "0123456789abcdef"

  /** What each character of a string is printed as. */
  lemma EscapeIs(s: string, c: char)
    ensures Escape(s + [c]) == Escape(s) + EscapeChar(c)
    ensures c in "\"\\" ==> EscapeChar(c) == ['\\', c]
    ensures c >= ' ' && c !in "\"\\" ==> EscapeChar(c) == [c]
    ensures c < ' ' ==>
              EscapeChar(c) == if c == '\n' then "\\n" else if c == '\r' then "\\r" else if c == '\t' then "\\t"
                               else if c as int == 8 then "\\b" else if c as int == 12 then "\\f"
                               else "\\u00" + [HEX_DIGITS[c as int / 16], HEX_DIGITS[c as int % 16]]
  {
    EscapeConcat(s, c);
    if c < ' ' {
      HexDigitIs(c as int / 16);
      HexDigitIs(c as int % 16);
    }
  }

  lemma {:induction false} EscapeConcat(s: string, c: char)
    ensures Escape(s + [c]) == Escape(s) + EscapeChar(c)
  {
    hide EscapeChar;
    if s == "" {
      assert s + [c] == [c] && Escape([c]) == EscapeChar(c) + "";
    } else {
      assert (s + [c])[1..] == s[1..] + [c];
      EscapeConcat(s[1..], c);
    }
  }

  lemma HexDigitIs(n: nat)
    requires n < 16
    ensures HexDigit(n) == HEX_DIGITS[n]
  {
  }

  // ----- the frame of a block

  /** `t` is `s` without the white space at its ends. */
  ghost predicate TrimmedTo(s: string, t: string, i: nat, j: nat) {
    && i <= j <= |s| && t == s[i..j]
    && (forall k :: 0 <= k < i || j <= k < |s| ==> IsSpace(s[k]))
    && (i < j ==> !IsSpace(s[i]) && !IsSpace(s[j - 1]))
  }

  lemma {:induction false} TrimStartAt(s: string) returns (i: nat)
    ensures i <= |s| && TrimStart(s) == s[i..] && (forall k :: 0 <= k < i ==> IsSpace(s[k]))
    ensures i < |s| ==> !IsSpace(s[i])
  {
    hide IsSpace;
    i := 0;
    if s != "" && IsSpace(s[0]) {
      i := TrimStartAt(s[1..]);
      i := i + 1;
    }
  }

  lemma {:induction false} TrimEndAt(s: string) returns (j: nat)
    ensures j <= |s| && TrimEnd(s) == s[..j] && (forall k :: j <= k < |s| ==> IsSpace(s[k]))
    ensures j > 0 ==> !IsSpace(s[j - 1])
  {
    hide IsSpace;
    j := |s|;
    if s != "" && IsSpace(s[|s| - 1]) {
      var t := s[..|s| - 1];
      j := TrimEndAt(t);
      forall k | j <= k < |s| ensures IsSpace(s[k]) { assert k < |t| ==> t[k] == s[k]; }
    }
  }

  lemma TrimIs(s: string)
    ensures exists i, j :: TrimmedTo(s, Trim(s), i, j)
  {
    hide IsSpace, TrimStart, TrimEnd;
    var i := TrimStartAt(s);
    var t := s[i..];
    var j := TrimEndAt(t);
    assert t[..j] == s[i..i + j];
    forall k | i + j <= k < |s| ensures IsSpace(s[k]) { assert t[k - i] == s[k]; }
    assert j > 0 ==> t[j - 1] == s[i + j - 1] && t[0] == s[i];
    assert TrimmedTo(s, Trim(s), i, i + j);
  }

  lemma {:induction false} LinesOfJoined(lines: seq<string>)
    requires lines != [] && forall i :: 0 <= i < |lines| ==> '\n' !in lines[i]
    ensures Lines(JoinLines(lines)) == lines
  {
    if |lines| == 1 {
      OneLine(lines[0]);
    } else {
      LinesOfJoined(lines[1..]);
      BreakAfter(lines[0], JoinLines(lines[1..]));
      assert lines == [lines[0]] + lines[1..];
    }
  }

  lemma {:induction false} BreakAfter(line: string, rest: string)
    requires '\n' !in line
    ensures Lines(line + "\n" + rest) == [line] + Lines(rest)
  {
    var s := line + "\n" + rest;
    if line == "" {
      assert s[0] == '\n' && s[1..] == rest;
    } else {
      assert s[0] == line[0] && s[1..] == line[1..] + "\n" + rest;
      BreakAfter(line[1..], rest);
      assert [line[0]] + line[1..] == line;
    }
  }

  lemma PrefixesDiffer(line: string)
    ensures "data:" <= line ==> !HasPrefix(line, ":") && !HasPrefix(line, "event:")
    ensures "event:" <= line ==> !HasPrefix(line, ":")
  {
    assert "data:"[0] == 'd' && "event:"[0] == 'e' && ":"[0] == ':';
  }

  lemma {:induction false} DataFieldsAt(lines: seq<string>) returns (at: seq<nat>)
    ensures Positions(at, |lines|) && |DataFields(lines)| == |at|
    ensures forall i :: 0 <= i < |lines| ==> (i in at <==> "data:" <= lines[i])
    ensures forall k :: 0 <= k < |at| ==>
              "data:" <= lines[at[k]] && DataFields(lines)[k] == Trim(lines[at[k]][5..])
  {
    hide Trim;
    at := [];
    if lines != [] {
      var n := |lines| - 1;
      at := DataFieldsAt(lines[..n]);
      PrefixesDiffer(lines[n]);
      forall i | 0 <= i < n ensures i in at <==> "data:" <= lines[i] { assert lines[..n][i] == lines[i]; }
      if "data:" <= lines[n] { at := at + [n]; }
    }
  }

  lemma {:induction false} EventFieldIs(lines: seq<string>)
    ensures EventField(lines) == None <==> forall i :: 0 <= i < |lines| ==> !("event:" <= lines[i])
    ensures forall k :: 0 <= k < |lines| && "event:" <= lines[k]
                        && (forall i :: k < i < |lines| ==> !("event:" <= lines[i])) ==>
              EventField(lines) == Some(Trim(lines[k][6..]))
  {
    hide Trim;
    if lines != [] {
      var n := |lines| - 1;
      EventFieldIs(lines[..n]);
      PrefixesDiffer(lines[n]);
      forall i | 0 <= i < n ensures lines[..n][i] == lines[i] {}
    }
  }

  /** The frame of a block, from its lines: none without a data line; otherwise the texts of all data lines, trimmed and
      put under one another, read as JSON if they are, under the name of the last event line. */
  lemma BlockIs(lines: seq<string>)
    requires lines != [] && forall i :: 0 <= i < |lines| ==> '\n' !in lines[i]
    ensures (forall i :: 0 <= i < |lines| ==> !("data:" <= lines[i])) ==> ParseBlock(JoinLines(lines)) == []
    ensures (exists i :: 0 <= i < |lines| && "data:" <= lines[i]) ==>
              exists texts, at ::
                && DataTexts(lines, texts, at)
                && ParseBlock(JoinLines(lines)) == [Frame(EventField(lines), Decoded(JoinLines(texts)))]
  {
    hide Decoded, Lines, JoinLines, EventField, DataFields, Trim;
    LinesOfJoined(lines);
    var at := DataFieldsAt(lines);
    if at == [] {
      forall i | 0 <= i < |lines| ensures !("data:" <= lines[i]) { assert i !in at; }
    } else {
      assert "data:" <= lines[at[0]];
      assert DataTexts(lines, DataFields(lines), at);
    }
  }

  /** `texts` are the trimmed texts of the data lines, which stand at `at`. */
  ghost predicate DataTexts(lines: seq<string>, texts: seq<string>, at: seq<nat>) {
    && Positions(at, |lines|) && |texts| == |at|
    && (forall i :: 0 <= i < |lines| ==> (i in at <==> "data:" <= lines[i]))
    && forall k :: 0 <= k < |at| ==> "data:" <= lines[at[k]] && texts[k] == Trim(lines[at[k]][5..])
  }
}
