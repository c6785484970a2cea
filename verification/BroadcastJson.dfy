/** JSON as the bus prints it and as a reader parses it. */
module BroadcastJson {
  import opened Wrappers

  /** A JSON value. A number is kept as its decimal form; the members of an object are in its own order. */
  datatype Json =
    | Null | Bool(b: bool) | Number(digits: string) | Text(s: string) | Array(items: seq<Json>)
    | Object(members: seq<Member>)
  datatype Member = Member(name: string, value: Json)

  // ----- printing

  function HexDigit(n: nat): char
    requires n < 16
  {
    if n < 10 then ('0' as int + n) as char else ('a' as int + n - 10) as char
  }

  /** A character inside a JSON string: quotes, backslashes and control characters are escaped. */
  function EscapeChar(c: char): string {
    if c == '\"' then "\\\"" else if c == '\\' then "\\\\"
    else if c == '\n' then "\\n" else if c == '\r' then "\\r" else if c == '\t' then "\\t"
    else if c == '\U{08}' then "\\b" else if c == '\U{0C}' then "\\f"
    else if c < ' ' then "\\u00" + [HexDigit(c as int / 16), HexDigit(c as int % 16)]
    else [c]
  }

  function Escape(s: string): string {
    if s == "" then "" else EscapeChar(s[0]) + Escape(s[1..])
  }

  function Quote(s: string): string { "\"" + Escape(s) + "\"" }

  function PrintItems(items: seq<Json>): string {
    if items == [] then ""
    else Print(items[0]) + (if |items| > 1 then "," else "") + PrintItems(items[1..])
  }

  function PrintMembers(members: seq<Member>): string {
    if members == [] then ""
    else
      Quote(members[0].name) + ":" + Print(members[0].value) + (if |members| > 1 then "," else "")
      + PrintMembers(members[1..])
  }

  function Print(j: Json): string {
    match j
    case Null => "null"
    case Bool(b) => if b then "true" else "false"
    case Number(digits) => digits
    case Text(s) => Quote(s)
    case Array(items) => "[" + PrintItems(items) + "]"
    case Object(members) => "{" + PrintMembers(members) + "}"
  }

  // ----- parsing

  datatype Parsed<+T> = Fail | Got(value: T, rest: string)

  predicate IsDigit(c: char) { '0' <= c <= '9' }

  /** What is left behind leading white space. */
  function Skip(s: string): (r: string)
    ensures |r| <= |s|
    ensures r != "" ==> r[0] != ' ' && r[0] != '\t' && r[0] != '\n' && r[0] != '\r'
  {
    if s != "" && (s[0] == ' ' || s[0] == '\t' || s[0] == '\n' || s[0] == '\r') then Skip(s[1..]) else s
  }

  function DigitsEnd(s: string, i: nat): (e: nat)
    requires i <= |s|
    ensures i <= e <= |s|
    ensures forall k :: i <= k < e ==> IsDigit(s[k])
    ensures e < |s| ==> !IsDigit(s[e])
    decreases |s| - i
  {
    if i < |s| && IsDigit(s[i]) then DigitsEnd(s, i + 1) else i
  }

  function IntegerEnd(s: string): (e: Option<nat>)
    ensures e.Some? ==> 0 < e.value <= |s|
  {
    var i := if s != "" && s[0] == '-' then 1 else 0;
    if i == |s| || !IsDigit(s[i]) then None
    else if s[i] == '0' then Some(i + 1) else Some(DigitsEnd(s, i))
  }

  function FractionEnd(s: string, i: nat): (e: Option<nat>)
    requires i <= |s|
    ensures e.Some? ==> i <= e.value <= |s|
  {
    if i == |s| || s[i] != '.' then Some(i)
    else
      var e := DigitsEnd(s, i + 1);
      if e == i + 1 then None else Some(e)
  }

  function ExponentEnd(s: string, i: nat): (e: Option<nat>)
    requires i <= |s|
    ensures e.Some? ==> i <= e.value <= |s|
  {
    if i == |s| || (s[i] != 'e' && s[i] != 'E') then Some(i)
    else
      var p := if i + 1 < |s| && (s[i + 1] == '+' || s[i + 1] == '-') then i + 2 else i + 1;
      var e := DigitsEnd(s, p);
      if e == p then None else Some(e)
  }

  /** Where the number at the start of `s` ends, if there is one. */
  function NumberEnd(s: string): (e: Option<nat>)
    ensures e.Some? ==> 0 < e.value <= |s|
  {
    var i := IntegerEnd(s);
    if i.None? then None
    else
      var f := FractionEnd(s, i.value);
      if f.None? then None else ExponentEnd(s, f.value)
  }

  function HexValue(c: char): Option<nat> {
    if IsDigit(c) then Some(c as int - '0' as int)
    else if 'a' <= c <= 'f' then Some(c as int - 'a' as int + 10)
    else if 'A' <= c <= 'F' then Some(c as int - 'A' as int + 10)
    else None
  }

  /** The code unit written by the four hexadecimal digits at `i`. */
  function HexUnit(s: string, i: nat): (unit: Option<nat>)
    ensures unit.Some? ==> unit.value < 0x10000 && i + 4 <= |s|
  {
    if i + 4 > |s| then None
    else
      var p, q, r, t := HexValue(s[i]), HexValue(s[i + 1]), HexValue(s[i + 2]), HexValue(s[i + 3]);
      if p.None? || q.None? || r.None? || t.None? then None
      else Some(4096 * p.value + 256 * q.value + 16 * r.value + t.value)
  }

  predicate IsHigh(unit: Option<nat>) { unit.Some? && 0xD800 <= unit.value < 0xDC00 }
  predicate IsLow(unit: Option<nat>) { unit.Some? && 0xDC00 <= unit.value < 0xE000 }

  /** The character of a numeric escape, behind its `u`: one code unit, or a pair of surrogates as two escapes. */
  function UnescapeUnit(s: string): (r: Parsed<char>)
    ensures r.Got? ==> |r.rest| < |s|
  {
    var unit := HexUnit(s, 0);
    if unit.None? || IsLow(unit) then Fail
    else if !IsHigh(unit) then Got(unit.value as char, s[4..])
    else if |s| >= 6 && s[4] == '\\' && s[5] == 'u' && IsLow(HexUnit(s, 6)) then
      Got((0x10000 + 0x400 * (unit.value - 0xD800) + (HexUnit(s, 6).value - 0xDC00)) as char, s[10..])
    else Fail
  }

  /** The character an escape stands for, behind its backslash. */
  function Unescape(s: string): (r: Parsed<char>)
    ensures r.Got? ==> |r.rest| < |s|
  {
    if s == "" then Fail
    else if s[0] == '\"' then Got('\"', s[1..])
    else if s[0] == '\\' then Got('\\', s[1..])
    else if s[0] == '/' then Got('/', s[1..])
    else if s[0] == 'b' then Got('\U{08}', s[1..])
    else if s[0] == 'f' then Got('\U{0C}', s[1..])
    else if s[0] == 'n' then Got('\n', s[1..])
    else if s[0] == 'r' then Got('\r', s[1..])
    else if s[0] == 't' then Got('\t', s[1..])
    else if s[0] == 'u' then UnescapeUnit(s[1..])
    else Fail
  }

  /** A string, behind its opening quote. */
  function ParseString(s: string): (r: Parsed<string>)
    ensures r.Got? ==> |r.rest| < |s|
    decreases |s|
  {
    if s == "" || s[0] < ' ' then Fail
    else if s[0] == '\"' then Got("", s[1..])
    else
      var first := if s[0] == '\\' then Unescape(s[1..]) else Got(s[0], s[1..]);
      if first.Fail? then Fail else Prepended(first.value, ParseString(first.rest))
  }

  function Prepended(c: char, r: Parsed<string>): Parsed<string> {
    if r.Fail? then Fail else Got([c] + r.value, r.rest)
  }

  /** A value, behind any white space. */
  function ParseValue(s: string): (r: Parsed<Json>)
    ensures r.Got? ==> |r.rest| < |s|
    decreases |s|, 0
  {
    var t := Skip(s);
    if t == "" then Fail
    else if "null" <= t then Got(Null, t[4..])
    else if "true" <= t then Got(Bool(true), t[4..])
    else if "false" <= t then Got(Bool(false), t[5..])
    else if t[0] == '\"' then
      match ParseString(t[1..])
      case Fail => Fail
      case Got(text, rest) => Got(Text(text), rest)
    else if t[0] == '[' then
      if Skip(t[1..]) != "" && Skip(t[1..])[0] == ']' then Got(Array([]), Skip(t[1..])[1..])
      else
        match ParseItems(t[1..])
        case Fail => Fail
        case Got(items, rest) => Got(Array(items), rest)
    else if t[0] == '{' then
      if Skip(t[1..]) != "" && Skip(t[1..])[0] == '}' then Got(Object([]), Skip(t[1..])[1..])
      else
        match ParseMembers(t[1..])
        case Fail => Fail
        case Got(members, rest) => Got(Object(members), rest)
    else
      match NumberEnd(t)
      case None => Fail
      case Some(e) => Got(Number(t[..e]), t[e..])
  }

  /** One value or more, separated by commas, and the closing bracket. */
  function ParseItems(s: string): (r: Parsed<seq<Json>>)
    ensures r.Got? ==> |r.rest| < |s|
    decreases |s|, 1
  {
    var first := ParseValue(s);
    if first.Fail? then Fail
    else
      var t := Skip(first.rest);
      if t == "" then Fail
      else if t[0] == ']' then Got([first.value], t[1..])
      else if t[0] != ',' then Fail
      else
        match ParseItems(t[1..])
        case Fail => Fail
        case Got(items, rest) => Got([first.value] + items, rest)
  }

  /** A name, its colon and its value. */
  function ParseMember(s: string): (r: Parsed<Member>)
    ensures r.Got? ==> |r.rest| < |s|
    decreases |s|, 1
  {
    var t := Skip(s);
    if t == "" || t[0] != '\"' then Fail
    else
      var name := ParseString(t[1..]);
      if name.Fail? || Skip(name.rest) == "" || Skip(name.rest)[0] != ':' then Fail
      else
        match ParseValue(Skip(name.rest)[1..])
        case Fail => Fail
        case Got(value, rest) => Got(Member(name.value, value), rest)
  }

  function ParseMembers(s: string): (r: Parsed<seq<Member>>)
    ensures r.Got? ==> |r.rest| < |s|
    decreases |s|, 2
  {
    var first := ParseMember(s);
    if first.Fail? then Fail
    else
      var t := Skip(first.rest);
      if t == "" then Fail
      else if t[0] == '}' then Got([first.value], t[1..])
      else if t[0] != ',' then Fail
      else
        match ParseMembers(t[1..])
        case Fail => Fail
        case Got(members, rest) => Got(WithMember(first.value, members), rest)
  }

  /** A member in front of later ones: a later member of its name gives the value, and loses its place. */
  function WithMember(m: Member, later: seq<Member>): seq<Member> {
    if later == [] then [m]
    else if later[0].name == m.name then [Member(m.name, later[0].value)] + later[1..]
    else
      var r := WithMember(m, later[1..]);
      [r[0], later[0]] + r[1..]
  }

  /** A whole text: one value, and nothing but white space behind it. */
  function ParseJson(s: string): Option<Json> {
    match ParseValue(s)
    case Fail => None
    case Got(j, rest) => if Skip(rest) == "" then Some(j) else None
  }

  // ----- values that can be printed

  ghost predicate DistinctNames(members: seq<Member>) {
    forall i, j :: 0 <= i < j < |members| ==> members[i].name != members[j].name
  }

  /** What the runtime's own values are: numbers have a decimal form, and an object has one member for each name. */
  ghost predicate WellFormed(j: Json) {
    match j
    case Number(digits) => NumberEnd(digits) == Some(|digits|)
    case Array(items) => forall i :: 0 <= i < |items| ==> WellFormed(items[i])
    case Object(members) => DistinctNames(members) && forall i :: 0 <= i < |members| ==> WellFormed(members[i].value)
    case _ => true
  }

  // ----- what is printed parses back

  /** What can follow a value inside printed text. */
  predicate Stops(rest: string) { rest == "" || rest[0] == ',' || rest[0] == ']' || rest[0] == '}' }

  lemma {:induction false} DigitsEndBefore(s: string, rest: string, i: nat)
    requires i <= |s| && Stops(rest)
    ensures DigitsEnd(s + rest, i) == DigitsEnd(s, i)
    decreases |s| - i
  {
    if i < |s| { DigitsEndBefore(s, rest, i + 1); }
  }

  lemma IntegerEndBefore(s: string, rest: string)
    requires IntegerEnd(s).Some? && Stops(rest)
    ensures IntegerEnd(s + rest) == IntegerEnd(s)
  {
    DigitsEndBefore(s, rest, if s[0] == '-' then 1 else 0);
  }

  lemma FractionEndBefore(s: string, rest: string, i: nat)
    requires i <= |s| && FractionEnd(s, i).Some? && Stops(rest)
    ensures FractionEnd(s + rest, i) == FractionEnd(s, i)
  {
    if i < |s| { DigitsEndBefore(s, rest, i + 1); }
  }

  lemma ExponentEndBefore(s: string, rest: string, i: nat)
    requires i <= |s| && ExponentEnd(s, i).Some? && Stops(rest)
    ensures ExponentEnd(s + rest, i) == ExponentEnd(s, i)
  {
    if i < |s| { DigitsEndBefore(s, rest, i + 1); }
    if i + 2 <= |s| { DigitsEndBefore(s, rest, i + 2); }
  }

  lemma NumberEndBefore(s: string, rest: string)
    requires NumberEnd(s).Some? && Stops(rest)
    ensures NumberEnd(s + rest) == NumberEnd(s)
  {
    hide IntegerEnd, FractionEnd, ExponentEnd, Stops;
    IntegerEndBefore(s, rest);
    FractionEndBefore(s, rest, IntegerEnd(s).value);
    ExponentEndBefore(s, rest, FractionEnd(s, IntegerEnd(s).value).value);
  }

  lemma NumberCharacters(s: string)
    requires NumberEnd(s) == Some(|s|)
    ensures forall k :: 0 <= k < |s| ==>
              IsDigit(s[k]) || s[k] == '-' || s[k] == '+' || s[k] == '.' || s[k] == 'e' || s[k] == 'E'
    ensures s[0] == '-' || IsDigit(s[0])
  {
  }

  lemma HexDigitBack(n: nat)
    requires n < 16
    ensures HexValue(HexDigit(n)) == Some(n)
  {
  }

  lemma ControlUnescapes(c: char, tail: string)
    requires c < ' '
    ensures UnescapeUnit("00" + [HexDigit(c as int / 16), HexDigit(c as int % 16)] + tail) == Got(c, tail)
  {
    var n := c as int;
    var s := "00" + [HexDigit(n / 16), HexDigit(n % 16)] + tail;
    HexDigitBack(n / 16);
    HexDigitBack(n % 16);
    assert s[0] == '0' && s[1] == '0' && s[2] == HexDigit(n / 16) && s[3] == HexDigit(n % 16) && s[4..] == tail;
    assert HexUnit(s, 0) == Some(n);
  }

  lemma EscapeCharParses(c: char, tail: string)
    ensures ParseString(EscapeChar(c) + tail) == Prepended(c, ParseString(tail))
  {
    hide UnescapeUnit, HexDigit;
    var e := EscapeChar(c);
    var s := e + tail;
    if e[0] == '\\' {
      assert s[0] == '\\' && s[1] == e[1];
      if e[1] == 'u' {
        ControlUnescapes(c, tail);
        assert s[1..][1..] == "00" + [HexDigit(c as int / 16), HexDigit(c as int % 16)] + tail;
      } else {
        assert s[1..][1..] == tail;
      }
      assert Unescape(s[1..]) == Got(c, tail);
    } else {
      assert s[1..] == tail;
    }
  }

  /** A character outside the basic plane can also be written as two escapes; what they parse to is that character. */
  lemma PairUnescapes(high: string, low: string, tail: string)
    requires |high| == 4 && |low| == 4 && IsHigh(HexUnit(high, 0)) && IsLow(HexUnit(low, 0))
    ensures UnescapeUnit(high + "\\u" + low + tail)
         == Got((0x10000 + 0x400 * (HexUnit(high, 0).value - 0xD800) + (HexUnit(low, 0).value - 0xDC00)) as char, tail)
  {
    var s := high + "\\u" + low + tail;
    assert s[0] == high[0] && s[1] == high[1] && s[2] == high[2] && s[3] == high[3] && s[4] == '\\' && s[5] == 'u';
    assert s[6] == low[0] && s[7] == low[1] && s[8] == low[2] && s[9] == low[3] && s[10..] == tail;
  }

  lemma {:induction false} EscapeParses(text: string, rest: string)
    ensures ParseString(Escape(text) + "\"" + rest) == Got(text, rest)
  {
    hide EscapeChar;
    if text == "" {
      var s := Escape(text) + "\"" + rest;
      assert s[0] == '\"' && s[1..] == rest;
    } else {
      var tail := Escape(text[1..]) + "\"" + rest;
      EscapeParses(text[1..], rest);
      EscapeCharParses(text[0], tail);
      assert Escape(text) + "\"" + rest == EscapeChar(text[0]) + tail;
      assert [text[0]] + text[1..] == text;
    }
  }

  lemma PrintHead(j: Json)
    requires WellFormed(j)
    ensures var s := Print(j);
            && s != "" && s[0] != ' ' && s[0] != '\t' && s[0] != '\n' && s[0] != '\r' && s[0] != ']' && s[0] != '}'
            && (j.Number? ==> s[0] == '-' || IsDigit(s[0]))
  {
    if j.Number? { NumberCharacters(j.digits); }
  }

  lemma WordsParse(rest: string)
    ensures ParseValue("null" + rest) == Got(Null, rest)
    ensures ParseValue("true" + rest) == Got(Bool(true), rest)
    ensures ParseValue("false" + rest) == Got(Bool(false), rest)
  {
    var n, t, f := "null" + rest, "true" + rest, "false" + rest;
    assert n[0] == 'n' && n[..4] == "null" && n[4..] == rest;
    assert t[0] == 't' && t[..4] == "true" && t[4..] == rest;
    assert f[0] == 'f' && f[..5] == "false" && f[5..] == rest;
  }

  lemma NumberParses(digits: string, rest: string)
    requires NumberEnd(digits) == Some(|digits|) && Stops(rest)
    ensures ParseValue(digits + rest) == Got(Number(digits), rest)
  {
    hide NumberEnd, ParseValue;
    NumberCharacters(digits);
    NumberEndBefore(digits, rest);
    var s := digits + rest;
    assert s[0] == digits[0] && s[..|digits|] == digits && s[|digits|..] == rest;
    NumberFirst(s, |digits|);
  }

  lemma NumberFirst(s: string, e: nat)
    requires s != "" && (s[0] == '-' || IsDigit(s[0])) && e <= |s| && NumberEnd(s) == Some(e)
    ensures ParseValue(s) == Got(Number(s[..e]), s[e..])
  {
    hide NumberEnd;
  }

  lemma TextParses(text: string, rest: string)
    ensures ParseValue(Quote(text) + rest) == Got(Text(text), rest)
  {
    hide ParseString, Escape;
    var s := Quote(text) + rest;
    EscapeParses(text, rest);
    assert s[0] == '\"' && s[1..] == Escape(text) + "\"" + rest;
  }

  lemma ArrayParses(s: string, items: seq<Json>, rest: string)
    requires s != "" && s[0] == '[' && Skip(s[1..]) != ""
    requires if Skip(s[1..])[0] == ']' then items == [] && Skip(s[1..])[1..] == rest
             else ParseItems(s[1..]) == Got(items, rest)
    ensures ParseValue(s) == Got(Array(items), rest)
  {
    hide ParseItems;
  }

  lemma ObjectParses(s: string, members: seq<Member>, rest: string)
    requires s != "" && s[0] == '{' && Skip(s[1..]) != ""
    requires if Skip(s[1..])[0] == '}' then members == [] && Skip(s[1..])[1..] == rest
             else ParseMembers(s[1..]) == Got(members, rest)
    ensures ParseValue(s) == Got(Object(members), rest)
  {
    hide ParseMembers;
  }

  /** Round trip: whatever a value holds, its printed text parses back to it, wherever it stands. */
  lemma {:induction false} PrintParses(j: Json, rest: string)
    requires WellFormed(j) && Stops(rest)
    ensures ParseValue(Print(j) + rest) == Got(j, rest)
    decreases j, 0
  {
    hide ParseValue, ParseItems, ParseMembers, NumberEnd, Escape;
    var s := Print(j) + rest;
    match j
    case Null => WordsParse(rest);
    case Bool(_) => WordsParse(rest);
    case Number(digits) => NumberParses(digits, rest);
    case Text(text) => TextParses(text, rest);
    case Array(items) =>
      assert s[0] == '[' && s[1..] == PrintItems(items) + "]" + rest;
      if items == [] {
        assert s[1..][0] == ']' && s[1..][1..] == rest;
      } else {
        PrintHead(items[0]);
        assert s[1..][0] == Print(items[0])[0];
        ItemsParse(items, rest);
      }
      ArrayParses(s, items, rest);
    case Object(members) =>
      assert s[0] == '{' && s[1..] == PrintMembers(members) + "}" + rest;
      if members == [] {
        assert s[1..][0] == '}' && s[1..][1..] == rest;
      } else {
        assert s[1..][0] == '\"';
        MembersParse(members, rest);
      }
      ObjectParses(s, members, rest);
  }

  lemma {:induction false} ItemsParse(items: seq<Json>, rest: string)
    requires items != [] && forall i :: 0 <= i < |items| ==> WellFormed(items[i])
    ensures ParseItems(PrintItems(items) + "]" + rest) == Got(items, rest)
    decreases items, 1
  {
    hide ParseValue, Print, WellFormed;
    var tail := (if |items| > 1 then "," else "") + PrintItems(items[1..]) + "]" + rest;
    assert PrintItems(items) + "]" + rest == Print(items[0]) + tail;
    PrintParses(items[0], tail);
    if |items| > 1 {
      ItemsParse(items[1..], rest);
      assert tail[1..] == PrintItems(items[1..]) + "]" + rest;
      assert [items[0]] + items[1..] == items;
    } else {
      assert [items[0]] == items;
      assert tail[1..] == rest;
    }
  }

  lemma {:induction false} MembersParse(members: seq<Member>, rest: string)
    requires members != [] && DistinctNames(members) && forall i :: 0 <= i < |members| ==> WellFormed(members[i].value)
    ensures ParseMembers(PrintMembers(members) + "}" + rest) == Got(members, rest)
    decreases members, 2
  {
    hide ParseMember, ParseMembers, Print, WellFormed, Quote, WithMember;
    var m, later := members[0], members[1..];
    var tail := (if |members| > 1 then "," else "") + PrintMembers(later) + "}" + rest;
    var s := Quote(m.name) + ":" + Print(m.value) + tail;
    assert PrintMembers(members) + "}" + rest == s;
    MemberParses(m, tail);
    if later != [] {
      MembersParse(later, rest);
      assert tail[1..] == PrintMembers(later) + "}" + rest;
    } else {
      assert tail[1..] == rest;
    }
    MembersCons(s, m, tail, later, rest);
    FirstOfItsName(m, later);
    assert [m] + later == members;
  }

  lemma MembersCons(s: string, m: Member, tail: string, later: seq<Member>, rest: string)
    requires ParseMember(s) == Got(m, tail) && Skip(tail) != ""
    requires if Skip(tail)[0] == '}' then later == [] && Skip(tail)[1..] == rest
             else Skip(tail)[0] == ',' && ParseMembers(Skip(tail)[1..]) == Got(later, rest)
    ensures ParseMembers(s) == Got(WithMember(m, later), rest)
  {
    hide ParseMember, Skip;
  }

  lemma {:induction false} FirstOfItsName(m: Member, later: seq<Member>)
    requires forall i :: 0 <= i < |later| ==> later[i].name != m.name
    ensures WithMember(m, later) == [m] + later
  {
    if later != [] { FirstOfItsName(m, later[1..]); }
  }

  lemma {:induction false} MemberParses(m: Member, rest: string)
    requires WellFormed(m.value) && Stops(rest)
    ensures ParseMember(Quote(m.name) + ":" + Print(m.value) + rest) == Got(m, rest)
    decreases m, 1
  {
    hide ParseValue, Print, WellFormed, ParseString;
    var s := Quote(m.name) + ":" + Print(m.value) + rest;
    var tail := ":" + Print(m.value) + rest;
    assert s[0] == '\"' && s[1..] == Escape(m.name) + "\"" + tail;
    EscapeParses(m.name, tail);
    assert tail[1..] == Print(m.value) + rest;
    PrintParses(m.value, rest);
  }

  /** A printed value, on its own, parses to that value. */
  lemma JsonRoundTrip(j: Json)
    requires WellFormed(j)
    ensures ParseJson(Print(j)) == Some(j)
  {
    hide ParseValue, Print, WellFormed;
    PrintParses(j, "");
    assert Print(j) + "" == Print(j);
  }

  // ----- printed JSON stays on one line

  ghost predicate Printable(s: string) { forall i :: 0 <= i < |s| ==> s[i] >= ' ' }

  lemma PrintableConcat(a: string, b: string)
    requires Printable(a) && Printable(b)
    ensures Printable(a + b)
  {
  }

  lemma {:induction false} EscapePrintable(s: string)
    ensures Printable(Escape(s))
  {
    if s != "" {
      EscapePrintable(s[1..]);
      assert Printable(EscapeChar(s[0]));
      PrintableConcat(EscapeChar(s[0]), Escape(s[1..]));
    }
  }

  lemma NumberPrintable(digits: string)
    requires NumberEnd(digits) == Some(|digits|)
    ensures Printable(digits)
  {
    NumberCharacters(digits);
  }

  lemma {:induction false} ItemsPrintable(items: seq<Json>)
    requires forall i :: 0 <= i < |items| ==> WellFormed(items[i])
    ensures Printable(PrintItems(items))
  {
    hide Printable, Print, WellFormed;
    if items == [] {
      EmptyPrintable();
    } else {
      PrintPrintable(items[0]);
      ItemsPrintable(items[1..]);
      Joined(Print(items[0]), |items| > 1, PrintItems(items[1..]));
    }
  }

  lemma EmptyPrintable()
    ensures Printable("")
  {
  }

  lemma Joined(a: string, comma: bool, b: string)
    requires Printable(a) && Printable(b)
    ensures Printable(a + (if comma then "," else "") + b)
  {
  }

  lemma {:induction false} MembersPrintable(members: seq<Member>)
    requires forall i :: 0 <= i < |members| ==> WellFormed(members[i].value)
    ensures Printable(PrintMembers(members))
  {
    hide Printable, Print, WellFormed;
    if members == [] {
      EmptyPrintable();
    } else {
      EscapePrintable(members[0].name);
      PrintPrintable(members[0].value);
      MembersPrintable(members[1..]);
      MemberPrintable(Escape(members[0].name), Print(members[0].value));
      Joined(Quote(members[0].name) + ":" + Print(members[0].value), |members| > 1, PrintMembers(members[1..]));
    }
  }

  lemma MemberPrintable(name: string, value: string)
    requires Printable(name) && Printable(value)
    ensures Printable("\"" + name + "\"" + ":" + value)
  {
  }

  /** Whatever strings an event carries, its JSON has no line break, or any control character. */
  lemma {:induction false} PrintPrintable(j: Json)
    requires WellFormed(j)
    ensures Printable(Print(j))
  {
    hide Printable, PrintItems, PrintMembers, Escape, NumberEnd;
    match j
    case Null => WordsPrintable();
    case Bool(_) => WordsPrintable();
    case Number(digits) => NumberPrintable(digits);
    case Text(s) =>
      EscapePrintable(s);
      Wrapped("\"", Escape(s), "\"");
    case Array(items) =>
      ItemsPrintable(items);
      Wrapped("[", PrintItems(items), "]");
    case Object(members) =>
      MembersPrintable(members);
      Wrapped("{", PrintMembers(members), "}");
  }

  lemma WordsPrintable()
    ensures Printable("null") && Printable("true") && Printable("false")
  {
  }

  lemma Wrapped(a: string, s: string, b: string)
    requires Printable(s) && (forall i :: 0 <= i < |a| ==> a[i] >= ' ') && (forall i :: 0 <= i < |b| ==> b[i] >= ' ')
    ensures Printable(a + s + b) && a + s + "" == a + s
  {
  }

  lemma NoBreaks(s: string)
    requires Printable(s)
    ensures '\n' !in s && '\n' !in "data: " + s
  {
  }

  lemma ObjectEnds(j: Json)
    requires j.Object?
    ensures Print(j) != "" && Print(j)[0] == '{' && Print(j)[|Print(j)| - 1] == '}'
  {
  }
}
