/** The incremental event-stream parser: frames separated by blank lines, in whatever chunks they arrive. */
module BroadcastSse {
  import opened Wrappers
  import opened BroadcastJson

  /** The data of a frame: the JSON value it holds, or the text itself when it holds none. */
  datatype Data = Value(json: Json) | Raw(text: string)
  datatype Frame = Frame(event: Option<string>, data: Data)

  function Decoded(text: string): Data {
    match ParseJson(text)
    case Some(j) => Value(j)
    case None => Raw(text)
  }

  /** Where the first blank line starts at or after `i`, or |s|. */
  function FindBlank(s: string, i: nat := 0): (k: nat)
    requires i <= |s|
    ensures i <= k <= |s|
    ensures k < |s| ==> k + 1 < |s| && s[k] == '\n' && s[k + 1] == '\n'
    ensures forall j :: i <= j < k && j + 1 < |s| ==> !(s[j] == '\n' && s[j + 1] == '\n')
    decreases |s| - i
  {
    if i == |s| then i
    else if i + 1 < |s| && s[i] == '\n' && s[i + 1] == '\n' then i
    else FindBlank(s, i + 1)
  }

  function Lines(s: string): (r: seq<string>)
    ensures r != []
  {
    if s == "" then [""]
    else
      var rest := Lines(s[1..]);
      if s[0] == '\n' then [""] + rest else [[s[0]] + rest[0]] + rest[1..]
  }

  predicate IsSpace(c: char) {
    || c == ' ' || c == '\t' || c == '\n' || c == '\r' || c == '\U{0B}' || c == '\U{0C}' || c == '\U{A0}'
    || c == '\U{FEFF}'
    || c == '\U{1680}' || '\U{2000}' <= c <= '\U{200A}' || c == '\U{2028}' || c == '\U{2029}' || c == '\U{202F}'
    || c == '\U{205F}' || c == '\U{3000}'
  }

  function TrimStart(s: string): string {
    if s != "" && IsSpace(s[0]) then TrimStart(s[1..]) else s
  }

  function TrimEnd(s: string): string {
    if s != "" && IsSpace(s[|s| - 1]) then TrimEnd(s[..|s| - 1]) else s
  }

  function Trim(s: string): string { TrimEnd(TrimStart(s)) }

  predicate HasPrefix(s: string, p: string) { p <= s }

  /** The last `event:` field, and the `data:` fields, of the lines of a block. */
  function EventField(lines: seq<string>): Option<string> {
    if lines == [] then None
    else
      var line := lines[|lines| - 1];
      if !HasPrefix(line, ":") && HasPrefix(line, "event:") then Some(Trim(line[6..]))
      else EventField(lines[..|lines| - 1])
  }

  function DataFields(lines: seq<string>): seq<string> {
    if lines == [] then []
    else
      var line := lines[|lines| - 1];
      DataFields(lines[..|lines| - 1])
      + if !HasPrefix(line, ":") && !HasPrefix(line, "event:") && HasPrefix(line, "data:") then
          [Trim(line[5..])]
        else []
  }

  function JoinLines(s: seq<string>): string {
    if s == [] then "" else if |s| == 1 then s[0] else s[0] + "\n" + JoinLines(s[1..])
  }

  /** The frame of a block, unless it holds only comments and headers. */
  function ParseBlock(block: string): seq<Frame> {
    var lines := Lines(block);
    if DataFields(lines) == [] then [] else [Frame(EventField(lines), Decoded(JoinLines(DataFields(lines))))]
  }

  /** What a buffer holds: the frames of its finished blocks, and the unfinished rest. */
  function Drain(buffer: string): (seq<Frame>, string)
    decreases |buffer|
  {
    var k := FindBlank(buffer);
    if k == |buffer| then ([], buffer)
    else
      var (frames, rest) := Drain(buffer[k + 2..]);
      (ParseBlock(buffer[..k]) + frames, rest)
  }

  lemma DrainNext(buffer: string)
    requires FindBlank(buffer) < |buffer|
    ensures var k := FindBlank(buffer);
            && Drain(buffer).0 == ParseBlock(buffer[..k]) + Drain(buffer[k + 2..]).0
            && Drain(buffer).1 == Drain(buffer[k + 2..]).1
  {
    hide ParseBlock, FindBlank;
  }

  lemma DrainEnd(buffer: string)
    requires FindBlank(buffer) == |buffer|
    ensures Drain(buffer) == ([], buffer)
  {
  }

  /** What is parsed so far and what is buffered still come to `all`. */
  ghost predicate Reached(all: (seq<Frame>, string), frames: seq<Frame>, buffer: string) {
    all == (frames + Drain(buffer).0, Drain(buffer).1)
  }

  lemma ReachedStart(frames: seq<Frame>, buffer: string)
    ensures Reached((frames + Drain(buffer).0, Drain(buffer).1), frames, buffer)
  {
    hide Drain;
  }

  lemma ReachedNext(all: (seq<Frame>, string), frames: seq<Frame>, buffer: string)
    requires Reached(all, frames, buffer) && FindBlank(buffer) < |buffer|
    ensures var k := FindBlank(buffer); Reached(all, frames + ParseBlock(buffer[..k]), buffer[k + 2..])
  {
    hide Drain, ParseBlock, FindBlank;
    var k := FindBlank(buffer);
    DrainNext(buffer);
    var later := Drain(buffer[k + 2..]).0;
    assert frames + (ParseBlock(buffer[..k]) + later) == (frames + ParseBlock(buffer[..k])) + later;
  }

  lemma ReachedEnd(all: (seq<Frame>, string), frames: seq<Frame>, buffer: string)
    requires Reached(all, frames, buffer) && FindBlank(buffer) == |buffer|
    ensures all == (frames, buffer)
  {
    hide Drain, FindBlank;
    DrainEnd(buffer);
    assert frames + [] == frames;
  }

  class SseClient {
    var frames: seq<Frame>
    var raw: string
    var buffer: string

    constructor ()
      ensures frames == [] && raw == "" && buffer == ""
    {
      frames, raw, buffer := [], "", "";
    }

    method Ingest(chunk: string)
      modifies this
      ensures raw == old(raw) + chunk
      ensures (frames, buffer) == var (more, rest) := Drain(old(buffer) + chunk); (old(frames) + more, rest)
    {
      raw := raw + chunk;
      buffer := buffer + chunk;
      hide ParseBlock, Drain, FindBlank, Reached;
      ghost var all := (frames + Drain(buffer).0, Drain(buffer).1);
      ReachedStart(frames, buffer);
      while FindBlank(buffer) != |buffer|
        invariant raw == old(raw) + chunk && Reached(all, frames, buffer)
        decreases |buffer|
      {
        ReachedNext(all, frames, buffer);
        var sep := FindBlank(buffer);
        var block := buffer[..sep];
        buffer := buffer[sep + 2..];
        Parse(block);
      }
      ReachedEnd(all, frames, buffer);
    }

    method Parse(block: string)
      modifies this`frames
      ensures frames == old(frames) + ParseBlock(block)
    {
      hide Decoded;
      var lines := Lines(block);
      var event: Option<string> := None;
      var dataLines: seq<string> := [];
      for n := 0 to |lines|
        invariant event == EventField(lines[..n]) && dataLines == DataFields(lines[..n])
      {
        var line := lines[n];
        assert lines[..n + 1][..n] == lines[..n];
        if HasPrefix(line, ":") { continue; }
        if HasPrefix(line, "event:") {
          event := Some(Trim(line[6..]));
        } else if HasPrefix(line, "data:") {
          dataLines := dataLines + [Trim(line[5..])];
        }
      }
      assert lines[..|lines|] == lines;
      if dataLines == [] { return; }
      frames := frames + [Frame(event, Decoded(JoinLines(dataLines)))];
    }
  }

  // ----- chunking does not matter

  lemma {:induction false} FindBlankIs(s: string, i: nat, k: nat)
    requires i <= k && k + 1 < |s| && s[k] == '\n' && s[k + 1] == '\n'
    requires forall j :: i <= j < k ==> !(s[j] == '\n' && s[j + 1] == '\n')
    ensures FindBlank(s, i) == k
    decreases k - i
  {
    if i < k { FindBlankIs(s, i + 1, k); }
  }

  /** Draining a then b: the frames of a, then those of its rest with b appended. */
  lemma {:induction false} DrainConcat(a: string, b: string)
    ensures var (frames, rest) := Drain(a);
            Drain(a + b) == (frames + Drain(rest + b).0, Drain(rest + b).1)
    decreases |a|
  {
    hide ParseBlock, FindBlank, Drain;
    var k := FindBlank(a);
    if k < |a| {
      FindBlankIs(a + b, 0, k);
      DrainNext(a);
      DrainNext(a + b);
      assert (a + b)[..k] == a[..k] && (a + b)[k + 2..] == a[k + 2..] + b;
      DrainConcat(a[k + 2..], b);
      var (frames, rest) := Drain(a[k + 2..]);
      assert ParseBlock(a[..k]) + (frames + Drain(rest + b).0) == ParseBlock(a[..k]) + frames + Drain(rest + b).0;
    } else {
      DrainEnd(a);
      assert [] + Drain(a + b).0 == Drain(a + b).0;
    }
  }

  lemma {:induction false} RestHasNoBlank(s: string)
    ensures FindBlank(Drain(s).1) == |Drain(s).1|
    decreases |s|
  {
    hide ParseBlock;
    var k := FindBlank(s);
    if k < |s| { RestHasNoBlank(s[k + 2..]); }
  }

  function Concat(chunks: seq<string>): string {
    if chunks == [] then "" else chunks[0] + Concat(chunks[1..])
  }

  /** What a client has after ingesting chunk after chunk. */
  function FeedAll(buffer: string, chunks: seq<string>): (seq<Frame>, string)
    decreases chunks
  {
    if chunks == [] then ([], buffer)
    else
      var (frames, rest) := Drain(buffer + chunks[0]);
      var (more, last) := FeedAll(rest, chunks[1..]);
      (frames + more, last)
  }

  /** Any chunking of the same bytes leaves the same frames and the same buffer. */
  lemma {:induction false} ChunkingDoesNotMatter(buffer: string, chunks: seq<string>)
    requires FindBlank(buffer) == |buffer|
    ensures FeedAll(buffer, chunks) == Drain(buffer + Concat(chunks))
    decreases chunks
  {
    hide FindBlank, Drain, ParseBlock;
    if chunks == [] {
      assert buffer + "" == buffer;
      DrainEnd(buffer);
    } else {
      var (frames, rest) := Drain(buffer + chunks[0]);
      RestHasNoBlank(buffer + chunks[0]);
      ChunkingDoesNotMatter(rest, chunks[1..]);
      DrainConcat(buffer + chunks[0], Concat(chunks[1..]));
      assert buffer + Concat(chunks) == buffer + chunks[0] + Concat(chunks[1..]);
    }
  }

  // ----- one block

  lemma {:induction false} OneLine(s: string)
    requires '\n' !in s
    ensures Lines(s) == [s]
  {
    if s != "" {
      OneLine(s[1..]);
      assert [s[0]] + s[1..] == s;
    }
  }

  lemma {:induction false} TrimKeeps(s: string)
    requires s != "" && !IsSpace(s[0]) && !IsSpace(s[|s| - 1])
    ensures Trim(" " + s) == s
  {
    var t := " " + s;
    assert t[1..] == s && t[0] == ' ';
    assert TrimStart(t) == TrimStart(s) == s;
  }

  /** A data line on its own is a frame without an event name, carrying what its text decodes to. */
  lemma DataBlock(text: string)
    requires text != "" && '\n' !in text && !IsSpace(text[0]) && !IsSpace(text[|text| - 1])
    ensures ParseBlock("data: " + text) == [Frame(None, Decoded(text))]
  {
    hide Decoded;
    var line := "data: " + text;
    OneLine(line);
    assert line[5..] == " " + text && line[0] == 'd' && line[..5] == "data:";
    TrimKeeps(text);
    var lines: seq<string> := [line];
    assert lines[..0] == [];
    assert !HasPrefix(line, ":") && !HasPrefix(line, "event:") && HasPrefix(line, "data:");
    assert DataFields(lines) == [text];
    assert EventField(lines) == None;
  }

  lemma CommentBlock(text: string)
    requires '\n' !in text
    ensures ParseBlock(": " + text) == []
  {
    var line := ": " + text;
    OneLine(line);
    var lines: seq<string> := [line];
    assert lines[..0] == [];
    assert line[0] == ':' && HasPrefix(line, ":");
    assert DataFields(lines) == [];
  }

  /** A block of one line, its blank line, and what follows. */
  lemma DrainBlock(line: string, rest: string)
    requires line != "" && '\n' !in line
    ensures Drain(line + "\n\n" + rest) == (ParseBlock(line) + Drain(rest).0, Drain(rest).1)
  {
    hide ParseBlock;
    var s := line + "\n\n" + rest;
    var k := |line|;
    forall j | 0 <= j < k ensures s[j] != '\n' { assert s[j] == line[j]; }
    FindBlankIs(s, 0, k);
    assert s[..k] == line && s[k + 2..] == rest;
  }
}
