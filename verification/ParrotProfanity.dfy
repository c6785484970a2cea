/** The parrot's profanity filter: a left-to-right token scanner, masking and reporting. */
module ParrotProfanity {

  predicate IsLetter(c: char) { 'a' <= c <= 'z' || 'A' <= c <= 'Z' }

  predicate IsToken(c: char) { IsLetter(c) || c in "$@01!345789" }

  function LowerChar(c: char): char { if 'A' <= c <= 'Z' then c - 'A' + 'a' else c }

  function Unleet(c: char): char {
    if c == '$' then 's' else if c == '@' then 'a' else if c == '0' then 'o' else if c == '1' then 'i'
    else if c == '!' then 'i' else if c == '3' then 'e' else if c == '4' then 'a' else if c == '5' then 's'
    else if c == '7' then 't' else if c == '8' then 'b' else if c == '9' then 'g' else c
  }

  function Normalise(token: string): string {
    if token == "" then "" else [Unleet(LowerChar(token[0]))] + Normalise(token[1..])
  }

  function StripLeft(s: string): string { if s != "" && s[0] == '!' then StripLeft(s[1..]) else s }

  function StripRight(s: string): string { if s != "" && s[|s| - 1] == '!' then StripRight(s[..|s| - 1]) else s }

  function Strip(s: string): string { StripRight(StripLeft(s)) }

  predicate IsProfane(token: string, words: set<string>) {
    Strip(token) != "" && Normalise(Strip(token)) in words
  }

  // ----- the token pattern

  /** The end of the run of token characters at `p`: how far the pattern's greedy part reaches. */
  function RunEnd(text: string, p: nat): (e: nat)
    requires p <= |text|
    ensures p <= e <= |text|
    ensures forall i :: p <= i < e ==> IsToken(text[i])
    ensures e < |text| ==> !IsToken(text[e])
    decreases |text| - p
  {
    if p < |text| && IsToken(text[p]) then RunEnd(text, p + 1) else p
  }

  /** The pattern matches at `p`: some letter is reached from `p` over token characters only. */
  predicate MatchesAt(text: string, p: nat) {
    exists q :: p <= q < |text| && IsLetter(text[q]) && forall i :: p <= i < q ==> IsToken(text[i])
  }

  datatype Span = Span(start: nat, end: nat)

  /** What `finditer` and `sub` visit: at each position a match, or one character further. */
  function Scan(text: string, p: nat): seq<Span>
    requires p <= |text|
    decreases |text| - p
  {
    if p == |text| then []
    else if MatchesAt(text, p) then
      MatchAdvances(text, p);
      [Span(p, RunEnd(text, p))] + Scan(text, RunEnd(text, p))
    else Scan(text, p + 1)
  }

  lemma MatchAdvances(text: string, p: nat)
    requires p < |text| && MatchesAt(text, p)
    ensures RunEnd(text, p) > p
  {
  }

  /** A maximal run of token characters that holds a letter. */
  ghost predicate IsWord(text: string, s: Span) {
    && s.start < s.end <= |text|
    && (forall i :: s.start <= i < s.end ==> IsToken(text[i]))
    && (s.start > 0 ==> !IsToken(text[s.start - 1]))
    && (s.end < |text| ==> !IsToken(text[s.end]))
    && exists i :: s.start <= i < s.end && IsLetter(text[i])
  }

  /** A position where the scanner can stand: between runs, or inside a run that has no letter left. */
  ghost predicate Between(text: string, p: nat) {
    p <= |text| && (p > 0 && IsToken(text[p - 1]) ==> !MatchesAt(text, p))
  }

  /** The scanner matches exactly the words: the maximal runs of token characters that hold a letter. */
  lemma {:induction false} ScanFindsWords(text: string, p: nat, s: Span)
    requires Between(text, p)
    ensures s in Scan(text, p) <==> IsWord(text, s) && p <= s.start
    decreases |text| - p
  {
    hide RunEnd, IsToken, IsLetter;
    if p < |text| {
      if MatchesAt(text, p) {
        MatchAdvances(text, p);
        var e := RunEnd(text, p);
        var q :| p <= q < |text| && IsLetter(text[q]) && forall i :: p <= i < q ==> IsToken(text[i]);
        LettersAreTokens(text[q]);
        assert q < e;
        assert Between(text, e) by { NoMatchPastRun(text, e); }
        ScanFindsWords(text, e, s);
        assert IsWord(text, Span(p, e));
        if IsWord(text, s) && p <= s.start < e { OneWordInRun(text, p, e, s); }
      } else {
        NoMatchLater(text, p);
        ScanFindsWords(text, p + 1, s);
        if IsWord(text, s) && s.start == p { WordMatches(text, s); }
      }
    }
  }

  lemma LettersAreTokens(c: char)
    ensures IsLetter(c) ==> IsToken(c)
  {
  }

  lemma NoMatchPastRun(text: string, e: nat)
    requires e <= |text| && (e < |text| ==> !IsToken(text[e]))
    ensures !MatchesAt(text, e)
  {
    if e < |text| { LettersAreTokens(text[e]); }
  }

  lemma OneWordInRun(text: string, p: nat, e: nat, s: Span)
    requires p < e <= |text| && IsWord(text, s) && p <= s.start < e
    requires (forall i :: p <= i < e ==> IsToken(text[i])) && (e < |text| ==> !IsToken(text[e]))
    ensures s == Span(p, e)
  {
  }

  lemma NoMatchLater(text: string, p: nat)
    requires p < |text| && !MatchesAt(text, p)
    ensures IsToken(text[p]) ==> !MatchesAt(text, p + 1)
  {
  }

  lemma WordMatches(text: string, s: Span)
    requires IsWord(text, s)
    ensures MatchesAt(text, s.start)
  {
  }

  // ----- masking and reporting

  const MASK_CHAR := '*'

  function Stars(n: nat): string { seq(n, _ => MASK_CHAR) }

  function Replacement(token: string, words: set<string>): string {
    if IsProfane(token, words) then Stars(|token|) else token
  }

  /** The substitution from position `p` on. */
  function MaskFrom(text: string, words: set<string>, p: nat): string
    requires p <= |text|
    decreases |text| - p
  {
    if p == |text| then ""
    else if MatchesAt(text, p) then
      MatchAdvances(text, p);
      Replacement(text[p..RunEnd(text, p)], words) + MaskFrom(text, words, RunEnd(text, p))
    else [text[p]] + MaskFrom(text, words, p + 1)
  }

  function Mask(text: string, words: set<string>): string { MaskFrom(text, words, 0) }

  /** The profane tokens among the spans found, normalised, in order of appearance. */
  function ProfaneWords(text: string, words: set<string>, spans: seq<Span>): seq<string>
    requires forall s :: s in spans ==> s.start <= s.end <= |text|
  {
    if spans == [] then []
    else
      var token := text[spans[0].start..spans[0].end];
      (if IsProfane(token, words) then [Normalise(Strip(token))] else []) + ProfaneWords(text, words, spans[1..])
  }

  lemma {:induction false} SpansInText(text: string, p: nat)
    requires p <= |text|
    ensures forall s :: s in Scan(text, p) ==> p <= s.start < s.end <= |text|
    decreases |text| - p
  {
    hide RunEnd, MatchesAt;
    if p < |text| {
      if MatchesAt(text, p) {
        MatchAdvances(text, p);
        SpansInText(text, RunEnd(text, p));
      } else {
        SpansInText(text, p + 1);
      }
    }
  }

  /** `w` is what is reported for the profane word at `s`. */
  ghost predicate Reported(text: string, words: set<string>, s: Span, w: string) {
    s.start <= s.end <= |text| && IsProfane(text[s.start..s.end], words) && w == Normalise(Strip(text[s.start..s.end]))
  }

  lemma {:induction false} ProfaneWordsAre(text: string, words: set<string>, spans: seq<Span>, w: string)
    requires forall s :: s in spans ==> s.start <= s.end <= |text|
    ensures w in ProfaneWords(text, words, spans) <==> exists s :: s in spans && Reported(text, words, s, w)
  {
    hide IsProfane, Normalise, Strip;
    if spans != [] {
      ProfaneWordsAre(text, words, spans[1..], w);
      assert spans == [spans[0]] + spans[1..];
      if Reported(text, words, spans[0], w) { assert spans[0] in spans; }
    }
  }

  lemma FoundAreTheWords(text: string, words: set<string>)
    ensures forall s :: s in Scan(text, 0) ==> s.start <= s.end <= |text|
    ensures forall w ::
              w in ProfaneWords(text, words, Scan(text, 0))
              <==> exists s :: IsWord(text, s) && Reported(text, words, s, w)
  {
    hide IsWord, Reported, ProfaneWords, Scan;
    SpansInText(text, 0);
    forall s ensures s in Scan(text, 0) <==> IsWord(text, s) { ScanFindsWords(text, 0, s); }
    forall w
      ensures w in ProfaneWords(text, words, Scan(text, 0))
              <==> exists s :: IsWord(text, s) && Reported(text, words, s, w)
    {
      ProfaneWordsAre(text, words, Scan(text, 0), w);
    }
  }

  method FindProfaneWords(text: string, words: set<string>) returns (found: seq<string>)
    ensures forall s :: s in Scan(text, 0) ==> s.start <= s.end <= |text|
    ensures found == ProfaneWords(text, words, Scan(text, 0))
    ensures forall w :: w in found <==> exists s :: IsWord(text, s) && Reported(text, words, s, w)
  {
    SpansInText(text, 0);
    FoundAreTheWords(text, words);
    if text == "" || words == {} {
      NothingProfane(text, words, Scan(text, 0));
      return [];
    }
    found := ProfaneWords(text, words, Scan(text, 0));
  }

  lemma {:induction false} NothingProfane(text: string, words: set<string>, spans: seq<Span>)
    requires forall s :: s in spans ==> s.start < s.end <= |text|
    requires text == "" || words == {}
    ensures ProfaneWords(text, words, spans) == []
  {
    if spans != [] {
      assert spans[0] in spans;
      NothingProfane(text, words, spans[1..]);
    }
  }

  ghost predicate HasProfane(text: string, words: set<string>, spans: seq<Span>) {
    exists s :: s in spans && s.start <= s.end <= |text| && IsProfane(text[s.start..s.end], words)
  }

  method MaskProfanity(text: string, words: set<string>) returns (masked: string, wasMasked: bool)
    ensures masked == Mask(text, words)
    ensures wasMasked <==> HasProfane(text, words, Scan(text, 0))
  {
    hide RunEnd, MatchesAt, IsProfane, MaskFrom, Scan, HasProfane, Replacement;
    SpansInText(text, 0);
    if text == "" || words == {} {
      MaskNothing(text, words, 0);
      assert text[0..] == text;
      return text, false;
    }
    masked, wasMasked := "", false;
    var p := 0;
    assert "" + MaskFrom(text, words, 0) == MaskFrom(text, words, 0);
    while p < |text|
      invariant p <= |text|
      invariant masked + MaskFrom(text, words, p) == Mask(text, words)
      invariant wasMasked || HasProfane(text, words, Scan(text, p)) <==> HasProfane(text, words, Scan(text, 0))
      decreases |text| - p
    {
      StepAt(text, words, p);
      if MatchesAt(text, p) {
        MatchAdvances(text, p);
        var e := RunEnd(text, p);
        var token := text[p..e];
        HasProfaneFirst(text, words, Span(p, e), Scan(text, e));
        ghost var part, later := Replacement(token, words), MaskFrom(text, words, e);
        assert masked + (part + later) == masked + part + later;
        if IsProfane(token, words) { wasMasked := true; }
        masked := masked + Replacement(token, words);
        p := e;
      } else {
        assert masked + ([text[p]] + MaskFrom(text, words, p + 1)) == masked + [text[p]] + MaskFrom(text, words, p + 1);
        masked := masked + [text[p]];
        p := p + 1;
      }
    }
    NothingLeft(text, words);
    assert masked + "" == masked;
  }

  lemma NothingLeft(text: string, words: set<string>)
    ensures MaskFrom(text, words, |text|) == "" && !HasProfane(text, words, Scan(text, |text|))
  {
  }

  lemma HasProfaneFirst(text: string, words: set<string>, s: Span, rest: seq<Span>)
    requires s.start <= s.end <= |text|
    ensures HasProfane(text, words, [s] + rest)
            <==> IsProfane(text[s.start..s.end], words) || HasProfane(text, words, rest)
  {
    hide IsProfane;
    if HasProfane(text, words, rest) {
      var t :| t in rest && t.start <= t.end <= |text| && IsProfane(text[t.start..t.end], words);
      assert t in [s] + rest;
    }
    assert s in [s] + rest;
  }

  lemma {:induction false} MaskNothing(text: string, words: set<string>, p: nat)
    requires p <= |text| && (text == "" || words == {})
    ensures MaskFrom(text, words, p) == text[p..]
    ensures !HasProfane(text, words, Scan(text, p))
    decreases |text| - p
  {
    hide RunEnd, MatchesAt, Scan;
    if p < |text| {
      if MatchesAt(text, p) {
        MatchAdvances(text, p);
        MaskNothing(text, words, RunEnd(text, p));
        assert text[p..] == text[p..RunEnd(text, p)] + text[RunEnd(text, p)..];
      } else {
        MaskNothing(text, words, p + 1);
      }
    }
  }

  /** `mask_profanity` reports a mask exactly when `find_profane_words` finds something. */
  lemma {:induction false} MaskedIffFound(text: string, words: set<string>, spans: seq<Span>)
    requires forall s :: s in spans ==> s.start <= s.end <= |text|
    ensures HasProfane(text, words, spans) <==> ProfaneWords(text, words, spans) != []
  {
    hide IsProfane;
    if spans != [] {
      MaskedIffFound(text, words, spans[1..]);
      HasProfaneFirst(text, words, spans[0], spans[1..]);
      assert spans == [spans[0]] + spans[1..];
    }
  }

  // ----- masking, character by character

  ghost predicate InProfane(text: string, words: set<string>, i: nat) {
    exists s :: IsWord(text, s) && s.start <= i < s.end <= |text| && IsProfane(text[s.start..s.end], words)
  }

  ghost predicate InProfaneSpan(text: string, words: set<string>, i: nat, spans: seq<Span>) {
    exists s :: s in spans && s.start <= i < s.end <= |text| && IsProfane(text[s.start..s.end], words)
  }

  lemma {:induction false} MaskFromAt(text: string, words: set<string>, p: nat, i: nat)
    requires p <= i < |text|
    ensures |MaskFrom(text, words, p)| == |text| - p
    ensures MaskFrom(text, words, p)[i - p]
            == if InProfaneSpan(text, words, i, Scan(text, p)) then MASK_CHAR else text[i]
    decreases |text| - p
  {
    hide RunEnd, MatchesAt, IsProfane, InProfaneSpan, Replacement, MaskFrom, Scan;
    StepAt(text, words, p);
    if MatchesAt(text, p) {
      MatchAdvances(text, p);
      var e := RunEnd(text, p);
      SpansInText(text, e);
      MaskFromLength(text, words, e);
      ReplacementAt(text, p, e, words);
      if i >= e {
        MaskFromAt(text, words, e, i);
        InLaterSpan(text, words, i, Span(p, e), Scan(text, e));
      } else {
        InFirstSpan(text, words, i, Span(p, e), Scan(text, e));
      }
    } else {
      SpansInText(text, p + 1);
      MaskFromLength(text, words, p + 1);
      if i > p { MaskFromAt(text, words, p + 1, i); } else { BeforeSpans(text, words, i, Scan(text, p + 1)); }
    }
  }

  lemma StepAt(text: string, words: set<string>, p: nat)
    requires p < |text|
    ensures MatchesAt(text, p) ==>
              && p < RunEnd(text, p)
              && MaskFrom(text, words, p)
                 == Replacement(text[p..RunEnd(text, p)], words) + MaskFrom(text, words, RunEnd(text, p))
              && Scan(text, p) == [Span(p, RunEnd(text, p))] + Scan(text, RunEnd(text, p))
    ensures !MatchesAt(text, p) ==>
              && MaskFrom(text, words, p) == [text[p]] + MaskFrom(text, words, p + 1)
              && Scan(text, p) == Scan(text, p + 1)
  {
    hide MatchesAt, RunEnd, Replacement;
    if MatchesAt(text, p) { MatchAdvances(text, p); }
  }

  lemma ReplacementAt(text: string, p: nat, e: nat, words: set<string>)
    requires p <= e <= |text|
    ensures var r := Replacement(text[p..e], words);
            |r| == e - p && forall k :: 0 <= k < |r| ==>
                r[k] == if IsProfane(text[p..e], words) then MASK_CHAR else text[p + k]
  {
    hide IsProfane;
  }

  lemma BeforeSpans(text: string, words: set<string>, i: nat, spans: seq<Span>)
    requires forall t :: t in spans ==> t.start > i
    ensures !InProfaneSpan(text, words, i, spans)
  {
  }

  lemma {:induction false} MaskFromLength(text: string, words: set<string>, p: nat)
    requires p <= |text|
    ensures |MaskFrom(text, words, p)| == |text| - p
    decreases |text| - p
  {
    hide RunEnd, MatchesAt, IsProfane, Replacement;
    if p < |text| {
      if MatchesAt(text, p) {
        MatchAdvances(text, p);
        ReplacementAt(text, p, RunEnd(text, p), words);
        MaskFromLength(text, words, RunEnd(text, p));
      } else {
        MaskFromLength(text, words, p + 1);
      }
    }
  }

  lemma InFirstSpan(text: string, words: set<string>, i: nat, s: Span, rest: seq<Span>)
    requires s.start <= i < s.end <= |text| && forall t :: t in rest ==> t.start > i
    ensures InProfaneSpan(text, words, i, [s] + rest) <==> IsProfane(text[s.start..s.end], words)
  {
    assert s in [s] + rest;
  }

  lemma InLaterSpan(text: string, words: set<string>, i: nat, s: Span, rest: seq<Span>)
    requires s.end <= i
    ensures InProfaneSpan(text, words, i, [s] + rest) <==> InProfaneSpan(text, words, i, rest)
  {
    hide IsProfane;
    if InProfaneSpan(text, words, i, rest) {
      var t :| t in rest && t.start <= i < t.end <= |text| && IsProfane(text[t.start..t.end], words);
      assert t in [s] + rest;
    }
  }

  /** Masking keeps the length and changes exactly the characters of the profane words. */
  lemma MaskChangesExactlyProfane(text: string, words: set<string>, i: nat)
    ensures |Mask(text, words)| == |text|
    ensures i < |text| ==> Mask(text, words)[i] == if InProfane(text, words, i) then '*' else text[i]
  {
    hide MaskFrom, Scan, IsWord, IsProfane;
    MaskFromLength(text, words, 0);
    if i < |text| {
      MaskFromAt(text, words, 0, i);
      SpansInText(text, 0);
      forall s ensures s in Scan(text, 0) <==> IsWord(text, s) { ScanFindsWords(text, 0, s); }
      if InProfaneSpan(text, words, i, Scan(text, 0)) {
        var s :| s in Scan(text, 0) && s.start <= i < s.end <= |text| && IsProfane(text[s.start..s.end], words);
        assert IsWord(text, s);
      }
      if InProfane(text, words, i) {
        var s :| IsWord(text, s) && s.start <= i < s.end <= |text| && IsProfane(text[s.start..s.end], words);
        assert s in Scan(text, 0);
      }
    }
  }

  // ----- idempotence and locality

  /** A word of the masked text is a word of the text, unchanged and not profane. */
  lemma WordsSurvive(text: string, words: set<string>, s: Span)
    requires IsWord(Mask(text, words), s)
    ensures IsWord(text, s) && Mask(text, words)[s.start..s.end] == text[s.start..s.end]
    ensures !IsProfane(text[s.start..s.end], words)
  {
    hide Mask, InProfane, IsProfane, IsLetter;
    var m := Mask(text, words);
    MaskChangesExactlyProfane(text, words, s.start);
    forall i: nat | i < |text|
      ensures m[i] == if InProfane(text, words, i) then MASK_CHAR else text[i]
    {
      MaskChangesExactlyProfane(text, words, i);
    }
    StarIsNoToken();
    forall i: nat | s.start <= i < s.end ensures !InProfane(text, words, i) && m[i] == text[i] { assert IsToken(m[i]); }
    if s.start > 0 && InProfane(text, words, s.start - 1) { NeighbourInProfane(text, words, s.start - 1, s.start); }
    if s.end < |text| && InProfane(text, words, s.end) { NeighbourInProfane(text, words, s.end, s.end - 1); }
    assert IsWord(text, s);
    if IsProfane(text[s.start..s.end], words) { WordIsInProfane(text, words, s); }
  }

  lemma StarIsNoToken()
    ensures !IsToken(MASK_CHAR)
  {
  }

  lemma WordIsInProfane(text: string, words: set<string>, s: Span)
    requires IsWord(text, s) && IsProfane(text[s.start..s.end], words)
    ensures InProfane(text, words, s.start)
  {
    hide IsProfane;
  }

  /** Next to a character of a profane word, a token character is of the same word. */
  lemma NeighbourInProfane(text: string, words: set<string>, i: nat, j: nat)
    requires i < |text| && j < |text| && (j == i + 1 || i == j + 1) && IsToken(text[j])
    requires InProfane(text, words, i)
    ensures InProfane(text, words, j)
  {
    hide IsProfane, IsToken, IsLetter;
    var s :| IsWord(text, s) && s.start <= i < s.end <= |text| && IsProfane(text[s.start..s.end], words);
    assert s.start <= j < s.end;
  }

  /** Masking twice is masking once. */
  lemma MaskIsIdempotent(text: string, words: set<string>)
    ensures Mask(Mask(text, words), words) == Mask(text, words)
  {
    hide Mask, IsProfane, IsWord;
    var m := Mask(text, words);
    MaskChangesExactlyProfane(m, words, 0);
    forall i: nat | i < |m| ensures Mask(m, words)[i] == m[i] {
      MaskChangesExactlyProfane(m, words, i);
      if InProfane(m, words, i) {
        var s :| IsWord(m, s) && s.start <= i < s.end <= |m| && IsProfane(m[s.start..s.end], words);
        WordsSurvive(text, words, s);
        assert false;
      }
    }
  }

  /** The words of a text cut at a non-token character are those of the two sides. */
  lemma WordsOfSides(a: string, c: char, b: string, s: Span)
    requires !IsToken(c)
    ensures var t, n := a + [c] + b, |a| + 1;
            IsWord(t, s)
            <==> if s.end <= |a| then IsWord(a, s) else s.start >= n && IsWord(b, Span(s.start - n, s.end - n))
  {
    hide IsToken, IsLetter;
    var t, n := a + [c] + b, |a| + 1;
    assert t[|a|] == c;
    if s.end <= |a| {
      SameSide(t, 0, a, s);
    } else if s.start >= n && s.start < s.end <= |t| {
      SameSide(t, n, b, Span(s.start - n, s.end - n));
    }
  }

  /** A stretch `u` of `t` that starts at `n`, with no token character beside it: its words are `t`'s. */
  lemma SameSide(t: string, n: nat, u: string, s: Span)
    requires n + |u| <= |t| && t[n..n + |u|] == u && s.end <= |u|
    requires (n > 0 ==> !IsToken(t[n - 1])) && (n + |u| < |t| ==> !IsToken(t[n + |u|]))
    ensures IsWord(u, s) <==> IsWord(t, Span(s.start + n, s.end + n))
  {
    hide IsToken, IsLetter;
    forall i | 0 <= i < |u| ensures u[i] == t[i + n] { assert t[n..n + |u|][i] == t[i + n]; }
    if IsWord(u, s) {
      var i :| s.start <= i < s.end && IsLetter(u[i]);
      assert IsLetter(t[i + n]);
      forall j | s.start + n <= j < s.end + n ensures IsToken(t[j]) { assert IsToken(u[j - n]); }
    }
    if IsWord(t, Span(s.start + n, s.end + n)) {
      var i :| s.start + n <= i < s.end + n && IsLetter(t[i]);
      assert IsLetter(u[i - n]);
    }
  }

  lemma InProfaneOfText(a: string, c: char, b: string, words: set<string>, i: nat)
    requires !IsToken(c) && InProfane(a + [c] + b, words, i)
    ensures var n := |a| + 1; if i < |a| then InProfane(a, words, i) else i >= n && InProfane(b, words, i - n)
  {
    hide IsToken, IsProfane, IsWord;
    var t, n := a + [c] + b, |a| + 1;
    var s :| IsWord(t, s) && s.start <= i < s.end <= |t| && IsProfane(t[s.start..s.end], words);
    WordsOfSides(a, c, b, s);
    if s.end <= |a| {
      assert t[s.start..s.end] == a[s.start..s.end];
    } else {
      assert t[n..] == b;
      assert t[s.start..s.end] == t[n..][s.start - n..s.end - n];
    }
  }

  lemma InProfaneOfLeft(a: string, c: char, b: string, words: set<string>, i: nat)
    requires !IsToken(c) && InProfane(a, words, i)
    ensures InProfane(a + [c] + b, words, i)
  {
    hide IsToken, IsProfane, IsWord;
    var t := a + [c] + b;
    var s :| IsWord(a, s) && s.start <= i < s.end <= |a| && IsProfane(a[s.start..s.end], words);
    WordsOfSides(a, c, b, s);
    assert t[s.start..s.end] == a[s.start..s.end];
  }

  lemma InProfaneOfRight(a: string, c: char, b: string, words: set<string>, i: nat)
    requires !IsToken(c) && InProfane(b, words, i)
    ensures InProfane(a + [c] + b, words, i + |a| + 1)
  {
    hide IsToken, IsProfane, IsWord;
    var t, n := a + [c] + b, |a| + 1;
    var s :| IsWord(b, s) && s.start <= i < s.end <= |b| && IsProfane(b[s.start..s.end], words);
    var shifted := Span(s.start + n, s.end + n);
    WordsOfSides(a, c, b, shifted);
    assert t[shifted.start..shifted.end] == b[s.start..s.end];
  }

  /** Masking works side by side across any character that cannot be part of a word. */
  lemma MaskDistributes(a: string, c: char, b: string, words: set<string>)
    requires !IsToken(c)
    ensures Mask(a + [c] + b, words) == Mask(a, words) + [c] + Mask(b, words)
  {
    hide Mask, InProfane, IsToken;
    var t, n := a + [c] + b, |a| + 1;
    MaskChangesExactlyProfane(t, words, 0);
    MaskChangesExactlyProfane(a, words, 0);
    MaskChangesExactlyProfane(b, words, 0);
    forall i: nat | i < |t| ensures Mask(t, words)[i] == (Mask(a, words) + [c] + Mask(b, words))[i] {
      MaskChangesExactlyProfane(t, words, i);
      if InProfane(t, words, i) { InProfaneOfText(a, c, b, words, i); }
      if i < |a| {
        MaskChangesExactlyProfane(a, words, i);
        if InProfane(a, words, i) { InProfaneOfLeft(a, c, b, words, i); }
      } else if i >= n {
        MaskChangesExactlyProfane(b, words, i - n);
        if InProfane(b, words, i - n) { InProfaneOfRight(a, c, b, words, i - n); }
      }
    }
  }
}
