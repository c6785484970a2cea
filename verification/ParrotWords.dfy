/** Which tokens the profanity filter takes for which words, and in which order it reports them. */
module ParrotWords {
  import opened ParrotProfanity

  const DISGUISES := "$@01!345789"
  const DISGUISED := "saoiieastbg"

  /** How a character of a message may stand for one of a word: an upper-case letter for its lower case, a disguise for
      what it disguises, and any other character for itself. */
  ghost predicate StandsFor(c: char, d: char) {
    if 'A' <= c <= 'Z' then d as int == c as int + 32
    else if c in DISGUISES then exists i :: 0 <= i < 11 && DISGUISES[i] == c && DISGUISED[i] == d
    else d == c
  }

  lemma StandsForOne(c: char, d: char)
    ensures StandsFor(c, d) <==> d == Unleet(LowerChar(c))
  {
    if c in DISGUISES {
      var i :| 0 <= i < |DISGUISES| && DISGUISES[i] == c;
      assert DISGUISED[i] == Unleet(LowerChar(c));
      forall j | 0 <= j < 11 && DISGUISES[j] == c ensures j == i {}
    }
  }

  /** Tokens are made of letters and disguises. */
  lemma TokensAre(c: char)
    ensures IsToken(c) <==> 'a' <= c <= 'z' || 'A' <= c <= 'Z' || c in DISGUISES
  {
  }

  /** Character for character, the token stands for the word. */
  ghost predicate Disguises(token: string, word: string) {
    |token| == |word| && forall i :: 0 <= i < |token| ==> StandsFor(token[i], word[i])
  }

  lemma {:induction false} NormaliseAt(token: string)
    ensures |Normalise(token)| == |token|
    ensures forall i :: 0 <= i < |token| ==> Normalise(token)[i] == Unleet(LowerChar(token[i]))
  {
    hide Unleet, LowerChar;
    if token != "" { NormaliseAt(token[1..]); }
  }

  lemma DisguisesOne(token: string, word: string)
    ensures Disguises(token, word) <==> word == Normalise(token)
  {
    hide StandsFor, Unleet, LowerChar;
    NormaliseAt(token);
    forall i | 0 <= i < |token| && |token| == |word|
      ensures StandsFor(token[i], word[i]) <==> word[i] == Unleet(LowerChar(token[i]))
    {
      StandsForOne(token[i], word[i]);
    }
  }

  /** `token[i..j]` is what is left of the token without the exclamation marks at its ends. */
  ghost predicate CoreAt(token: string, i: nat, j: nat) {
    && i < j <= |token| && token[i] != '!' && token[j - 1] != '!'
    && (forall k :: 0 <= k < i ==> token[k] == '!') && forall k :: j <= k < |token| ==> token[k] == '!'
  }

  lemma {:induction false} StripLeftAt(s: string) returns (i: nat)
    ensures i <= |s| && StripLeft(s) == s[i..] && (forall k :: 0 <= k < i ==> s[k] == '!') && (i < |s| ==> s[i] != '!')
  {
    i := 0;
    if s != "" && s[0] == '!' {
      i := StripLeftAt(s[1..]);
      i := i + 1;
    }
  }

  lemma {:induction false} StripRightAt(s: string) returns (j: nat)
    ensures j <= |s| && StripRight(s) == s[..j] && (forall k :: j <= k < |s| ==> s[k] == '!')
    ensures j > 0 ==> s[j - 1] != '!'
  {
    j := |s|;
    if s != "" && s[|s| - 1] == '!' {
      var t := s[..|s| - 1];
      j := StripRightAt(t);
      forall k | j <= k < |s| ensures s[k] == '!' { assert k < |t| ==> t[k] == '!'; }
    }
  }

  lemma StripIs(token: string)
    ensures Strip(token) == "" <==> forall k :: 0 <= k < |token| ==> token[k] == '!'
    ensures Strip(token) != "" ==> exists i: nat, j: nat :: CoreAt(token, i, j) && Strip(token) == token[i..j]
  {
    hide StripLeft, StripRight;
    var i := StripLeftAt(token);
    var j := StripRightAt(token[i..]);
    assert Strip(token) == token[i..][..j] == token[i..i + j];
    forall k | i + j <= k < |token| ensures token[k] == '!' { assert token[i..][k - i] == '!'; }
    if j > 0 {
      assert token[i..][j - 1] == token[i + j - 1];
      assert CoreAt(token, i, i + j);
    }
  }

  lemma OneCore(token: string, i: nat, j: nat, i': nat, j': nat)
    requires CoreAt(token, i, j) && CoreAt(token, i', j')
    ensures i == i' && j == j'
  {
  }

  /** A token is profane exactly when it stands for a listed word once the exclamation marks at its ends are gone. */
  lemma ProfaneIff(token: string, words: set<string>)
    ensures IsProfane(token, words)
            <==> exists i: nat, j: nat, word ::
                   CoreAt(token, i, j) && word in words && Disguises(token[i..j], word)
  {
    hide Strip, Disguises, Normalise;
    StripIs(token);
    if IsProfane(token, words) {
      var i: nat, j: nat :| CoreAt(token, i, j) && Strip(token) == token[i..j];
      DisguisesOne(token[i..j], Normalise(token[i..j]));
    }
    if i: nat, j: nat, word :| CoreAt(token, i, j) && word in words && Disguises(token[i..j], word) {
      DisguisesOne(token[i..j], word);
      NotAllMarks(token, i, j);
      var i': nat, j': nat :| CoreAt(token, i', j') && Strip(token) == token[i'..j'];
      OneCore(token, i, j, i', j');
    }
  }

  lemma NotAllMarks(token: string, i: nat, j: nat)
    requires CoreAt(token, i, j)
    ensures !forall k :: 0 <= k < |token| ==> token[k] == '!'
  {
  }

  /** Two tokens with their exclamation marks at the same places, whose characters stand for the same ones. */
  ghost predicate SameWord(a: string, b: string) {
    && |a| == |b|
    && forall k :: 0 <= k < |a| ==> (a[k] == '!' <==> b[k] == '!') && StandForSame(a[k], b[k])
  }

  ghost predicate StandForSame(c: char, c': char) { exists d :: StandsFor(c, d) && StandsFor(c', d) }

  lemma SameWordIsProfane(a: string, b: string, words: set<string>)
    requires SameWord(a, b)
    ensures IsProfane(a, words) ==> IsProfane(b, words)
  {
    hide StandsFor, IsProfane;
    ProfaneIff(a, words);
    ProfaneIff(b, words);
    if IsProfane(a, words) {
      var i: nat, j: nat, word :| CoreAt(a, i, j) && word in words && Disguises(a[i..j], word);
      forall k | 0 <= k < j - i ensures StandsFor(b[i..j][k], word[k]) {
        assert StandForSame(a[i + k], b[i + k]);
        var d :| StandsFor(a[i + k], d) && StandsFor(b[i + k], d);
        assert a[i..j][k] == a[i + k] && b[i..j][k] == b[i + k];
        StandsForOne(a[i + k], d);
        StandsForOne(a[i + k], word[k]);
      }
      assert CoreAt(b, i, j) && Disguises(b[i..j], word);
    }
  }

  /** Neither letter case nor disguise matters. */
  lemma DisguiseDoesNotMatter(a: string, b: string, words: set<string>)
    requires SameWord(a, b)
    ensures IsProfane(a, words) <==> IsProfane(b, words)
  {
    hide StandsFor, IsProfane;
    forall k | 0 <= k < |a| ensures StandForSame(b[k], a[k]) { assert StandForSame(a[k], b[k]); }
    SameWordIsProfane(a, b, words);
    SameWordIsProfane(b, a, words);
  }

  /** Exclamation marks at the ends do not matter. */
  lemma MarksDoNotMatter(token: string, words: set<string>)
    ensures IsProfane("!" + token, words) <==> IsProfane(token, words)
    ensures IsProfane(token + "!", words) <==> IsProfane(token, words)
  {
    hide StripRight, StripLeft, Normalise;
    MarkInFront(token);
    MarkBehind(token);
  }

  lemma MarkInFront(token: string)
    ensures Strip("!" + token) == Strip(token)
  {
    assert ("!" + token)[1..] == token;
  }

  lemma {:induction false} MarkBehind(token: string)
    ensures Strip(token + "!") == Strip(token)
  {
    if token == "" {
      assert token + "!" == "!";
    } else if token[0] == '!' {
      assert (token + "!")[1..] == token[1..] + "!";
      MarkBehind(token[1..]);
    } else {
      assert StripLeft(token + "!") == token + "!";
      assert (token + "!")[..|token|] == token;
    }
  }

  // ----- the report

  lemma {:induction false} SpansAscend(text: string, p: nat)
    requires p <= |text|
    ensures forall s :: s in Scan(text, p) ==> p <= s.start < s.end <= |text|
    ensures forall i, j :: 0 <= i < j < |Scan(text, p)| ==> Scan(text, p)[i].end <= Scan(text, p)[j].start
    decreases |text| - p
  {
    hide RunEnd, MatchesAt;
    SpansInText(text, p);
    if p < |text| {
      if MatchesAt(text, p) {
        MatchAdvances(text, p);
        SpansAscend(text, RunEnd(text, p));
        forall s | s in Scan(text, RunEnd(text, p)) ensures RunEnd(text, p) <= s.start {}
      } else {
        SpansAscend(text, p + 1);
      }
    }
  }

  lemma {:induction false} ReportedAt(text: string, words: set<string>, spans: seq<Span>) returns (at: seq<Span>)
    requires forall s :: s in spans ==> s.start <= s.end <= |text|
    requires forall i, j :: 0 <= i < j < |spans| ==> spans[i].end <= spans[j].start
    ensures |at| == |ProfaneWords(text, words, spans)|
    ensures forall s :: s in at <==> s in spans && IsProfane(text[s.start..s.end], words)
    ensures forall i, j :: 0 <= i < j < |at| ==> at[i].end <= at[j].start
    ensures forall i :: 0 <= i < |at| ==> Reported(text, words, at[i], ProfaneWords(text, words, spans)[i])
  {
    hide IsProfane, Normalise, Strip, ProfaneWords, Reported;
    FirstReported(text, words, spans);
    at := [];
    if spans != [] {
      var first := spans[0];
      var rest := ReportedAt(text, words, spans[1..]);
      assert spans == [first] + spans[1..];
      if IsProfane(text[first.start..first.end], words) {
        at := [first] + rest;
        forall j | 0 <= j < |rest| ensures first.end <= rest[j].start { assert rest[j] in spans[1..]; }
      } else {
        at := rest;
      }
    }
  }

  lemma FirstReported(text: string, words: set<string>, spans: seq<Span>)
    requires forall s :: s in spans ==> s.start <= s.end <= |text|
    ensures spans == [] ==> ProfaneWords(text, words, spans) == []
    ensures spans != [] ==>
              var found, later := ProfaneWords(text, words, spans), ProfaneWords(text, words, spans[1..]);
              if IsProfane(text[spans[0].start..spans[0].end], words)
              then |found| == |later| + 1 && found[1..] == later && Reported(text, words, spans[0], found[0])
              else found == later
  {
    hide IsProfane, Normalise, Strip;
  }

  /** The words reported are those of the profane words of the text, one for each, from left to right. */
  lemma ReportIsInOrder(text: string, words: set<string>, found: seq<string>)
    requires forall s :: s in Scan(text, 0) ==> s.start <= s.end <= |text|
    requires found == ProfaneWords(text, words, Scan(text, 0))
    ensures exists at: seq<Span> ::
              && |at| == |found|
              && (forall s :: s in at <==> IsWord(text, s) && IsProfane(text[s.start..s.end], words))
              && (forall i, j :: 0 <= i < j < |at| ==> at[i].end <= at[j].start)
              && forall i :: 0 <= i < |at| ==> Disguises(Strip(text[at[i].start..at[i].end]), found[i])
  {
    hide IsProfane, Scan, IsWord, ProfaneWords, Normalise, Strip, Disguises;
    SpansAscend(text, 0);
    var at := ReportedAt(text, words, Scan(text, 0));
    forall s ensures s in Scan(text, 0) <==> IsWord(text, s) { ScanFindsWords(text, 0, s); }
    forall i | 0 <= i < |at| ensures Disguises(Strip(text[at[i].start..at[i].end]), found[i]) {
      DisguisesOne(Strip(text[at[i].start..at[i].end]), found[i]);
    }
  }
}
