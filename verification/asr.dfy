/**
 * Speech-recognition scoring and the recognition session (src/hooks/useASR.ts):
 * how an expected line and a transcript are tokenised and compared, and how the
 * session buffers partial and committed transcript text and releases its
 * socket, audio pipeline and microphone.
 */
module Asr {
  import opened Prelude

  // ------------------------------------------------------------ normalisation

  /** The characters `.replace(/[^\w\s']/g, '')` keeps. */
  predicate Kept(c: char) { IsWordChar(c) || IsSpace(c) || c == '\'' }

  /** The characters a normalised token is made of: lowercase letters, digits, `_` and `'`. */
  predicate TokenChar(c: char) { IsLowerLetter(c) || IsDigit(c) || c == '_' || c == '\'' }

  predicate IsToken(w: string) { w != [] && forall i :: 0 <= i < |w| ==> TokenChar(w[i]) }

  /** Removes every character outside `\w`, `\s` and the apostrophe. */
  function StripPunctuation(s: string): (r: string)
    ensures forall i :: 0 <= i < |r| ==> Kept(r[i]) && r[i] in s
    ensures (forall i :: 0 <= i < |s| ==> Kept(s[i])) ==> r == s
  {
    if s == [] then []
    else (if Kept(s[0]) then [s[0]] else []) + StripPunctuation(s[1..])
  }

  /** The longest prefix of s without white space. */
  function LeadingWord(s: string): (w: string)
    ensures |w| <= |s| && w == s[..|w|]
    ensures forall i :: 0 <= i < |w| ==> !IsSpace(w[i])
    ensures |w| < |s| ==> IsSpace(s[|w|])
  {
    if s == [] || IsSpace(s[0]) then [] else [s[0]] + LeadingWord(s[1..])
  }

  /** `.split(/\s+/).filter(w => w.length > 0)`: the maximal runs of non-space characters. */
  function SplitWords(s: string): (ws: seq<string>)
    ensures forall k :: 0 <= k < |ws| ==> ws[k] != []
    decreases |s|
  {
    if s == [] then []
    else if IsSpace(s[0]) then SplitWords(s[1..])
    else
      var w := LeadingWord(s);
      assert w != [] by { assert |w| < |s| ==> IsSpace(s[|w|]); }
      [w] + SplitWords(s[|w|..])
  }

  /** Every character of every word comes from s and is not white space. */
  lemma {:induction false} SplitWordsChars(s: string)
    ensures forall k, i :: 0 <= k < |SplitWords(s)| && 0 <= i < |SplitWords(s)[k]| ==>
      !IsSpace(SplitWords(s)[k][i]) && SplitWords(s)[k][i] in s
    decreases |s|
  {
    var ws := SplitWords(s);
    if s != [] {
      var start := if IsSpace(s[0]) then 1 else |LeadingWord(s)|;
      var rest := s[start..];
      var tail := SplitWords(rest);
      SplitWordsChars(rest);
      forall k, i | 0 <= k < |ws| && 0 <= i < |ws[k]|
        ensures !IsSpace(ws[k][i]) && ws[k][i] in s
      {
        if IsSpace(s[0]) {
          assert ws[k][i] == tail[k][i];
          assert tail[k][i] in rest;
        } else {
          var w := LeadingWord(s);
          assert w != [] by { assert |w| < |s| ==> IsSpace(s[|w|]); }
          assert ws == [w] + tail;
          if k == 0 {
            assert ws[k][i] == s[i];
          } else {
            assert ws[k] == tail[k - 1];
            assert tail[k - 1][i] in rest;
          }
        }
      }
    }
  }

  /** normalizeText: lowercase, drop punctuation, split on white space, drop empty tokens. */
  function NormalizeText(text: string): seq<string>
  {
    SplitWords(StripPunctuation(Lower(text)))
  }

  /** Every token normalizeText produces is non-empty and made of lowercase word characters and apostrophes. */
  lemma NormalizeTokens(text: string)
    ensures forall k :: 0 <= k < |NormalizeText(text)| ==> IsToken(NormalizeText(text)[k])
  {
    var lowered := Lower(text);
    var cleaned := StripPunctuation(lowered);
    LowerAt(text);
    assert forall c :: c in lowered ==> !IsUpper(c);
    SplitWordsChars(cleaned);
    var ws := SplitWords(cleaned);
    forall k | 0 <= k < |ws|
      ensures IsToken(ws[k])
    {
      forall i | 0 <= i < |ws[k]|
        ensures TokenChar(ws[k][i])
      {
        var c := ws[k][i];
        assert c in cleaned && !IsSpace(c);
        assert Kept(c) && c in lowered;
      }
    }
  }

  /** `words.join(' ')`. */
  function JoinWithSpaces(ws: seq<string>): string
  {
    if ws == [] then ""
    else if |ws| == 1 then ws[0]
    else ws[0] + " " + JoinWithSpaces(ws[1..])
  }

  lemma {:induction false} JoinOfTokens(ws: seq<string>)
    requires forall k :: 0 <= k < |ws| ==> IsToken(ws[k])
    ensures forall i :: 0 <= i < |JoinWithSpaces(ws)| ==>
      JoinWithSpaces(ws)[i] == ' ' || TokenChar(JoinWithSpaces(ws)[i])
  {
    if |ws| > 1 {
      JoinOfTokens(ws[1..]);
      var w, rest := ws[0], JoinWithSpaces(ws[1..]);
      assert JoinWithSpaces(ws) == w + " " + rest;
      forall i | 0 <= i < |JoinWithSpaces(ws)|
        ensures JoinWithSpaces(ws)[i] == ' ' || TokenChar(JoinWithSpaces(ws)[i])
      {
        if i > |w| { assert JoinWithSpaces(ws)[i] == rest[i - |w| - 1]; }
      }
    }
  }

  lemma {:induction false} LeadingWordOfToken(w: string, tail: string)
    requires w != [] && forall i :: 0 <= i < |w| ==> !IsSpace(w[i])
    requires tail == [] || IsSpace(tail[0])
    ensures LeadingWord(w + tail) == w
    decreases |w|
  {
    assert (w + tail)[1..] == w[1..] + tail;
    if |w| > 1 {
      LeadingWordOfToken(w[1..], tail);
    } else {
      assert w[1..] + tail == tail;
    }
  }

  /** A space-free word followed by a space splits off as the first word. */
  lemma SplitOfWordThen(w: string, rest: string)
    requires w != [] && forall i :: 0 <= i < |w| ==> !IsSpace(w[i])
    ensures SplitWords(w + " " + rest) == [w] + SplitWords(rest)
  {
    var joined := w + " " + rest;
    assert joined == w + (" " + rest);
    LeadingWordOfToken(w, " " + rest);
    assert joined[|w|..] == " " + rest;
    assert (" " + rest)[1..] == rest;
  }

  /** A single space-free word splits to itself. */
  lemma SplitOfWord(w: string)
    requires w != [] && forall i :: 0 <= i < |w| ==> !IsSpace(w[i])
    ensures SplitWords(w) == [w]
  {
    LeadingWordOfToken(w, []);
    assert w + [] == w;
    assert w[|w|..] == [];
  }

  /** Splitting a space-joined list of space-free words gives the words back. */
  lemma {:induction false} SplitOfJoin(ws: seq<string>)
    requires forall k :: 0 <= k < |ws| ==> IsToken(ws[k])
    ensures SplitWords(JoinWithSpaces(ws)) == ws
  {
    if ws != [] {
      var w := ws[0];
      assert forall i :: 0 <= i < |w| ==> !IsSpace(w[i]) by {
        assert IsToken(w);
      }
      if |ws| == 1 {
        SplitOfWord(w);
      } else {
        SplitOfJoin(ws[1..]);
        SplitOfWordThen(w, JoinWithSpaces(ws[1..]));
        assert ws == [w] + ws[1..];
      }
    }
  }

  /** normalizeText is idempotent: normalising the space-join of its output changes nothing. */
  lemma NormalizeIdempotent(text: string)
    ensures NormalizeText(JoinWithSpaces(NormalizeText(text))) == NormalizeText(text)
  {
    var ws := NormalizeText(text);
    var joined := JoinWithSpaces(ws);
    NormalizeTokens(text);
    JoinOfTokens(ws);
    LowerOfLowerCase(joined);
    assert StripPunctuation(joined) == joined;
    SplitOfJoin(ws);
  }

  // ------------------------------------------------------------ scoring

  datatype Metrics = Metrics(
    accuracy: int,
    wordMatchRate: int,
    expectedWords: nat,
    spokenWords: nat,
    matchedWords: nat,
    missedWords: seq<string>,
    extraWords: seq<string>,
    timeTaken: int)

  /** `new Set(words)`. */
  function SetOf(ws: seq<string>): set<string> { set w | w in ws }

  /** The words of xs, in order and with repeats, that belong to s. */
  function Among(xs: seq<string>, s: set<string>): (r: seq<string>)
    ensures forall i :: 0 <= i < |r| ==> r[i] in s && r[i] in xs
    decreases |xs|
  {
    if xs == [] then []
    else
      var p, w := xs[..|xs| - 1], xs[|xs| - 1];
      assert xs == p + [w];
      Among(p, s) + (if w in s then [w] else [])
  }

  /** The words of xs, in order and with repeats, that do not belong to s. */
  function NotAmong(xs: seq<string>, s: set<string>): (r: seq<string>)
    ensures forall i :: 0 <= i < |r| ==> r[i] !in s && r[i] in xs
    decreases |xs|
  {
    if xs == [] then []
    else
      var p, w := xs[..|xs| - 1], xs[|xs| - 1];
      assert xs == p + [w];
      NotAmong(p, s) + (if w !in s then [w] else [])
  }

  /** One word occurs in the matched list as often as in xs when it belongs to s, and never otherwise. */
  /** One more word of xs adds one occurrence of itself to the matched list iff it is kept. */
  lemma AmongCountSnoc(p: seq<string>, x: string, s: set<string>, w: string)
    ensures Count(Among(p + [x], s), w) == Count(Among(p, s), w) + (if x in s && x == w then 1 else 0)
  {
    assert (p + [x])[..|p|] == p;
    var r := Among(p, s);
    if x in s {
      assert Among(p + [x], s) == r + [x];
      CountSnoc(r, x, w);
    } else {
      assert Among(p + [x], s) == r;
    }
  }

  lemma {:induction false} AmongCount(xs: seq<string>, s: set<string>, w: string)
    ensures Count(Among(xs, s), w) == (if w in s then Count(xs, w) else 0)
    decreases |xs|
  {
    if xs != [] {
      var p, x := xs[..|xs| - 1], xs[|xs| - 1];
      assert xs == p + [x];
      AmongCount(p, s, w);
      AmongCountSnoc(p, x, s, w);
      CountSnoc(p, x, w);
    }
  }



  /** The matched list holds every word of s exactly as often as xs does, and nothing else. */
  lemma AmongCounts(xs: seq<string>, s: set<string>)
    ensures forall w :: Count(Among(xs, s), w) == (if w in s then Count(xs, w) else 0)
  {
    forall w
      ensures Count(Among(xs, s), w) == (if w in s then Count(xs, w) else 0)
    {
      AmongCount(xs, s, w);
    }
  }

  /** One word occurs in the unmatched list as often as in xs when it is absent from s, and never otherwise. */
  /** One more word of xs adds one occurrence of itself to the unmatched list iff it is kept. */
  lemma NotAmongCountSnoc(p: seq<string>, x: string, s: set<string>, w: string)
    ensures Count(NotAmong(p + [x], s), w) == Count(NotAmong(p, s), w) + (if x !in s && x == w then 1 else 0)
  {
    assert (p + [x])[..|p|] == p;
    var r := NotAmong(p, s);
    if x !in s {
      assert NotAmong(p + [x], s) == r + [x];
      CountSnoc(r, x, w);
    } else {
      assert NotAmong(p + [x], s) == r;
    }
  }

  lemma {:induction false} NotAmongCount(xs: seq<string>, s: set<string>, w: string)
    ensures Count(NotAmong(xs, s), w) == (if w in s then 0 else Count(xs, w))
    decreases |xs|
  {
    if xs != [] {
      var p, x := xs[..|xs| - 1], xs[|xs| - 1];
      assert xs == p + [x];
      NotAmongCount(p, s, w);
      NotAmongCountSnoc(p, x, s, w);
      CountSnoc(p, x, w);
    }
  }



  /** The unmatched list holds every word outside s exactly as often as xs does, and nothing else. */
  lemma NotAmongCounts(xs: seq<string>, s: set<string>)
    ensures forall w :: Count(NotAmong(xs, s), w) == (if w in s then 0 else Count(xs, w))
  {
    forall w
      ensures Count(NotAmong(xs, s), w) == (if w in s then 0 else Count(xs, w))
    {
      NotAmongCount(xs, s, w);
    }
  }

  /** Filtering works piecewise, so the matched words keep the order of xs. */
  lemma {:induction false} AmongAppend(a: seq<string>, b: seq<string>, s: set<string>)
    ensures Among(a + b, s) == Among(a, s) + Among(b, s)
    decreases |b|
  {
    if b == [] {
      assert a + b == a;
    } else {
      var c, x := b[..|b| - 1], b[|b| - 1];
      assert b == c + [x];
      assert a + b == (a + c) + [x];
      AmongAppend(a, c, s);
    }
  }

  /** Filtering works piecewise, so the unmatched words keep the order of xs. */
  lemma {:induction false} NotAmongAppend(a: seq<string>, b: seq<string>, s: set<string>)
    ensures NotAmong(a + b, s) == NotAmong(a, s) + NotAmong(b, s)
    decreases |b|
  {
    if b == [] {
      assert a + b == a;
    } else {
      var c, x := b[..|b| - 1], b[|b| - 1];
      assert b == c + [x];
      assert a + b == (a + c) + [x];
      NotAmongAppend(a, c, s);
    }
  }

  /** Every word of xs lands in exactly one of the two lists. */
  lemma {:induction false} AmongPartition(xs: seq<string>, s: set<string>)
    ensures |Among(xs, s)| + |NotAmong(xs, s)| == |xs|
    ensures forall w :: w in xs && w !in s ==> w in NotAmong(xs, s)
    decreases |xs|
  {
    if xs != [] {
      var p := xs[..|xs| - 1];
      AmongPartition(p, s);
      assert xs == p + [xs[|xs| - 1]];
    }
  }

  lemma {:induction false} AmongOfSubset(xs: seq<string>, s: set<string>)
    requires forall i :: 0 <= i < |xs| ==> xs[i] in s
    ensures Among(xs, s) == xs && NotAmong(xs, s) == []
    decreases |xs|
  {
    if xs != [] {
      var p := xs[..|xs| - 1];
      AmongOfSubset(p, s);
      assert xs == p + [xs[|xs| - 1]];
    }
  }

  /** `Math.round(part / whole * 100)`, or 0 when the whole is empty. */
  function Percent(part: nat, whole: nat): int
  {
    if whole > 0 then RoundDiv(100 * part, whole) else 0
  }

  /** calculateMetrics on the two token lists. */
  function ScoreWords(e: seq<string>, sp: seq<string>, timeTaken: int): Metrics
  {
    var matched := Among(e, SetOf(sp));
    var extra := NotAmong(sp, SetOf(e));
    Metrics(
      accuracy := Percent(|matched|, |e| + |extra|),
      wordMatchRate := Percent(|matched|, |e|),
      expectedWords := |e|,
      spokenWords := |sp|,
      matchedWords := |matched|,
      missedWords := Dedup(NotAmong(e, SetOf(sp))),
      extraWords := Dedup(extra),
      timeTaken := timeTaken)
  }

  /** calculateMetrics: score the normalised spoken text against the normalised expected text. */
  function Score(expected: string, spoken: string, timeTaken: int): Metrics
  {
    ScoreWords(NormalizeText(expected), NormalizeText(spoken), timeTaken)
  }

  /** calculateMetrics as the source computes it, with one pass over each token list. */
  method CalculateMetrics(expected: string, spoken: string, timeTaken: int) returns (m: Metrics)
    ensures m == Score(expected, spoken, timeTaken)
  {
    var expectedWords := NormalizeText(expected);
    var spokenWords := NormalizeText(spoken);
    m := MetricsOfWords(expectedWords, spokenWords, timeTaken);
  }

  /** The body of calculateMetrics after both texts are normalised. */
  method MetricsOfWords(expectedWords: seq<string>, spokenWords: seq<string>, timeTaken: int) returns (m: Metrics)
    ensures m == ScoreWords(expectedWords, spokenWords, timeTaken)
  {
    var expectedSet := SetOf(expectedWords);
    var spokenSet := SetOf(spokenWords);
    var matched, missed := SplitExpected(expectedWords, spokenSet);
    var extra := CollectExtra(spokenWords, expectedSet);
    var wordMatchRate := if |expectedWords| > 0 then RoundDiv(100 * |matched|, |expectedWords|) else 0;
    var totalRelevant := |expectedWords| + |extra|;
    var accuracy := if totalRelevant > 0 then RoundDiv(100 * |matched|, totalRelevant) else 0;
    m := Metrics(accuracy, wordMatchRate, |expectedWords|, |spokenWords|, |matched|,
                 Dedup(missed), Dedup(extra), timeTaken);
  }

  /** The first forEach of calculateMetrics: each expected token goes to matched or to missed. */
  method SplitExpected(expectedWords: seq<string>, spokenSet: set<string>) returns (matched: seq<string>, missed: seq<string>)
    ensures matched == Among(expectedWords, spokenSet)
    ensures missed == NotAmong(expectedWords, spokenSet)
  {
    matched, missed := [], [];
    for i := 0 to |expectedWords|
      invariant matched == Among(expectedWords[..i], spokenSet)
      invariant missed == NotAmong(expectedWords[..i], spokenSet)
    {
      var word := expectedWords[i];
      assert expectedWords[..i + 1][..i] == expectedWords[..i];
      if word in spokenSet {
        matched := matched + [word];
      } else {
        missed := missed + [word];
      }
    }
    assert expectedWords[..|expectedWords|] == expectedWords;
  }

  /** The second forEach of calculateMetrics: spoken tokens that were not expected. */
  method CollectExtra(spokenWords: seq<string>, expectedSet: set<string>) returns (extra: seq<string>)
    ensures extra == NotAmong(spokenWords, expectedSet)
  {
    extra := [];
    for i := 0 to |spokenWords|
      invariant extra == NotAmong(spokenWords[..i], expectedSet)
    {
      var word := spokenWords[i];
      assert spokenWords[..i + 1][..i] == spokenWords[..i];
      if word !in expectedSet {
        extra := extra + [word];
      }
    }
    assert spokenWords[..|spokenWords|] == spokenWords;
  }

  /** The counts are token counts before de-duplication, and matched plus missed covers the expected tokens. */
  lemma ScoreCounts(e: seq<string>, sp: seq<string>, timeTaken: int)
    ensures var m := ScoreWords(e, sp, timeTaken);
      && m.expectedWords == |e|
      && m.spokenWords == |sp|
      && m.matchedWords + |NotAmong(e, SetOf(sp))| == |e|
      && m.timeTaken == timeTaken
  {
    AmongPartition(e, SetOf(sp));
  }

  /** Both percentages lie in 0..100, and the extra-word penalty can only lower accuracy. */
  lemma ScoreBounds(e: seq<string>, sp: seq<string>, timeTaken: int)
    ensures var m := ScoreWords(e, sp, timeTaken);
      && 0 <= m.accuracy <= 100
      && 0 <= m.wordMatchRate <= 100
      && m.accuracy <= m.wordMatchRate
  {
    var matched := |Among(e, SetOf(sp))|;
    var total := |e| + |NotAmong(sp, SetOf(e))|;
    AmongPartition(e, SetOf(sp));
    if |e| > 0 {
      RoundDivWithin(100 * matched, |e|, 100);
      RoundDivWithin(100 * matched, total, 100);
      RoundDivAntitone(100 * matched, total, |e|);
    } else if total > 0 {
      RoundDivExact(0, total);
    }
  }

  /** An expected line that normalises to nothing scores 0 on both measures and misses nothing. */
  lemma ScoreOfEmptyExpected(sp: seq<string>, timeTaken: int)
    ensures var m := ScoreWords([], sp, timeTaken);
      m.accuracy == 0 && m.wordMatchRate == 0 && m.matchedWords == 0 && m.missedWords == []
  {
    var total := |NotAmong(sp, SetOf([]))|;
    if total > 0 {
      RoundDivExact(0, total);
    }
  }

  /**
   * Missed and extra words are listed once each: a word is missed exactly when it
   * is expected and not spoken, and extra exactly when it is spoken and not expected.
   */
  lemma ScoreWordLists(e: seq<string>, sp: seq<string>, timeTaken: int)
    ensures var m := ScoreWords(e, sp, timeTaken);
      && NoDuplicates(m.missedWords)
      && NoDuplicates(m.extraWords)
      && (forall w :: w in m.missedWords <==> w in e && w !in sp)
      && (forall w :: w in m.extraWords <==> w in sp && w !in e)
  {
    AmongPartition(e, SetOf(sp));
    AmongPartition(sp, SetOf(e));
    DedupDistinct(NotAmong(e, SetOf(sp)));
    DedupDistinct(NotAmong(sp, SetOf(e)));
  }

  /** The missed and extra lists keep the order in which each word first went missing or extra. */
  lemma ScoreWordOrder(e: seq<string>, sp: seq<string>, timeTaken: int, i: nat, j: nat)
    ensures var m := ScoreWords(e, sp, timeTaken);
      var missed := NotAmong(e, SetOf(sp));
      i < j < |m.missedWords| ==>
        m.missedWords[i] in missed && m.missedWords[j] in missed &&
        IndexOf(missed, m.missedWords[i]) < IndexOf(missed, m.missedWords[j])
    ensures var m := ScoreWords(e, sp, timeTaken);
      var extra := NotAmong(sp, SetOf(e));
      i < j < |m.extraWords| ==>
        m.extraWords[i] in extra && m.extraWords[j] in extra &&
        IndexOf(extra, m.extraWords[i]) < IndexOf(extra, m.extraWords[j])
  {
    var missed := NotAmong(e, SetOf(sp));
    var extra := NotAmong(sp, SetOf(e));
    if i < j < |Dedup(missed)| {
      DedupFirstOccurrenceOrder(missed, i, j);
    }
    if i < j < |Dedup(extra)| {
      DedupFirstOccurrenceOrder(extra, i, j);
    }
  }

  /** Saying exactly the expected words scores 100 on both measures and passes the time through. */
  lemma ScoreOfExactDelivery(e: seq<string>, timeTaken: int)
    requires e != []
    ensures var m := ScoreWords(e, e, timeTaken);
      && m.accuracy == 100 && m.wordMatchRate == 100
      && m.missedWords == [] && m.extraWords == []
      && m.matchedWords == m.expectedWords == m.spokenWords
      && m.timeTaken == timeTaken
  {
    var s := SetOf(e);
    assert forall i :: 0 <= i < |e| ==> e[i] in s;
    AmongOfSubset(e, s);
    PercentOfWhole(|e|);
    assert Dedup<string>([]) == [];
  }

  /** All of a non-empty whole is 100 percent. */
  lemma PercentOfWhole(n: nat)
    requires n > 0
    ensures Percent(n, n) == 100 && Percent(n, n + 0) == 100
  {
    RoundDivExact(100, n);
    assert 100 * n == n * 100;
  }

  /**
   * What stopListening returns for the given committed and pending text: nothing
   * when both are blank, otherwise the joined text scored against the expected
   * line, timed from the start of listening.
   */
  function StopResult(expected: string, final: string, partial: string, timeTaken: int): (r: Option<Metrics>)
    ensures r.None? <==> Blank(final) && Blank(partial)
    ensures r.Some? ==> r.value.timeTaken == timeTaken
  {
    var spoken := SpokenText(final, partial);
    if spoken == [] then None else Some(Score(expected, spoken, timeTaken))
  }

  /** Stopping after saying exactly the expected words scores 100 on both measures and misses nothing. */
  lemma StopAfterExactDelivery(expected: string, final: string, partial: string, timeTaken: int)
    requires NormalizeText(SpokenText(final, partial)) == NormalizeText(expected) != []
    ensures var r := StopResult(expected, final, partial, timeTaken);
      r.Some? && r.value.accuracy == 100 && r.value.wordMatchRate == 100 && r.value.missedWords == []
  {
    var spoken := SpokenText(final, partial);
    assert spoken != [] by {
      assert NormalizeText([]) == [];
    }
    ScoreOfExactDelivery(NormalizeText(expected), timeTaken);
  }

  /** `Date.now() - startTimeRef.current`. */
  function Elapsed(now: int, start: int): int { now - start }

  // ------------------------------------------------------------ the recognition session

  /** The browser and network handles the session holds. */
  datatype Resource = Socket | Processor | AudioContext | MediaStream

  /** A message from the transcription socket, already parsed; anything else is ignored. */
  datatype AsrMessage =
    | PartialTranscript(text: Option<string>)
    | CommittedTranscript(text: Option<string>)
    | OtherMessage

  /** The text stopListening scores: the trimmed committed and pending text, space-joined and trimmed. */
  function SpokenText(final: string, partial: string): (r: string)
    ensures r == [] <==> Blank(final) && Blank(partial)
  {
    var f, p := Trim(final), Trim(partial);
    var joined := f + " " + p;
    assert f != [] ==> joined[0] == f[0];
    assert p != [] ==> joined[|f| + 1] == p[0];
    assert f == [] && p == [] ==> joined == " ";
    TrimBlank(final);
    TrimBlank(partial);
    TrimBlank(joined);
    Trim(joined)
  }

  class SpeechSession {
    var partial: string
    var final: string
    var isListening: bool
    var isConnecting: bool
    var error: Option<string>
    var expected: string
    var startTime: int
    /** Whether wsRef, processorRef, audioContextRef and mediaStreamRef hold a handle. */
    var socket: bool
    var processor: bool
    var audioContext: bool
    var mediaStream: bool

    /** While listening, every capture resource is held. */
    ghost predicate Valid()
      reads this
    {
      isListening ==> socket && processor && audioContext && mediaStream
    }

    ghost predicate Released()
      reads this
    {
      !socket && !processor && !audioContext && !mediaStream && !isListening && !isConnecting
    }

    constructor ()
      ensures Valid() && Released()
      ensures partial == "" && final == "" && error == None
    {
      partial, final := "", "";
      isListening, isConnecting := false, false;
      error := None;
      expected, startTime := "", 0;
      socket, processor, audioContext, mediaStream := false, false, false, false;
    }

    /** The synchronous start of startListening: clear the error and both buffers, remember the line and the time. */
    method StartListening(expectedText: string, now: int)
      requires Valid()
      modifies this
      ensures Valid()
      ensures isConnecting && error == None && partial == "" && final == ""
      ensures expected == expectedText && startTime == now
      ensures isListening == old(isListening)
      ensures socket == old(socket) && processor == old(processor)
      ensures audioContext == old(audioContext) && mediaStream == old(mediaStream)
    {
      error := None;
      isConnecting := true;
      partial, final := "", "";
      expected, startTime := expectedText, now;
    }

    /** getUserMedia resolved: the stream is stored. */
    method MicrophoneGranted()
      requires Valid()
      modifies this`mediaStream
      ensures Valid() && mediaStream
    {
      mediaStream := true;
    }

    /** The WebSocket is created and stored. */
    method SocketCreated()
      requires Valid()
      modifies this`socket
      ensures Valid() && socket
    {
      socket := true;
    }

    /** The socket opened: the audio pipeline is built and the session is listening. */
    method SocketOpened()
      requires Valid() && socket && mediaStream
      modifies this`audioContext, this`processor, this`isConnecting, this`isListening
      ensures Valid()
      ensures audioContext && processor && !isConnecting && isListening
    {
      audioContext, processor := true, true;
      isConnecting, isListening := false, true;
    }

    /** ws.onmessage: a partial replaces the pending text, a commit appends " " + text and clears it. */
    method OnMessage(message: AsrMessage)
      requires Valid()
      modifies this`partial, this`final
      ensures Valid()
      ensures message.PartialTranscript? ==> partial == message.text.GetOr("") && final == old(final)
      ensures message.CommittedTranscript? ==> final == old(final) + " " + message.text.GetOr("") && partial == ""
      ensures message.OtherMessage? ==> partial == old(partial) && final == old(final)
    {
      match message
      case PartialTranscript(text) =>
        partial := text.GetOr("");
      case CommittedTranscript(text) =>
        final := final + " " + text.GetOr("");
        partial := "";
      case OtherMessage =>
    }

    /** ws.onclose: the flags drop, the handles stay where they are. */
    method SocketClosed()
      requires Valid()
      modifies this`isListening, this`isConnecting
      ensures Valid() && !isListening && !isConnecting
    {
      isListening, isConnecting := false, false;
    }

    /** cleanup: release each handle that is held, in the source's order, then drop both flags. */
    method Cleanup() returns (released: seq<Resource>)
      requires Valid()
      modifies this`socket, this`processor, this`audioContext, this`mediaStream, this`isListening, this`isConnecting
      ensures Valid() && Released()
      ensures old(isListening) ==> released == [Socket, Processor, AudioContext, MediaStream]
      ensures released ==
        (if old(socket) then [Socket] else []) + (if old(processor) then [Processor] else []) +
        (if old(audioContext) then [AudioContext] else []) + (if old(mediaStream) then [MediaStream] else [])
    {
      released := [];
      if socket {
        released := released + [Socket];
        socket := false;
      }
      if processor {
        released := released + [Processor];
        processor := false;
      }
      if audioContext {
        released := released + [AudioContext];
        audioContext := false;
      }
      if mediaStream {
        released := released + [MediaStream];
        mediaStream := false;
      }
      isListening, isConnecting := false, false;
    }

    /** A failed token request, a refused microphone or a failed socket constructor: record the message and clean up. */
    method StartFailed(message: string) returns (released: seq<Resource>)
      requires Valid()
      modifies this
      ensures Valid() && Released() && error == Some(message)
      ensures partial == old(partial) && final == old(final)
      ensures released ==
        (if old(socket) then [Socket] else []) + (if old(processor) then [Processor] else []) +
        (if old(audioContext) then [AudioContext] else []) + (if old(mediaStream) then [MediaStream] else [])
    {
      error := Some(message);
      released := Cleanup();
    }

    /** ws.onerror: report the connection error and clean up. */
    method SocketError() returns (released: seq<Resource>)
      requires Valid()
      modifies this
      ensures Valid() && Released() && error == Some("Connection error occurred")
      ensures partial == old(partial) && final == old(final)
      ensures released ==
        (if old(socket) then [Socket] else []) + (if old(processor) then [Processor] else []) +
        (if old(audioContext) then [AudioContext] else []) + (if old(mediaStream) then [MediaStream] else [])
    {
      error := Some("Connection error occurred");
      released := Cleanup();
    }

    /**
     * stopListening: always cleans up; returns no metrics when both buffers are
     * blank, otherwise scores the expected line against the spoken text. The
     * buffers are left as they were.
     */
    method StopListening(now: int) returns (result: Option<Metrics>, released: seq<Resource>)
      requires Valid()
      modifies this
      ensures Valid() && Released()
      ensures old(isListening) ==> released == [Socket, Processor, AudioContext, MediaStream]
      ensures partial == old(partial) && final == old(final) && expected == old(expected)
      ensures startTime == old(startTime) && error == old(error)
      ensures result == StopResult(expected, final, partial, Elapsed(now, startTime))
      ensures released ==
        (if old(socket) then [Socket] else []) + (if old(processor) then [Processor] else []) +
        (if old(audioContext) then [AudioContext] else []) + (if old(mediaStream) then [MediaStream] else [])
    {
      released := Cleanup();
      result := StopResult(expected, final, partial, Elapsed(now, startTime));
    }
  }

  /** stopListening before any startListening returns nothing and releases nothing. */
  method StopBeforeStart(now: int)
  {
    var session := new SpeechSession();
    assert Blank(session.final) && Blank(session.partial);
    var result, released := session.StopListening(now);
    assert result.None? && released == [];
  }

  /**
   * stopListening leaves both transcript buffers in place, so stopping a second
   * time scores the same text again and releases nothing further.
   */
  method StopTwice(session: SpeechSession, now: int)
    requires session.Valid()
    modifies session
  {
    var first, _ := session.StopListening(now);
    var second, releasedAgain := session.StopListening(now);
    assert second == first && releasedAgain == [];
  }
}
