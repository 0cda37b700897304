/**
 * The performance panel (src/components/rehearsal/PerformanceMetrics.tsx):
 * session averages, total time, the colour tiers of a score, the missed-word
 * preview and the "Great delivery!" badge.
 */
module PerformanceMetrics {
  import opened Prelude
  import opened Asr

  /** The panel is hidden only when there is neither a latest result nor a session. */
  predicate ShouldRender(latest: Option<Metrics>, session: seq<Metrics>) {
    latest.Some? || session != []
  }

  /** The numeric fields the panel sums over a session. */
  datatype Field = Accuracy | WordMatchRate | TimeTaken

  function FieldOf(m: Metrics, f: Field): int {
    match f
    case Accuracy => m.accuracy
    case WordMatchRate => m.wordMatchRate
    case TimeTaken => m.timeTaken
  }

  /** `session.reduce((sum, m) => sum + m.<field>, 0)`, folded from the left. */
  function Sum(session: seq<Metrics>, f: Field): int
    decreases |session|
  {
    if session == [] then 0 else Sum(session[..|session| - 1], f) + FieldOf(session[|session| - 1], f)
  }

  /**
   * averageAccuracy / averageWordMatch: the rounded mean over the session when
   * it has results, otherwise the latest result's value, otherwise 0.
   */
  function Average(latest: Option<Metrics>, session: seq<Metrics>, f: Field): int
    requires f != TimeTaken
  {
    if session != [] then RoundDiv(Sum(session, f), |session|)
    else if latest.Some? then FieldOf(latest.value, f)
    else 0
  }

  /** totalTime: the session's summed time, otherwise the latest result's time, otherwise 0. */
  function TotalTime(latest: Option<Metrics>, session: seq<Metrics>): int {
    if session != [] then Sum(session, TimeTaken)
    else if latest.Some? then latest.value.timeTaken
    else 0
  }

  /** The "Total Time" figure: `Math.round(totalTime / 1000)` seconds. */
  function TotalSeconds(latest: Option<Metrics>, session: seq<Metrics>): int {
    RoundDiv(TotalTime(latest, session), 1000)
  }

  /** The "Lines Completed" figure. */
  function LinesCompleted(session: seq<Metrics>): nat {
    |session|
  }

  predicate Percentage(n: int) { 0 <= n <= 100 }

  lemma {:induction false} SumWithin(session: seq<Metrics>, f: Field)
    requires forall i :: 0 <= i < |session| ==> Percentage(FieldOf(session[i], f))
    ensures 0 <= Sum(session, f) <= 100 * |session|
    decreases |session|
  {
    if session != [] {
      SumWithin(session[..|session| - 1], f);
    }
  }

  /** When every result of the session and the latest one are percentages, so are both averages. */
  lemma AverageWithin(latest: Option<Metrics>, session: seq<Metrics>, f: Field)
    requires f != TimeTaken
    requires forall i :: 0 <= i < |session| ==> Percentage(FieldOf(session[i], f))
    requires latest.Some? ==> Percentage(FieldOf(latest.value, f))
    ensures Percentage(Average(latest, session, f))
  {
    if session != [] {
      SumWithin(session, f);
      RoundDivWithin(Sum(session, f), |session|, 100);
    }
  }

  lemma {:induction false} SumOfUniform(session: seq<Metrics>, f: Field, v: int)
    requires forall i :: 0 <= i < |session| ==> FieldOf(session[i], f) == v
    ensures Sum(session, f) == v * |session|
    decreases |session|
  {
    if session != [] {
      SumOfUniform(session[..|session| - 1], f, v);
    }
  }

  /** A session whose every line scored v averages to v, whatever the latest result. */
  lemma AverageOfUniform(latest: Option<Metrics>, session: seq<Metrics>, f: Field, v: int)
    requires f != TimeTaken && session != []
    requires forall i :: 0 <= i < |session| ==> FieldOf(session[i], f) == v
    ensures Average(latest, session, f) == v
  {
    SumOfUniform(session, f, v);
    RoundDivExact(v, |session|);
  }

  /** Splitting the session after any line: the total time is the sum of the two parts. */
  lemma {:induction false} SumAppend(a: seq<Metrics>, b: seq<Metrics>, f: Field)
    ensures Sum(a + b, f) == Sum(a, f) + Sum(b, f)
    decreases |b|
  {
    if b != [] {
      assert (a + b)[..|a + b| - 1] == a + b[..|b| - 1];
      assert (a + b)[|a + b| - 1] == b[|b| - 1];
      SumAppend(a, b[..|b| - 1], f);
    } else {
      assert a + b == a;
    }
  }

  /** Each completed line adds its time to the total and one to the line count. */
  lemma TotalTimeGrows(latest: Option<Metrics>, session: seq<Metrics>, m: Metrics)
    requires session != []
    ensures TotalTime(latest, session + [m]) == TotalTime(latest, session) + m.timeTaken
    ensures LinesCompleted(session + [m]) == LinesCompleted(session) + 1
  {
    assert (session + [m])[..|session|] == session;
  }

  // ------------------------------------------------------------ tiers

  /** getAccuracyColor. */
  function AccuracyColor(score: int): string {
    if score >= 80 then "text-green-500"
    else if score >= 60 then "text-yellow-500"
    else "text-red-500"
  }

  /** getAccuracyBg. */
  function AccuracyBg(score: int): string {
    if score >= 80 then "bg-green-500"
    else if score >= 60 then "bg-yellow-500"
    else "bg-red-500"
  }

  /** The text colour and the bar colour split the scores at the same two thresholds, 80 and 60. */
  lemma TiersAgree(a: int, b: int)
    ensures AccuracyColor(a) == AccuracyColor(b) <==> AccuracyBg(a) == AccuracyBg(b)
    ensures AccuracyColor(a) == "text-green-500" <==> a >= 80
    ensures AccuracyColor(a) == "text-yellow-500" <==> 60 <= a < 80
    ensures AccuracyColor(a) == "text-red-500" <==> a < 60
  {
    // the three hues differ in their first letter
    assert "text-green-500"[5] != "text-yellow-500"[5] && "text-yellow-500"[5] != "text-red-500"[5];
    assert "bg-green-500"[3] != "bg-yellow-500"[3] && "bg-yellow-500"[3] != "bg-red-500"[3];
    assert "text-green-500"[5] != "text-red-500"[5];
    assert "bg-green-500"[3] != "bg-red-500"[3];
  }

  /** A higher score never lands in a lower tier. */
  lemma TiersMonotone(a: int, b: int)
    requires a <= b
    ensures AccuracyColor(a) == "text-green-500" ==> AccuracyColor(b) == "text-green-500"
    ensures AccuracyColor(b) == "text-red-500" ==> AccuracyColor(a) == "text-red-500"
  {
    TiersAgree(a, b);
    TiersAgree(b, a);
  }

  // ------------------------------------------------------------ latest line details

  /** The missed-word badge: the first three missed words, and whether "..." follows them. */
  datatype Preview = Preview(words: seq<string>, ellipsis: bool)

  function MissedPreview(missed: seq<string>): (p: Preview)
    ensures |p.words| <= 3 && |p.words| <= |missed| && p.words == missed[..|p.words|]
    ensures p.ellipsis <==> |missed| > 3
    ensures !p.ellipsis ==> p.words == missed
  {
    Preview(if |missed| <= 3 then missed else missed[..3], |missed| > 3)
  }

  /** `words.join(', ')`. */
  function JoinComma(words: seq<string>): string
    decreases |words|
  {
    if words == [] then ""
    else if |words| == 1 then words[0]
    else words[0] + ", " + JoinComma(words[1..])
  }

  /** The badge's text, shown only when some word was missed. */
  function MissedBadge(m: Metrics): (r: Option<string>)
    ensures r.Some? <==> m.missedWords != []
  {
    if m.missedWords == [] then None
    else
      var p := MissedPreview(m.missedWords);
      Some("Missed: " + JoinComma(p.words) + (if p.ellipsis then "..." else ""))
  }

  /** The "Great delivery!" badge: nothing missed and an accuracy of at least 80. */
  predicate GreatDelivery(m: Metrics) {
    m.missedWords == [] && m.accuracy >= 80
  }

  /** The two badges never show together. */
  lemma BadgesExclusive(m: Metrics)
    ensures !(GreatDelivery(m) && MissedBadge(m).Some?)
  {
  }

  /** Saying exactly the expected line earns the badge and a green score. */
  lemma ExactDeliveryIsGreat(expected: string, timeTaken: int)
    requires NormalizeText(expected) != []
    ensures GreatDelivery(Score(expected, expected, timeTaken))
    ensures MissedBadge(Score(expected, expected, timeTaken)).None?
    ensures AccuracyColor(Score(expected, expected, timeTaken).accuracy) == "text-green-500"
  {
    ScoreOfExactDelivery(NormalizeText(expected), timeTaken);
  }
}
