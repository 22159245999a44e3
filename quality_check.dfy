/** The heuristic transcript scorer of bot/quality_check.py: four sub-checks (length
    against the expected duration, sentence punctuation, repeated words, word length)
    whose mean is the score, plus a list of issues, two kinds of which block a pass.
    Ratios are exact reals. */
module QualityCheck {
  import opened Wrappers
  import opened Strings

  const MinWords: nat := 10
  const WordsPerMinute: real := 150.0
  const DefaultThreshold: real := 0.7

  /** An issue the scorer reports. The numbers are the ones the source formats into
      its message. */
  datatype Issue =
    | NearlyEmpty
    | VeryLowWordCount(wordCount: nat, minutes: real, expectedWords: real)
    | LowWordCount(wordCount: nat, minutes: real, expectedWords: real)
    | VeryLowPunctuation(ratio: real)
    | LowPunctuation(ratio: real)
    | NoSentenceBoundaries
    | HighRepetition(ratio: real)
    | ShortWords(average: real)
  {
    /** The issues whose message contains "Very low" or "nearly empty": these fail the
        transcript whatever its score. */
    predicate Blocking() {
      NearlyEmpty? || VeryLowWordCount? || VeryLowPunctuation?
    }
  }

  datatype QualityResult = QualityResult(passed: bool, score: real, issues: seq<Issue>)

  /** The score one sub-check contributes, and the issue it raises, if any. */
  datatype Verdict = Verdict(score: real, issue: Option<Issue>)

  function RMin(a: real, b: real): real {
    if a <= b then a else b
  }

  /** Comparing a ratio with a bound is comparing the numerator with the scaled bound. */
  lemma RatioBelow(a: real, b: real, k: real)
    requires b > 0.0
    ensures a / b < k <==> a < k * b
    ensures a / b > k <==> a > k * b
  {
    var q := a / b;
    assert q * b == a;
    if q < k {
      assert (k - q) * b > 0.0;
    } else if q > k {
      assert (q - k) * b > 0.0;
    }
  }

  // ---------------------------------------------------------------------------
  // Check 1: word count against the expected duration

  /** Only when a positive expected duration is given. An issue is raised exactly when the
      text has fewer than half the words expected at 150 words a minute, and a blocking one
      exactly when it has fewer than 30% of them. */
  function DurationCheck(wordCount: nat, expectedDuration: Option<real>): (v: Option<Verdict>)
    ensures v.Some? <==> expectedDuration.Some? && expectedDuration.value > 0.0
    ensures v.Some? ==>
      var expectedWords := expectedDuration.value / 60.0 * WordsPerMinute;
      && (v.value.issue.Some? <==> wordCount as real < 0.5 * expectedWords)
      && (v.value.issue.Some? && v.value.issue.value.Blocking() <==> wordCount as real < 0.3 * expectedWords)
      && (v.value.issue.None? ==> v.value.score >= 0.5)
  {
    if expectedDuration.Some? && expectedDuration.value > 0.0 then
      var minutes := expectedDuration.value / 60.0;
      var expectedWords := minutes * WordsPerMinute;
      var ratio := wordCount as real / expectedWords;
      RatioBelow(wordCount as real, expectedWords, 0.3);
      RatioBelow(wordCount as real, expectedWords, 0.5);
      if ratio < 0.3 then Some(Verdict(0.2, Some(VeryLowWordCount(wordCount, minutes, expectedWords))))
      else if ratio < 0.5 then Some(Verdict(0.5, Some(LowWordCount(wordCount, minutes, expectedWords))))
      else Some(Verdict(RMin(1.0, ratio), None))
    else None
  }

  // ---------------------------------------------------------------------------
  // Check 2: punctuation

  predicate SentenceEnd(c: char) {
    c == '.' || c == '!' || c == '?'
  }

  /** Position `p` starts a whitespace run right after sentence-ending punctuation:
      where the pattern `(?<=[.!?])\s+` can match. */
  predicate BoundaryAt(t: string, p: nat) {
    1 <= p < |t| && IsSpace(t[p]) && SentenceEnd(t[p - 1])
  }

  /** The first boundary at or after `p`. */
  function BoundaryFrom(t: string, p: nat): (r: Option<nat>)
    ensures r.Some? ==> p <= r.value && BoundaryAt(t, r.value)
    ensures forall q: nat :: p <= q && (r.None? || q < r.value) ==> !BoundaryAt(t, q)
    decreases |t| - p
  {
    if p >= |t| then None
    else if BoundaryAt(t, p) then Some(p)
    else BoundaryFrom(t, p + 1)
  }

  /** The end of the whitespace run that starts at `p`. */
  function SpaceRunEnd(t: string, p: nat): (q: nat)
    requires p <= |t|
    ensures p <= q <= |t|
    ensures forall i :: p <= i < q ==> IsSpace(t[i])
    ensures q < |t| ==> !IsSpace(t[q])
    decreases |t| - p
  {
    if p < |t| && IsSpace(t[p]) then SpaceRunEnd(t, p + 1) else p
  }

  /** `re.split(r"(?<=[.!?])\s+", t)`: cut at every whitespace run that follows
      sentence-ending punctuation, dropping the run. */
  function SentenceSegments(t: string): (segs: seq<string>)
    ensures |segs| >= 1
    decreases |t|
  {
    match BoundaryFrom(t, 0)
    case None => [t]
    case Some(p) =>
      var q := SpaceRunEnd(t, p);
      [t[..p]] + SentenceSegments(t[q..])
  }

  /** Every segment but the last ends in sentence-ending punctuation. */
  lemma {:induction false} SegmentsEndInPunctuation(t: string)
    ensures forall k :: 0 <= k < |SentenceSegments(t)| - 1 ==>
      SentenceSegments(t)[k] != [] && SentenceEnd(SentenceSegments(t)[k][|SentenceSegments(t)[k]| - 1])
    decreases |t|
  {
    match BoundaryFrom(t, 0)
    case None =>
    case Some(p) =>
      var q := SpaceRunEnd(t, p);
      SegmentsEndInPunctuation(t[q..]);
      var segs := SentenceSegments(t);
      assert segs == [t[..p]] + SentenceSegments(t[q..]);
      forall k | 0 <= k < |segs| - 1
        ensures segs[k] != [] && SentenceEnd(segs[k][|segs[k]| - 1])
      {
        if k > 0 {
          assert segs[k] == SentenceSegments(t[q..])[k - 1];
        }
      }
  }

  /** No segment contains a boundary of its own: the split is maximal. */
  lemma {:induction false} SegmentsHaveNoBoundary(t: string)
    ensures forall k, p: nat :: 0 <= k < |SentenceSegments(t)| ==> !BoundaryAt(SentenceSegments(t)[k], p)
    decreases |t|
  {
    var segs := SentenceSegments(t);
    match BoundaryFrom(t, 0)
    case None =>
      assert segs == [t];
    case Some(p) =>
      var q := SpaceRunEnd(t, p);
      SegmentsHaveNoBoundary(t[q..]);
      assert segs == [t[..p]] + SentenceSegments(t[q..]);
      forall k, b: nat | 0 <= k < |segs| ensures !BoundaryAt(segs[k], b) {
        if k == 0 {
          if BoundaryAt(t[..p], b) {
            assert BoundaryAt(t, b);
          }
        } else {
          assert segs[k] == SentenceSegments(t[q..])[k - 1];
        }
      }
  }

  /** Segments, with the cut whitespace dropped, hold every visible character of the text. */
  lemma {:induction false} SegmentsKeepVisible(t: string)
    ensures Visible(Concat(SentenceSegments(t))) == Visible(t)
    decreases |t|
  {
    match BoundaryFrom(t, 0)
    case None =>
      assert Concat([t]) == t + Concat([]);
      assert t + [] == t;
    case Some(p) =>
      var q := SpaceRunEnd(t, p);
      var rest := SentenceSegments(t[q..]);
      SegmentsKeepVisible(t[q..]);
      assert SentenceSegments(t) == [t[..p]] + rest;
      assert Concat([t[..p]] + rest) == t[..p] + Concat(rest);
      VisibleConcat(t[..p], Concat(rest));
      VisibleSkipsSpaceRun(t, p, q);
  }

  /** Dropping a run of whitespace loses no visible character. */
  lemma VisibleSkipsSpaceRun(t: string, p: nat, q: nat)
    requires p <= q <= |t| && AllSpace(t[p..q])
    ensures Visible(t) == Visible(t[..p]) + Visible(t[q..])
  {
    var a, b, c := t[..p], t[p..q], t[q..];
    assert t == (a + b) + c;
    VisibleConcat(a + b, c);
    VisibleConcat(a, b);
    VisibleAllSpace(b);
    assert Visible(a + b) == Visible(a);
  }

  /** A segment counts as punctuated when, stripped, it is non-empty and ends in `.`, `!` or `?`. */
  predicate Punctuated(s: string) {
    Strip(s) != [] && SentenceEnd(Strip(s)[|Strip(s)| - 1])
  }

  function CountPunctuated(segs: seq<string>): (n: nat)
    ensures n <= |segs|
    decreases |segs|
  {
    if segs == [] then 0 else (if Punctuated(segs[0]) then 1 else 0) + CountPunctuated(segs[1..])
  }

  /** Scored when the text splits into several segments, or when a single segment holds more
      than 100 words; an unflagged score is at least 0.3. */
  function PunctuationCheck(text: string, wordCount: nat): (v: Option<Verdict>)
    ensures v.Some? <==> |SentenceSegments(text)| > 1 || wordCount > 100
    ensures v.Some? && v.value.issue.None? ==> v.value.score >= 0.3
    ensures |SentenceSegments(text)| <= 1 && v.Some? ==> v.value.issue == Some(NoSentenceBoundaries)
  {
    var segments := SentenceSegments(text);
    if |segments| > 1 then
      var ratio := CountPunctuated(segments) as real / |segments| as real;
      if ratio < 0.1 then Some(Verdict(0.3, Some(VeryLowPunctuation(ratio))))
      else if ratio < 0.3 then Some(Verdict(0.5, Some(LowPunctuation(ratio))))
      else Some(Verdict(RMin(1.0, ratio), None))
    else if wordCount > 100 then Some(Verdict(0.3, Some(NoSentenceBoundaries)))
    else None
  }

  /** All segments but possibly the last are punctuated. */
  lemma {:induction false} CountPunctuatedAllButLast(segs: seq<string>)
    requires forall k :: 0 <= k < |segs| - 1 ==> segs[k] != [] && SentenceEnd(segs[k][|segs[k]| - 1])
    ensures CountPunctuated(segs) + 1 >= |segs|
    decreases |segs|
  {
    if |segs| > 1 {
      EndsPunctuated(segs[0]);
      CountPunctuatedAllButLast(segs[1..]);
    }
  }

  /** A segment ending in `.`, `!` or `?` is punctuated: stripping keeps that mark last. */
  lemma EndsPunctuated(s: string)
    requires s != [] && SentenceEnd(s[|s| - 1])
    ensures Punctuated(s)
  {
    assert !IsSpace(s[|s| - 1]);
    StripKeepsLastVisible(s);
  }

  /** With all but one of at least two segments punctuated, the ratio is at least a half. */
  lemma HalfPunctuated(c: nat, n: nat)
    requires n >= 2 && c + 1 >= n
    ensures c as real / n as real >= 0.5
  {
    var q := c as real / n as real;
    assert q * n as real == c as real;
    if q < 0.5 {
      assert q * n as real < 0.5 * n as real;
    }
  }

  /** When the text has several segments at least half of them are punctuated, so the
      punctuation check never raises either of its issues; the only issue it can raise is
      the missing-boundaries one. */
  lemma PunctuationNeverLow(text: string, wordCount: nat)
    ensures PunctuationCheck(text, wordCount).Some? && PunctuationCheck(text, wordCount).value.issue.Some? ==>
      PunctuationCheck(text, wordCount).value.issue.value == NoSentenceBoundaries
    ensures |SentenceSegments(text)| > 1 ==>
      PunctuationCheck(text, wordCount).Some? && PunctuationCheck(text, wordCount).value.score >= 0.5
  {
    var segments := SentenceSegments(text);
    if |segments| > 1 {
      SegmentsEndInPunctuation(text);
      CountPunctuatedAllButLast(segments);
      HalfPunctuated(CountPunctuated(segments), |segments|);
    }
  }

  // ---------------------------------------------------------------------------
  // Check 3: repeated words

  /** Adjacent words `i`, `i + 1` repeat: equal ignoring case, the first longer than one character. */
  predicate RepeatAt(words: seq<string>, i: nat)
    requires i + 1 < |words|
  {
    Lower(words[i]) == Lower(words[i + 1]) && |words[i]| > 1
  }

  /** The number of repeating pairs starting before `n`. */
  function RepeatsBefore(words: seq<string>, n: nat): (c: nat)
    requires n < |words| || n == 0
    ensures c <= n
  {
    if n == 0 then 0
    else RepeatsBefore(words, n - 1) + (if RepeatAt(words, n - 1) then 1 else 0)
  }

  function RepeatCount(words: seq<string>): (c: nat)
    ensures words != [] ==> c <= |words| - 1
  {
    if words == [] then 0 else RepeatsBefore(words, |words| - 1)
  }

  /** The repeated-word loop: counts adjacent pairs that repeat. */
  method CountRepeats(words: seq<string>) returns (count: nat)
    ensures count == RepeatCount(words)
    ensures words != [] ==> count <= |words| - 1
  {
    count := 0;
    if words == [] {
      return;
    }
    var i := 0;
    while i < |words| - 1
      invariant 0 <= i <= |words| - 1
      invariant count == RepeatsBefore(words, i)
    {
      if Lower(words[i]) == Lower(words[i + 1]) && |words[i]| > 1 {
        count := count + 1;
      }
      i := i + 1;
    }
  }

  /** Flags the text exactly when more than one word in twenty starts a repeat; the flag is
      never blocking, and an unflagged score is at least 0.95. */
  function RepetitionCheck(repeats: nat, wordCount: nat): (v: Verdict)
    ensures v.issue.Some? <==> 20 * repeats > (if wordCount >= 1 then wordCount else 1)
    ensures v.issue.Some? ==> !v.issue.value.Blocking()
    ensures v.issue.None? ==> 0.95 <= v.score <= 1.0
  {
    var ratio := repeats as real / (if wordCount >= 1 then wordCount else 1) as real;
    RatioBelow(repeats as real, (if wordCount >= 1 then wordCount else 1) as real, 0.05);
    DivNonneg(repeats as real, (if wordCount >= 1 then wordCount else 1) as real);
    if ratio > 0.05 then Verdict(0.4, Some(HighRepetition(ratio)))
    else Verdict(1.0 - ratio, None)
  }

  // ---------------------------------------------------------------------------
  // Check 4: average word length

  function TotalLength(words: seq<string>): nat
    decreases |words|
  {
    if words == [] then 0 else |words[0]| + TotalLength(words[1..])
  }

  /** Flags the text exactly when its words average fewer than three characters; the flag is
      never blocking, and an unflagged score is at least 0.6. */
  function WordLengthCheck(totalLength: nat, wordCount: nat): (v: Verdict)
    ensures v.issue.Some? <==> totalLength < 3 * (if wordCount >= 1 then wordCount else 1)
    ensures v.issue.Some? ==> !v.issue.value.Blocking()
    ensures v.issue.None? ==> 0.6 <= v.score <= 1.0
  {
    var average := totalLength as real / (if wordCount >= 1 then wordCount else 1) as real;
    RatioBelow(totalLength as real, (if wordCount >= 1 then wordCount else 1) as real, 3.0);
    if average < 3.0 then Verdict(0.4, Some(ShortWords(average)))
    else Verdict(RMin(1.0, average / 5.0), None)
  }

  // ---------------------------------------------------------------------------
  // Combining

  function Present(v: Option<Verdict>): seq<Verdict> {
    if v.Some? then [v.value] else []
  }

  function Scores(vs: seq<Verdict>): (s: seq<real>)
    ensures |s| == |vs|
    ensures forall k :: 0 <= k < |vs| ==> s[k] == vs[k].score
    decreases |vs|
  {
    if vs == [] then [] else [vs[0].score] + Scores(vs[1..])
  }

  function Issues(vs: seq<Verdict>): (issues: seq<Issue>)
    ensures |issues| <= |vs|
    decreases |vs|
  {
    if vs == [] then []
    else (if vs[0].issue.Some? then [vs[0].issue.value] else []) + Issues(vs[1..])
  }

  function Sum(xs: seq<real>): real
    decreases |xs|
  {
    if xs == [] then 0.0 else xs[0] + Sum(xs[1..])
  }

  /** The sub-check verdicts of a text with enough words, in the source's order. */
  function Verdicts(text: string, expectedDuration: Option<real>): seq<Verdict> {
    var words := Words(text);
    Present(DurationCheck(|words|, expectedDuration))
      + Present(PunctuationCheck(text, |words|))
      + [RepetitionCheck(RepeatCount(words), |words|), WordLengthCheck(TotalLength(words), |words|)]
  }

  predicate NoBlocking(issues: seq<Issue>) {
    forall k :: 0 <= k < |issues| ==> !issues[k].Blocking()
  }

  /** `check_transcript_quality` as a value (the score unrounded). The score is the mean
      of the sub-scores and lies in [0, 1]; a transcript passes exactly when its score
      reaches the threshold and no issue is blocking, so a "Very low" issue fails it whatever
      the score; fewer than 10 words give the nearly-empty result. */
  function Assessment(text: string, expectedDuration: Option<real>, threshold: real): (r: QualityResult)
    ensures 0.0 <= r.score <= 1.0
    ensures r.passed <==> r.score >= threshold && NoBlocking(r.issues)
    ensures |Words(text)| < MinWords ==> r == QualityResult(false, 0.0, [NearlyEmpty])
  {
    var words := Words(text);
    if |words| < MinWords then
      assert [NearlyEmpty][0].Blocking();
      QualityResult(false, 0.0, [NearlyEmpty])
    else
      MeanInUnit(text, expectedDuration);
      var vs := Verdicts(text, expectedDuration);
      var score := Sum(Scores(vs)) / |vs| as real;
      var issues := Issues(vs);
      QualityResult(score >= threshold && NoBlocking(issues), score, issues)
  }

  /** `check_transcript_quality`: builds the issue and score lists by appending, counting
      repeated words in an index loop. */
  method CheckTranscriptQuality(text: string, expectedDuration: Option<real>, threshold: real)
    returns (r: QualityResult)
    ensures r == Assessment(text, expectedDuration, threshold)
  {
    var words := Words(text);
    var wordCount := |words|;
    if wordCount < MinWords {
      return QualityResult(false, 0.0, [NearlyEmpty]);
    }
    var verdicts: seq<Verdict> := [];
    var duration := DurationCheck(wordCount, expectedDuration);
    verdicts := verdicts + Present(duration);
    var punctuation := PunctuationCheck(text, wordCount);
    verdicts := verdicts + Present(punctuation);

    var repeatedCount := CountRepeats(words);
    verdicts := verdicts + [RepetitionCheck(repeatedCount, wordCount)];
    verdicts := verdicts + [WordLengthCheck(TotalLength(words), wordCount)];
    assert verdicts == Verdicts(text, expectedDuration);

    var scores := Scores(verdicts);
    var issues := Issues(verdicts);
    var finalScore := Sum(scores) / |scores| as real;
    var passed := finalScore >= threshold && NoBlocking(issues);
    r := QualityResult(passed, finalScore, issues);
  }

  // ---------------------------------------------------------------------------
  // Properties

  lemma DivNonneg(a: real, b: real)
    requires a >= 0.0 && b > 0.0
    ensures a / b >= 0.0
  {
    assert (a / b) * b == a;
  }

  lemma DivBelow(a: real, b: real, k: real)
    requires b > 0.0 && a < k * b
    ensures a / b < k
  {
    var q := a / b;
    assert q * b == a;
    if q >= k {
      assert q * b >= k * b;
    }
  }

  lemma DurationScoreInUnit(wordCount: nat, expectedDuration: Option<real>)
    ensures DurationCheck(wordCount, expectedDuration).Some? ==>
      0.0 <= DurationCheck(wordCount, expectedDuration).value.score <= 1.0
  {
  }

  lemma PunctuationScoreInUnit(text: string, wordCount: nat)
    ensures PunctuationCheck(text, wordCount).Some? ==>
      0.0 <= PunctuationCheck(text, wordCount).value.score <= 1.0
  {
  }

  lemma RepetitionScoreInUnit(repeats: nat, wordCount: nat)
    ensures 0.0 <= RepetitionCheck(repeats, wordCount).score <= 1.0
  {
    DivNonneg(repeats as real, (if wordCount >= 1 then wordCount else 1) as real);
  }

  /** A higher repeat count over the same words never raises the repetition sub-score. */
  lemma RepetitionMonotone(r1: nat, r2: nat, wordCount: nat)
    requires r1 <= r2
    ensures RepetitionCheck(r2, wordCount).score <= RepetitionCheck(r1, wordCount).score
  {
  }

  lemma WordLengthScoreInUnit(totalLength: nat, wordCount: nat)
    ensures 0.0 <= WordLengthCheck(totalLength, wordCount).score <= 1.0
  {
  }

  /** Every sub-score lies in [0, 1]. */
  lemma VerdictScoresInUnit(text: string, expectedDuration: Option<real>)
    ensures forall k :: 0 <= k < |Verdicts(text, expectedDuration)| ==>
      0.0 <= Verdicts(text, expectedDuration)[k].score <= 1.0
  {
    var words := Words(text);
    var d := DurationCheck(|words|, expectedDuration);
    var p := PunctuationCheck(text, |words|);
    var rep := RepetitionCheck(RepeatCount(words), |words|);
    var len := WordLengthCheck(TotalLength(words), |words|);
    DurationScoreInUnit(|words|, expectedDuration);
    PunctuationScoreInUnit(text, |words|);
    RepetitionScoreInUnit(RepeatCount(words), |words|);
    WordLengthScoreInUnit(TotalLength(words), |words|);
    var vs := Verdicts(text, expectedDuration);
    assert vs == Present(d) + Present(p) + [rep, len];
  }

  lemma {:induction false} SumInRange(xs: seq<real>)
    requires forall k :: 0 <= k < |xs| ==> 0.0 <= xs[k] <= 1.0
    ensures 0.0 <= Sum(xs) <= |xs| as real
    decreases |xs|
  {
    if xs != [] {
      SumInRange(xs[1..]);
    }
  }

  /** Between two and four sub-scores are collected, and the score is a mean in [0, 1]. */
  lemma MeanInUnit(text: string, expectedDuration: Option<real>)
    ensures |Words(text)| >= MinWords ==>
      var vs := Verdicts(text, expectedDuration);
      2 <= |vs| <= 4 && 0.0 <= Sum(Scores(vs)) / |vs| as real <= 1.0
  {
    var vs := Verdicts(text, expectedDuration);
    if |Words(text)| >= MinWords {
      VerdictScoresInUnit(text, expectedDuration);
      SumInRange(Scores(vs));
      UnitMean(Sum(Scores(vs)), |vs| as real);
    }
  }

  lemma UnitMean(sum: real, n: real)
    requires n > 0.0 && 0.0 <= sum <= n
    ensures 0.0 <= sum / n <= 1.0
  {
    DivNonneg(sum, n);
    RatioBelow(sum, n, 1.0);
  }

  /** Passing at a threshold means passing at every lower one. */
  lemma PassedMonotone(text: string, expectedDuration: Option<real>, lower: real, higher: real)
    requires lower <= higher && Assessment(text, expectedDuration, higher).passed
    ensures Assessment(text, expectedDuration, lower).passed
  {
  }

  /** The word count check raises the blocking issue below 30 % of the expected words. */
  lemma DurationBlocks(wordCount: nat, d: real)
    requires d > 0.0 && wordCount as real < 0.3 * (d / 60.0 * WordsPerMinute)
    ensures DurationCheck(wordCount, Some(d)).Some?
    ensures DurationCheck(wordCount, Some(d)).value.issue.Some?
    ensures DurationCheck(wordCount, Some(d)).value.issue.value.Blocking()
  {
    DivBelow(wordCount as real, d / 60.0 * WordsPerMinute, 0.3);
  }

  /** A transcript with fewer than 30 % of the words its duration calls for never passes. */
  lemma VeryLowWordCountFails(text: string, d: real, threshold: real)
    requires d > 0.0 && |Words(text)| as real < 0.3 * (d / 60.0 * WordsPerMinute)
    ensures !Assessment(text, Some(d), threshold).passed
  {
    var words := Words(text);
    if |words| >= MinWords {
      DurationBlocks(|words|, d);
      var v := DurationCheck(|words|, Some(d)).value;
      var vs := Verdicts(text, Some(d));
      assert vs[0] == v;
      assert Issues(vs)[0] == v.issue.value;
    }
  }
}
