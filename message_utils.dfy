/** Message chunking and the Markdown-to-HTML conversion of bot/message_utils.py. */
module MessageUtils {
  import opened Wrappers
  import opened Strings

  const TelegramMaxLength: nat := 4096
  const SafeMaxLength: nat := 4000

  // ---------------------------------------------------------------------------
  // split_message

  /** The sentence separators tried, in this order, when no line break is usable. */
  const SentenceSeps: seq<string> := [". ", "! ", "? "]

  /** The first separator, from the `k`-th on, whose last occurrence inside the window
      lies strictly past its middle: the cut just after it. */
  function SentenceCut(rem: string, maxLength: nat, k: nat): (r: Option<int>)
    ensures r.Some? ==> maxLength / 2 + 3 <= r.value <= maxLength
    decreases |SentenceSeps| - k
  {
    if k >= |SentenceSeps| then None
    else
      var p := RFind(rem, SentenceSeps[k], maxLength);
      if p > maxLength / 2 then Some(p + |SentenceSeps[k]|) else SentenceCut(rem, maxLength, k + 1)
  }

  /** Where `split_message` cuts a remainder longer than the window: the last paragraph break
      in the window, else the last line break, each only from the window's middle on; else
      just after a sentence separator past the middle; else the window's end. */
  function SplitPos(rem: string, maxLength: nat): (sp: nat)
    requires maxLength >= 1 && |rem| > maxLength
    ensures maxLength / 2 <= sp <= maxLength
  {
    var half := maxLength / 2;
    var p2 := LineBreakCut(rem, maxLength);
    var p3 := if p2 == -1 || p2 < half then SentenceCut(rem, maxLength, 0).GetOr(p2) else p2;
    if p3 == -1 || p3 < half then maxLength else p3
  }

  /** The first two preferences: the last paragraph break in the window if it lies in the
      window's second half, else the last line break (or -1). */
  function LineBreakCut(rem: string, maxLength: nat): (p: int)
    ensures -1 <= p < maxLength
    ensures p >= 0 ==> p < |rem| && rem[p] == '\n'
  {
    var p1 := RFind(rem, "\n\n", maxLength);
    if p1 == -1 || p1 < maxLength / 2 then
      var p := RFind(rem, "\n", maxLength);
      if p >= 0 then OccursAtIndex(rem, "\n", p, 0); p else p
    else
      OccursAtIndex(rem, "\n\n", p1, 0);
      p1
  }

  /** The cut lies at a line break, just after a sentence separator, or at the window's end;
      it is at the very start only when the text opens with a line break. */
  lemma SplitPosAtBreak(rem: string, maxLength: nat)
    requires maxLength >= 1 && |rem| > maxLength
    ensures SplitPos(rem, maxLength) == 0 ==> IsSpace(rem[0])
    ensures var sp := SplitPos(rem, maxLength);
      sp == maxLength || rem[sp] == '\n' || AfterSentence(rem, sp)
  {
    SentenceCutEndsSentence(rem, maxLength, 0);
  }

  /** Position `c` lies just after a sentence-ending mark and a space. */
  predicate AfterSentence(rem: string, c: int) {
    2 <= c <= |rem| && rem[c - 1] == ' ' && (rem[c - 2] == '.' || rem[c - 2] == '!' || rem[c - 2] == '?')
  }

  lemma {:induction false} SentenceCutEndsSentence(rem: string, maxLength: nat, k: nat)
    ensures SentenceCut(rem, maxLength, k).Some? ==> AfterSentence(rem, SentenceCut(rem, maxLength, k).value)
    decreases |SentenceSeps| - k
  {
    if k < |SentenceSeps| {
      var sep := SentenceSeps[k];
      var p := RFind(rem, sep, maxLength);
      if p > maxLength / 2 {
        assert SentenceCut(rem, maxLength, k) == Some(p + |sep|);
        SentenceSepShape(k);
        OccursAtIndex(rem, sep, p, 0);
        OccursAtIndex(rem, sep, p, 1);
        assert AfterSentence(rem, p + 2);
      } else {
        SentenceCutEndsSentence(rem, maxLength, k + 1);
      }
    }
  }

  /** Each separator is a sentence-ending mark followed by a space. */
  lemma SentenceSepShape(k: nat)
    requires k < |SentenceSeps|
    ensures |SentenceSeps[k]| == 2 && SentenceSeps[k][1] == ' '
    ensures SentenceSeps[k][0] == '.' || SentenceSeps[k][0] == '!' || SentenceSeps[k][0] == '?'
  {
  }

  /** The chunks of a remainder: cut, drop the whitespace around the cut, repeat. */
  function ChunksOf(rem: string, maxLength: nat): seq<string>
    requires maxLength >= 1
    decreases |rem|
  {
    if rem == [] then []
    else if |rem| <= maxLength then [rem]
    else
      var sp := SplitPos(rem, maxLength);
      var next := LStrip(rem[sp..]);
      StepShrinks(rem, maxLength);
      [RStrip(rem[..sp])] + ChunksOf(next, maxLength)
  }

  /** Each cut consumes at least one character, so the loop ends. */
  lemma StepShrinks(rem: string, maxLength: nat)
    requires maxLength >= 1 && |rem| > maxLength
    ensures |LStrip(rem[SplitPos(rem, maxLength)..])| < |rem|
  {
    var sp := SplitPos(rem, maxLength);
    SplitPosAtBreak(rem, maxLength);
    if sp == 0 {
      assert IsSpace(rem[sp..][0]);
    }
  }

  lemma ChunksOfStep(rem: string, maxLength: nat)
    requires maxLength >= 1 && |rem| > maxLength
    ensures ChunksOf(rem, maxLength) == [RStrip(rem[..SplitPos(rem, maxLength)])]
      + ChunksOf(LStrip(rem[SplitPos(rem, maxLength)..]), maxLength)
    ensures |LStrip(rem[SplitPos(rem, maxLength)..])| < |rem|
  {
    StepShrinks(rem, maxLength);
  }

  /** The chunks still to come after one more step, with those already emitted. */
  lemma ChunksAfterStep(done: seq<string>, rem: string, maxLength: nat)
    requires maxLength >= 1 && |rem| > maxLength
    ensures done + ChunksOf(rem, maxLength) == (done + [RStrip(rem[..SplitPos(rem, maxLength)])])
      + ChunksOf(LStrip(rem[SplitPos(rem, maxLength)..]), maxLength)
    ensures |LStrip(rem[SplitPos(rem, maxLength)..])| < |rem|
  {
    ChunksOfStep(rem, maxLength);
  }

  /** `split_message(text, max_length)`: short text is one chunk; every chunk fits the
      window; and the chunks, run together, hold exactly the text's non-whitespace
      characters in order. */
  function Chunks(text: string, maxLength: nat): (r: seq<string>)
    requires maxLength >= 1
    ensures |text| <= maxLength ==> r == [text]
    ensures forall k :: 0 <= k < |r| ==> |r[k]| <= maxLength
    ensures Visible(Concat(r)) == Visible(text)
  {
    if |text| <= maxLength then
      assert Concat([text]) == text + Concat([]);
      assert text + [] == text;
      [text]
    else
      ChunksOfBounded(text, maxLength);
      ChunksOfKeepVisible(text, maxLength);
      ChunksOf(text, maxLength)
  }

  /** The cut position computed as the source does, with its loop over separators. */
  method FindSplitPos(remaining: string, maxLength: nat) returns (splitPos: nat)
    requires maxLength >= 1 && |remaining| > maxLength
    ensures splitPos == SplitPos(remaining, maxLength)
  {
    var half := maxLength / 2;
    var pos := RFind(remaining, "\n\n", maxLength);
    if pos == -1 || pos < half {
      pos := RFind(remaining, "\n", maxLength);
    }
    assert pos == LineBreakCut(remaining, maxLength);
    ghost var p2 := pos;
    if pos == -1 || pos < half {
      var k := 0;
      while k < |SentenceSeps|
        invariant 0 <= k <= |SentenceSeps|
        invariant pos == p2
        invariant SentenceCut(remaining, maxLength, 0) == SentenceCut(remaining, maxLength, k)
      {
        var sep := SentenceSeps[k];
        var p := RFind(remaining, sep, maxLength);
        if p > half {
          pos := p + |sep|;
          break;
        }
        k := k + 1;
      }
    }
    if pos == -1 || pos < half {
      pos := maxLength;
    }
    splitPos := pos;
  }

  /** `split_message`: chunks of at most `maxLength` characters. */
  method SplitMessage(text: string, maxLength: nat) returns (chunks: seq<string>)
    requires maxLength >= 1
    ensures chunks == Chunks(text, maxLength)
  {
    if |text| <= maxLength {
      return [text];
    }
    chunks := [];
    var remaining := text;
    while remaining != []
      invariant chunks + ChunksOf(remaining, maxLength) == ChunksOf(text, maxLength)
      decreases |remaining|
    {
      if |remaining| <= maxLength {
        assert ChunksOf(remaining, maxLength) == [remaining];
        chunks := chunks + [remaining];
        break;
      }
      var splitPos := FindSplitPos(remaining, maxLength);
      ChunksAfterStep(chunks, remaining, maxLength);
      chunks := chunks + [RStrip(remaining[..splitPos])];
      remaining := LStrip(remaining[splitPos..]);
    }
  }

  /** Every chunk fits the window. */
  lemma {:induction false} ChunksOfBounded(rem: string, maxLength: nat)
    requires maxLength >= 1
    ensures forall k :: 0 <= k < |ChunksOf(rem, maxLength)| ==> |ChunksOf(rem, maxLength)[k]| <= maxLength
    decreases |rem|
  {
    if rem != [] && |rem| > maxLength {
      var sp := SplitPos(rem, maxLength);
      var next := LStrip(rem[sp..]);
      ChunksOfBounded(next, maxLength);
      var cs := ChunksOf(rem, maxLength);
      assert cs == [RStrip(rem[..sp])] + ChunksOf(next, maxLength);
      forall k | 0 <= k < |cs| ensures |cs[k]| <= maxLength {
        if k > 0 {
          assert cs[k] == ChunksOf(next, maxLength)[k - 1];
        }
      }
    }
  }

  /** One cut loses only whitespace. */
  lemma CutKeepsVisible(rem: string, sp: nat)
    requires sp <= |rem|
    ensures Visible(rem) == Visible(RStrip(rem[..sp])) + Visible(LStrip(rem[sp..]))
  {
    assert rem == rem[..sp] + rem[sp..];
    VisibleConcat(rem[..sp], rem[sp..]);
    VisibleRStrip(rem[..sp]);
    VisibleLStrip(rem[sp..]);
  }

  lemma {:induction false} ChunksOfKeepVisible(rem: string, maxLength: nat)
    requires maxLength >= 1
    ensures Visible(Concat(ChunksOf(rem, maxLength))) == Visible(rem)
    decreases |rem|
  {
    if rem == [] {
    } else if |rem| <= maxLength {
      assert Concat([rem]) == rem + Concat([]);
      assert rem + [] == rem;
    } else {
      var sp := SplitPos(rem, maxLength);
      var next := LStrip(rem[sp..]);
      var first := RStrip(rem[..sp]);
      ChunksOfKeepVisible(next, maxLength);
      assert ChunksOf(rem, maxLength) == [first] + ChunksOf(next, maxLength);
      assert Concat([first] + ChunksOf(next, maxLength)) == first + Concat(ChunksOf(next, maxLength));
      VisibleConcat(first, Concat(ChunksOf(next, maxLength)));
      CutKeepsVisible(rem, sp);
    }
  }

  /** A paragraph break from the window's middle on wins: the cut is at the last one that
      fits in the window. */
  lemma ParagraphBreakPreferred(rem: string, maxLength: nat, k: nat)
    requires maxLength >= 1 && |rem| > maxLength
    requires maxLength / 2 <= k && k + 2 <= maxLength && OccursAt(rem, "\n\n", k)
    ensures OccursAt(rem, "\n\n", SplitPos(rem, maxLength)) && k <= SplitPos(rem, maxLength)
    ensures forall j: nat :: SplitPos(rem, maxLength) < j && j + 2 <= maxLength ==> !OccursAt(rem, "\n\n", j)
  {
  }

  /** With no paragraph break from the window's middle on, a line break there wins: the
      cut is at the last line break in the window. */
  lemma LineBreakPreferred(rem: string, maxLength: nat, k: nat)
    requires maxLength >= 1 && |rem| > maxLength
    requires forall j: nat :: maxLength / 2 <= j && j + 2 <= maxLength ==> !OccursAt(rem, "\n\n", j)
    requires maxLength / 2 <= k < maxLength && rem[k] == '\n'
    ensures k <= SplitPos(rem, maxLength) < maxLength && rem[SplitPos(rem, maxLength)] == '\n'
    ensures forall j :: SplitPos(rem, maxLength) < j < maxLength ==> rem[j] != '\n'
  {
    var p1 := RFind(rem, "\n\n", maxLength);
    assert p1 == -1 || p1 < maxLength / 2;
    assert rem[k..k + 1] == "\n";
    assert OccursAt(rem, "\n", k);
    var p := RFind(rem, "\n", maxLength);
    assert p >= k;
    OccursAtIndex(rem, "\n", p, 0);
    assert LineBreakCut(rem, maxLength) == p;
    forall j | p < j < maxLength
      ensures rem[j] != '\n'
    {
      assert !OccursAt(rem, "\n", j);
      assert rem[j..j + 1] == [rem[j]];
    }
  }

  /** With no line break from the window's middle on, the first separator, in the order
      `". "`, `"! "`, `"? "`, that occurs strictly past the middle wins: the cut is just after
      its last occurrence in the window. */
  lemma SentencePreferred(rem: string, maxLength: nat, s: nat, j: nat)
    requires maxLength >= 1 && |rem| > maxLength
    requires forall i: nat :: maxLength / 2 <= i < maxLength ==> rem[i] != '\n'
    requires s < |SentenceSeps| && maxLength / 2 < j && j + 2 <= maxLength && OccursAt(rem, SentenceSeps[s], j)
    requires forall i: nat, s' :: maxLength / 2 < i && i + 2 <= maxLength && 0 <= s' < s ==>
      !OccursAt(rem, SentenceSeps[s'], i)
    ensures j + 2 <= SplitPos(rem, maxLength) && OccursAt(rem, SentenceSeps[s], SplitPos(rem, maxLength) - 2)
    ensures forall i: nat :: SplitPos(rem, maxLength) - 2 < i && i + 2 <= maxLength ==>
      !OccursAt(rem, SentenceSeps[s], i)
  {
    var p2 := LineBreakCut(rem, maxLength);
    assert p2 < maxLength / 2;
    var p := RFind(rem, SentenceSeps[s], maxLength);
    assert |SentenceSeps[s]| == 2;
    assert p >= j;
    SentenceCutAt(rem, maxLength, 0, s);
  }

  /** When the separators before the `s`-th have no occurrence past the middle and it has
      one, the sentence cut is just after its last occurrence. */
  lemma {:induction false} SentenceCutAt(rem: string, maxLength: nat, k: nat, s: nat)
    requires k <= s < |SentenceSeps|
    requires forall i: nat, s' :: maxLength / 2 < i && i + 2 <= maxLength && k <= s' < s ==>
      !OccursAt(rem, SentenceSeps[s'], i)
    requires RFind(rem, SentenceSeps[s], maxLength) > maxLength / 2
    ensures SentenceCut(rem, maxLength, k) == Some(RFind(rem, SentenceSeps[s], maxLength) + 2)
    decreases s - k
  {
    if k < s {
      SentenceCutSkip(rem, maxLength, k);
      SentenceCutAt(rem, maxLength, k + 1, s);
    } else {
      SentenceCutHit(rem, maxLength, k);
    }
  }

  /** A separator with no occurrence past the middle is passed over. */
  lemma SentenceCutSkip(rem: string, maxLength: nat, k: nat)
    requires k < |SentenceSeps|
    requires forall i: nat :: maxLength / 2 < i && i + 2 <= maxLength ==> !OccursAt(rem, SentenceSeps[k], i)
    ensures SentenceCut(rem, maxLength, k) == SentenceCut(rem, maxLength, k + 1)
  {
    SentenceSepShape(k);
  }

  /** A separator with an occurrence past the middle ends the search. */
  lemma SentenceCutHit(rem: string, maxLength: nat, k: nat)
    requires k < |SentenceSeps|
    requires RFind(rem, SentenceSeps[k], maxLength) > maxLength / 2
    ensures SentenceCut(rem, maxLength, k) == Some(RFind(rem, SentenceSeps[k], maxLength) + 2)
  {
    SentenceSepShape(k);
  }

  /** With no line break and no sentence separator past the middle of the window, the
      cut is hard, at the window's end. */
  lemma HardCutLast(rem: string, maxLength: nat)
    requires maxLength >= 1 && |rem| > maxLength
    requires forall j: nat :: maxLength / 2 <= j < maxLength ==> rem[j] != '\n'
    requires forall j: nat, k :: maxLength / 2 < j && j + 2 <= maxLength && 0 <= k < |SentenceSeps| ==>
      !OccursAt(rem, SentenceSeps[k], j)
    ensures SplitPos(rem, maxLength) == maxLength
  {
    var p2 := LineBreakCut(rem, maxLength);
    assert p2 < maxLength / 2;
    SentenceCutNone(rem, maxLength, 0);
  }

  lemma {:induction false} SentenceCutNone(rem: string, maxLength: nat, k: nat)
    requires forall j: nat, k' :: maxLength / 2 < j && j + 2 <= maxLength && k <= k' < |SentenceSeps| ==>
      !OccursAt(rem, SentenceSeps[k'], j)
    ensures SentenceCut(rem, maxLength, k).None?
    decreases |SentenceSeps| - k
  {
    if k < |SentenceSeps| {
      var p := RFind(rem, SentenceSeps[k], maxLength);
      assert |SentenceSeps[k]| == 2;
      assert p <= maxLength / 2;
      SentenceCutNone(rem, maxLength, k + 1);
    }
  }

  // ---------------------------------------------------------------------------
  // _escape_html

  /** `_escape_html`: `&`, then `<`, then `>` replaced by their entities. Because `&` goes
      first, this is the per-character escape, and what comes out has no angle bracket
      that could open or close a tag. */
  function EscapeHtml(text: string): (r: string)
    ensures r == EscapeEach(text)
    ensures NoAngle(r)
  {
    EscapeChainIsEach(text);
    EscapeEachNoAngle(text);
    EscapeChain(text)
  }

  /** The three replacements, in the order the source applies them. */
  function EscapeChain(text: string): string {
    Replace(Replace(Replace(text, "&", "&amp;"), "<", "&lt;"), ">", "&gt;")
  }

  function EscapeChar(c: char): string {
    if c == '&' then "&amp;" else if c == '<' then "&lt;" else if c == '>' then "&gt;" else [c]
  }

  /** The per-character escape. */
  function EscapeEach(text: string): string
    decreases |text|
  {
    if text == [] then [] else EscapeChar(text[0]) + EscapeEach(text[1..])
  }

  /** Replacing a single character distributes over concatenation. */
  lemma {:induction false} ReplaceCharConcat(a: string, b: string, c: char, rep: string)
    ensures Replace(a + b, [c], rep) == Replace(a, [c], rep) + Replace(b, [c], rep)
    decreases |a|
  {
    if a == [] {
      assert a + b == b;
    } else {
      var x, t := a[0], a[1..];
      assert a == [x] + t;
      assert a + b == [x] + (t + b);
      ReplaceCons(x, t + b, c, rep);
      ReplaceCons(x, t, c, rep);
      ReplaceCharConcat(t, b, c, rep);
    }
  }

  lemma ReplaceCons(x: char, s: string, c: char, rep: string)
    ensures Replace([x] + s, [c], rep) == (if x == c then rep else [x]) + Replace(s, [c], rep)
  {
    ReplaceCharFirst([x] + s, c, rep);
    assert ([x] + s)[1..] == s;
  }

  lemma ReplaceCharFirst(s: string, c: char, rep: string)
    requires s != []
    ensures Replace(s, [c], rep) == (if s[0] == c then rep else [s[0]]) + Replace(s[1..], [c], rep)
  {
    assert StartsWith(s, [c]) <==> s[0] == c by {
      assert s[..1] == [s[0]];
    }
  }

  /** Replacing a character that does not occur changes nothing. */
  lemma {:induction false} ReplaceAbsent(s: string, c: char, rep: string)
    requires forall i :: 0 <= i < |s| ==> s[i] != c
    ensures Replace(s, [c], rep) == s
    decreases |s|
  {
    if s != [] {
      ReplaceCharFirst(s, c, rep);
      ReplaceAbsent(s[1..], c, rep);
    }
  }

  /** The escapes of one character, after the `&` step, pass the `<` and `>` steps unchanged. */
  lemma EscapeOneChar(c: char)
    ensures Replace(Replace(if c == '&' then "&amp;" else [c], "<", "&lt;"), ">", "&gt;") == EscapeChar(c)
  {
    if c == '&' {
      ReplaceAbsent("&amp;", '<', "&lt;");
      ReplaceAbsent("&amp;", '>', "&gt;");
    } else if c == '<' {
      ReplaceCharFirst([c], '<', "&lt;");
      assert [c][1..] == [];
      assert Replace([c], "<", "&lt;") == "&lt;" + [];
      assert "&lt;" + [] == "&lt;";
      ReplaceAbsent("&lt;", '>', "&gt;");
    } else {
      ReplaceAbsent([c], '<', "&lt;");
      ReplaceCharFirst([c], '>', "&gt;");
      ReplaceAbsent([c][1..], '>', "&gt;");
    }
  }

  /** Because `&` is replaced first, the chained replacements are the per-character escape. */
  lemma {:induction false} EscapeChainIsEach(text: string)
    ensures EscapeChain(text) == EscapeEach(text)
    decreases |text|
  {
    if text != [] {
      var c := text[0];
      var a := if c == '&' then "&amp;" else [c];
      var r1 := Replace(text[1..], "&", "&amp;");
      ReplaceCharFirst(text, '&', "&amp;");
      ReplaceCharConcat(a, r1, '<', "&lt;");
      ReplaceCharConcat(Replace(a, "<", "&lt;"), Replace(r1, "<", "&lt;"), '>', "&gt;");
      EscapeOneChar(c);
      EscapeChainIsEach(text[1..]);
    }
  }

  predicate NoAngle(s: string) {
    forall i :: 0 <= i < |s| ==> s[i] != '<' && s[i] != '>'
  }

  lemma {:induction false} EscapeEachNoAngle(text: string)
    ensures NoAngle(EscapeEach(text))
    decreases |text|
  {
    if text != [] {
      EscapeEachNoAngle(text[1..]);
      var e := EscapeChar(text[0]);
      assert NoAngle(e);
      var r := EscapeEach(text[1..]);
      assert EscapeEach(text) == e + r;
      forall i | 0 <= i < |e + r| ensures (e + r)[i] != '<' && (e + r)[i] != '>' {
        if i >= |e| {
          assert (e + r)[i] == r[i - |e|];
        }
      }
    }
  }

  // ---------------------------------------------------------------------------
  // _convert_inline_bold

  /** `re.split(r"(\*\*.*?\*\*)", text)` on a line: the text between matches, alternating
      with the matches themselves. A match opens at the first `**` and closes at the next
      `**` after it. */
  function BoldSplit(text: string): (parts: seq<string>)
    ensures |parts| >= 1
    decreases |text|
  {
    match FindFrom(text, "**", 0)
    case None => [text]
    case Some(i) =>
      match FindFrom(text, "**", i + 2)
      case None => [text]
      case Some(j) => [text[..i], text[i..j + 2]] + BoldSplit(text[j + 2..])
  }

  /** `part[2:-2]`, which is empty for parts shorter than four characters. */
  function Inner(part: string): string {
    if |part| >= 4 then part[2..|part| - 2] else ""
  }

  function ConvertPart(part: string): string {
    if StartsWith(part, "**") && EndsWith(part, "**") then "<b>" + EscapeHtml(Inner(part)) + "</b>"
    else EscapeHtml(part)
  }

  function ConvertParts(parts: seq<string>): string
    decreases |parts|
  {
    if parts == [] then "" else ConvertPart(parts[0]) + ConvertParts(parts[1..])
  }

  /** `_convert_inline_bold`: always well-formed HTML, with only balanced `<b>` tags around
      escaped text. */
  function ConvertInlineBold(text: string): (r: string)
    ensures WellTagged(r, false)
  {
    ConvertPartsWellTagged(BoldSplit(text));
    ConvertParts(BoldSplit(text))
  }

  /** The split loses nothing: its pieces run together give the text back. */
  lemma {:induction false} BoldSplitConcat(text: string)
    ensures Concat(BoldSplit(text)) == text
    decreases |text|
  {
    match FindFrom(text, "**", 0)
    case None =>
      ConcatSingle(text);
    case Some(i) =>
      match FindFrom(text, "**", i + 2)
      case None =>
        ConcatSingle(text);
      case Some(j) =>
        var rest := BoldSplit(text[j + 2..]);
        BoldSplitConcat(text[j + 2..]);
        assert BoldSplit(text) == [text[..i], text[i..j + 2]] + rest;
        ConcatAround(text, i, j + 2, rest);
  }

  lemma ConcatSingle(text: string)
    ensures Concat([text]) == text
  {
    assert [text][1..] == [];
  }

  /** The piece before `i`, the piece from `i` to `k` and pieces that run together to the
      rest give the text back. */
  lemma ConcatAround(text: string, i: nat, k: nat, rest: seq<string>)
    requires i <= k <= |text| && Concat(rest) == text[k..]
    ensures Concat([text[..i], text[i..k]] + rest) == text
  {
    var a, b := text[..i], text[i..k];
    assert ([a, b] + rest)[1..] == [b] + rest;
    assert ([b] + rest)[1..] == rest;
    assert a + b == text[..k];
    assert text == text[..k] + text[k..];
  }

  /** Without `**` the conversion is plain escaping. */
  lemma NoBoldIsEscape(text: string)
    requires !Contains(text, "**")
    ensures ConvertInlineBold(text) == EscapeHtml(text)
  {
    assert FindFrom(text, "**", 0).None?;
    assert ConvertParts([text]) == ConvertPart(text) + ConvertParts([]);
    assert !StartsWith(text, "**") by {
      assert !OccursAt(text, "**", 0);
    }
  }

  /** A lone `**` becomes an empty bold element. */
  lemma StrayMarkerBecomesEmptyBold()
    ensures ConvertInlineBold("**") == "<b></b>"
  {
    assert FindFrom("**", "**", 0) == Some(0);
    assert FindFrom("**", "**", 2).None?;
    assert ConvertParts(["**"]) == ConvertPart("**") + ConvertParts([]);
    assert Replace("", "&", "&amp;") == "";
  }

  // ---------------------------------------------------------------------------
  // Well-formed Telegram HTML

  /** Scanning `s` from a state inside (`open`) or outside a bold element ends outside: every
      `<` opens `<b>` or closes `</b>`, tags alternate starting with `<b>`, and no other
      `<` or `>` occurs. */
  predicate WellTagged(s: string, open: bool)
    decreases |s|
  {
    if s == [] then !open
    else if StartsWith(s, "<b>") then !open && WellTagged(s[3..], true)
    else if StartsWith(s, "</b>") then open && WellTagged(s[4..], false)
    else s[0] != '<' && s[0] != '>' && WellTagged(s[1..], open)
  }

  /** A text whose first character differs from that of `p` does not start with `p`. */
  lemma NotStartsWith(x: string, p: string)
    requires x != [] && p != [] && x[0] != p[0]
    ensures !StartsWith(x, p)
  {
    if |p| <= |x| {
      assert x[..|p|][0] == x[0];
    }
  }

  lemma {:induction false} PlainPrefix(e: string, s: string, open: bool)
    requires NoAngle(e)
    ensures WellTagged(e + s, open) == WellTagged(s, open)
    decreases |e|
  {
    if e != [] {
      var t := e + s;
      assert t[0] == e[0];
      NotStartsWith(t, "<b>");
      NotStartsWith(t, "</b>");
      assert t[1..] == e[1..] + s;
      PlainPrefix(e[1..], s, open);
    } else {
      assert e + s == s;
    }
  }

  /** Well-tagged pieces concatenate to a well-tagged whole. */
  lemma {:induction false} WellTaggedConcat(a: string, b: string, open: bool)
    requires WellTagged(a, open) && WellTagged(b, false)
    ensures WellTagged(a + b, open)
    decreases |a|
  {
    if a == [] {
      assert a + b == b;
    } else if StartsWith(a, "<b>") {
      assert (a + b)[..3] == a[..3];
      assert (a + b)[3..] == a[3..] + b;
      WellTaggedConcat(a[3..], b, true);
    } else if StartsWith(a, "</b>") {
      assert (a + b)[..3] == a[..3];
      assert (a + b)[..4] == a[..4];
      assert (a + b)[4..] == a[4..] + b;
      WellTaggedConcat(a[4..], b, false);
    } else {
      assert (a + b)[0] == a[0];
      assert !StartsWith(a + b, "<b>") && !StartsWith(a + b, "</b>");
      assert (a + b)[1..] == a[1..] + b;
      WellTaggedConcat(a[1..], b, open);
    }
  }

  lemma EscapedWellTagged(text: string)
    ensures WellTagged(EscapeHtml(text), false)
  {
    PlainPrefix(EscapeHtml(text), "", false);
    assert EscapeHtml(text) + "" == EscapeHtml(text);
  }

  /** `<b>` + escaped text + `</b>` is well tagged. */
  lemma BoldWellTagged(text: string)
    ensures WellTagged("<b>" + EscapeHtml(text) + "</b>", false)
  {
    var e := EscapeHtml(text);
    var s := "<b>" + e + "</b>";
    assert s[..3] == "<b>";
    assert s[3..] == e + "</b>";
    PlainPrefix(e, "</b>", true);
    assert WellTagged("</b>", true) by {
      assert !StartsWith("</b>", "<b>") by {
        assert "</b>"[1] != "<b>"[1];
      }
      assert "</b>"[4..] == "";
    }
  }

  lemma ConvertPartWellTagged(part: string)
    ensures WellTagged(ConvertPart(part), false)
  {
    if StartsWith(part, "**") && EndsWith(part, "**") {
      BoldWellTagged(Inner(part));
    } else {
      EscapedWellTagged(part);
    }
  }

  lemma {:induction false} ConvertPartsWellTagged(parts: seq<string>)
    ensures WellTagged(ConvertParts(parts), false)
    decreases |parts|
  {
    if parts != [] {
      ConvertPartWellTagged(parts[0]);
      ConvertPartsWellTagged(parts[1..]);
      WellTaggedConcat(ConvertPart(parts[0]), ConvertParts(parts[1..]), false);
    }
  }

  // ---------------------------------------------------------------------------
  // format_insights_for_telegram

  const Bullet: char := '•'

  /** One line of insights as Telegram HTML, always well formed. */
  function FormatLine(line: string): (r: string)
    ensures WellTagged(r, false)
  {
    if StartsWith(line, "### ") then Heading(line[4..])
    else if StartsWith(line, "## ") then Heading(line[3..])
    else if StartsWith(line, "# ") then Heading(line[2..])
    else if StartsWith(line, "- ") then BulletItem(line[2..])
    else if Strip(line) == "" then ""
    else ConvertInlineBold(line)
  }

  /** A heading: its escaped text in bold, between line breaks. */
  function Heading(text: string): (r: string)
    ensures WellTagged(r, false)
  {
    HeadingWellTagged(text);
    "\n" + ("<b>" + EscapeHtml(text) + "</b>") + "\n"
  }

  /** A list item: a line break, the bullet and the item's inline-bold conversion. */
  function BulletItem(text: string): (r: string)
    ensures WellTagged(r, false)
  {
    PlainWellTagged("\n" + [Bullet, ' ']);
    WellTaggedConcat("\n" + [Bullet, ' '], ConvertInlineBold(text), false);
    "\n" + [Bullet, ' '] + ConvertInlineBold(text)
  }

  function FormatLines(lines: seq<string>): (r: seq<string>)
    ensures |r| == |lines|
    decreases |lines|
  {
    if lines == [] then [] else [FormatLine(lines[0])] + FormatLines(lines[1..])
  }

  /** `format_insights_for_telegram`: each line converted, joined by newlines. Whatever the
      insights contain, the result is well-formed Telegram HTML: every `<` or `>` in it
      belongs to a `<b>` or `</b>` tag and the tags pair up. */
  function FormatInsights(insights: string): (r: string)
    ensures WellTagged(r, false)
  {
    FormatLinesWellTagged(Split(insights, "\n"));
    JoinWellTagged(FormatLines(Split(insights, "\n")));
    Join("\n", FormatLines(Split(insights, "\n")))
  }

  lemma PlainWellTagged(s: string)
    requires NoAngle(s)
    ensures WellTagged(s, false)
  {
    PlainPrefix(s, "", false);
    assert s + "" == s;
  }

  /** A heading line: its escaped text in bold, between line breaks. */
  lemma HeadingWellTagged(rest: string)
    ensures WellTagged("\n" + ("<b>" + EscapeHtml(rest) + "</b>") + "\n", false)
  {
    var b := "<b>" + EscapeHtml(rest) + "</b>";
    PlainWellTagged("\n");
    BoldWellTagged(rest);
    WellTaggedConcat(b, "\n", false);
    WellTaggedConcat("\n", b + "\n", false);
    assert "\n" + b + "\n" == "\n" + (b + "\n");
  }

  lemma {:induction false} JoinWellTagged(parts: seq<string>)
    requires forall k :: 0 <= k < |parts| ==> WellTagged(parts[k], false)
    ensures WellTagged(Join("\n", parts), false)
    decreases |parts|
  {
    if |parts| == 0 {
    } else if |parts| > 1 {
      JoinWellTagged(parts[1..]);
      JoinWellTaggedStep(parts[0], Join("\n", parts[1..]));
    }
  }

  lemma JoinWellTaggedStep(head: string, rest: string)
    requires WellTagged(head, false) && WellTagged(rest, false)
    ensures WellTagged(head + "\n" + rest, false)
  {
    PlainWellTagged("\n");
    WellTaggedConcat("\n", rest, false);
    WellTaggedConcat(head, "\n" + rest, false);
    assert head + "\n" + rest == head + ("\n" + rest);
  }

  lemma {:induction false} FormatLinesWellTagged(lines: seq<string>)
    ensures forall k :: 0 <= k < |FormatLines(lines)| ==> WellTagged(FormatLines(lines)[k], false)
    decreases |lines|
  {
    if lines != [] {
      FormatLinesWellTagged(lines[1..]);
      var r := FormatLines(lines);
      assert r == [FormatLine(lines[0])] + FormatLines(lines[1..]);
      forall k | 0 <= k < |r| ensures WellTagged(r[k], false) {
        if k > 0 {
          assert r[k] == FormatLines(lines[1..])[k - 1];
        }
      }
    }
  }

  /** One output entry per input line: splitting the insights on newlines and formatting
      each line gives the entries the output joins. */
  lemma FormatInsightsPerLine(insights: string)
    ensures |FormatLines(Split(insights, "\n"))| == |Split(insights, "\n")|
    ensures forall k :: 0 <= k < |Split(insights, "\n")| ==>
      FormatLines(Split(insights, "\n"))[k] == FormatLine(Split(insights, "\n")[k])
  {
    FormatLinesAt(Split(insights, "\n"));
  }

  lemma {:induction false} FormatLinesAt(lines: seq<string>)
    ensures forall k :: 0 <= k < |lines| ==> FormatLines(lines)[k] == FormatLine(lines[k])
    decreases |lines|
  {
    if lines != [] {
      FormatLinesAt(lines[1..]);
      var r := FormatLines(lines);
      forall k | 0 <= k < |lines| ensures r[k] == FormatLine(lines[k]) {
        if k > 0 {
          assert r[k] == FormatLines(lines[1..])[k - 1];
          assert lines[k] == lines[1..][k - 1];
        }
      }
    }
  }
}
