/** The timestamped transcript of `AudioTranscriber.transcribe_with_timestamps`: each
    Whisper segment becomes a line `[HH:MM:SS -> HH:MM:SS] text`, and the lines are joined
    with newlines. Segment times are seconds as reals; the formatting follows Python's
    floor division and modulo on floats. */
module Transcriber {
  import opened Wrappers
  import opened Strings

  // ---------------------------------------------------------------------------
  // decimal digits

  predicate IsDigit(c: char) {
    '0' <= c <= '9'
  }

  predicate AllDigits(t: string) {
    forall k :: 0 <= k < |t| ==> IsDigit(t[k])
  }

  function DigitChar(d: int): (c: char)
    requires 0 <= d < 10
    ensures IsDigit(c)
  {
    ('0' as int + d) as char
  }

  function DigitValue(c: char): int {
    c as int - '0' as int
  }

  /** The decimal representation of `n`, as `str(n)` writes it. */
  function Digits(n: nat): (r: string)
    ensures 1 <= |r| && AllDigits(r)
    ensures n < 10 ==> |r| == 1
    ensures 10 <= n < 100 ==> |r| == 2
    decreases n
  {
    if n < 10 then [DigitChar(n)] else Digits(n / 10) + [DigitChar(n % 10)]
  }

  /** `int(t)` on a string of decimal digits. */
  function Num(t: string): int
    decreases |t|
  {
    if t == [] then 0 else 10 * Num(t[..|t| - 1]) + DigitValue(t[|t| - 1])
  }

  /** Reading the digits back gives the number. */
  lemma {:induction false} NumDigits(n: nat)
    ensures Num(Digits(n)) == n
    decreases n
  {
    if n >= 10 {
      var d := Digits(n / 10);
      NumDigits(n / 10);
      assert (d + [DigitChar(n % 10)])[..|d|] == d;
    }
  }

  /** `f"{n:02d}"`: at least two characters, zero-padded; a negative number is its sign
      followed by its digits. */
  function Pad2(n: int): (r: string)
    ensures n >= 0 ==> |r| >= 2 && AllDigits(r)
    ensures 0 <= n < 100 ==> |r| == 2
    ensures forall k :: 0 <= k < |r| ==> IsDigit(r[k]) || r[k] == '-'
  {
    if n < 0 then "-" + Digits(-n)
    else if n < 10 then "0" + Digits(n)
    else Digits(n)
  }

  lemma Pad2RoundTrip(n: nat)
    ensures Num(Pad2(n)) == n
  {
    NumDigits(n);
    if n < 10 {
      assert Pad2(n)[..1] == "0";
    }
  }

  // ---------------------------------------------------------------------------
  // Python arithmetic on floats

  /** `x // d` for a float `x` and a positive whole divisor. */
  function FloorDiv(x: real, d: nat): int
    requires d > 0
  {
    (x / d as real).Floor
  }

  /** `x % d` for a float `x` and a positive whole divisor: the remainder takes the
      divisor's sign. */
  function FloorMod(x: real, d: nat): real
    requires d > 0
  {
    x - (d * FloorDiv(x, d)) as real
  }

  /** `int(x)`: truncation toward zero. */
  function Trunc(x: real): int {
    if x >= 0.0 then x.Floor else -((-x).Floor)
  }

  function Hours(seconds: real): int {
    FloorDiv(seconds, 3600)
  }

  function Minutes(seconds: real): int {
    FloorDiv(FloorMod(seconds, 3600), 60)
  }

  function Secs(seconds: real): int {
    Trunc(FloorMod(seconds, 60))
  }

  /** Text made only of digits, colons and minus signs. */
  predicate TimeText(t: string) {
    forall k :: 0 <= k < |t| ==> IsDigit(t[k]) || t[k] == ':' || t[k] == '-'
  }

  /** `_format_timestamp(seconds)`. */
  function FormatTimestamp(seconds: real): (r: string)
    ensures TimeText(r)
  {
    var h, m, s := Pad2(Hours(seconds)), Pad2(Minutes(seconds)), Pad2(Secs(seconds));
    assert forall k :: 0 <= k < |h| ==> (h + ":" + m + ":" + s)[k] == h[k];
    assert forall k :: 0 <= k < |m| ==> (h + ":" + m + ":" + s)[|h| + 1 + k] == m[k];
    assert forall k :: 0 <= k < |s| ==> (h + ":" + m + ":" + s)[|h| + |m| + 2 + k] == s[k];
    h + ":" + m + ":" + s
  }

  // The fields of the timestamp are those of the whole seconds below `seconds`.

  lemma FloorDivOfFloor(x: real, d: nat)
    requires d > 0
    ensures FloorDiv(x, d) == x.Floor / d
  {
    var n := x.Floor;
    var q := n / d;
    var D := d as real;
    assert n == q * d + n % d;
    assert (q * d) as real <= x by {
      assert (q * d) as real <= n as real;
    }
    assert x < ((q + 1) * d) as real by {
      assert n + 1 <= (q + 1) * d;
    }
    assert q as real * D <= x < (q + 1) as real * D;
    assert q as real <= x / D < (q + 1) as real;
  }

  lemma FloorShift(x: real, k: int)
    ensures (x - k as real).Floor == x.Floor - k
  {
  }

  lemma FloorModOfFloor(x: real, d: nat)
    requires d > 0
    ensures FloorMod(x, d) >= 0.0
    ensures FloorMod(x, d).Floor == x.Floor % d
  {
    FloorDivOfFloor(x, d);
    FloorShift(x, d * FloorDiv(x, d));
  }

  /** With `n` the whole seconds in `seconds`: hours are `n / 3600`, minutes the whole
      minutes left over, and seconds the whole seconds left over after those. */
  lemma TimestampFields(seconds: real)
    ensures Hours(seconds) == seconds.Floor / 3600
    ensures Minutes(seconds) == (seconds.Floor % 3600) / 60
    ensures Secs(seconds) == seconds.Floor % 60
  {
    FloorDivOfFloor(seconds, 3600);
    FloorModOfFloor(seconds, 3600);
    FloorDivOfFloor(FloorMod(seconds, 3600), 60);
    FloorModOfFloor(seconds, 60);
  }

  /** Minutes and seconds lie in 0..59 for every time, hours are never negative for a
      time that is not, and the fields add back up to the whole seconds. */
  lemma TimestampRanges(seconds: real)
    ensures 0 <= Minutes(seconds) < 60 && 0 <= Secs(seconds) < 60
    ensures seconds >= 0.0 ==> Hours(seconds) >= 0
    ensures 3600 * Hours(seconds) + 60 * Minutes(seconds) + Secs(seconds) == seconds.Floor
  {
    TimestampFields(seconds);
    var n := seconds.Floor;
    var r := n % 3600;
    assert n == 3600 * (n / 3600) + r;
    assert r == 60 * (r / 60) + r % 60;
    assert n == 60 * (60 * (n / 3600) + r / 60) + r % 60;
    ModOfSplit(n, 60 * (n / 3600) + r / 60, r % 60);
  }

  lemma ModOfSplit(n: int, q: int, r: int)
    requires 0 <= r < 60 && n == 60 * q + r
    ensures n % 60 == r
  {
  }

  /** Below 100 hours the timestamp is exactly `HH:MM:SS`. */
  lemma TimestampLength(seconds: real)
    requires 0.0 <= seconds < 360000.0
    ensures |FormatTimestamp(seconds)| == 8
  {
    TimestampFields(seconds);
    TimestampRanges(seconds);
    assert seconds.Floor < 360000;
  }

  // ---------------------------------------------------------------------------
  // reading a timestamp back

  /** The whole seconds written in `HH:MM:SS` (with two or more hour digits), if the text
      has that shape. */
  function ParseTimestamp(t: string): Option<int> {
    if |t| >= 8 && t[|t| - 6] == ':' && t[|t| - 3] == ':' then
      var h, m, s := t[..|t| - 6], t[|t| - 5..|t| - 3], t[|t| - 2..];
      if AllDigits(h) && AllDigits(m) && AllDigits(s) then
        Some(3600 * Num(h) + 60 * Num(m) + Num(s))
      else None
    else None
  }

  /** A formatted time that is not negative reads back as its whole seconds. */
  lemma TimestampRoundTrip(seconds: real)
    requires seconds >= 0.0
    ensures ParseTimestamp(FormatTimestamp(seconds)) == Some(seconds.Floor)
  {
    TimestampRanges(seconds);
    var hn, mn, sn := Hours(seconds), Minutes(seconds), Secs(seconds);
    var h, m, s := Pad2(hn), Pad2(mn), Pad2(sn);
    var t := FormatTimestamp(seconds);
    assert t == h + ":" + m + ":" + s;
    assert |m| == 2 && |s| == 2;
    assert t[..|t| - 6] == h;
    assert t[|t| - 5..|t| - 3] == m;
    assert t[|t| - 2..] == s;
    Pad2RoundTrip(hn);
    Pad2RoundTrip(mn);
    Pad2RoundTrip(sn);
  }

  // ---------------------------------------------------------------------------
  // timestamped lines

  /** A Whisper segment: start and end in seconds, and its text. */
  datatype Segment = Segment(start: real, end: real, text: string)

  /** `f"[{start} -> {end}] {text}"` */
  function Bracket(start: string, end: string, text: string): string {
    "[" + start + " -> " + end + "] " + text
  }

  /** The line of one segment, its text stripped. */
  function Line(seg: Segment): string {
    Bracket(FormatTimestamp(seg.start), FormatTimestamp(seg.end), Strip(seg.text))
  }

  /** One line per segment, in order. */
  function Lines(segments: seq<Segment>): seq<string> {
    Map(Line, segments)
  }

  /** The `formatted_with_timestamps` text. */
  function FormattedTranscript(segments: seq<Segment>): string {
    Join("\n", Lines(segments))
  }

  /** The line-building loop of `transcribe_with_timestamps`. */
  method FormatWithTimestamps(segments: seq<Segment>) returns (formatted: string)
    ensures formatted == FormattedTranscript(segments)
  {
    var lines: seq<string> := [];
    var i := 0;
    while i < |segments|
      invariant 0 <= i <= |segments|
      invariant lines == Lines(segments[..i])
    {
      MapSnoc(Line, segments, i);
      lines := lines + [Line(segments[i])];
      i := i + 1;
    }
    assert segments[..i] == segments;
    formatted := Join("\n", lines);
  }

  /** The parsed form of a line: whole start and end seconds, and the text. */
  datatype Stamped = Stamped(start: int, end: int, text: string)

  /** Reads `[start -> end] text` back. */
  function ParseLine(line: string): Option<Stamped> {
    if |line| == 0 || line[0] != '[' then None
    else
      match FindFrom(line, " -> ", 1)
      case None => None
      case Some(i) =>
        match FindFrom(line, "] ", i + 4)
        case None => None
        case Some(j) =>
          match (ParseTimestamp(line[1..i]), ParseTimestamp(line[i + 4..j]))
          case (Some(a), Some(b)) => Some(Stamped(a, b, line[j + 2..]))
          case _ => None
  }

  /** A line read back gives its two times as parsed and its text unchanged. */
  lemma ParseBracket(a: string, b: string, t: string)
    requires TimeText(a) && TimeText(b)
    ensures ParseLine(Bracket(a, b, t)) ==
      match (ParseTimestamp(a), ParseTimestamp(b))
      case (Some(x), Some(y)) => Some(Stamped(x, y, t))
      case _ => None
  {
    BracketArrow(a, b, t);
    BracketClose(a, b, t);
    BracketParts(a, b, t);
  }

  /** The first arrow of a bracketed line is the one after the start time. */
  lemma BracketArrow(a: string, b: string, t: string)
    requires TimeText(a)
    ensures FindFrom(Bracket(a, b, t), " -> ", 1) == Some(1 + |a|)
  {
    assert forall k :: 0 <= k < |a| ==> a[k] != " -> "[0];
    assert Bracket(a, b, t) == "[" + a + " -> " + (b + "] " + t);
    FindFromPast("[", a, " -> ", b + "] " + t);
  }

  /** The first closing bracket after the arrow is the one after the end time. */
  lemma BracketClose(a: string, b: string, t: string)
    requires TimeText(b)
    ensures var p := 1 + |a| + 4; FindFrom(Bracket(a, b, t), "] ", p) == Some(p + |b|)
  {
    assert forall k :: 0 <= k < |b| ==> b[k] != "] "[0];
    var pre := "[" + a + " -> ";
    assert Bracket(a, b, t) == pre + b + "] " + t;
    FindFromPast(pre, b, "] ", t);
  }

  /** The pieces between the markers of a bracketed line are its two times and its text. */
  lemma BracketParts(a: string, b: string, t: string)
    ensures var line, p, q := Bracket(a, b, t), 1 + |a|, 1 + |a| + 4 + |b|;
      line[1..p] == a && line[p + 4..q] == b && line[q + 2..] == t
  {
  }

  /** Every line of a segment whose times are not negative reads back as its whole start
      and end seconds and its stripped text. */
  lemma LineRoundTrip(seg: Segment)
    requires seg.start >= 0.0 && seg.end >= 0.0
    ensures ParseLine(Line(seg)) == Some(Stamped(seg.start.Floor, seg.end.Floor, Strip(seg.text)))
  {
    TimestampRoundTrip(seg.start);
    TimestampRoundTrip(seg.end);
    ParseBracket(FormatTimestamp(seg.start), FormatTimestamp(seg.end), Strip(seg.text));
  }

  predicate NoBreak(t: string) {
    forall j :: 0 <= j < |t| ==> t[j] != '\n'
  }

  /** Where no segment text holds a line break, the transcript splits back into exactly
      one line per segment, in order. */
  lemma TranscriptLines(segments: seq<Segment>)
    requires |segments| >= 1
    requires forall k :: 0 <= k < |segments| ==> NoBreak(segments[k].text)
    ensures Split(FormattedTranscript(segments), "\n") == Lines(segments)
  {
    var lines := Lines(segments);
    forall k, j | 0 <= k < |lines| && 0 <= j < |lines[k]| ensures lines[k][j] != '\n' {
      MapAt(Line, segments, k);
      LineHasNoBreak(segments[k]);
    }
    SplitJoin(lines, '\n');
  }

  lemma LineHasNoBreak(seg: Segment)
    requires NoBreak(seg.text)
    ensures NoBreak(Line(seg))
  {
    StripNoBreak(seg.text);
    BracketNoBreak(FormatTimestamp(seg.start), FormatTimestamp(seg.end), Strip(seg.text));
  }

  lemma StripNoBreak(s: string)
    requires NoBreak(s)
    ensures NoBreak(Strip(s))
  {
    var l := LStrip(s);
    SliceNoBreak(s, |s| - |l|, |s|);
    SliceNoBreak(l, 0, |RStrip(l)|);
  }

  lemma SliceNoBreak(s: string, i: nat, j: nat)
    requires i <= j <= |s| && NoBreak(s)
    ensures NoBreak(s[i..j])
  {
    forall k | 0 <= k < j - i ensures s[i..j][k] != '\n' {
      assert s[i..j][k] == s[i + k];
    }
  }

  lemma BracketNoBreak(a: string, b: string, t: string)
    requires TimeText(a) && TimeText(b) && NoBreak(t)
    ensures NoBreak(Bracket(a, b, t))
  {
    var line := Bracket(a, b, t);
    var p, q := 1 + |a|, 1 + |a| + 4 + |b|;
    forall j | 0 <= j < |line| ensures line[j] != '\n' {
      if j == 0 {
      } else if j < p {
        assert line[j] == a[j - 1];
      } else if j < p + 4 {
      } else if j < q {
        assert line[j] == b[j - p - 4];
      } else if j < q + 2 {
      } else {
        assert line[j] == t[j - q - 2];
      }
    }
  }
}
