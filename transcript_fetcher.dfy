/** The acquisition waterfall of bot/transcript_fetcher.py: YouTube captions first, when
    the URL names a video and the captions pass the quality check; otherwise download the
    audio, transcribe it with Whisper and always release the downloaded file. The caption
    service, the downloader and the Whisper model are foreign: their answers are
    parameters, and the calls made to them are recorded in a trace. */
module Fetcher {
  import opened Wrappers
  import opened Strings
  import opened QualityCheck

  // ---------------------------------------------------------------------------
  // Video ids

  const WatchPrefix: string := "youtube.com/watch?v="
  const ShortLinkPrefix: string := "youtu.be/"
  const EmbedPrefix: string := "youtube.com/embed/"
  const ShortsPrefix: string := "youtube.com/shorts/"
  /** The alternatives of the first pattern, which is tried before the shorts pattern. */
  const LinkPrefixes: seq<string> := [WatchPrefix, ShortLinkPrefix, EmbedPrefix]
  const AllPrefixes: seq<string> := LinkPrefixes + [ShortsPrefix]
  const IdLength: nat := 11

  /** `[a-zA-Z0-9_-]` */
  predicate IdChar(c: char) {
    'a' <= c <= 'z' || 'A' <= c <= 'Z' || '0' <= c <= '9' || c == '_' || c == '-'
  }

  /** `p` occurs in `url` at `i` and is followed by eleven id characters. */
  predicate IdAt(url: string, p: string, i: nat) {
    OccursAt(url, p, i) && i + |p| + IdLength <= |url|
    && forall j :: i + |p| <= j < i + |p| + IdLength ==> IdChar(url[j])
  }

  /** The eleven characters that follow `p` at `i`. */
  function IdAfter(url: string, p: string, i: nat): (id: string)
    requires IdAt(url, p, i)
    ensures |id| == IdLength && forall j :: 0 <= j < |id| ==> IdChar(id[j])
  {
    url[i + |p|..i + |p| + IdLength]
  }

  /** The id following the first of the prefixes `ps` that matches at `i`. */
  function MatchAt(url: string, ps: seq<string>, i: nat): (r: Option<string>)
    ensures r.None? <==> forall k :: 0 <= k < |ps| ==> !IdAt(url, ps[k], i)
    ensures r.Some? ==> exists k :: 0 <= k < |ps| && IdAt(url, ps[k], i) && r.value == IdAfter(url, ps[k], i)
    decreases |ps|
  {
    if ps == [] then None
    else if IdAt(url, ps[0], i) then Some(IdAfter(url, ps[0], i))
    else
      var r := MatchAt(url, ps[1..], i);
      assert forall k :: 1 <= k < |ps| ==> ps[k] == ps[1..][k - 1];
      r
  }

  /** The leftmost position at or after `i` where one of the prefixes `ps` is followed by
      an id: where `re.search` for their alternation matches. */
  function FirstMatch(url: string, ps: seq<string>, i: nat): (r: Option<nat>)
    ensures r.Some? ==> i <= r.value && MatchAt(url, ps, r.value).Some?
    ensures forall j: nat :: i <= j && (r.None? || j < r.value) ==> MatchAt(url, ps, j).None?
    decreases |url| + 1 - i
  {
    if i > |url| then None
    else if MatchAt(url, ps, i).Some? then Some(i)
    else FirstMatch(url, ps, i + 1)
  }

  /** The id the leftmost match captures. */
  function Search(url: string, ps: seq<string>): (r: Option<string>)
    ensures r.Some? ==> |r.value| == IdLength && forall j :: 0 <= j < IdLength ==> IdChar(r.value[j])
  {
    match FirstMatch(url, ps, 0)
    case Some(j) => MatchAt(url, ps, j)
    case None => None
  }

  /** `_extract_youtube_video_id`: the watch, short-link and embed pattern first, then the
      shorts pattern. */
  function ExtractVideoId(url: string): (r: Option<string>)
    ensures r.Some? ==> |r.value| == IdLength && forall j :: 0 <= j < IdLength ==> IdChar(r.value[j])
  {
    match Search(url, LinkPrefixes)
    case Some(id) => Some(id)
    case None => Search(url, [ShortsPrefix])
  }

  /** An id is eleven id characters right after one of the four prefixes; there is none
      exactly when no prefix in the URL is followed by eleven id characters. */
  lemma ExtractVideoIdSpec(url: string)
    ensures ExtractVideoId(url).Some? ==>
      |ExtractVideoId(url).value| == IdLength
      && (forall j :: 0 <= j < IdLength ==> IdChar(ExtractVideoId(url).value[j]))
      && (exists j: nat, k :: 0 <= k < |AllPrefixes| && IdAt(url, AllPrefixes[k], j)
            && ExtractVideoId(url).value == IdAfter(url, AllPrefixes[k], j))
    ensures ExtractVideoId(url).None? <==>
      forall j: nat, k :: 0 <= k < |AllPrefixes| ==> !IdAt(url, AllPrefixes[k], j)
  {
    assert forall k :: 0 <= k < |LinkPrefixes| ==> AllPrefixes[k] == LinkPrefixes[k];
    assert AllPrefixes[3] == ShortsPrefix == [ShortsPrefix][0];
    var links := FirstMatch(url, LinkPrefixes, 0);
    var shorts := FirstMatch(url, [ShortsPrefix], 0);
    if links.Some? {
      var j := links.value;
      var k :| 0 <= k < |LinkPrefixes| && IdAt(url, LinkPrefixes[k], j)
        && MatchAt(url, LinkPrefixes, j).value == IdAfter(url, LinkPrefixes[k], j);
      assert IdAt(url, AllPrefixes[k], j);
    } else if shorts.Some? {
      var j := shorts.value;
      assert IdAt(url, AllPrefixes[3], j);
    } else {
      forall j: nat, k | 0 <= k < |AllPrefixes| ensures !IdAt(url, AllPrefixes[k], j) {
        assert MatchAt(url, LinkPrefixes, j).None? && MatchAt(url, [ShortsPrefix], j).None?;
      }
    }
  }

  /** A watch, short-link or embed link anywhere in the URL takes priority over a shorts
      link, even one that comes earlier. */
  lemma LinkPatternFirst(url: string, j: nat, k: nat)
    requires k < |LinkPrefixes| && IdAt(url, LinkPrefixes[k], j)
    ensures ExtractVideoId(url) == Search(url, LinkPrefixes)
    ensures ExtractVideoId(url).Some?
  {
    assert MatchAt(url, LinkPrefixes, j).Some?;
  }

  // ---------------------------------------------------------------------------
  // Results, collaborators and the call trace

  datatype Source = YoutubeCaptions | Whisper

  datatype TranscriptResult = TranscriptResult(
    text: string,
    language: string,
    source: Source,
    qualityScore: real,
    title: Option<string>,
    duration: Option<real>)

  /** What `download_audio` returns. */
  datatype Download = Download(audioFile: string, title: string, duration: real, sizeMb: real)

  /** What Whisper returns: the segment texts in order and the detected language. */
  datatype Transcription = Transcription(segments: seq<string>, language: string)

  /** The exception `fetch` lets through. */
  datatype FetchError = DownloadFailed(reason: string) | TranscriptionFailed(reason: string)

  /** A call to a collaborator. */
  datatype Call =
    | CaptionsRequested(videoId: string)
    | AudioRequested(url: string)
    | WhisperInvoked(audioFile: string)
    | CleanedUp(audioFile: string)

  /** A loaded Whisper model, standing for the heavy foreign object. */
  datatype WhisperModel = WhisperModel(size: string)

  const CaptionLanguage: string := "en"

  function Count(calls: seq<Call>, c: Call): nat
    decreases |calls|
  {
    if calls == [] then 0 else (if calls[0] == c then 1 else 0) + Count(calls[1..], c)
  }

  lemma {:induction false} CountConcat(a: seq<Call>, b: seq<Call>, c: Call)
    ensures Count(a + b, c) == Count(a, c) + Count(b, c)
    decreases |a|
  {
    if a == [] {
      assert a + b == b;
    } else {
      assert (a + b)[1..] == a[1..] + b;
      CountConcat(a[1..], b, c);
    }
  }

  /** The stripped segment texts. */
  function StripAll(segments: seq<string>): seq<string> {
    Map(Strip, segments)
  }

  lemma StripAllStep(segments: seq<string>, i: nat)
    requires i < |segments|
    ensures StripAll(segments[..i + 1]) == StripAll(segments[..i]) + [Strip(segments[i])]
  {
    MapSnoc(Strip, segments, i);
  }

  /** The Whisper transcript: the stripped segment texts joined by single spaces. */
  function WhisperText(segments: seq<string>): string {
    Join(" ", StripAll(segments))
  }

  /** The text-collecting loop of `fetch`. */
  method JoinSegments(segments: seq<string>) returns (text: string)
    ensures text == WhisperText(segments)
  {
    var parts: seq<string> := [];
    var i := 0;
    assert StripAll(segments[..0]) == [];
    while i < |segments|
      invariant 0 <= i <= |segments|
      invariant parts == StripAll(segments[..i])
    {
      StripAllStep(segments, i);
      parts := parts + [Strip(segments[i])];
      i := i + 1;
    }
    assert segments[..i] == segments;
    text := Join(" ", parts);
  }

  lemma {:induction false} VisibleJoinSpace(parts: seq<string>)
    ensures Visible(Join(" ", parts)) == Visible(Concat(parts))
    decreases |parts|
  {
    if |parts| == 1 {
      assert Concat(parts) == parts[0] + Concat([]);
      assert parts[0] + [] == parts[0];
    } else if |parts| > 1 {
      VisibleJoinSpace(parts[1..]);
      VisibleConcat(parts[0] + " ", Join(" ", parts[1..]));
      VisibleConcat(parts[0], " ");
      VisibleConcat(parts[0], Concat(parts[1..]));
      assert Visible(" ") == [];
    }
  }

  lemma {:induction false} VisibleStripAll(segments: seq<string>)
    ensures Visible(Concat(StripAll(segments))) == Visible(Concat(segments))
    decreases |segments|
  {
    if segments != [] {
      VisibleStripAll(segments[1..]);
      assert StripAll(segments) == [Strip(segments[0])] + StripAll(segments[1..]);
      VisibleConcat(Strip(segments[0]), Concat(StripAll(segments[1..])));
      VisibleConcat(segments[0], Concat(segments[1..]));
      VisibleLStrip(segments[0]);
      VisibleRStrip(LStrip(segments[0]));
    }
  }

  /** The Whisper text keeps every visible character of the segments, in order. */
  lemma WhisperTextKeepsVisible(segments: seq<string>)
    ensures Visible(WhisperText(segments)) == Visible(Concat(segments))
  {
    VisibleJoinSpace(StripAll(segments));
    VisibleStripAll(segments);
  }

  // ---------------------------------------------------------------------------
  // The waterfall as a value

  /** A run of `fetch`: what it returns (or raises) and the collaborator calls it makes. */
  datatype Run = Run(result: Result<TranscriptResult, FetchError>, calls: seq<Call>)

  /** What the collaborators answer for one URL: the caption service (None when captions
      are unavailable), the downloader, and Whisper (a failure is an exception it raises). */
  datatype Answers = Answers(
    captions: Option<string>,
    download: Result<Download, string>,
    transcription: Result<Transcription, string>)

  /** A quality checker: text, expected duration and threshold to a verdict. The fetcher
      uses `Assessment`; the waterfall's rules hold for any checker. */
  type Checker = (string, Option<real>, real) -> QualityResult

  /** The captions are accepted: the URL names a video, captions exist and they pass. */
  predicate CaptionsAccepted(videoId: Option<string>, expectedDuration: Option<real>, threshold: real,
                             captions: Option<string>, check: Checker)
  {
    videoId.Some? && captions.Some? && check(captions.value, expectedDuration, threshold).passed
  }

  /** Step 1: the calls made while trying captions. */
  function CaptionCalls(videoId: Option<string>): seq<Call> {
    if videoId.Some? then [CaptionsRequested(videoId.value)] else []
  }

  /** Step 2: download, transcribe, clean up. */
  function WhisperRun(url: string, answers: Answers, check: Checker): Run {
    match answers.download
    case Failure(e) => Run(Failure(DownloadFailed(e)), [AudioRequested(url)])
    case Success(d) =>
      var calls := [AudioRequested(url), WhisperInvoked(d.audioFile), CleanedUp(d.audioFile)];
      match answers.transcription
      case Failure(e) => Run(Failure(TranscriptionFailed(e)), calls)
      case Success(t) =>
        var text := WhisperText(t.segments);
        var quality := check(text, Some(d.duration), DefaultThreshold);
        Run(Success(TranscriptResult(text, t.language, Whisper, quality.score, Some(d.title), Some(d.duration))), calls)
  }

  /** `fetch` for a URL whose extracted video id is `videoId`, given the collaborators' answers.
      The caption service is asked first, and the result comes from the captions exactly
      when they are accepted. */
  function Waterfall(url: string, videoId: Option<string>, expectedDuration: Option<real>,
                     threshold: real, answers: Answers, check: Checker): (r: Run)
    ensures CaptionCalls(videoId) <= r.calls
    ensures r.result.Success? && r.result.value.source == YoutubeCaptions
            <==> CaptionsAccepted(videoId, expectedDuration, threshold, answers.captions, check)
  {
    if CaptionsAccepted(videoId, expectedDuration, threshold, answers.captions, check) then
      var text := answers.captions.value;
      Run(Success(TranscriptResult(text, CaptionLanguage, YoutubeCaptions,
                                   check(text, expectedDuration, threshold).score, None, None)),
          CaptionCalls(videoId))
    else
      var w := WhisperRun(url, answers, check);
      Run(w.result, CaptionCalls(videoId) + w.calls)
  }

  // ---------------------------------------------------------------------------
  // Properties of the waterfall

  lemma CountTriple(a: Call, b: Call, c: Call, x: Call)
    ensures Count([a, b, c], x) == Count([a], x) + Count([b], x) + Count([c], x)
  {
    assert [a, b, c] == [a] + ([b] + [c]);
    CountConcat([a], [b] + [c], x);
    CountConcat([b], [c], x);
  }

  lemma CountSingle(a: Call, x: Call)
    ensures Count([a], x) == if a == x then 1 else 0
  {
    assert [a][1..] == [];
  }

  /** Without a video id the caption service is never asked: the first call is the download. */
  lemma NoVideoIdSkipsCaptions(url: string, expectedDuration: Option<real>, threshold: real,
                               answers: Answers, check: Checker)
    ensures Waterfall(url, None, expectedDuration, threshold, answers, check).calls[0] == AudioRequested(url)
    ensures forall i :: 0 <= i < |Waterfall(url, None, expectedDuration, threshold, answers, check).calls| ==>
      !Waterfall(url, None, expectedDuration, threshold, answers, check).calls[i].CaptionsRequested?
  {
    var w := WhisperRun(url, answers, check);
    assert CaptionCalls(None) + w.calls == w.calls;
  }

  /** Accepted captions are returned as they are, with the checker's score and language
      "en"; nothing is downloaded and Whisper is not invoked. */
  lemma AcceptedCaptionsReturned(url: string, videoId: Option<string>, expectedDuration: Option<real>,
                                 threshold: real, answers: Answers, check: Checker)
    requires CaptionsAccepted(videoId, expectedDuration, threshold, answers.captions, check)
    ensures Waterfall(url, videoId, expectedDuration, threshold, answers, check).result
      == Success(TranscriptResult(answers.captions.value, "en", YoutubeCaptions,
                                  check(answers.captions.value, expectedDuration, threshold).score, None, None))
    ensures Waterfall(url, videoId, expectedDuration, threshold, answers, check).calls
      == [CaptionsRequested(videoId.value)]
  {
  }

  /** Captions missing or rejected: exactly one download is requested. */
  lemma FallbackDownloadsOnce(url: string, videoId: Option<string>, expectedDuration: Option<real>,
                              threshold: real, answers: Answers, check: Checker)
    requires !CaptionsAccepted(videoId, expectedDuration, threshold, answers.captions, check)
    ensures Count(Waterfall(url, videoId, expectedDuration, threshold, answers, check).calls, AudioRequested(url)) == 1
  {
    var w := WhisperRun(url, answers, check);
    var x := AudioRequested(url);
    CountConcat(CaptionCalls(videoId), w.calls, x);
    if videoId.Some? {
      CountSingle(CaptionsRequested(videoId.value), x);
    }
    match answers.download
    case Failure(_) =>
      CountSingle(x, x);
    case Success(d) =>
      CountTriple(x, WhisperInvoked(d.audioFile), CleanedUp(d.audioFile), x);
      CountSingle(x, x);
      CountSingle(WhisperInvoked(d.audioFile), x);
      CountSingle(CleanedUp(d.audioFile), x);
  }

  /** Once the download has returned, the file is cleaned up exactly once, as the last call,
      whether transcription succeeds or fails; a failed download raises and cleans up nothing. */
  lemma CleanupExactlyOnce(url: string, videoId: Option<string>, expectedDuration: Option<real>,
                           threshold: real, answers: Answers, check: Checker)
    requires !CaptionsAccepted(videoId, expectedDuration, threshold, answers.captions, check)
    ensures answers.download.Success? ==>
      Count(Waterfall(url, videoId, expectedDuration, threshold, answers, check).calls,
            CleanedUp(answers.download.value.audioFile)) == 1
      && Waterfall(url, videoId, expectedDuration, threshold, answers, check).calls[
           |Waterfall(url, videoId, expectedDuration, threshold, answers, check).calls| - 1]
         == CleanedUp(answers.download.value.audioFile)
    ensures answers.download.Failure? ==>
      Waterfall(url, videoId, expectedDuration, threshold, answers, check).result
        == Failure(DownloadFailed(answers.download.error))
      && forall i :: 0 <= i < |Waterfall(url, videoId, expectedDuration, threshold, answers, check).calls| ==>
        !Waterfall(url, videoId, expectedDuration, threshold, answers, check).calls[i].CleanedUp?
  {
    var w := WhisperRun(url, answers, check);
    if answers.download.Success? {
      var f := answers.download.value.audioFile;
      var x := CleanedUp(f);
      CountConcat(CaptionCalls(videoId), w.calls, x);
      if videoId.Some? {
        CountSingle(CaptionsRequested(videoId.value), x);
      }
      CountTriple(AudioRequested(url), WhisperInvoked(f), x, x);
      CountSingle(AudioRequested(url), x);
      CountSingle(WhisperInvoked(f), x);
      CountSingle(x, x);
    }
  }

  /** On the Whisper path the quality score is informational: whenever download and
      transcription succeed the result is the Whisper transcript, whatever its score, scored
      with the download's duration and the default threshold. */
  lemma WhisperScoreInformational(url: string, videoId: Option<string>, expectedDuration: Option<real>,
                                  threshold: real, answers: Answers, check: Checker)
    requires !CaptionsAccepted(videoId, expectedDuration, threshold, answers.captions, check)
    requires answers.download.Success? && answers.transcription.Success?
    ensures Waterfall(url, videoId, expectedDuration, threshold, answers, check).result == Success(TranscriptResult(
      WhisperText(answers.transcription.value.segments), answers.transcription.value.language, Whisper,
      check(WhisperText(answers.transcription.value.segments), Some(answers.download.value.duration), DefaultThreshold).score,
      Some(answers.download.value.title), Some(answers.download.value.duration)))
  {
  }

  /** Appending a run's calls after the captions step's calls. */
  lemma AppendAssoc(a: seq<Call>, b: seq<Call>, c: seq<Call>)
    ensures (a + b) + c == a + (b + c)
  {
  }

  // ---------------------------------------------------------------------------
  // The fetcher object

  class TranscriptFetcher {
    const modelSize: string
    const tempDir: string
    /** The lazily created Whisper model. */
    var whisperModel: Option<WhisperModel>
    /** How many times a Whisper model has been created. */
    var modelLoads: nat
    /** Every collaborator call made so far. */
    var calls: seq<Call>

    predicate Valid()
      reads this
    {
      (whisperModel.None? ==> modelLoads == 0)
      && (whisperModel.Some? ==> modelLoads == 1 && whisperModel.value == WhisperModel(modelSize))
    }

    constructor(modelSize: string, tempDir: string)
      ensures Valid()
      ensures this.modelSize == modelSize && this.tempDir == tempDir
      ensures whisperModel == None && modelLoads == 0 && calls == []
    {
      this.modelSize := modelSize;
      this.tempDir := tempDir;
      whisperModel := None;
      modelLoads := 0;
      calls := [];
    }

    /** `_get_whisper_model`: create the model on first use, then reuse it. */
    method GetWhisperModel() returns (m: WhisperModel)
      requires Valid()
      modifies this
      ensures Valid()
      ensures m == WhisperModel(modelSize) && whisperModel == Some(m)
      ensures old(whisperModel).Some? ==> modelLoads == old(modelLoads) && m == old(whisperModel).value
      ensures old(whisperModel).None? ==> modelLoads == old(modelLoads) + 1
      ensures modelLoads <= 1 && calls == old(calls)
    {
      if whisperModel.None? {
        whisperModel := Some(WhisperModel(modelSize));
        modelLoads := modelLoads + 1;
      }
      m := whisperModel.value;
    }

    /** The captions step of `fetch`: the accepted captions, if any. */
    method TryCaptions(videoId: Option<string>, expectedDuration: Option<real>, threshold: real,
                       captions: Option<string>)
      returns (accepted: Option<TranscriptResult>)
      ensures accepted.Some? <==> CaptionsAccepted(videoId, expectedDuration, threshold, captions, Assessment)
      ensures accepted.Some? ==> accepted.value == TranscriptResult(captions.value, CaptionLanguage, YoutubeCaptions,
                                                                    Assessment(captions.value, expectedDuration, threshold).score, None, None)
    {
      accepted := None;
      if videoId.Some? && captions.Some? {
        var quality := CheckTranscriptQuality(captions.value, expectedDuration, threshold);
        if quality.passed {
          accepted := Some(TranscriptResult(captions.value, CaptionLanguage, YoutubeCaptions, quality.score, None, None));
        }
      }
    }

    /** The download-and-transcribe step of `fetch`, with the file released in `finally`. */
    method TranscribeAudio(url: string, answers: Answers)
      returns (r: Result<TranscriptResult, FetchError>)
      requires Valid()
      modifies this
      ensures Valid()
      ensures r == WhisperRun(url, answers, Assessment).result
      ensures calls == old(calls) + WhisperRun(url, answers, Assessment).calls
      ensures old(whisperModel).Some? ==> whisperModel == old(whisperModel) && modelLoads == old(modelLoads)
      ensures answers.download.Failure? ==> whisperModel == old(whisperModel) && modelLoads == old(modelLoads)
      ensures answers.download.Success? ==>
        whisperModel == Some(WhisperModel(modelSize)) && modelLoads == 1
        && (old(whisperModel).None? ==> modelLoads == old(modelLoads) + 1)
    {
      calls := calls + [AudioRequested(url)];
      if answers.download.Failure? {
        r := Failure(DownloadFailed(answers.download.error));
        return;
      }
      var d := answers.download.value;
      // try
      var model := GetWhisperModel();
      calls := calls + [WhisperInvoked(d.audioFile)];
      if answers.transcription.Failure? {
        r := Failure(TranscriptionFailed(answers.transcription.error));
      } else {
        var text := JoinSegments(answers.transcription.value.segments);
        var quality := CheckTranscriptQuality(text, Some(d.duration), DefaultThreshold);
        r := Success(TranscriptResult(text, answers.transcription.value.language, Whisper, quality.score,
                                      Some(d.title), Some(d.duration)));
      }
      // finally
      calls := calls + [CleanedUp(d.audioFile)];
    }

    /** `fetch`, with the caption service's, the downloader's and Whisper's answers as a
        parameter. The model is loaded only on the Whisper path after a download, and at
        most once over the object's life. */
    method Fetch(url: string, expectedDuration: Option<real>, threshold: real, answers: Answers)
      returns (r: Result<TranscriptResult, FetchError>)
      requires Valid()
      modifies this
      ensures Valid()
      ensures r == Waterfall(url, ExtractVideoId(url), expectedDuration, threshold, answers, Assessment).result
      ensures calls == old(calls) + Waterfall(url, ExtractVideoId(url), expectedDuration, threshold, answers, Assessment).calls
      ensures modelLoads <= 1
      ensures old(whisperModel).Some? ==> whisperModel == old(whisperModel)
      ensures CaptionsAccepted(ExtractVideoId(url), expectedDuration, threshold, answers.captions, Assessment)
              || answers.download.Failure? ==>
        whisperModel == old(whisperModel) && modelLoads == old(modelLoads)
      ensures !CaptionsAccepted(ExtractVideoId(url), expectedDuration, threshold, answers.captions, Assessment)
              && answers.download.Success? ==>
        whisperModel == Some(WhisperModel(modelSize)) && modelLoads == 1
        && (old(whisperModel).None? ==> modelLoads == old(modelLoads) + 1)
    {
      var videoId := ExtractVideoId(url);
      ghost var before := calls;
      if videoId.Some? {
        calls := calls + [CaptionsRequested(videoId.value)];
      }
      assert calls == before + CaptionCalls(videoId);
      var accepted := TryCaptions(videoId, expectedDuration, threshold, answers.captions);
      if accepted.Some? {
        return Success(accepted.value);
      }
      ghost var whisper := WhisperRun(url, answers, Assessment);
      r := TranscribeAudio(url, answers);
      AppendAssoc(before, CaptionCalls(videoId), whisper.calls);
    }
  }
}
