# Podcast insights bot: a verified Dafny model

The model covers the logic of a private Telegram bot that turns a podcast episode into a transcript, insights and a chat. The episode can be a YouTube video or any page `yt-dlp` can download. The Dafny modules follow the bot's source files:

| module | file | what it models |
|---|---|---|
| `Wrappers` | `wrappers.dfy` | `Option` and `Result` |
| `Strings` | `strings.dfy` | the parts of Python's `str` the bot uses: `strip`, `split()`, `split(sep)`, `join`, `find`, `rfind`, `replace` and `lower` (ASCII only) |
| `Llm` | `llm.dfy` | `bot/llm.py`: the history sanitiser, the local tools (`search_transcript`, `update_insights`), response processing, the bounded tool-use loop of `chat`, and `_truncate` |
| `QualityCheck` | `quality_check.dfy` | `bot/quality_check.py`: the heuristic pass/score/issues assessment |
| `Fetcher` | `transcript_fetcher.dfy` | `bot/transcript_fetcher.py`: the video-id matcher and the caption → download → Whisper waterfall, with its lazily created model and its cleanup |
| `MessageUtils` | `message_utils.dfy` | `bot/message_utils.py`: message chunking, HTML escaping, inline bold and insight formatting |
| `Transcriber` | `transcriber.dfy` | `transcriber.py`: `HH:MM:SS` timestamps and the timestamped-line builder |
| `Handlers` | `handlers.dfy` | `bot/handlers.py` and the `Session` record of `bot/session.py`: the command handlers as state transitions over one session and the chat-mode set, plus `_title_from_url` |

The outside world is replaced by inputs:
- The language model is a list of canned responses, one per call. A call with no response left is the API raising.
- The caption service, the downloader and Whisper are an `Answers` record, which holds what each would return or raise.
- The `TranscriptFetcher` keeps a trace (`calls`) of the collaborators it invoked, and a count of Whisper model loads.
- Insight generation in `/insights` is a `Result` input, and so is the delivery of an upload.

Telegram replies are an `Outcome` value returned by each handler.

Loops in the source are methods with loop invariants. Each is proved equal to a specification function, and the lemmas state what the source promises about that function:
- `Llm.SanitizeHistory`, `Llm.SearchTranscript`, `Llm.ProcessResponse`, `Llm.ToolLoop`
- `QualityCheck.CheckTranscriptQuality`, `QualityCheck.CountRepeats`
- `Fetcher.JoinSegments`
- `MessageUtils.FindSplitPos`, `MessageUtils.SplitMessage`
- `Transcriber.FormatWithTimestamps`

The objects whose fields the source updates in place are classes: `Fetcher.TranscriptFetcher`, `Handlers.Session` and `Handlers.BotHandlers`.

Two behaviours of the code are easy to miss:
- The history sanitiser also drops a well-formed trailing tool_use / tool_result pair (`Llm.SanitizedDropsAnsweredPair`). It pops the all-tool_result user message first, and then the assistant message that called the tool.
- `update_insights` only acknowledges. It never writes the session's insights.

## Model

| member | source | states |
|---|---|---|
| `Strings.JoinSplit` | bot/llm.py:213 | joining the pieces of `s.split(sep)` with `sep` gives `s` back |
| `Strings.SplitJoin` | transcriber.py:75 | splitting a `c`-join of parts that do not contain `c` gives the parts back |
| `Strings.SplitPiecesFree` | bot/handlers.py:467-470 | no piece of a split contains the separator |
| `Strings.FindFrom` | bot/llm.py:217 | the first occurrence at or after `i`, with no earlier occurrence, or none at all |
| `Strings.RFind` | bot/message_utils.py:26-35 | the last occurrence lying inside `s[:end]`, with no later one, or -1 |
| `Strings.StripEmptyIffAllSpace` | bot/handlers.py:391-393 | a string strips to nothing exactly when it is all whitespace |
| `Llm.Sanitized` | bot/llm.py:102-136 | the result is a prefix of the history, does not end in an orphaned message, and every dropped message is orphaned |
| `Llm.SanitizeHistory` | bot/llm.py:102-136 | the pop loop computes the sanitised history |
| `Llm.SanitizedIdempotent` | bot/llm.py:110-135 | sanitising twice is sanitising once |
| `Llm.SanitizedKeepsPlain` | bot/llm.py:115-131 | a message with string content is never removed |
| `Llm.SanitizedKeepsCleanLog` | bot/llm.py:110-135 | a log not ending in an orphaned message is returned unchanged |
| `Llm.SanitizedDropsAnsweredPair` | bot/llm.py:117-131 | a trailing tool call answered by its tool result is dropped as well, down to the user's question |
| `Llm.SanitizedCallsAnswered` | bot/llm.py:102-136 | sanitising keeps every tool call answered by the next message |
| `Llm.CallsAnsweredConcat` | bot/llm.py:60-89 | well-paired logs concatenate to a well-paired log when the first has no pending call |
| `Llm.ToolUses` | bot/llm.py:185-196 | only tool_use blocks, no more than there are blocks |
| `Llm.ToolUsesExistIff` | bot/llm.py:116-119 | a block list holds a tool_use exactly when its tool uses are not empty |
| `Llm.ToolUsesConcat` | bot/llm.py:188-196 | the tool uses of joined block lists are the joined tool uses |
| `Llm.Truncate` | bot/llm.py:250-253 | up to 150000 characters are returned unchanged; longer text becomes exactly its first 150000 characters followed by the truncation marker |
| `Llm.Candidates` | bot/llm.py:213-225 | one entry per sentence |
| `Llm.CandidatesAt` | bot/llm.py:217-221 | a sentence has an excerpt exactly when it mentions the query (ignoring case), and the excerpt is its context |
| `Llm.DistinctAppend` | bot/llm.py:222-223 | adding an excerpt not yet found keeps the excerpts distinct |
| `Llm.CollectShape` | bot/llm.py:219-225 | the collection only grows, holds at most three excerpts and never repeats one |
| `Llm.CollectSound` | bot/llm.py:219-225 | every excerpt collected is a non-empty candidate |
| `Llm.CollectComplete` | bot/llm.py:219-225 | fewer than three excerpts only when every non-empty candidate was collected |
| `Llm.Search` | bot/llm.py:210-228 | at most three distinct excerpts, each the non-empty context of a sentence mentioning the query; all of them when fewer than three; the no-mentions message when none, else the excerpts joined by the separator |
| `Llm.MatchesSound` | bot/llm.py:216-222 | every excerpt found is the non-empty context of a sentence that mentions the query |
| `Llm.MatchesComplete` | bot/llm.py:216-224 | fewer than three excerpts means every mentioning sentence's non-empty context was found |
| `Llm.SearchTranscript` | bot/llm.py:210-228 | the search computes the specified result: the no-mentions message or the joined excerpts |
| `Llm.CollectExcerpts` | bot/llm.py:214-224 | the sentence loop, with its early exit at the third excerpt, collects exactly the specified excerpts |
| `Llm.ExecuteTool` | bot/llm.py:201-207 | `search_transcript` with a `query` returns the search result; a tool raises exactly when `search_transcript` has no `query`; `update_insights` only acknowledges; an unknown name gets the "Unknown tool" reply |
| `Llm.RunToolsSpec` | bot/llm.py:190-196 | every tool runs when none raises, and the results answer the uses one for one, in order, with their ids |
| `Llm.ToolsFailOnlyOnMissingQuery` | bot/llm.py:190-207 | processing a response raises exactly when some `search_transcript` use lacks its query |
| `Llm.RunToolsErrorFromTool` | bot/llm.py:190-196 | the error raised is the error of one of the tools |
| `Llm.RunToolsIds` | bot/llm.py:190-196 | one tool_result per tool_use, carrying its id |
| `Llm.RunToolsFailureSticks` | bot/llm.py:190-196 | once a tool raises, later tool uses make no difference |
| `Llm.ProcessResponse` | bot/llm.py:178-198 | the block loop computes the text parts and the tool results of a response |
| `Llm.Processed` | bot/llm.py:178-198 | the text parts are those of the text blocks; one tool result per tool_use; tool results exactly when the response used a tool |
| `Llm.ReplyText` | bot/llm.py:92-97 | the reply is never empty; it is the stripped joined text when that is not empty, and the fixed fallback sentence when it is |
| `Llm.Outcomes` | bot/llm.py:69-89 | one outcome per canned response |
| `Llm.OutcomeAt` | bot/llm.py:69-89 | outcome number k is the processing of response number k |
| `Llm.ToolLoop` | bot/llm.py:69-89 | a completed loop makes at most 6 model calls, each but the last with tool results; it logs one assistant message per call and a tool-result message only after calls that used tools; a failure is a missing response or a raising tool |
| `Llm.Chat` | bot/llm.py:41-99 | the log is the sanitised history, the user message and the rounds' messages; the reply is non-empty; a well-paired history stays well paired |
| `Llm.ChatLogCallsAnswered` | bot/llm.py:60-89 | the log a completed chat returns keeps every tool call answered |
| `Llm.RoundsPaired` | bot/llm.py:82-89 | rounds that are each paired give a paired log |
| `Llm.RoundPaired` | bot/llm.py:82-89 | a processed round's results answer its tool calls |
| `QualityCheck.BoundaryFrom` | bot/quality_check.py:58 | the first sentence boundary at or after a position, none before it |
| `QualityCheck.SpaceRunEnd` | bot/quality_check.py:58 | the end of the whitespace run at a position |
| `QualityCheck.SentenceSegments` | bot/quality_check.py:58 | splitting on sentence boundaries gives at least one segment |
| `QualityCheck.SegmentsEndInPunctuation` | bot/quality_check.py:58 | every segment but the last ends in `.`, `!` or `?` |
| `QualityCheck.SegmentsHaveNoBoundary` | bot/quality_check.py:58 | no segment holds a sentence boundary |
| `QualityCheck.SegmentsKeepVisible` | bot/quality_check.py:58 | the segments keep every non-whitespace character, in order |
| `QualityCheck.VisibleSkipsSpaceRun` | bot/quality_check.py:58 | dropping a whitespace run keeps the visible characters |
| `QualityCheck.CountPunctuated` | bot/quality_check.py:60-62 | at most one punctuated segment per segment |
| `QualityCheck.CountPunctuatedAllButLast` | bot/quality_check.py:58-62 | at most one segment is unpunctuated |
| `QualityCheck.HalfPunctuated` | bot/quality_check.py:63 | all but one of two or more segments is a ratio of at least one half |
| `QualityCheck.PunctuationNeverLow` | bot/quality_check.py:58-74 | the low and very-low punctuation issues are never raised; with two or more segments the sub-score is at least 0.5 |
| `QualityCheck.RepeatsBefore` | bot/quality_check.py:83-86 | at most one repeat per adjacent pair looked at |
| `QualityCheck.RepeatCount` | bot/quality_check.py:83-86 | at most `word_count - 1` repeats |
| `QualityCheck.CountRepeats` | bot/quality_check.py:83-86 | the index loop counts the repeated adjacent words, at most `word_count - 1` |
| `QualityCheck.Scores` | bot/quality_check.py:103 | one score per sub-check, in order |
| `QualityCheck.Issues` | bot/quality_check.py:104-106 | at most one issue per sub-check |
| `QualityCheck.CheckTranscriptQuality` | bot/quality_check.py:12-108 | the appending code computes the specified assessment |
| `QualityCheck.DurationCheck` | bot/quality_check.py:36-54 | scored only for a positive expected duration; an issue exactly below half the expected words at 150 a minute, a blocking one exactly below 30%, and an unflagged score of at least 0.5 |
| `QualityCheck.PunctuationCheck` | bot/quality_check.py:58-79 | scored exactly when the text has several segments or a single one of more than 100 words; a single segment gives the missing-boundaries issue; an unflagged score is at least 0.3 |
| `QualityCheck.RepetitionCheck` | bot/quality_check.py:83-92 | flagged exactly when more than one word in twenty starts a repeat, never blocking; an unflagged score is at least 0.95 |
| `QualityCheck.RepetitionMonotone` | bot/quality_check.py:87-92 | over the same words, more repeats never raise the repetition sub-score |
| `QualityCheck.WordLengthCheck` | bot/quality_check.py:95-100 | flagged exactly when the words average fewer than three characters, never blocking; an unflagged score is at least 0.6 |
| `QualityCheck.DurationScoreInUnit` | bot/quality_check.py:36-54 | the duration sub-score lies in [0, 1] |
| `QualityCheck.PunctuationScoreInUnit` | bot/quality_check.py:58-79 | the punctuation sub-score lies in [0, 1] |
| `QualityCheck.RepetitionScoreInUnit` | bot/quality_check.py:87-92 | the repetition sub-score lies in [0, 1] |
| `QualityCheck.WordLengthScoreInUnit` | bot/quality_check.py:95-100 | the word-length sub-score lies in [0, 1] |
| `QualityCheck.VerdictScoresInUnit` | bot/quality_check.py:36-100 | every collected sub-score lies in [0, 1] |
| `QualityCheck.SumInRange` | bot/quality_check.py:103 | a sum of scores in [0, 1] lies between 0 and their number |
| `QualityCheck.MeanInUnit` | bot/quality_check.py:88-103 | two to four sub-scores are collected and their mean lies in [0, 1] |
| `QualityCheck.Assessment` | bot/quality_check.py:12-108 | the score lies in [0, 1]; passed exactly when the score reaches the threshold and no issue is blocking; fewer than 10 words give the nearly-empty result |
| `QualityCheck.PassedMonotone` | bot/quality_check.py:103-106 | a transcript passing a threshold passes every lower one |
| `QualityCheck.DurationBlocks` | bot/quality_check.py:36-45 | a word ratio below 0.3 raises the blocking very-low word count issue |
| `QualityCheck.VeryLowWordCountFails` | bot/quality_check.py:39-106 | a very low word count fails the check whatever the mean |
| `Fetcher.IdAfter` | bot/transcript_fetcher.py:25-31 | the id is eleven characters from `[A-Za-z0-9_-]` |
| `Fetcher.MatchAt` | bot/transcript_fetcher.py:25-31 | an id at a position exactly when a prefix there is followed by eleven id characters |
| `Fetcher.FirstMatch` | bot/transcript_fetcher.py:29 | the leftmost position with a match, none before it |
| `Fetcher.ExtractVideoId` | bot/transcript_fetcher.py:22-32 | an extracted id is eleven characters of `[a-zA-Z0-9_-]` |
| `Fetcher.ExtractVideoIdSpec` | bot/transcript_fetcher.py:22-32 | the id is eleven id characters right after one of the four prefixes; there is none exactly when no prefix is followed by eleven id characters |
| `Fetcher.LinkPatternFirst` | bot/transcript_fetcher.py:25-31 | the watch, short-link and embed pattern is tried before the shorts pattern |
| `Fetcher.CountConcat` | bot/transcript_fetcher.py:143-182 | counting calls distributes over concatenated traces |
| `Fetcher.StripAllStep` | bot/transcript_fetcher.py:166-168 | stripping one more segment appends it stripped |
| `Fetcher.JoinSegments` | bot/transcript_fetcher.py:166-169 | the loop builds the single-space join of the stripped segment texts |
| `Fetcher.VisibleJoinSpace` | bot/transcript_fetcher.py:169 | the space join keeps the visible characters |
| `Fetcher.VisibleStripAll` | bot/transcript_fetcher.py:166-168 | stripping the segments keeps their visible characters |
| `Fetcher.WhisperTextKeepsVisible` | bot/transcript_fetcher.py:166-169 | the Whisper text holds exactly the segments' non-whitespace characters, in order |
| `Fetcher.NoVideoIdSkipsCaptions` | bot/transcript_fetcher.py:106-109 | without a video id the download comes first and captions are never requested |
| `Fetcher.Waterfall` | bot/transcript_fetcher.py:87-182 | the caption request, when there is one, comes first; the result comes from the captions exactly when they are accepted |
| `Fetcher.AcceptedCaptionsReturned` | bot/transcript_fetcher.py:113-129 | accepted captions are returned with language "en", the caption source and the checker's score, and nothing is downloaded |
| `Fetcher.FallbackDownloadsOnce` | bot/transcript_fetcher.py:143-150 | without accepted captions the audio is downloaded exactly once |
| `Fetcher.CleanupExactlyOnce` | bot/transcript_fetcher.py:150-182 | after a download, cleanup runs exactly once and last; a failed download is reported and nothing is cleaned up |
| `Fetcher.WhisperScoreInformational` | bot/transcript_fetcher.py:163-180 | the Whisper result carries the joined text, the language, the Whisper source, the score for the download duration at the default threshold, the title and the duration |
| `Fetcher.TranscriptFetcher.constructor` | bot/transcript_fetcher.py:66-69 | no model loaded and nothing called yet |
| `Fetcher.TranscriptFetcher.GetWhisperModel` | bot/transcript_fetcher.py:71-85 | the model is loaded on first use only and reused afterwards |
| `Fetcher.TranscriptFetcher.TryCaptions` | bot/transcript_fetcher.py:109-129 | captions are used exactly when a video id, captions and a passing check are all there |
| `Fetcher.TranscriptFetcher.TranscribeAudio` | bot/transcript_fetcher.py:143-182 | the download, Whisper and cleanup path, with its calls appended to the trace; after a successful download the model is loaded, created now if it was not before |
| `Fetcher.TranscriptFetcher.Fetch` | bot/transcript_fetcher.py:87-182 | the result and the calls are the waterfall's; the model is loaded at most once, not at all when captions are accepted or the download fails, and is loaded after a successful download on the Whisper path |
| `MessageUtils.SentenceCut` | bot/message_utils.py:34-38 | a sentence cut lies after `max_length // 2` and within `max_length` |
| `MessageUtils.SplitPos` | bot/message_utils.py:26-42 | the cut lies between `max_length // 2` and `max_length` |
| `MessageUtils.LineBreakCut` | bot/message_utils.py:30-32 | a line break before `max_length`, or -1 |
| `MessageUtils.SplitPosAtBreak` | bot/message_utils.py:26-42 | the cut is at a line break, just after a sentence end, or at `max_length` |
| `MessageUtils.SentenceCutEndsSentence` | bot/message_utils.py:34-38 | a sentence cut lies just after `.`, `!` or `?` and a space |
| `MessageUtils.ParagraphBreakPreferred` | bot/message_utils.py:26-28 | a paragraph break in the second half wins, and the last one is taken |
| `MessageUtils.LineBreakPreferred` | bot/message_utils.py:28-30 | with no paragraph break in the second half, a line break there wins, and the last one in the window is taken |
| `MessageUtils.SentencePreferred` | bot/message_utils.py:32-38 | with no line break in the second half, the first of `". "`, `"! "`, `"? "` that occurs past the middle wins, and the cut is just after its last occurrence in the window |
| `MessageUtils.SentenceCutAt` | bot/message_utils.py:34-38 | the separator loop stops at the first separator found past the middle and cuts just after its last occurrence |
| `MessageUtils.HardCutLast` | bot/message_utils.py:28-42 | with no line break and no sentence end in the second half, the cut is hard at `max_length` |
| `MessageUtils.SentenceCutNone` | bot/message_utils.py:34-38 | with no sentence end after `max_length // 2` there is no sentence cut |
| `MessageUtils.StepShrinks` | bot/message_utils.py:44-45 | every step strictly shortens what remains |
| `MessageUtils.ChunksOfStep` | bot/message_utils.py:20-45 | one step emits the stripped head and goes on with the stripped rest |
| `MessageUtils.ChunksAfterStep` | bot/message_utils.py:44-45 | the chunks emitted so far followed by those still to come are unchanged by one step |
| `MessageUtils.FindSplitPos` | bot/message_utils.py:26-42 | the search computes the specified cut |
| `MessageUtils.SplitMessage` | bot/message_utils.py:8-47 | the loop computes the specified chunks |
| `MessageUtils.ChunksOfBounded` | bot/message_utils.py:20-45 | every chunk fits in `max_length` |
| `MessageUtils.CutKeepsVisible` | bot/message_utils.py:44-45 | a cut drops only whitespace |
| `MessageUtils.ChunksOfKeepVisible` | bot/message_utils.py:20-45 | the chunks keep every non-whitespace character, in order |
| `MessageUtils.Chunks` | bot/message_utils.py:8-47 | short text is one chunk; every chunk fits; the chunks hold exactly the text's non-whitespace characters, in order |
| `MessageUtils.ReplaceCharConcat` | bot/message_utils.py:88 | replacing one character distributes over concatenation |
| `MessageUtils.ReplaceCharFirst` | bot/message_utils.py:88 | replacing one character, one character at a time |
| `MessageUtils.ReplaceAbsent` | bot/message_utils.py:88 | replacing an absent character changes nothing |
| `MessageUtils.EscapeOneChar` | bot/message_utils.py:88 | the three replacements escape a single character |
| `MessageUtils.EscapeHtml` | bot/message_utils.py:86-88 | the chained replacements are the per-character escape, and the result has no `<` or `>` |
| `MessageUtils.EscapeChainIsEach` | bot/message_utils.py:86-88 | because `&` goes first, the chained replacements equal the per-character escape |
| `MessageUtils.EscapeEachNoAngle` | bot/message_utils.py:86-88 | the per-character escape has no `<` or `>` |
| `MessageUtils.BoldSplit` | bot/message_utils.py:76 | the split gives at least one part |
| `MessageUtils.BoldSplitConcat` | bot/message_utils.py:76 | the parts run together give the text back |
| `MessageUtils.ConcatAround` | bot/message_utils.py:76 | the text before a match, the match and the rest run together give the text back |
| `MessageUtils.NoBoldIsEscape` | bot/message_utils.py:73-83 | text without `**` is only escaped |
| `MessageUtils.StrayMarkerBecomesEmptyBold` | bot/message_utils.py:76-80 | a lone `**` becomes an empty bold element |
| `MessageUtils.PlainPrefix` | bot/message_utils.py:73-83 | text without angle brackets does not change the tag structure |
| `MessageUtils.WellTaggedConcat` | bot/message_utils.py:78-83 | well-tagged pieces concatenate to well-tagged text |
| `MessageUtils.EscapedWellTagged` | bot/message_utils.py:86-88 | escaped text holds no tags |
| `MessageUtils.BoldWellTagged` | bot/message_utils.py:80 | a bold element around escaped text is well tagged |
| `MessageUtils.ConvertPartWellTagged` | bot/message_utils.py:79-82 | each converted part is well tagged |
| `MessageUtils.ConvertPartsWellTagged` | bot/message_utils.py:77-83 | the converted parts are well tagged |
| `MessageUtils.ConvertInlineBold` | bot/message_utils.py:73-83 | the inline-bold conversion yields only balanced `<b>` tags around escaped text |
| `MessageUtils.FormatLines` | bot/message_utils.py:55-69 | one output line per input line |
| `MessageUtils.PlainWellTagged` | bot/message_utils.py:66-69 | text without angle brackets is well tagged |
| `MessageUtils.FormatLine` | bot/message_utils.py:58-69 | every formatted line is well-tagged HTML |
| `MessageUtils.Heading` | bot/message_utils.py:58-63 | a heading line is its escaped text in bold between line breaks, well tagged |
| `MessageUtils.BulletItem` | bot/message_utils.py:64-65 | a list item is a bullet and the item's inline-bold conversion, well tagged |
| `MessageUtils.JoinWellTagged` | bot/message_utils.py:70 | joining well-tagged lines keeps them well tagged |
| `MessageUtils.FormatLinesWellTagged` | bot/message_utils.py:55-69 | every formatted line is well tagged |
| `MessageUtils.FormatInsights` | bot/message_utils.py:50-70 | whatever the insights contain, the result is well-tagged HTML |
| `MessageUtils.FormatInsightsPerLine` | bot/message_utils.py:50-70 | one formatted entry per input line, each the format of its line |
| `MessageUtils.FormatLinesAt` | bot/message_utils.py:55-69 | each entry is the format of its line |
| `Transcriber.DigitChar` | transcriber.py:104 | a digit character |
| `Transcriber.Digits` | transcriber.py:104 | `str(n)` is digits, one for n below 10 and two below 100 |
| `Transcriber.NumDigits` | transcriber.py:104 | reading the digits back gives the number |
| `Transcriber.Pad2` | transcriber.py:104 | `{n:02d}` of a non-negative number is at least two digits, exactly two below 100; only digits and a sign |
| `Transcriber.Pad2RoundTrip` | transcriber.py:104 | reading the padded field back gives the number |
| `Transcriber.FormatTimestamp` | transcriber.py:98-104 | the timestamp holds only digits, colons and signs |
| `Transcriber.FloorDivOfFloor` | transcriber.py:101 | float floor division by a whole divisor is integer division of the floor |
| `Transcriber.FloorModOfFloor` | transcriber.py:102-103 | float modulo by a whole divisor is non-negative and floors to the integer modulo |
| `Transcriber.TimestampFields` | transcriber.py:101-103 | hours, minutes and seconds are those of the whole seconds |
| `Transcriber.TimestampRanges` | transcriber.py:101-103 | minutes and seconds lie in 0..59, hours are not negative for a time that is not, and `3600 h + 60 m + s` is the whole seconds |
| `Transcriber.TimestampLength` | transcriber.py:104 | below 100 hours the timestamp is exactly 8 characters |
| `Transcriber.TimestampRoundTrip` | transcriber.py:98-104 | a timestamp of a time that is not negative reads back as its whole seconds |
| `Transcriber.FormatWithTimestamps` | transcriber.py:68-75 | the loop builds the newline join of the segments' lines |
| `Transcriber.ParseBracket` | transcriber.py:73 | a bracketed line reads back as its two times and its text |
| `Transcriber.LineRoundTrip` | transcriber.py:70-73 | each line reads back as the whole start and end seconds and the stripped text |
| `Transcriber.TranscriptLines` | transcriber.py:68-75 | where no segment text holds a line break, the transcript splits back into exactly one line per segment, in order |
| `Transcriber.LineHasNoBreak` | transcriber.py:70-73 | a line has no line break when its text has none |
| `Transcriber.StripNoBreak` | transcriber.py:72 | stripping adds no line break |
| `Transcriber.SliceNoBreak` | transcriber.py:72 | a slice of text without line breaks has none |
| `Transcriber.BracketNoBreak` | transcriber.py:73 | a bracketed line of timestamps has no line break of its own |
| `Handlers.TitleFromUrl` | bot/handlers.py:464-470 | the title contains no `/` and no `www.` |
| `Strings.SplitFree` | bot/handlers.py:467-470 | a string without the separator splits into itself |
| `Strings.SplitAtFirst` | bot/handlers.py:467-470 | a split starts at the first separator |
| `Handlers.TitleOfWebUrl` | bot/handlers.py:464-470 | the title of `scheme://www.host/path` is `host` |
| `Handlers.LastAfterScheme` | bot/handlers.py:467 | the text after the last `//` |
| `Handlers.LastAfterWww` | bot/handlers.py:468 | the text after the last `www.` |
| `Handlers.HostFirst` | bot/handlers.py:469 | the text up to the first `/` is the host |
| `Strings.SplitFreeOfChar` | bot/handlers.py:469 | a string without the character splits into itself |
| `Handlers.RestFree` | bot/handlers.py:467 | the rest after the scheme holds no further `//` |
| `Handlers.TitleOfBareHost` | bot/handlers.py:464-470 | a bare host name is its own title |
| `Handlers.Session.constructor` | bot/session.py:12-32 | a fresh session: nothing loaded, idle, no notes and no history |
| `Handlers.Session.LoadTranscript` | bot/handlers.py:160-171 | the transcript fields are set from the result; state has_transcript; insights, notes and history cleared |
| `Handlers.Session.Reset` | bot/session.py:87-91 | the session starts afresh |
| `Handlers.StateAfterChat` | bot/handlers.py:333-340 | has_insights exactly when insights are non-empty; has_transcript exactly when there are none but a transcript is loaded; idle otherwise |
| `Handlers.Bullets` | bot/handlers.py:386-388 | one `- ` bullet per note, in order |
| `Handlers.UploadContent` | bot/handlers.py:376-391 | text given with the command wins; with no text, no insights and no notes there is nothing to upload; with notes there is always something to upload |
| `Handlers.NotesMakeContent` | bot/handlers.py:385-391 | with notes and no command text the joined pieces strip to visible text |
| `Handlers.UploadInsightsOnly` | bot/handlers.py:383-391 | without notes the content is the stripped insights |
| `Handlers.ChatTurnOf` | bot/handlers.py:306-321 | a chat turn stops at a completed round; its log is the sanitised history, the user's message and those rounds; its reply is the non-empty `ReplyText` of those rounds' text parts; the tool calls stay answered |
| `Handlers.BotHandlers.constructor` | bot/handlers.py:24-37 | nobody is in chat mode and the session is fresh |
| `Handlers.BotHandlers.IsAuthorized` | bot/handlers.py:39-40 | a sender passes the check exactly when they own the one session the handlers read and update |
| `Handlers.BotHandlers.TranscribeHandler` | bot/handlers.py:112-191 | only the allowed user, with a URL, gets a fetch; a failed fetch leaves the session alone; a successful one loads the transcript with the title falling back to the URL's; the fetcher's Whisper model is created at most once and kept across commands, and only a Whisper fallback with a downloaded file creates it |
| `Handlers.BotHandlers.InsightsHandler` | bot/handlers.py:194-239 | insights need a transcript; generated insights are stored and the state becomes has_insights; every other session field keeps its value |
| `Handlers.BotHandlers.ChatHandler` | bot/handlers.py:242-262 | chat mode needs a transcript; the user joins the chat-mode set and the state becomes chatting; every other session field keeps its value |
| `Handlers.BotHandlers.TextMessageHandler` | bot/handlers.py:265-291 | chat-mode text goes to the chat, whose reply is the chat's reply text and which changes only the history; otherwise it is appended, stripped, to the notes when a transcript or URL is loaded, changing nothing else, and nothing is saved when neither is |
| `Handlers.BotHandlers.HandleChatMessage` | bot/handlers.py:293-324 | a reply sends the chat's reply text, logs the chat turn and changes no other session field; a failure changes nothing |
| `Handlers.BotHandlers.DoneHandler` | bot/handlers.py:327-342 | the user leaves chat mode and the state falls back by what is loaded; every other session field keeps its value |
| `Handlers.BotHandlers.UploadHandler` | bot/handlers.py:367-422 | empty content stores nothing; otherwise it overwrites the insights, changes no other session field, and is sent as an entry with the episode's title (or "Unknown") and URL |
| `Handlers.BotHandlers.ClearHandler` | bot/handlers.py:453-461 | the session starts afresh and the user leaves chat mode |

Every handler's contract opens with the authorisation rule of `_is_authorized` (bot/handlers.py:39-46): a user other than the allowed one gets `Unauthorized` and the session is not touched.

## Left out

- The Anthropic API, Telegram, youtube-transcript-api, yt-dlp and Whisper calls are not modelled. They are inputs: canned responses, the `Answers` record, the generated insights and the delivery flag.
- Telegram replies, typing actions, status callbacks, `send_long_message` and `send_as_file` are not modelled. Handlers return an `Outcome` instead.
- The executor and `run_coroutine_threadsafe` marshalling are left out: they are concurrency, and handlers run one at a time here.
- Session persistence (`SessionManager.load` and `save`, JSON files, atomic rename) is left out: it is I/O. The model keeps one in-memory `Session`. `clear` is modelled as `Session.Reset`.
- `created_at` and `updated_at` are left out: they are clock values.
- The date stored in an upload `Entry` is left out: it is a clock value. The Supabase HTTP calls are left out: they are I/O.
- `generate_insights` and the prompts are left out: they are API calls and constant strings. `/insights` takes their result as an input.
- `_serialize_content` is left out: it is duck typing over SDK objects. Blocks are a datatype.
- `_search_youtube`, `start_handler`, `search_handler`, `notes_handler` and `status_handler` are left out: they are an HTTP scrape, or they only send text and change no state.
- The `bot/main.py` wiring is left out. It registers a `chat_message_handler` that does not exist; the method is `text_message_handler`.
- `AudioTranscriber.transcribe` and the file writing in `transcribe_with_timestamps` are left out: they are Whisper and file I/O. Only the line builder is modelled.
- `round(final_score, 2)` is left out, and so is the float text inside issue messages. Scores are exact reals, and issues are a datatype with a blocking flag.
- Float rounding in `seconds // 3600` and `seconds % 60` is left out. Times are exact reals, with Python's floor semantics.
- Unicode whitespace and case folding are left out. `strip`, `split()` and `lower` use ASCII whitespace and ASCII letters.
- The regular expressions are hand-written matchers, one per pattern.
- Llm.ExecuteTool: a `search_transcript` call without `query` raises `KeyError` in the source. Here it is the error `MissingToolInput("query")`, which escapes `chat` as the exception would.
- Llm.Chat: an API failure is the canned responses running out. The model does not distinguish other API errors.
- MessageUtils.SplitMessage: requires `max_length >= 1`. With 0 the source returns `[""]` for empty or all-whitespace text, but loops forever on text with a non-whitespace character; the only caller passes 4000.
- MessageUtils.ConvertInlineBold: the bold pattern is matched on the whole text as one line. `.` in the source does not cross a line break, but every caller passes a single line.
- Fetcher.TranscriptFetcher.GetWhisperModel: a failure to load the model is not modelled.
- Handlers.BotHandlers.HandleChatMessage: requires a loaded transcript. The source passes `session.transcript_text`, which could in principle be `None`, but `BotHandlers.Valid` proves that every chat-mode user has a transcript loaded.
- Handlers.BotHandlers.TranscribeHandler: the expected duration passed to the fetcher is `None`, as in the source.
- Fetcher.Download: the duration is always a number. The downloader's `info.get('duration', 0)` gives `None` when the key is present with no value, and the model has no such case. The quality check treats `None` and 0 alike, so only the session differs: the model stores a duration of `Some(0.0)` where the source stores `None`. The downloader itself is not part of this model.
