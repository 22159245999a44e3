/** The session state machine behind the bot's Telegram commands. Each handler checks that
    the sender is the one allowed user, then reads and updates that user's `Session` and
    the set of users in chat mode. Replies, typing indicators, files and persistence are
    left out; what a handler would reply is summed up by an `Outcome`. */
module Handlers {
  import opened Wrappers
  import opened Strings
  import Llm
  import Fetcher
  import QualityCheck

  // ---------------------------------------------------------------------------
  // _title_from_url

  function Last(parts: seq<string>): string
    requires |parts| >= 1
  {
    parts[|parts| - 1]
  }

  /** `_title_from_url`: the text after the last `//`, then after the last `www.`, up to the
      first `/`. The source falls back to the whole URL when the final split is empty,
      which never happens: `split` always returns at least one part. */
  function TitleFromUrl(url: string): (r: string)
    ensures Free(r, "/") && Free(r, "www.")
  {
    var title := Last(Split(Last(Split(url, "//")), "www."));
    var parts := Split(title, "/");
    SplitPiecesFree(title, "/");
    SplitPiecesFree(Last(Split(url, "//")), "www.");
    SplitFirstIsPrefix(title, "/");
    PrefixFree(title, parts[0], "www.");
    parts[0]
  }

  /** For `scheme//www.host/path` the title is the host. */
  lemma TitleOfWebUrl(scheme: string, host: string, path: string)
    requires NoChar(scheme, '/') && NoChar(host, '/')
    requires path == [] || path[0] == '/'
    requires Free(path, "//") && Free(host + path, "www.")
    ensures TitleFromUrl(scheme + "//www." + host + path) == host
  {
    var url := scheme + "//www." + host + path;
    var rest := "www." + host + path;
    assert url == scheme + "//" + rest;
    assert rest == "www." + (host + path);
    RestFree(host, path);
    LastAfterScheme(scheme, rest);
    LastAfterWww(host + path);
    HostFirst(host, path);
  }

  lemma LastAfterScheme(scheme: string, rest: string)
    requires NoChar(scheme, '/') && Free(rest, "//")
    ensures Last(Split(scheme + "//" + rest, "//")) == rest
  {
    var url := scheme + "//" + rest;
    var n := |scheme|;
    assert url[n..n + 2] == "//";
    assert forall k :: 0 <= k < n ==> url[k] == scheme[k];
    SplitAtFirst(url, "//", n);
    assert url[n + 2..] == rest;
    SplitFree(rest, "//");
  }

  lemma LastAfterWww(hp: string)
    requires Free(hp, "www.")
    ensures Last(Split("www." + hp, "www.")) == hp
  {
    var rest := "www." + hp;
    assert rest[..4] == "www.";
    SplitAtFirst(rest, "www.", 0);
    assert rest[4..] == hp;
    SplitFree(hp, "www.");
  }

  lemma HostFirst(host: string, path: string)
    requires NoChar(host, '/')
    requires path == [] || path[0] == '/'
    ensures Split(host + path, "/")[0] == host
  {
    var hp := host + path;
    if path == [] {
      assert hp == host;
      SplitFreeOfChar(host, '/');
    } else {
      assert forall k :: 0 <= k < |host| ==> hp[k] == host[k];
      assert hp[|host|..|host| + 1] == "/";
      SplitAtFirst(hp, "/", |host|);
      assert hp[..|host|] == host;
    }
  }

  lemma RestFree(host: string, path: string)
    requires NoChar(host, '/') && Free(path, "//")
    ensures Free("www." + host + path, "//")
  {
    var rest := "www." + host + path;
    var n := 4 + |host|;
    forall k: nat ensures !OccursAt(rest, "//", k) {
      if k + 2 <= |rest| {
        if k < 4 {
          assert rest[k..k + 2][0] == rest[k] == "www."[k];
        } else if k < n {
          assert rest[k..k + 2][0] == rest[k] == host[k - 4];
        } else {
          assert rest[k..k + 2] == path[k - n..k - n + 2];
          assert !OccursAt(path, "//", k - n);
        }
      }
    }
  }

  /** A bare host name is its own title. */
  lemma TitleOfBareHost(url: string)
    requires Free(url, "//") && Free(url, "www.") && NoChar(url, '/')
    ensures TitleFromUrl(url) == url
  {
    SplitFree(url, "//");
    SplitFree(url, "www.");
    SplitFreeOfChar(url, '/');
  }

  // ---------------------------------------------------------------------------
  // the session

  datatype State = Idle | HasTranscript | HasInsights | Chatting

  /** Python truthiness of an optional string: present and non-empty. */
  predicate Truthy(s: Option<string>) {
    s.Some? && s.value != ""
  }

  /** The contents of a session, field by field, so that a handler can say which fields
      it changes and that every other one keeps its value. */
  datatype SessionData = SessionData(
    podcastTitle: Option<string>,
    podcastUrl: Option<string>,
    podcastDuration: Option<real>,
    transcriptText: Option<string>,
    transcriptLanguage: Option<string>,
    transcriptSource: Option<Fetcher.Source>,
    insights: Option<string>,
    notes: seq<string>,
    conversationHistory: seq<Llm.Message>,
    state: State)

  /** One user's session: the episode, its transcript, the insights and notes, and the
      chat history. */
  class Session {
    const userId: int
    var podcastTitle: Option<string>
    var podcastUrl: Option<string>
    var podcastDuration: Option<real>
    var transcriptText: Option<string>
    var transcriptLanguage: Option<string>
    var transcriptSource: Option<Fetcher.Source>
    var insights: Option<string>
    var notes: seq<string>
    var conversationHistory: seq<Llm.Message>
    var state: State

    /** Every tool call in the chat history is answered by the message after it. */
    predicate Valid()
      reads this
    {
      Llm.CallsAnswered(conversationHistory)
    }

    /** Every field of the session but the user id, which never changes. */
    function Data(): SessionData
      reads this
    {
      SessionData(podcastTitle, podcastUrl, podcastDuration, transcriptText, transcriptLanguage,
                  transcriptSource, insights, notes, conversationHistory, state)
    }

    predicate Fresh()
      reads this
    {
      && podcastTitle == None && podcastUrl == None && podcastDuration == None
      && transcriptText == None && transcriptLanguage == None && transcriptSource == None
      && insights == None && notes == [] && conversationHistory == [] && state == Idle
    }

    /** The empty session that loading a user without a saved session gives. */
    constructor(userId: int)
      ensures this.userId == userId && Fresh() && Valid()
    {
      this.userId := userId;
      podcastTitle, podcastUrl, podcastDuration := None, None, None;
      transcriptText, transcriptLanguage, transcriptSource := None, None, None;
      insights, notes, conversationHistory, state := None, [], [], Idle;
    }

    /** The episode a successful `/transcribe` starts: the fetched transcript and its
        metadata, with insights, notes and chat history cleared. */
    method LoadTranscript(title: string, url: string, res: Fetcher.TranscriptResult)
      modifies this
      ensures Valid()
      ensures podcastTitle == Some(title) && podcastUrl == Some(url)
      ensures podcastDuration == res.duration && transcriptText == Some(res.text)
      ensures transcriptLanguage == Some(res.language) && transcriptSource == Some(res.source)
      ensures state == HasTranscript
      ensures insights == None && notes == [] && conversationHistory == []
    {
      podcastTitle, podcastUrl, podcastDuration := Some(title), Some(url), res.duration;
      transcriptText, transcriptLanguage, transcriptSource := Some(res.text), Some(res.language), Some(res.source);
      state := HasTranscript;
      insights, notes, conversationHistory := None, [], [];
    }

    /** Deleting the saved session: the next load starts from the empty session. */
    method Reset()
      modifies this
      ensures Fresh() && Valid()
    {
      podcastTitle, podcastUrl, podcastDuration := None, None, None;
      transcriptText, transcriptLanguage, transcriptSource := None, None, None;
      insights, notes, conversationHistory, state := None, [], [], Idle;
    }
  }

  /** The state `/done` returns to: insights first, then a transcript, else idle. */
  function StateAfterChat(insights: Option<string>, transcript: Option<string>): (s: State)
    ensures s == HasInsights <==> Truthy(insights)
    ensures s == HasTranscript <==> !Truthy(insights) && Truthy(transcript)
    ensures s == Idle <==> !Truthy(insights) && !Truthy(transcript)
  {
    if Truthy(insights) then HasInsights
    else if Truthy(transcript) then HasTranscript
    else Idle
  }

  // ---------------------------------------------------------------------------
  // /upload content

  function Bullets(notes: seq<string>): (lines: seq<string>)
    ensures |lines| == |notes|
    ensures forall k :: 0 <= k < |notes| ==> lines[k] == "- " + notes[k]
    decreases |notes|
  {
    if notes == [] then [] else ["- " + notes[0]] + Bullets(notes[1..])
  }

  /** The notes section appended after the insights. */
  function NotesSection(notes: seq<string>): string {
    "\n\n## My Notes\n" + Join("\n", Bullets(notes))
  }

  /** The pieces `/upload` joins: the command's own text when there is any, otherwise the
      insights and the notes section, each when present. */
  function UploadParts(args: seq<string>, insights: Option<string>, notes: seq<string>): seq<string> {
    var custom := if args != [] then Join(" ", args) else "";
    if custom != "" then [custom]
    else ((if Truthy(insights) then [insights.value] else [])
          + (if notes != [] then [NotesSection(notes)] else []))
  }

  /** The text `/upload` stores and sends: the pieces joined by newlines and stripped. Text
      given with the command wins over insights and notes; without text, insights or notes
      there is nothing to upload; once there is a note there is always something to upload. */
  function UploadContent(args: seq<string>, insights: Option<string>, notes: seq<string>): (r: string)
    ensures args != [] && Join(" ", args) != "" ==> r == Strip(Join(" ", args))
    ensures (args == [] || Join(" ", args) == "") && !Truthy(insights) && notes == [] ==> r == ""
    ensures (args == [] || Join(" ", args) == "") && notes != [] ==> r != ""
  {
    NotesMakeContent(args, insights, notes);
    assert Join("\n", []) == "" && LStrip("") == "";
    Strip(Join("\n", UploadParts(args, insights, notes)))
  }

  /** With no notes, the insights alone are uploaded. */
  lemma UploadInsightsOnly(insights: Option<string>)
    requires Truthy(insights)
    ensures UploadContent([], insights, []) == Strip(insights.value)
  {
    assert [] + [insights.value] + [] == [insights.value];
  }

  /** With notes and no command text the joined pieces hold visible text: the section
      heading. */
  lemma NotesMakeContent(args: seq<string>, insights: Option<string>, notes: seq<string>)
    ensures (args == [] || Join(" ", args) == "") && notes != [] ==>
      Strip(Join("\n", UploadParts(args, insights, notes))) != ""
  {
    if (args == [] || Join(" ", args) == "") && notes != [] {
      NotesSectionVisible(insights, notes);
    }
  }

  lemma NotesSectionVisible(insights: Option<string>, notes: seq<string>)
    requires notes != []
    ensures Strip(Join("\n", (if Truthy(insights) then [insights.value] else []) + [NotesSection(notes)])) != ""
  {
    var parts := (if Truthy(insights) then [insights.value] else []) + [NotesSection(notes)];
    var joined := Join("\n", parts);
    var section := NotesSection(notes);
    assert section[2] == '#';
    if Truthy(insights) {
      assert parts == [insights.value, section];
      assert parts[1..] == [section];
      assert Join("\n", [section]) == section;
      assert joined == insights.value + "\n" + section;
      assert joined[|insights.value| + 3] == section[2];
      VisibleAt(joined, |insights.value| + 3);
    } else {
      assert joined == section;
      VisibleAt(joined, 2);
    }
    VisibleLStrip(joined);
    VisibleRStrip(LStrip(joined));
    assert Visible(Strip(joined)) != [];
  }

  /** A string with a visible character has visible text. */
  lemma VisibleAt(s: string, i: nat)
    requires i < |s| && !IsSpace(s[i])
    ensures Visible(s) != []
  {
    assert s == s[..i] + s[i..];
    VisibleConcat(s[..i], s[i..]);
  }

  // ---------------------------------------------------------------------------
  // the handlers

  /** The record `/upload` sends to the tracker (its date is left out). */
  datatype Entry = Entry(title: string, insight: string, link: Option<string>)

  /** The tracker entry for an upload: `podcast_title or "Unknown"`, the content and the URL. */
  function EntryFor(title: Option<string>, content: string, url: Option<string>): Entry {
    Entry(if Truthy(title) then title.value else "Unknown", content, url)
  }

  /** What a handler would reply. */
  datatype Outcome =
    | Unauthorized
    | MissingArgument
    | NoTranscript
    | Failed
    | Transcribed(result: Fetcher.TranscriptResult)
    | InsightsReady
    | ChatModeOn
    | Replied(text: string)
    | ChatFailed(error: Llm.ChatError)
    | NoteSaved(count: nat)
    | NoEpisode
    | ExitedChat
    | NothingToUpload
    | Uploaded(entry: Entry)
    | UploadFailed(entry: Entry)
    | Cleared

  /** `after` and `reply` are the log and the reply of one completed chat turn from `before`:
      the chat stops after the first `n` model answers, the log is the sanitised history, the
      user's message and their rounds, and the reply is made from their text parts. */
  ghost predicate ChatTurn(before: seq<Llm.Message>, after: seq<Llm.Message>, reply: string, text: string,
                           transcript: string, responses: seq<seq<Llm.Block>>) {
    exists n: nat ::
      && n <= |responses|
      && Llm.Completed(Llm.Outcomes(responses, Llm.Tools(transcript)), n)
      && after == ChatLog(before, text, transcript, responses, n)
      && reply == Llm.ReplyText(Llm.AllText(Llm.Outcomes(responses, Llm.Tools(transcript)), n))
  }

  ghost function ChatLog(before: seq<Llm.Message>, text: string, transcript: string,
                         responses: seq<seq<Llm.Block>>, n: nat): seq<Llm.Message>
    requires n <= |responses|
  {
    Llm.Sanitized(before) + [Llm.Message(Llm.User, Llm.Plain(text))]
    + Llm.RoundsLog(responses, Llm.Outcomes(responses, Llm.Tools(transcript)), n)
  }

  /** `llm.chat` as `_handle_chat_message` calls it. */
  method ChatTurnOf(history: seq<Llm.Message>, text: string, transcript: string, responses: seq<seq<Llm.Block>>)
    returns (r: Result<Llm.ChatReply, Llm.ChatError>)
    ensures r.Success? ==> r.value.text != "" && ChatTurn(history, r.value.log, r.value.text, text, transcript, responses)
    ensures r.Success? && Llm.CallsAnswered(history) ==> Llm.CallsAnswered(r.value.log)
  {
    r := Llm.Chat(history, text, transcript, responses);
    if r.Success? {
      assert r.value.log == ChatLog(history, text, transcript, responses, r.value.calls);
    }
  }

  /** `result.title or _title_from_url(url)` */
  function TitleOr(title: Option<string>, url: string): string {
    if Truthy(title) then title.value else TitleFromUrl(url)
  }

  /** `BotHandlers`, for the one user the bot serves. */
  class BotHandlers {
    const allowedUserId: int
    const qualityThreshold: real
    /** The allowed user's session; no one else gets past the authorisation check. */
    const session: Session
    const fetcher: Fetcher.TranscriptFetcher
    var chatModeUsers: set<int>

    /** Only the allowed user is ever in chat mode, and only with a transcript loaded. */
    predicate Valid()
      reads this, session, fetcher
    {
      && session.userId == allowedUserId && session.Valid() && fetcher.Valid()
      && chatModeUsers <= {allowedUserId}
      && (chatModeUsers != {} ==> session.transcriptText.Some?)
    }

    constructor(allowedUserId: int, qualityThreshold: real, whisperModelSize: string)
      ensures Valid() && fresh(session) && fresh(fetcher)
      ensures this.allowedUserId == allowedUserId && this.qualityThreshold == qualityThreshold
      ensures session.Fresh() && chatModeUsers == {}
    {
      this.allowedUserId := allowedUserId;
      this.qualityThreshold := qualityThreshold;
      session := new Session(allowedUserId);
      fetcher := new Fetcher.TranscriptFetcher(whisperModelSize, "temp");
      chatModeUsers := {};
    }

    /** `_is_authorized`: the sender is the allowed user, who is the owner of the one session
        the handlers read and update. */
    predicate IsAuthorized(userId: int)
      reads this, session, fetcher
      requires Valid()
      ensures IsAuthorized(userId) <==> userId == session.userId
    {
      userId == allowedUserId
    }

    /** `/transcribe <url>`: fetch the transcript and start a fresh episode from it. */
    method TranscribeHandler(userId: int, args: seq<string>, answers: Fetcher.Answers) returns (outcome: Outcome)
      requires Valid()
      modifies session, fetcher
      ensures Valid() && chatModeUsers == old(chatModeUsers)
      ensures !IsAuthorized(userId) ==> outcome == Unauthorized && unchanged(session, fetcher)
      ensures IsAuthorized(userId) && args == [] ==> outcome == MissingArgument && unchanged(session, fetcher)
      ensures IsAuthorized(userId) && args != [] ==>
        var run := Fetcher.Waterfall(args[0], Fetcher.ExtractVideoId(args[0]), None, qualityThreshold,
                                     answers, QualityCheck.Assessment);
        var accepted := Fetcher.CaptionsAccepted(Fetcher.ExtractVideoId(args[0]), None, qualityThreshold,
                                                 answers.captions, QualityCheck.Assessment);
        && fetcher.calls == old(fetcher.calls) + run.calls
        && fetcher.modelLoads <= 1
        && (old(fetcher.whisperModel).Some? ==> fetcher.whisperModel == old(fetcher.whisperModel))
        && (accepted || answers.download.Failure? ==>
              fetcher.whisperModel == old(fetcher.whisperModel) && fetcher.modelLoads == old(fetcher.modelLoads))
        && (!accepted && answers.download.Success? ==>
              && fetcher.whisperModel == Some(Fetcher.WhisperModel(fetcher.modelSize))
              && fetcher.modelLoads == 1
              && (old(fetcher.whisperModel).None? ==> fetcher.modelLoads == old(fetcher.modelLoads) + 1))
        && (run.result.Failure? ==> outcome == Failed && unchanged(session))
        && (run.result.Success? ==>
              var res := run.result.value;
              && outcome == Transcribed(res)
              && session.podcastTitle == Some(TitleOr(res.title, args[0]))
              && session.podcastUrl == Some(args[0])
              && session.podcastDuration == res.duration
              && session.transcriptText == Some(res.text)
              && session.transcriptLanguage == Some(res.language)
              && session.transcriptSource == Some(res.source)
              && session.state == HasTranscript
              && session.insights == None && session.notes == [] && session.conversationHistory == [])
    {
      if !IsAuthorized(userId) {
        return Unauthorized;
      }
      if args == [] {
        return MissingArgument;
      }
      var url := args[0];
      var r := fetcher.Fetch(url, None, qualityThreshold, answers);
      if r.Failure? {
        return Failed;
      }
      var res := r.value;
      session.LoadTranscript(TitleOr(res.title, url), url, res);
      outcome := Transcribed(res);
    }

    /** `/insights`: store the generated insights. `generated` is what the language model
        answers, or the error it raises. */
    method InsightsHandler(userId: int, generated: Result<string, string>) returns (outcome: Outcome)
      requires Valid()
      modifies session
      ensures Valid() && chatModeUsers == old(chatModeUsers)
      ensures !IsAuthorized(userId) ==> outcome == Unauthorized && unchanged(session)
      ensures IsAuthorized(userId) && !Truthy(old(session.transcriptText)) ==>
        outcome == NoTranscript && unchanged(session)
      ensures IsAuthorized(userId) && Truthy(old(session.transcriptText)) && generated.Failure? ==>
        outcome == Failed && unchanged(session)
      ensures IsAuthorized(userId) && Truthy(old(session.transcriptText)) && generated.Success? ==>
        && outcome == InsightsReady
        && session.Data() == old(session.Data()).(insights := Some(generated.value), state := HasInsights)
    {
      if !IsAuthorized(userId) {
        return Unauthorized;
      }
      if !Truthy(session.transcriptText) {
        return NoTranscript;
      }
      if generated.Failure? {
        return Failed;
      }
      ghost var before := session.Data();
      session.insights := Some(generated.value);
      session.state := HasInsights;
      assert session.Data() == before.(insights := Some(generated.value), state := HasInsights);
      outcome := InsightsReady;
    }

    /** `/chat`: enter chat mode, which needs a transcript. */
    method ChatHandler(userId: int) returns (outcome: Outcome)
      requires Valid()
      modifies this, session
      ensures Valid()
      ensures !IsAuthorized(userId) || !Truthy(old(session.transcriptText)) ==>
        && outcome == (if IsAuthorized(userId) then NoTranscript else Unauthorized)
        && unchanged(this, session)
      ensures IsAuthorized(userId) && Truthy(old(session.transcriptText)) ==>
        && outcome == ChatModeOn
        && chatModeUsers == old(chatModeUsers) + {userId}
        && session.Data() == old(session.Data()).(state := Chatting)
    {
      if !IsAuthorized(userId) {
        return Unauthorized;
      }
      if !Truthy(session.transcriptText) {
        return NoTranscript;
      }
      chatModeUsers := chatModeUsers + {userId};
      ghost var before := session.Data();
      session.state := Chatting;
      assert session.Data() == before.(state := Chatting);
      outcome := ChatModeOn;
    }

    /** Plain text: a chat turn in chat mode, else a note while an episode is loaded.
        `responses` are the language model's answers for a chat turn. */
    method TextMessageHandler(userId: int, text: string, responses: seq<seq<Llm.Block>>) returns (outcome: Outcome)
      requires Valid()
      modifies session
      ensures Valid() && chatModeUsers == old(chatModeUsers)
      ensures !IsAuthorized(userId) ==> outcome == Unauthorized && unchanged(session)
      ensures IsAuthorized(userId) && userId in chatModeUsers ==>
        && (outcome.ChatFailed? ==> unchanged(session))
        && (outcome.Replied? ==>
              && outcome.text != ""
              && session.Data() == old(session.Data()).(conversationHistory := session.conversationHistory)
              && ChatTurn(old(session.conversationHistory), session.conversationHistory, outcome.text, text,
                          old(session.transcriptText).value, responses))
        && (outcome.ChatFailed? || outcome.Replied?)
      ensures IsAuthorized(userId) && userId !in chatModeUsers ==>
        if Truthy(old(session.transcriptText)) || Truthy(old(session.podcastUrl)) then
          && session.Data() == old(session.Data()).(notes := old(session.notes) + [Strip(text)])
          && outcome == NoteSaved(|session.notes|)
        else outcome == NoEpisode && unchanged(session)
    {
      if !IsAuthorized(userId) {
        return Unauthorized;
      }
      if userId in chatModeUsers {
        outcome := HandleChatMessage(text, responses);
        return;
      }
      if Truthy(session.transcriptText) || Truthy(session.podcastUrl) {
        ghost var before := session.Data();
        session.notes := session.notes + [Strip(text)];
        assert session.Data() == before.(notes := before.notes + [Strip(text)]);
        return NoteSaved(|session.notes|);
      }
      outcome := NoEpisode;
    }

    /** `_handle_chat_message`: one conversation turn over the loaded transcript. */
    method HandleChatMessage(text: string, responses: seq<seq<Llm.Block>>) returns (outcome: Outcome)
      requires Valid() && session.transcriptText.Some?
      modifies session
      ensures Valid()
      ensures outcome.ChatFailed? || outcome.Replied?
      ensures outcome.ChatFailed? ==> unchanged(session)
      ensures outcome.Replied? ==>
        && outcome.text != ""
        && session.Data() == old(session.Data()).(conversationHistory := session.conversationHistory)
        && ChatTurn(old(session.conversationHistory), session.conversationHistory, outcome.text, text,
                    old(session.transcriptText).value, responses)
    {
      var r := ChatTurnOf(session.conversationHistory, text, session.transcriptText.value, responses);
      if r.Failure? {
        return ChatFailed(r.error);
      }
      ghost var before := session.Data();
      session.conversationHistory := r.value.log;
      assert session.Data() == before.(conversationHistory := r.value.log);
      outcome := Replied(r.value.text);
    }

    /** `/done`: leave chat mode and fall back to the state the session's content calls
        for. */
    method DoneHandler(userId: int) returns (outcome: Outcome)
      requires Valid()
      modifies this, session
      ensures Valid()
      ensures !IsAuthorized(userId) ==> outcome == Unauthorized && unchanged(this, session)
      ensures IsAuthorized(userId) ==>
        && outcome == ExitedChat
        && chatModeUsers == old(chatModeUsers) - {userId}
        && session.Data() == old(session.Data()).(
             state := StateAfterChat(old(session.insights), old(session.transcriptText)))
    {
      if !IsAuthorized(userId) {
        return Unauthorized;
      }
      chatModeUsers := chatModeUsers - {userId};
      ghost var before := session.Data();
      session.state := StateAfterChat(session.insights, session.transcriptText);
      assert session.Data() == before.(state := StateAfterChat(before.insights, before.transcriptText));
      outcome := ExitedChat;
    }

    /** `/upload [text]`: store the upload content as the insights, then send it.
        `delivered` is whether the tracker accepted the entry. */
    method UploadHandler(userId: int, args: seq<string>, delivered: bool) returns (outcome: Outcome)
      requires Valid()
      modifies session
      ensures Valid() && chatModeUsers == old(chatModeUsers)
      ensures !IsAuthorized(userId) ==> outcome == Unauthorized && unchanged(session)
      ensures IsAuthorized(userId) && UploadContent(args, old(session.insights), old(session.notes)) == "" ==>
        outcome == NothingToUpload && unchanged(session)
      ensures IsAuthorized(userId) && UploadContent(args, old(session.insights), old(session.notes)) != "" ==>
        var content := UploadContent(args, old(session.insights), old(session.notes));
        var entry := EntryFor(old(session.podcastTitle), content, old(session.podcastUrl));
        && session.Data() == old(session.Data()).(insights := Some(content))
        && outcome == (if delivered then Uploaded(entry) else UploadFailed(entry))
    {
      if !IsAuthorized(userId) {
        return Unauthorized;
      }
      var content := UploadContent(args, session.insights, session.notes);
      if content == "" {
        return NothingToUpload;
      }
      var entry := EntryFor(session.podcastTitle, content, session.podcastUrl);
      ghost var before := session.Data();
      session.insights := Some(content);
      assert session.Data() == before.(insights := Some(content));
      outcome := if delivered then Uploaded(entry) else UploadFailed(entry);
    }

    /** `/clear`: forget the session and leave chat mode. */
    method ClearHandler(userId: int) returns (outcome: Outcome)
      requires Valid()
      modifies this, session
      ensures Valid()
      ensures !IsAuthorized(userId) ==> outcome == Unauthorized && unchanged(this, session)
      ensures IsAuthorized(userId) ==>
        && outcome == Cleared && session.Fresh()
        && chatModeUsers == old(chatModeUsers) - {userId}
    {
      if !IsAuthorized(userId) {
        return Unauthorized;
      }
      session.Reset();
      chatModeUsers := chatModeUsers - {userId};
      outcome := Cleared;
    }
  }
}
