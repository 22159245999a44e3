/** The tool-use conversation engine of bot/llm.py: the persisted message log, the
    history sanitiser, the two local tools and the bounded multi-round chat loop.
    The language model is a caller-supplied list of canned responses, one per call. */
module Llm {
  import opened Wrappers
  import opened Strings

  /** Longest transcript, in characters, that is sent to the model. */
  const MaxTranscriptChars: nat := 150000
  const TruncationMarker: string := "\n\n[Transcript truncated due to length]"
  /** Tool rounds after the first model call; at most MaxToolRounds + 1 calls per chat. */
  const MaxToolRounds: nat := 5
  const FallbackReply: string :=
    "I processed your request but couldn't generate a text response. Please try rephrasing your question."
  const UpdateAck: string := "Insights updated successfully."
  const ExcerptSeparator: string := "\n\n---\n\n"
  const MaxExcerpts: nat := 3

  datatype Role = User | Assistant

  /** A content block of a message. A tool's JSON input is a map from argument names to strings. */
  datatype Block =
    | Text(text: string)
    | ToolUse(id: string, name: string, input: map<string, string>)
    | ToolResult(toolUseId: string, content: string)

  /** A message's content is either plain text or a list of blocks. */
  datatype Content = Plain(text: string) | Blocks(blocks: seq<Block>)

  datatype Message = Message(role: Role, content: Content)

  /** Exceptions that escape `chat`: the model call raised (here: no canned response was
      left for call number `call`), or a tool input lacked a required key (a KeyError). */
  datatype ChatError = ModelCallFailed(call: nat) | MissingToolInput(key: string)

  // ===========================================================================
  // History sanitiser

  predicate HasToolUse(blocks: seq<Block>) {
    exists k :: 0 <= k < |blocks| && blocks[k].ToolUse?
  }

  predicate AllToolResults(blocks: seq<Block>) {
    forall k :: 0 <= k < |blocks| ==> blocks[k].ToolResult?
  }

  /** A message the sanitiser drops from the end of a log: an assistant message whose block
      list holds a tool_use, or a user message whose block list is all tool_result blocks
      (an empty list included). Plain-text messages never qualify. */
  predicate Orphaned(m: Message) {
    match m.content
    case Plain(_) => false
    case Blocks(bs) =>
      (m.role == Assistant && HasToolUse(bs)) || (m.role == User && AllToolResults(bs))
  }

  /** The sanitised history: the longest prefix that does not end in an orphaned message,
      reached by dropping orphaned messages from the end one at a time. */
  function Sanitized(h: seq<Message>): (r: seq<Message>)
    ensures |r| <= |h| && r == h[..|r|]
    ensures r == [] || !Orphaned(r[|r| - 1])
    ensures forall i :: |r| <= i < |h| ==> Orphaned(h[i])
    decreases |h|
  {
    if h != [] && Orphaned(h[|h| - 1]) then Sanitized(h[..|h| - 1]) else h
  }

  /** `_sanitize_history`: copy the list and pop its tail while the tail is orphaned. */
  method SanitizeHistory(history: seq<Message>) returns (clean: seq<Message>)
    ensures clean == Sanitized(history)
  {
    clean := history;
    while |clean| > 0
      invariant Sanitized(clean) == Sanitized(history)
      decreases |clean|
    {
      var last := clean[|clean| - 1];
      if last.role == Assistant && last.content.Blocks? && HasToolUse(last.content.blocks) {
        clean := clean[..|clean| - 1];
        continue;
      }
      if last.role == User && last.content.Blocks? && AllToolResults(last.content.blocks) {
        clean := clean[..|clean| - 1];
        continue;
      }
      break;
    }
  }

  /** Sanitising twice is the same as sanitising once. */
  lemma SanitizedIdempotent(h: seq<Message>)
    ensures Sanitized(Sanitized(h)) == Sanitized(h)
  {
  }

  /** A message with plain-text content is never removed, wherever it stands. */
  lemma SanitizedKeepsPlain(h: seq<Message>, i: nat)
    requires i < |h| && h[i].content.Plain?
    ensures i < |Sanitized(h)| && Sanitized(h)[i] == h[i]
  {
  }

  /** A log that already ends in a message that is not orphaned is left unchanged. */
  lemma SanitizedKeepsCleanLog(h: seq<Message>)
    requires h == [] || !Orphaned(h[|h| - 1])
    ensures Sanitized(h) == h
  {
  }

  /** The sanitiser also drops a trailing tool_use / tool_result pair that answer each
      other: a log that ends with the model's tool call and its result is cut back to the
      question that preceded them. */
  lemma SanitizedDropsAnsweredPair(question: string, id: string, answer: string)
    ensures
      var call := Message(Assistant, Blocks([ToolUse(id, "search_transcript", map["query" := question]), Text("x")]));
      var result := Message(User, Blocks([ToolResult(id, answer)]));
      Sanitized([Message(User, Plain(question)), call, result]) == [Message(User, Plain(question))]
  {
    var q := Message(User, Plain(question));
    var call := Message(Assistant, Blocks([ToolUse(id, "search_transcript", map["query" := question]), Text("x")]));
    var result := Message(User, Blocks([ToolResult(id, answer)]));
    assert Orphaned(result);
    assert call.content.blocks[0].ToolUse?;
    assert Orphaned(call);
    assert [q, call, result][..2] == [q, call];
    assert [q, call][..1] == [q];
    assert Sanitized([q]) == [q];
    assert Sanitized([q, call]) == Sanitized([q]);
    assert Sanitized([q, call, result]) == Sanitized([q, call]);
  }

  // ===========================================================================
  // Tool-use / tool-result pairing in a log

  /** The tool_use blocks of a block list, in order. */
  function ToolUses(blocks: seq<Block>): (uses: seq<Block>)
    ensures forall k :: 0 <= k < |uses| ==> uses[k].ToolUse?
    ensures |uses| <= |blocks|
    decreases |blocks|
  {
    if blocks == [] then []
    else
      var last := blocks[|blocks| - 1];
      ToolUses(blocks[..|blocks| - 1]) + (if last.ToolUse? then [last] else [])
  }

  /** The texts of the text blocks of a block list, in order. */
  function TextParts(blocks: seq<Block>): seq<string>
    decreases |blocks|
  {
    if blocks == [] then []
    else
      var last := blocks[|blocks| - 1];
      TextParts(blocks[..|blocks| - 1]) + (if last.Text? then [last.text] else [])
  }

  lemma {:induction false} ToolUsesExistIff(blocks: seq<Block>)
    ensures HasToolUse(blocks) <==> ToolUses(blocks) != []
    decreases |blocks|
  {
    if blocks != [] {
      var init := blocks[..|blocks| - 1];
      ToolUsesExistIff(init);
      if HasToolUse(init) {
        var k :| 0 <= k < |init| && init[k].ToolUse?;
        assert blocks[k].ToolUse?;
      }
      if HasToolUse(blocks) && !blocks[|blocks| - 1].ToolUse? {
        var k :| 0 <= k < |blocks| && blocks[k].ToolUse?;
        assert init[k].ToolUse?;
      }
    }
  }

  /** `reply` is a user message holding one tool_result per tool_use of `call`, in order,
      each carrying the id of its tool_use. */
  predicate Answers(call: seq<Block>, reply: Message) {
    && reply.role == User
    && reply.content.Blocks?
    && var uses := ToolUses(call);
       var rs := reply.content.blocks;
       && |rs| == |uses|
       && forall k :: 0 <= k < |rs| ==> rs[k].ToolResult? && rs[k].toolUseId == uses[k].id
  }

  predicate CallsTools(m: Message) {
    m.role == Assistant && m.content.Blocks? && HasToolUse(m.content.blocks)
  }

  /** The pairing rule of the model API: every assistant message with a tool_use that is
      followed by another message is followed by the matching tool results. */
  predicate CallsAnswered(log: seq<Message>) {
    forall i :: 0 <= i < |log| - 1 ==> AnsweredAt(log, i)
  }

  /** The message at `i` calls no tool, or the next message answers it. */
  predicate AnsweredAt(log: seq<Message>, i: nat)
    requires i < |log| - 1
  {
    CallsTools(log[i]) ==> Answers(log[i].content.blocks, log[i + 1])
  }

  /** The log does not end in an assistant message that calls tools. */
  predicate NoPendingCall(log: seq<Message>) {
    log == [] || !CallsTools(log[|log| - 1])
  }

  lemma CallsAnsweredConcat(a: seq<Message>, b: seq<Message>)
    requires CallsAnswered(a) && CallsAnswered(b) && NoPendingCall(a)
    ensures CallsAnswered(a + b)
  {
    var ab := a + b;
    forall i | 0 <= i < |ab| - 1
      ensures AnsweredAt(ab, i)
    {
      if i < |a| - 1 {
        assert AnsweredAt(a, i);
        assert ab[i] == a[i] && ab[i + 1] == a[i + 1];
      } else if i >= |a| {
        assert AnsweredAt(b, i - |a|);
        assert ab[i] == b[i - |a|] && ab[i + 1] == b[i - |a| + 1];
      } else {
        assert ab[i] == a[|a| - 1];
      }
    }
  }

  /** Sanitising keeps a well-paired log well paired. */
  lemma SanitizedCallsAnswered(h: seq<Message>)
    requires CallsAnswered(h)
    ensures CallsAnswered(Sanitized(h))
  {
    var s := Sanitized(h);
    forall i | 0 <= i < |s| - 1
      ensures AnsweredAt(s, i)
    {
      assert AnsweredAt(h, i);
      assert s[i] == h[i] && s[i + 1] == h[i + 1];
    }
  }

  // ===========================================================================
  // Local tools

  /** `_truncate`: the transcript as sent to the model. */
  function Truncate(transcript: string): (r: string)
    ensures |r| <= MaxTranscriptChars + |TruncationMarker|
    ensures |transcript| <= MaxTranscriptChars ==> r == transcript
    ensures |transcript| > MaxTranscriptChars ==>
      && |r| == MaxTranscriptChars + |TruncationMarker|
      && StartsWith(r, transcript[..MaxTranscriptChars]) && EndsWith(r, TruncationMarker)
  {
    if |transcript| <= MaxTranscriptChars then transcript
    else transcript[..MaxTranscriptChars] + TruncationMarker
  }

  /** The transcript cut into sentences: ".\n" becomes ". ", then split on ". ". */
  function Sentences(transcript: string): seq<string> {
    Split(Replace(transcript, ".\n", ". "), ". ")
  }

  /** The sentence before, the sentence itself and the sentence after, re-joined and stripped. */
  function Excerpt(sentences: seq<string>, i: nat): string
    requires i < |sentences|
  {
    var start := Max(0, i - 1);
    var end := Min(|sentences|, i + 2);
    Strip(Join(". ", sentences[start..end]))
  }

  predicate Mentions(sentence: string, queryLower: string) {
    Contains(Lower(sentence), queryLower)
  }

  /** For each sentence, its excerpt when the sentence mentions the query, otherwise None. */
  function Candidates(sentences: seq<string>, queryLower: string): (c: seq<Option<string>>)
    ensures |c| == |sentences|
  {
    seq(|sentences|, i requires 0 <= i < |sentences| =>
      if Mentions(sentences[i], queryLower) then Some(Excerpt(sentences, i)) else None)
  }

  lemma CandidatesAt(sentences: seq<string>, queryLower: string, i: nat)
    requires i < |sentences|
    ensures var c := Candidates(sentences, queryLower);
      (c[i].Some? <==> Mentions(sentences[i], queryLower))
      && (c[i].Some? ==> c[i].value == Excerpt(sentences, i))
  {
  }

  /** The excerpts collected by the search loop from sentence `i` on, given those found
      before: new non-empty excerpts of mentioning sentences are appended, and the loop
      stops once three are held. */
  function Collect(cands: seq<Option<string>>, i: nat, found: seq<string>): seq<string>
    requires i <= |cands|
    decreases |cands| - i
  {
    if i == |cands| then found
    else if cands[i].None? then Collect(cands, i + 1, found)
    else
      var context := cands[i].value;
      var found' := if context != "" && context !in found then found + [context] else found;
      if |found'| >= MaxExcerpts then found' else Collect(cands, i + 1, found')
  }

  /** One step of the collection, as the search loop takes it. */
  lemma CollectStep(cands: seq<Option<string>>, i: nat, found: seq<string>)
    requires i < |cands|
    ensures cands[i].None? ==> Collect(cands, i, found) == Collect(cands, i + 1, found)
    ensures cands[i].Some? ==>
      var context := cands[i].value;
      var found' := if context != "" && context !in found then found + [context] else found;
      Collect(cands, i, found) == if |found'| >= MaxExcerpts then found' else Collect(cands, i + 1, found')
  {
  }

  /** The excerpts the search tool reports for `query`. */
  function Matches(transcript: string, query: string): seq<string> {
    Collect(Candidates(Sentences(transcript), Lower(query)), 0, [])
  }

  function NoMentions(query: string): string {
    "No mentions of '" + query + "' found in the transcript."
  }

  /** `_search_transcript` as a value. What the search tool promises: at most three
      distinct excerpts, each the non-empty context of a sentence mentioning the query
      (case-insensitively); fewer than three only when every mentioning sentence's context
      was taken; the no-mentions message when nothing was found, the excerpts joined by the
      separator otherwise. */
  function Search(transcript: string, query: string): (r: string)
    ensures var sentences := Sentences(transcript);
      var found := Matches(transcript, query);
      && |found| <= MaxExcerpts
      && Distinct(found)
      && (forall k :: 0 <= k < |found| ==> ExcerptOfMention(sentences, Lower(query), found[k]))
      && (|found| < MaxExcerpts ==>
            forall j :: 0 <= j < |sentences| && Mentions(sentences[j], Lower(query)) && Excerpt(sentences, j) != "" ==>
              Excerpt(sentences, j) in found)
      && (found == [] ==> r == NoMentions(query))
      && (found != [] ==> r == Join(ExcerptSeparator, found))
  {
    CollectShape(Candidates(Sentences(transcript), Lower(query)), 0, []);
    MatchesSound(transcript, query);
    MatchesComplete(transcript, query);
    var found := Matches(transcript, query);
    if found == [] then NoMentions(query) else Join(ExcerptSeparator, found)
  }

  predicate Distinct(s: seq<string>) {
    forall a, b :: 0 <= a < b < |s| ==> s[a] != s[b]
  }

  lemma DistinctAppend(found: seq<string>, e: string)
    requires Distinct(found)
    ensures e !in found ==> Distinct(found + [e])
  {
    if e !in found {
      var s := found + [e];
      forall a, b | 0 <= a < b < |s| ensures s[a] != s[b] {
        if b == |found| {
          assert s[a] == found[a];
        } else {
          assert s[a] == found[a] && s[b] == found[b];
        }
      }
    }
  }

  /** `e` is a non-empty candidate at or after position `from`. */
  predicate CandidateFrom(cands: seq<Option<string>>, from: nat, e: string) {
    e != "" && exists j :: from <= j < |cands| && cands[j] == Some(e)
  }

  /** The collection only grows, never past three excerpts, and never repeats one. */
  lemma {:induction false} CollectShape(cands: seq<Option<string>>, i: nat, found: seq<string>)
    requires i <= |cands| && |found| < MaxExcerpts && Distinct(found)
    ensures |Collect(cands, i, found)| <= MaxExcerpts
    ensures found <= Collect(cands, i, found)
    ensures Distinct(Collect(cands, i, found))
    decreases |cands| - i
  {
    if i < |cands| {
      if cands[i].None? {
        CollectShape(cands, i + 1, found);
      } else {
        var context := cands[i].value;
        var found' := if context != "" && context !in found then found + [context] else found;
        DistinctAppend(found, context);
        if |found'| < MaxExcerpts {
          CollectShape(cands, i + 1, found');
        }
      }
    }
  }

  lemma CandidateFromEarlier(cands: seq<Option<string>>, i: nat, e: string)
    requires CandidateFrom(cands, i + 1, e)
    ensures CandidateFrom(cands, i, e)
  {
    var j :| i + 1 <= j < |cands| && cands[j] == Some(e);
  }

  /** Every excerpt the collection adds is a non-empty candidate. */
  lemma {:induction false} CollectSound(cands: seq<Option<string>>, i: nat, found: seq<string>)
    requires i <= |cands| && |found| < MaxExcerpts && Distinct(found)
    ensures forall k :: |found| <= k < |Collect(cands, i, found)| ==> CandidateFrom(cands, i, Collect(cands, i, found)[k])
    decreases |cands| - i
  {
    if i < |cands| {
      var r := Collect(cands, i, found);
      if cands[i].None? {
        CollectSound(cands, i + 1, found);
        assert r == Collect(cands, i + 1, found);
        forall k | |found| <= k < |r| ensures CandidateFrom(cands, i, r[k]) {
          assert CandidateFrom(cands, i + 1, r[k]);
          CandidateFromEarlier(cands, i, r[k]);
        }
      } else {
        var context := cands[i].value;
        var found' := if context != "" && context !in found then found + [context] else found;
        DistinctAppend(found, context);
        if |found'| < MaxExcerpts {
          CollectSound(cands, i + 1, found');
          CollectShape(cands, i + 1, found');
        } else {
          assert r == found';
        }
        assert found' <= r;
        forall k | |found| <= k < |r| ensures CandidateFrom(cands, i, r[k]) {
          if k < |found'| {
            assert r[k] == found'[k] == context && cands[i] == Some(context);
          } else {
            CandidateFromEarlier(cands, i, r[k]);
          }
        }
      }
    }
  }

  /** Stopping short of three excerpts means every non-empty candidate was taken. */
  lemma {:induction false} CollectComplete(cands: seq<Option<string>>, i: nat, found: seq<string>)
    requires i <= |cands| && |found| < MaxExcerpts && Distinct(found)
    ensures |Collect(cands, i, found)| < MaxExcerpts ==>
      forall j :: i <= j < |cands| && cands[j].Some? && cands[j].value != "" ==> cands[j].value in Collect(cands, i, found)
    decreases |cands| - i
  {
    if i < |cands| {
      if cands[i].None? {
        CollectComplete(cands, i + 1, found);
      } else {
        var context := cands[i].value;
        var found' := if context != "" && context !in found then found + [context] else found;
        DistinctAppend(found, context);
        if |found'| < MaxExcerpts {
          CollectComplete(cands, i + 1, found');
          CollectShape(cands, i + 1, found');
          assert context != "" ==> context in found';
        }
      }
    }
  }

  /** `e` is the non-empty excerpt around a sentence that mentions the query. */
  predicate ExcerptOfMention(sentences: seq<string>, queryLower: string, e: string) {
    e != "" && exists j :: 0 <= j < |sentences| && Mentions(sentences[j], queryLower) && Excerpt(sentences, j) == e
  }

  /** Every excerpt found is the context of a sentence that mentions the query. */
  lemma MatchesSound(transcript: string, query: string)
    ensures var found := Matches(transcript, query);
      forall k :: 0 <= k < |found| ==> ExcerptOfMention(Sentences(transcript), Lower(query), found[k])
  {
    var sentences := Sentences(transcript);
    var cands := Candidates(sentences, Lower(query));
    var found := Matches(transcript, query);
    CollectSound(cands, 0, []);
    forall k | 0 <= k < |found| ensures ExcerptOfMention(sentences, Lower(query), found[k]) {
      assert CandidateFrom(cands, 0, found[k]);
      var j :| 0 <= j < |cands| && cands[j] == Some(found[k]);
      CandidatesAt(sentences, Lower(query), j);
    }
  }

  /** Fewer than three excerpts means every mentioning sentence's non-empty context is there. */
  lemma MatchesComplete(transcript: string, query: string)
    ensures var sentences := Sentences(transcript);
      var found := Matches(transcript, query);
      |found| < MaxExcerpts ==>
        forall j :: 0 <= j < |sentences| && Mentions(sentences[j], Lower(query)) && Excerpt(sentences, j) != "" ==>
          Excerpt(sentences, j) in found
  {
    var sentences := Sentences(transcript);
    var cands := Candidates(sentences, Lower(query));
    CollectComplete(cands, 0, []);
    forall j | 0 <= j < |sentences| && Mentions(sentences[j], Lower(query))
      ensures cands[j] == Some(Excerpt(sentences, j))
    {
      CandidatesAt(sentences, Lower(query), j);
    }
  }

  /** `_search_transcript`: the source's loop over the sentences, with its early exit. */
  method SearchTranscript(transcript: string, query: string) returns (r: string)
    ensures r == Search(transcript, query)
  {
    var queryLower := Lower(query);
    var sentences := Split(Replace(transcript, ".\n", ". "), ". ");
    var found := CollectExcerpts(sentences, queryLower);
    if found == [] {
      r := NoMentions(query);
    } else {
      r := Join(ExcerptSeparator, found);
    }
  }

  /** The loop of `_search_transcript`: the excerpts around mentioning sentences, in order,
      without repeats, stopping at the third. */
  method CollectExcerpts(sentences: seq<string>, queryLower: string) returns (found: seq<string>)
    ensures found == Collect(Candidates(sentences, queryLower), 0, [])
  {
    ghost var cands := Candidates(sentences, queryLower);
    found := [];
    var i := 0;
    while i < |sentences|
      invariant i <= |sentences| && |found| < MaxExcerpts
      invariant Collect(cands, i, found) == Collect(cands, 0, [])
      decreases |sentences| - i
    {
      CandidatesAt(sentences, queryLower, i);
      CollectStep(cands, i, found);
      if Mentions(sentences[i], queryLower) {
        var context := Excerpt(sentences, i);
        if context != "" && context !in found {
          found := found + [context];
        }
        if |found| >= MaxExcerpts {
          break;
        }
      }
      i := i + 1;
    }
  }

  /** `_execute_tool`: dispatch on the tool name. */
  function ExecuteTool(name: string, input: map<string, string>, transcript: string): (r: Result<string, ChatError>)
    ensures r.Failure? <==> name == "search_transcript" && "query" !in input
    ensures r.Failure? ==> r.error == MissingToolInput("query")
    ensures name == "search_transcript" && "query" in input ==> r == Success(Search(transcript, input["query"]))
    ensures name == "update_insights" ==> r == Success(UpdateAck)
    ensures name != "search_transcript" && name != "update_insights" ==> r == Success("Unknown tool: " + name)
  {
    if name == "search_transcript" then
      if "query" in input then Success(Search(transcript, input["query"]))
      else Failure(MissingToolInput("query"))
    else if name == "update_insights" then Success(UpdateAck)
    else Success("Unknown tool: " + name)
  }

  // ===========================================================================
  // Processing one model response

  /** A tool dispatcher: `_execute_tool` with the transcript it searches fixed. */
  type Dispatcher = (string, map<string, string>) -> Result<string, ChatError>

  function Tools(transcript: string): Dispatcher {
    (name: string, input: map<string, string>) => ExecuteTool(name, input, transcript)
  }

  /** Runs each tool_use in order; the first failure escapes. */
  function RunTools(uses: seq<Block>, exec: Dispatcher): (r: Result<seq<Block>, ChatError>)
    requires forall k :: 0 <= k < |uses| ==> uses[k].ToolUse?
    decreases |uses|
  {
    if uses == [] then Success([])
    else
      var last := uses[|uses| - 1];
      match RunTools(uses[..|uses| - 1], exec)
      case Failure(e) => Failure(e)
      case Success(rs) =>
        match exec(last.name, last.input)
        case Failure(e) => Failure(e)
        case Success(c) => Success(rs + [ToolResult(last.id, c)])
  }

  /** One tool_result per tool_use, in order, carrying the tool_use's id and the tool's
      output; the run succeeds exactly when every tool call does. */
  lemma {:induction false} RunToolsSpec(uses: seq<Block>, exec: Dispatcher)
    requires forall k :: 0 <= k < |uses| ==> uses[k].ToolUse?
    ensures RunTools(uses, exec).Success? <==>
      forall k :: 0 <= k < |uses| ==> exec(uses[k].name, uses[k].input).Success?
    ensures RunTools(uses, exec).Success? ==>
      var rs := RunTools(uses, exec).value;
      && |rs| == |uses|
      && forall k :: 0 <= k < |rs| ==> rs[k] == ToolResult(uses[k].id, exec(uses[k].name, uses[k].input).value)
    decreases |uses|
  {
    if uses != [] {
      var init := uses[..|uses| - 1];
      RunToolsSpec(init, exec);
      assert forall k :: 0 <= k < |init| ==> init[k] == uses[k];
    }
  }

  /** With the bot's own tools, a run fails exactly when a search_transcript call lacks
      its query, and the first such call names the error. */
  lemma ToolsFailOnlyOnMissingQuery(uses: seq<Block>, transcript: string)
    requires forall k :: 0 <= k < |uses| ==> uses[k].ToolUse?
    ensures RunTools(uses, Tools(transcript)).Failure? <==>
      exists k :: 0 <= k < |uses| && uses[k].name == "search_transcript" && "query" !in uses[k].input
    ensures RunTools(uses, Tools(transcript)).Failure? ==>
      RunTools(uses, Tools(transcript)).error == MissingToolInput("query")
  {
    var exec := Tools(transcript);
    RunToolsSpec(uses, exec);
    forall k | 0 <= k < |uses|
      ensures exec(uses[k].name, uses[k].input).Failure? <==>
        uses[k].name == "search_transcript" && "query" !in uses[k].input
    {
    }
    if RunTools(uses, exec).Failure? {
      RunToolsErrorFromTool(uses, exec);
      var k :| 0 <= k < |uses| && exec(uses[k].name, uses[k].input) == Failure(RunTools(uses, exec).error);
    }
  }

  /** A failed run carries the error of one of its tool calls. */
  lemma {:induction false} RunToolsErrorFromTool(uses: seq<Block>, exec: Dispatcher)
    requires forall k :: 0 <= k < |uses| ==> uses[k].ToolUse?
    requires RunTools(uses, exec).Failure?
    ensures exists k :: 0 <= k < |uses| && exec(uses[k].name, uses[k].input) == Failure(RunTools(uses, exec).error)
    decreases |uses|
  {
    var init := uses[..|uses| - 1];
    if RunTools(init, exec).Failure? {
      RunToolsErrorFromTool(init, exec);
      var k :| 0 <= k < |init| && exec(init[k].name, init[k].input) == Failure(RunTools(init, exec).error);
      assert init[k] == uses[k];
    } else {
      assert exec(uses[|uses| - 1].name, uses[|uses| - 1].input) == Failure(RunTools(uses, exec).error);
    }
  }

  /** The shape of a successful tool run: one tool_result per tool_use, carrying its id. */
  lemma {:induction false} RunToolsIds(uses: seq<Block>, exec: Dispatcher)
    requires forall k :: 0 <= k < |uses| ==> uses[k].ToolUse?
    requires RunTools(uses, exec).Success?
    ensures var rs := RunTools(uses, exec).value;
      |rs| == |uses| && forall k :: 0 <= k < |rs| ==> rs[k].ToolResult? && rs[k].toolUseId == uses[k].id
    decreases |uses|
  {
    if uses != [] {
      var init := uses[..|uses| - 1];
      RunToolsIds(init, exec);
    }
  }

  datatype Processing = Processing(textParts: seq<string>, toolResults: seq<Block>)

  /** `_process_response` as a value: the text of every text block, and the results of
      every tool_use block, one per tool_use; other blocks are ignored. There are tool
      results exactly when the response used a tool. */
  function Processed(blocks: seq<Block>, exec: Dispatcher): (r: Result<Processing, ChatError>)
    ensures r.Success? ==> r.value.textParts == TextParts(blocks)
    ensures r.Success? ==> |r.value.toolResults| == |ToolUses(blocks)|
    ensures r.Success? ==> (r.value.toolResults == [] <==> !HasToolUse(blocks))
  {
    match RunTools(ToolUses(blocks), exec)
    case Failure(e) => Failure(e)
    case Success(rs) =>
      RunToolsIds(ToolUses(blocks), exec);
      ToolUsesExistIff(blocks);
      Success(Processing(TextParts(blocks), rs))
  }

  lemma {:induction false} RunToolsFailureSticks(uses: seq<Block>, more: seq<Block>, exec: Dispatcher)
    requires forall k :: 0 <= k < |uses| ==> uses[k].ToolUse?
    requires forall k :: 0 <= k < |more| ==> more[k].ToolUse?
    requires RunTools(uses, exec).Failure?
    ensures RunTools(uses + more, exec) == RunTools(uses, exec)
    decreases |more|
  {
    if more != [] {
      var init := more[..|more| - 1];
      RunToolsFailureSticks(uses, init, exec);
      assert (uses + more)[..|uses + more| - 1] == uses + init;
    } else {
      assert uses + more == uses;
    }
  }

  lemma {:induction false} ToolUsesConcat(a: seq<Block>, b: seq<Block>)
    ensures ToolUses(a + b) == ToolUses(a) + ToolUses(b)
    decreases |b|
  {
    if b == [] {
      assert a + b == a;
    } else {
      ToolUsesConcat(a, b[..|b| - 1]);
      assert (a + b)[..|a + b| - 1] == a + b[..|b| - 1];
    }
  }

  /** Extending a prefix of the blocks by one block. */
  lemma PrefixStep(blocks: seq<Block>, i: nat)
    requires i < |blocks|
    ensures blocks[i].Text? ==> TextParts(blocks[..i + 1]) == TextParts(blocks[..i]) + [blocks[i].text]
    ensures !blocks[i].Text? ==> TextParts(blocks[..i + 1]) == TextParts(blocks[..i])
    ensures blocks[i].ToolUse? ==> ToolUses(blocks[..i + 1]) == ToolUses(blocks[..i]) + [blocks[i]]
    ensures !blocks[i].ToolUse? ==> ToolUses(blocks[..i + 1]) == ToolUses(blocks[..i])
  {
    assert blocks[..i + 1][..i] == blocks[..i];
    assert TextParts(blocks[..i]) + [] == TextParts(blocks[..i]);
    assert ToolUses(blocks[..i]) + [] == ToolUses(blocks[..i]);
  }

  /** Running one more tool use after the earlier ones. */
  lemma RunToolsStep(uses: seq<Block>, b: Block, exec: Dispatcher)
    requires forall k :: 0 <= k < |uses| ==> uses[k].ToolUse?
    requires b.ToolUse?
    ensures RunTools(uses + [b], exec) ==
      match RunTools(uses, exec)
      case Failure(e) => Failure(e)
      case Success(rs) =>
        match exec(b.name, b.input)
        case Failure(e) => Failure(e)
        case Success(c) => Success(rs + [ToolResult(b.id, c)])
  {
    assert (uses + [b])[..|uses|] == uses;
  }

  /** A tool failure among the first `i` blocks is the failure of the whole response. */
  lemma FailureEndsProcessing(blocks: seq<Block>, i: nat, exec: Dispatcher)
    requires i <= |blocks| && RunTools(ToolUses(blocks[..i]), exec).Failure?
    ensures Processed(blocks, exec) == Failure(RunTools(ToolUses(blocks[..i]), exec).error)
  {
    RunToolsFailureSticks(ToolUses(blocks[..i]), ToolUses(blocks[i..]), exec);
    ToolUsesConcat(blocks[..i], blocks[i..]);
    assert blocks[..i] + blocks[i..] == blocks;
  }

  /** `_process_response`: one pass over the blocks, appending as it goes; `exec` is
      `_execute_tool` bound to the transcript. */
  method ProcessResponse(blocks: seq<Block>, exec: Dispatcher) returns (r: Result<Processing, ChatError>)
    ensures r == Processed(blocks, exec)
  {
    var textParts: seq<string> := [];
    var toolResults: seq<Block> := [];
    var i := 0;
    while i < |blocks|
      invariant i <= |blocks|
      invariant textParts == TextParts(blocks[..i])
      invariant RunTools(ToolUses(blocks[..i]), exec) == Success(toolResults)
    {
      var b := blocks[i];
      PrefixStep(blocks, i);
      if b.Text? {
        textParts := textParts + [b.text];
      } else if b.ToolUse? {
        RunToolsStep(ToolUses(blocks[..i]), b, exec);
        var res := exec(b.name, b.input);
        if res.Failure? {
          FailureEndsProcessing(blocks, i + 1, exec);
          return Failure(res.error);
        }
        toolResults := toolResults + [ToolResult(b.id, res.value)];
      }
      i := i + 1;
    }
    assert blocks[..i] == blocks;
    r := Success(Processing(textParts, toolResults));
  }

  // ===========================================================================
  // The chat loop

  /** The answer text: the text parts joined by newlines and stripped, or the fixed
      fallback sentence when that is empty. */
  function ReplyText(parts: seq<string>): (r: string)
    ensures r != ""
    ensures Strip(Join("\n", parts)) != "" ==> r == Strip(Join("\n", parts))
    ensures Strip(Join("\n", parts)) == "" ==> r == FallbackReply
  {
    var text := Strip(Join("\n", parts));
    if text == "" then FallbackReply else text
  }

  /** What processing each response would produce, whether or not the chat gets to it. */
  function Outcomes(responses: seq<seq<Block>>, exec: Dispatcher): (outs: seq<Result<Processing, ChatError>>)
    ensures |outs| == |responses|
    decreases |responses|
  {
    if responses == [] then []
    else
      var init := responses[..|responses| - 1];
      var outs := Outcomes(init, exec) + [Processed(responses[|responses| - 1], exec)];
      outs
  }

  lemma {:induction false} OutcomeAt(responses: seq<seq<Block>>, exec: Dispatcher, k: nat)
    requires k < |responses|
    ensures Outcomes(responses, exec)[k] == Processed(responses[k], exec)
    decreases |responses|
  {
    var init := responses[..|responses| - 1];
    if k < |init| { OutcomeAt(init, exec, k); }
  }

  /** The tool results of an outcome; none for one whose tools raised. */
  function ResultsOf(out: Result<Processing, ChatError>): seq<Block> {
    if out.Success? then out.value.toolResults else []
  }

  /** The messages one round adds: the assistant's blocks, then the tool results when there are any. */
  function RoundMessages(response: seq<Block>, results: seq<Block>): seq<Message> {
    [Message(Assistant, Blocks(response))] + (if results == [] then [] else [Message(User, Blocks(results))])
  }

  /** The messages added by the first `n` rounds. */
  function RoundsLog(responses: seq<seq<Block>>, outs: seq<Result<Processing, ChatError>>, n: nat): seq<Message>
    requires n <= |responses| && n <= |outs|
  {
    if n == 0 then []
    else RoundsLog(responses, outs, n - 1) + RoundMessages(responses[n - 1], ResultsOf(outs[n - 1]))
  }

  /** The text parts of the first `n` rounds, in order. */
  function AllText(outs: seq<Result<Processing, ChatError>>, n: nat): seq<string>
    requires n <= |outs|
  {
    if n == 0 then []
    else AllText(outs, n - 1) + (if outs[n - 1].Success? then outs[n - 1].value.textParts else [])
  }

  /** Adding an answered round to the log and to the text parts. */
  lemma RoundStep(responses: seq<seq<Block>>, outs: seq<Result<Processing, ChatError>>, n: nat, p: Processing)
    requires n < |responses| && n < |outs| && outs[n] == Success(p)
    ensures AllText(outs, n + 1) == AllText(outs, n) + p.textParts
    ensures p.toolResults == [] ==>
      RoundsLog(responses, outs, n + 1) == RoundsLog(responses, outs, n) + [Message(Assistant, Blocks(responses[n]))]
    ensures p.toolResults != [] ==>
      RoundsLog(responses, outs, n + 1)
        == RoundsLog(responses, outs, n) + [Message(Assistant, Blocks(responses[n]))] + [Message(User, Blocks(p.toolResults))]
  {
    var before := RoundsLog(responses, outs, n);
    var first := [Message(Assistant, Blocks(responses[n]))];
    if p.toolResults == [] {
      assert RoundMessages(responses[n], p.toolResults) == first;
    } else {
      assert before + (first + [Message(User, Blocks(p.toolResults))])
          == before + first + [Message(User, Blocks(p.toolResults))];
    }
  }

  /** Calls 0 .. k-1 were answered and each of them called tools, so the loop went on. */
  predicate ToolRounds(outs: seq<Result<Processing, ChatError>>, k: nat) {
    k <= |outs| && forall j :: 0 <= j < k ==> outs[j].Success? && outs[j].value.toolResults != []
  }

  /** The chat ended normally after `n` model calls: every call before the last called
      tools, and the last one either called none or was the final allowed round. */
  predicate Completed(outs: seq<Result<Processing, ChatError>>, n: nat) {
    && 1 <= n <= MaxToolRounds + 1
    && n <= |outs|
    && ToolRounds(outs, n - 1)
    && outs[n - 1].Success?
    && (n <= MaxToolRounds ==> outs[n - 1].value.toolResults == [])
  }

  /** Model call number k is where the chat raised `e`: no response was left for it, or
      one of its tool calls raised. */
  predicate FailsAt(outs: seq<Result<Processing, ChatError>>, k: nat, e: ChatError) {
    && k <= MaxToolRounds
    && ToolRounds(outs, k)
    && (if k == |outs| then e == ModelCallFailed(k) else outs[k] == Failure(e))
  }

  datatype ChatReply = ChatReply(text: string, log: seq<Message>, calls: nat)

  /** What the tool-use loop of `chat` hands back: the messages it appended, the text
      parts of every response, and the number of model calls. */
  datatype Rounds = Rounds(added: seq<Message>, textParts: seq<string>, calls: nat)

  /** The `for` loop of `chat`: call the model (the next canned response), log its blocks,
      run its tools and log their results, until a response calls no tool or
      MaxToolRounds + 1 calls have been made. */
  method ToolLoop(exec: Dispatcher, responses: seq<seq<Block>>) returns (r: Result<Rounds, ChatError>)
    ensures r.Success? ==> Completed(Outcomes(responses, exec), r.value.calls)
    ensures r.Success? ==>
      && r.value.calls <= |responses|
      && r.value.added == RoundsLog(responses, Outcomes(responses, exec), r.value.calls)
      && r.value.textParts == AllText(Outcomes(responses, exec), r.value.calls)
    ensures r.Failure? ==> exists k: nat :: FailsAt(Outcomes(responses, exec), k, r.error)
  {
    ghost var outs := Outcomes(responses, exec);
    var added: seq<Message> := [];
    var allTextParts: seq<string> := [];
    var calls: nat := 0;
    while calls < MaxToolRounds + 1
      invariant ToolRounds(outs, calls)
      invariant calls <= MaxToolRounds + 1
      invariant added == RoundsLog(responses, outs, calls)
      invariant allTextParts == AllText(outs, calls)
    {
      if calls >= |responses| {
        assert FailsAt(outs, calls, ModelCallFailed(calls));
        return Failure(ModelCallFailed(calls));
      }
      var response := responses[calls];
      var processed := ProcessResponse(response, exec);
      OutcomeAt(responses, exec, calls);
      assert processed == outs[calls];
      if processed.Failure? {
        assert FailsAt(outs, calls, processed.error);
        return Failure(processed.error);
      }
      var p := processed.value;
      RoundStep(responses, outs, calls, p);
      allTextParts := allTextParts + p.textParts;
      added := added + [Message(Assistant, Blocks(response))];
      calls := calls + 1;
      if p.toolResults == [] {
        assert Completed(outs, calls);
        break;
      }
      added := added + [Message(User, Blocks(p.toolResults))];
      assert outs[calls - 1] == Success(p) && p.toolResults != [];
      assert ToolRounds(outs, calls);
    }
    r := Success(Rounds(added, allTextParts, calls));
  }

  /** `LLMClient.chat` without the network: sanitise the history, add the user's message,
      run the tool loop with the bot's tools over the transcript, and join the text parts
      into the reply. */
  method Chat(history: seq<Message>, userMessage: string, transcript: string, responses: seq<seq<Block>>)
    returns (r: Result<ChatReply, ChatError>)
    ensures r.Success? ==> Completed(Outcomes(responses, Tools(transcript)), r.value.calls)
    ensures r.Success? ==>
      && r.value.calls <= |responses|
      && r.value.log == Sanitized(history) + [Message(User, Plain(userMessage))]
                        + RoundsLog(responses, Outcomes(responses, Tools(transcript)), r.value.calls)
      && r.value.text == ReplyText(AllText(Outcomes(responses, Tools(transcript)), r.value.calls))
    ensures r.Success? ==> r.value.text != ""
    ensures r.Success? && CallsAnswered(history) ==> CallsAnswered(r.value.log)
    ensures r.Failure? ==> exists k: nat :: FailsAt(Outcomes(responses, Tools(transcript)), k, r.error)
  {
    var clean := SanitizeHistory(history);
    var messages := clean + [Message(User, Plain(userMessage))];
    var rounds := ToolLoop(Tools(transcript), responses);
    if rounds.Failure? {
      return Failure(rounds.error);
    }
    messages := messages + rounds.value.added;
    var text := Strip(Join("\n", rounds.value.textParts));
    if text == "" {
      text := FallbackReply;
    }
    r := Success(ChatReply(text, messages, rounds.value.calls));
    if CallsAnswered(history) {
      ChatLogCallsAnswered(history, userMessage, responses, Tools(transcript), rounds.value.calls);
    }
  }

  /** The chat log keeps the pairing rule: a well-paired history stays well paired after
      sanitising, adding the user's message and the rounds of a completed chat. */
  lemma ChatLogCallsAnswered(history: seq<Message>, userMessage: string, responses: seq<seq<Block>>, exec: Dispatcher, n: nat)
    requires CallsAnswered(history) && Completed(Outcomes(responses, exec), n)
    ensures CallsAnswered(Sanitized(history) + [Message(User, Plain(userMessage))]
                          + RoundsLog(responses, Outcomes(responses, exec), n))
  {
    var s := Sanitized(history);
    var u := [Message(User, Plain(userMessage))];
    var outs := Outcomes(responses, exec);
    SanitizedCallsAnswered(history);
    CallsAnsweredConcat(s, u);
    forall j | 0 <= j < n
      ensures PairedRound(responses[j], ResultsOf(outs[j]))
    {
      OutcomeAt(responses, exec, j);
      RoundPaired(responses[j], exec);
    }
    RoundsPaired(responses, outs, n);
    CallsAnsweredConcat(s + u, RoundsLog(responses, outs, n));
  }

  /** The messages of one round pair its tool calls with their results and end answered. */
  predicate PairedRound(response: seq<Block>, results: seq<Block>) {
    CallsAnswered(RoundMessages(response, results)) && NoPendingCall(RoundMessages(response, results))
  }

  /** Rounds that are each well paired give a well-paired log. */
  lemma {:induction false} RoundsPaired(responses: seq<seq<Block>>, outs: seq<Result<Processing, ChatError>>, n: nat)
    requires n <= |responses| == |outs|
    requires forall j :: 0 <= j < n ==> PairedRound(responses[j], ResultsOf(outs[j]))
    ensures CallsAnswered(RoundsLog(responses, outs, n)) && NoPendingCall(RoundsLog(responses, outs, n))
  {
    if n > 0 {
      RoundsPaired(responses, outs, n - 1);
      var round := RoundMessages(responses[n - 1], ResultsOf(outs[n - 1]));
      assert PairedRound(responses[n - 1], ResultsOf(outs[n - 1]));
      CallsAnsweredConcat(RoundsLog(responses, outs, n - 1), round);
    }
  }

  /** One answered round pairs its tool call with its results and ends answered. */
  lemma RoundPaired(response: seq<Block>, exec: Dispatcher)
    requires Processed(response, exec).Success?
    ensures PairedRound(response, ResultsOf(Processed(response, exec)))
  {
    var results := ResultsOf(Processed(response, exec));
    var round := RoundMessages(response, results);
    RunToolsIds(ToolUses(response), exec);
    ToolUsesExistIff(response);
    if results != [] {
      assert AnsweredAt(round, 0);
    }
  }
}
