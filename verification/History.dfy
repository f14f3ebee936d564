/**
 The chat history of the agent and its rewriting for providers without tools: native tool calls
 and results become plain text messages.
 */
module History {
  import opened Wrappers
  import opened Text
  import opened Tools
  import opened Prompt
  import R = RoundTrip

  datatype Role = System | User | Assistant | Tool

  datatype Message = Message(role: Role, content: Option<string>, toolCalls: seq<ToolCall>, toolCallId: Option<string>)

  function Plain(role: Role, text: string): Message { Message(role, Some(text), [], None) }

  function ToolResult(id: string, text: string): Message { Message(Tool, Some(text), [], Some(id)) }

  datatype ToolOutput = ToolOutput(text: string, ok: bool)

  // ---- Results as text ----------------------------------------------------------------------

  /** Whether a stored result reports success; commands carry an exit code, other tools a prefix. */
  predicate Succeeded(text: string) {
    var lines := TextLines(text);
    var first := if lines == [] then "" else lines[0];
    if "exit code:" <= first then first == "exit code: 0" && !Contains(text, "[note]")
    else
      && !("error:" <= first)
      && !("refused:" <= first)
      && first != "cancelled"
      && first != "the user declined to run this command"
  }

  /** A tool call's title with its output. */
  type Titled = (string, ToolOutput)

  function ResultText(r: Titled): string {
    "$ " + r.0 + "\n" + TrimEnd(r.1.text) + "\n" + (if r.1.ok then "status: ok\n" else "status: failed\n")
  }

  function ResultTexts(results: seq<Titled>): string {
    if results == [] then "" else ResultText(results[0]) + ResultTexts(results[1..])
  }

  function FormatResults(results: seq<Titled>): string { "[tool results]\n" + ResultTexts(results) }

  // ---- Calls as text ------------------------------------------------------------------------

  function CallTitle(env: Env, call: ToolCall): string {
    match ParseCall(env, call.name, call.arguments)
    case Ok(inv) => Title(env, inv)
    case Err(_) => call.name
  }

  /** Fence and body of a call; one that does not parse is kept as a comment. */
  function CallText(env: Env, call: ToolCall): (string, string) {
    match ParseCall(env, call.name, call.arguments)
    case Ok(inv) => PromptRender(env, inv)
    case Err(e) =>
      (if call.name == TOOL_MISTL then "mistl" else if call.name == TOOL_HELP then "mistl-help" else "tool",
       "# invalid tool call: " + e + "\n# " + call.name + " " + call.arguments)
  }

  function AddCall(env: Env, content: string, call: ToolCall): string {
    R.Joined(content, R.Fenced(CallText(env, call)))
  }

  function AddCalls(env: Env, content: string, calls: seq<ToolCall>): string
    decreases |calls|
  {
    if calls == [] then content else AddCalls(env, AddCall(env, content, calls[0]), calls[1..])
  }

  function AddTitles(env: Env, titles: map<string, string>, calls: seq<ToolCall>): map<string, string>
    decreases |calls|
  {
    if calls == [] then titles else AddTitles(env, titles[calls[0].id := CallTitle(env, calls[0])], calls[1..])
  }

  // ---- What the model is told ---------------------------------------------------------------

  /** One result as text: its title, the output without the whitespace at its end, and how it went. */
  ghost predicate Tells(piece: string, title: string, output: string, ok: bool) {
    forall body | IsWithoutEnd(output, body) ::
      piece == "$ " + title + "\n" + body + "\n" + (if ok then "status: ok\n" else "status: failed\n")
  }

  /** The text is a heading and then one such piece for each result, in order. */
  ghost predicate TellsAll(text: string, results: seq<Titled>) {
    exists pieces: seq<string> ::
      && |pieces| == |results| && text == "[tool results]\n" + Concat(pieces)
      && forall i | 0 <= i < |pieces| :: Tells(pieces[i], results[i].0, results[i].1.text, results[i].1.ok)
  }

  lemma ResultTells(r: Titled)
    ensures Tells(ResultText(r), r.0, r.1.text, r.1.ok)
  {
    hide TrimEnd;
    forall body | IsWithoutEnd(r.1.text, body) ensures body == TrimEnd(r.1.text) {
      TrimEndIs(r.1.text);
      OneWithoutEnd(r.1.text, body, TrimEnd(r.1.text));
    }
  }

  lemma {:induction false} ResultPieces(results: seq<Titled>) returns (pieces: seq<string>)
    ensures |pieces| == |results| && ResultTexts(results) == Concat(pieces)
    ensures forall i | 0 <= i < |pieces| :: Tells(pieces[i], results[i].0, results[i].1.text, results[i].1.ok)
  {
    hide ResultText, Tells;
    if results == [] {
      pieces := [];
    } else {
      ResultTells(results[0]);
      var rest := ResultPieces(results[1..]);
      pieces := [ResultText(results[0])] + rest;
      assert pieces[1..] == rest;
    }
  }

  lemma FormattedTellsAll(results: seq<Titled>)
    ensures TellsAll(FormatResults(results), results)
  {
    hide Tells, ResultTexts, Concat;
    var pieces := ResultPieces(results);
  }

  /**
   What a stored result is taken for, by its first line: a command by its exit code, unless a note
   stands anywhere in it, and any other tool by not being one of four kinds of failure.
   */
  lemma SuccessIsRead(line: string, rest: string)
    requires '\n' !in line && (line == "" || line[|line| - 1] != '\r')
    ensures var text := line + "\n" + rest;
            Succeeded(text) <==>
              if "exit code:" <= line
              then line == "exit code: 0" && !exists i | 0 <= i <= |text| :: "[note]" <= text[i..]
              else !("error:" <= line || "refused:" <= line || line == "cancelled"
                     || line == "the user declined to run this command")
    ensures line != "" && !("exit code:" <= line) ==> Succeeded(line) == Succeeded(line + "\n" + rest)
    ensures Succeeded("")
  {
    hide TextLines;
    FirstLine(line, rest);
    if line != "" {
      OneLine(line);
    }
    NoLines();
  }

  // ---- The rewriting ------------------------------------------------------------------------

  datatype Rewriter = Rewriter(history: seq<Message>, titles: map<string, string>, results: seq<Titled>)
  {
    /** Pending results become one user message. */
    function Flush(): Rewriter {
      if results == [] then this else Rewriter(history + [Plain(User, FormatResults(results))], titles, [])
    }
  }

  const START := Rewriter([], map[], [])

  function ResultOf(titles: map<string, string>, m: Message): Titled {
    var known := m.toolCallId.Some? && m.toolCallId.value in titles;
    var title := if known then titles[m.toolCallId.value] else "tool (unknown call)";
    var text := m.content.GetOr("");
    (title, ToolOutput(text, Succeeded(text)))
  }

  function ContentOf(env: Env, m: Message): string {
    if m.role.Assistant? then AddCalls(env, m.content.GetOr(""), m.toolCalls) else m.content.GetOr("")
  }

  function Take(env: Env, st: Rewriter, m: Message): Rewriter {
    if m.role.Tool? then st.(results := st.results + [ResultOf(st.titles, m)])
    else
      var f := st.Flush();
      f.(history := f.history + [Plain(m.role, ContentOf(env, m))],
         titles := if m.role.Assistant? then AddTitles(env, f.titles, m.toolCalls) else f.titles)
  }

  function TakeAll(env: Env, st: Rewriter, messages: seq<Message>): Rewriter
    decreases |messages|
  {
    if messages == [] then st else TakeAll(env, Take(env, st, messages[0]), messages[1..])
  }

  function PromptHistory(env: Env, messages: seq<Message>): seq<Message> {
    TakeAll(env, START, messages).Flush().history
  }

  lemma {:induction false} TakeAllConcat(env: Env, st: Rewriter, a: seq<Message>, b: seq<Message>)
    ensures TakeAll(env, st, a + b) == TakeAll(env, TakeAll(env, st, a), b)
    decreases |a|
  {
    hide Take;
    if a == [] {
      assert a + b == b;
    } else {
      assert (a + b)[1..] == a[1..] + b;
      TakeAllConcat(env, Take(env, st, a[0]), a[1..], b);
    }
  }

  lemma TakeOne(env: Env, st: Rewriter, m: Message)
    ensures TakeAll(env, st, [m]) == Take(env, st, m)
  {
    hide Take;
    assert [m][1..] == [];
    assert TakeAll(env, Take(env, st, m), []) == Take(env, st, m);
  }

  /** Messages already written stay. */
  lemma {:induction false} TakeAllExtends(env: Env, st: Rewriter, messages: seq<Message>)
    ensures st.history <= TakeAll(env, st, messages).history
    decreases |messages|
  {
    hide ContentOf, FormatResults, AddTitles, ResultOf;
    if messages != [] {
      TakeAllExtends(env, Take(env, st, messages[0]), messages[1..]);
    }
  }

  // ---- No tool fields are left --------------------------------------------------------------

  /** A message without tool fields. */
  predicate IsPlain(m: Message) { !m.role.Tool? && m.content.Some? && m.toolCalls == [] && m.toolCallId.None? }

  predicate AllPlain(messages: seq<Message>) { forall m | m in messages :: IsPlain(m) }

  lemma {:induction false} TakeAllPlain(env: Env, st: Rewriter, messages: seq<Message>)
    requires AllPlain(st.history)
    ensures AllPlain(TakeAll(env, st, messages).Flush().history)
    decreases |messages|
  {
    hide ContentOf, FormatResults, AddTitles, ResultOf;
    if messages != [] {
      TakeAllPlain(env, Take(env, st, messages[0]), messages[1..]);
    }
  }

  /** After the rewriting no message has tool fields or the tool role. */
  lemma RewrittenIsPlain(env: Env, messages: seq<Message>)
    ensures AllPlain(PromptHistory(env, messages))
  {
    TakeAllPlain(env, START, messages);
  }

  lemma PlainIsTaken(env: Env, st: Rewriter, m: Message)
    requires IsPlain(m) && st.results == []
    ensures Take(env, st, m) == st.(history := st.history + [m])
  {
    hide CallText, CallTitle, FormatResults;
  }

  lemma {:induction false} PlainIsKept(env: Env, st: Rewriter, messages: seq<Message>)
    requires AllPlain(messages) && st.results == []
    ensures TakeAll(env, st, messages) == st.(history := st.history + messages)
    decreases |messages|
  {
    hide Take, IsPlain;
    if messages == [] {
      assert st.history + messages == st.history;
    } else {
      var m := messages[0];
      assert IsPlain(m);
      PlainIsTaken(env, st, m);
      var next := st.(history := st.history + [m]);
      PlainIsKept(env, next, messages[1..]);
      assert st.history + [m] + messages[1..] == st.history + messages;
    }
  }

  /** Rewriting again changes nothing. */
  lemma RewritingIsIdempotent(env: Env, messages: seq<Message>)
    ensures PromptHistory(env, PromptHistory(env, messages)) == PromptHistory(env, messages)
  {
    hide TakeAll;
    RewrittenIsPlain(env, messages);
    PlainIsKept(env, START, PromptHistory(env, messages));
  }

  // ---- Where each message goes --------------------------------------------------------------

  /** A message other than a tool result has its own place, with the text of its calls added. */
  lemma MessageHasItsPlace(env: Env, before: seq<Message>, m: Message, after: seq<Message>)
    requires !m.role.Tool?
    ensures var n := |PromptHistory(env, before)|;
            var h := PromptHistory(env, before + [m] + after);
            var text := if m.content.Some? then m.content.value else "";
            && n < |h| && h[..n] == PromptHistory(env, before)
            && h[n] == Plain(m.role, if m.role.Assistant? then AddCalls(env, text, m.toolCalls) else text)
  {
    hide AddCalls, AddTitles, TakeAll, FormatResults;
    var st := TakeAll(env, START, before);
    TakeAllConcat(env, START, before + [m], after);
    TakeAllConcat(env, START, before, [m]);
    TakeOne(env, st, m);
    var next := Take(env, st, m);
    TakeAllExtends(env, next, after);
    assert next.history <= PromptHistory(env, before + [m] + after);
  }

  /** Results of a call that is not in the history are told under a title of their own. */
  lemma StrayResultIsTold(env: Env, id: string, text: string)
    ensures var h := PromptHistory(env, [ToolResult(id, text)]);
            && |h| == 1 && h[0].role.User? && IsPlain(h[0])
            && TellsAll(h[0].content.value, [("tool (unknown call)", ToolOutput(text, Succeeded(text)))])
  {
    hide FormatResults, TellsAll, Succeeded, TakeAll;
    TakeOne(env, START, ToolResult(id, text));
    var told: Titled := ("tool (unknown call)", ToolOutput(text, Succeeded(text)));
    assert ResultOf(map[], ToolResult(id, text)) == told;
    assert [] + [told] == [told];
    FormattedTellsAll([told]);
  }

  /** A call that does not parse is written as a comment: why, its tool, and its arguments. */
  lemma FailedCallIsComment(env: Env, call: ToolCall)
    requires ParseCall(env, call.name, call.arguments).Err?
    ensures var e := ParseCall(env, call.name, call.arguments).error;
            var fence := if call.name == "mistl" then "mistl" else if call.name == "mistl_help" then "mistl-help"
                         else "tool";
            var comment := "# invalid tool call: " + e + "\n# " + call.name + " " + call.arguments;
            AddCall(env, "", call) == "```" + fence + "\n" + comment + "\n```"
  {
    hide ParseCall, R.Fenced;
    assert "" + R.Fenced(CallText(env, call)) == R.Fenced(CallText(env, call));
    FenceOfText(CallText(env, call).0, CallText(env, call).1);
  }

  lemma FenceOfText(fence: string, body: string)
    ensures R.Fenced((fence, body)) == "```" + fence + "\n" + body + "\n```"
  {}

  // ---- A whole exchange ---------------------------------------------------------------------

  /** Results in the order of the calls they answer. */
  predicate Answers(calls: seq<ToolCall>, responses: seq<Message>) {
    |responses| == |calls| &&
    forall i | 0 <= i < |calls| ::
      responses[i].role.Tool? && responses[i].toolCalls == [] && responses[i].toolCallId == Some(calls[i].id)
  }

  predicate DistinctCallIds(calls: seq<ToolCall>) {
    forall i, j | 0 <= i < j < |calls| :: calls[i].id != calls[j].id
  }

  /** The first call with this id, or the number of calls. */
  function FirstWith(calls: seq<ToolCall>, id: string): (k: nat)
    ensures k <= |calls| && (k < |calls| ==> calls[k].id == id)
    ensures forall j | 0 <= j < k :: calls[j].id != id
  {
    if calls == [] || calls[0].id == id then 0 else 1 + FirstWith(calls[1..], id)
  }

  /** The last call with this id, or -1. */
  function LastWith(calls: seq<ToolCall>, id: string): (k: int)
    ensures -1 <= k < |calls| && (k >= 0 ==> calls[k].id == id)
    ensures forall j | k < j < |calls| :: calls[j].id != id
  {
    var last := |calls| - 1;
    if calls == [] || calls[last].id == id then last else LastWith(calls[..last], id)
  }

  /** With distinct ids both are the call itself. */
  lemma OnlyCall(calls: seq<ToolCall>, i: nat)
    requires i < |calls|
    ensures FirstWith(calls, calls[i].id) <= i <= LastWith(calls, calls[i].id)
    ensures DistinctCallIds(calls) ==> FirstWith(calls, calls[i].id) == i == LastWith(calls, calls[i].id)
  {}

  /** The title that stands for this id after these calls. */
  function TitleWith(env: Env, calls: seq<ToolCall>, id: string): string {
    var k := LastWith(calls, id);
    if k < 0 then "tool (unknown call)" else CallTitle(env, calls[k])
  }

  /** Each result with the title of the last call that has its id: its own call, if ids differ. */
  function TitledResults(env: Env, calls: seq<ToolCall>, responses: seq<Message>): (r: seq<Titled>)
    requires |calls| == |responses|
    ensures |r| == |calls|
  {
    seq(|calls|, i requires 0 <= i < |calls| =>
      var text := responses[i].content.GetOr("");
      (TitleWith(env, calls, calls[i].id), ToolOutput(text, Succeeded(text))))
  }

  lemma {:induction false} OtherTitles(env: Env, titles: map<string, string>, calls: seq<ToolCall>, id: string)
    requires forall c | c in calls :: c.id != id
    ensures id in AddTitles(env, titles, calls) <==> id in titles
    ensures id in titles ==> AddTitles(env, titles, calls)[id] == titles[id]
    decreases |calls|
  {
    hide CallTitle;
    if calls != [] {
      assert calls[0].id != id;
      OtherTitles(env, titles[calls[0].id := CallTitle(env, calls[0])], calls[1..], id);
    }
  }

  /** A call is titled if no later one has its id. */
  lemma {:induction false} LastTitle(env: Env, titles: map<string, string>, calls: seq<ToolCall>, k: nat)
    requires k < |calls| && forall j | k < j < |calls| :: calls[j].id != calls[k].id
    ensures calls[k].id in AddTitles(env, titles, calls)
    ensures AddTitles(env, titles, calls)[calls[k].id] == CallTitle(env, calls[k])
    decreases |calls|
  {
    hide CallTitle;
    var next := titles[calls[0].id := CallTitle(env, calls[0])];
    if k == 0 {
      forall c | c in calls[1..] ensures c.id != calls[0].id {
        var j :| 0 <= j < |calls[1..]| && calls[1..][j] == c;
        assert calls[j + 1] == c;
      }
      OtherTitles(env, next, calls[1..], calls[0].id);
    } else {
      LastTitle(env, next, calls[1..], k - 1);
    }
  }

  lemma {:induction false} ResultsCollect(env: Env, st: Rewriter, responses: seq<Message>)
    requires forall m | m in responses :: m.role.Tool?
    ensures TakeAll(env, st, responses) ==
              st.(results := st.results
                + seq(|responses|, i requires 0 <= i < |responses| => ResultOf(st.titles, responses[i])))
    decreases |responses|
  {
    hide ResultOf;
    if responses == [] {
      assert st.results + [] == st.results;
    } else {
      var first := ResultOf(st.titles, responses[0]);
      assert responses[0].role.Tool?;
      var next := st.(results := st.results + [first]);
      ResultsCollect(env, next, responses[1..]);
      var more := seq(|responses| - 1, i requires 0 <= i < |responses| - 1 => ResultOf(st.titles, responses[1..][i]));
      assert st.results + [first] + more
          == st.results + seq(|responses|, i requires 0 <= i < |responses| => ResultOf(st.titles, responses[i]));
    }
  }

  lemma CollectedResults(env: Env, known: map<string, string>, titles: map<string, string>, calls: seq<ToolCall>,
      responses: seq<Message>)
    requires titles == AddTitles(env, known, calls) && Answers(calls, responses)
    ensures seq(|responses|, i requires 0 <= i < |responses| => ResultOf(titles, responses[i]))
         == TitledResults(env, calls, responses)
  {
    hide CallTitle, AddTitles, Succeeded;
    forall i | 0 <= i < |calls|
      ensures ResultOf(titles, responses[i]) == TitledResults(env, calls, responses)[i]
    {
      OnlyCall(calls, i);
      LastTitle(env, known, calls, LastWith(calls, calls[i].id));
    }
  }

  /**
   An assistant message with its results becomes two messages: the text with its calls, and one
   user message in which each result stands under the title of the last call that has its id. With
   distinct ids that is its own call.
   */
  lemma ExchangeIsRewritten(env: Env, before: seq<Message>, m: Message, responses: seq<Message>, after: seq<Message>)
    requires m.role.Assistant? && m.toolCalls != []
    requires Answers(m.toolCalls, responses)
    requires after == [] || !after[0].role.Tool?
    ensures var n := |PromptHistory(env, before)|;
            var h := PromptHistory(env, before + [m] + responses + after);
            && n + 1 < |h|
            && h[n] == Plain(Assistant, ContentOf(env, m))
            && h[n + 1] == Plain(User, FormatResults(TitledResults(env, m.toolCalls, responses)))
    ensures TellsAll(FormatResults(TitledResults(env, m.toolCalls, responses)),
              TitledResults(env, m.toolCalls, responses))
    ensures DistinctCallIds(m.toolCalls) ==> forall i | 0 <= i < |responses| ::
              TitledResults(env, m.toolCalls, responses)[i].0 == CallTitle(env, m.toolCalls[i])
  {
    hide ContentOf, AddTitles, TakeAll, FormatResults, Answers, DistinctCallIds, TitledResults, TellsAll;
    OwnTitles(env, m.toolCalls, responses);
    FormattedTellsAll(TitledResults(env, m.toolCalls, responses));
    var st := TakeAll(env, START, before);
    var f := st.Flush();
    TakeAllConcat(env, START, before + [m] + responses, after);
    TakeAllConcat(env, START, before + [m], responses);
    TakeAllConcat(env, START, before, [m]);
    TakeOne(env, st, m);
    var asked := Take(env, st, m);
    var answered := TakeAll(env, asked, responses);
    ResultsAnswer(env, asked, f.titles, m.toolCalls, responses);
    var results := TitledResults(env, m.toolCalls, responses);
    AfterResults(env, answered, after);
    assert asked.history == f.history + [Plain(Assistant, ContentOf(env, m))];
    assert answered.Flush().history == asked.history + [Plain(User, FormatResults(results))];
  }

  lemma OwnTitles(env: Env, calls: seq<ToolCall>, responses: seq<Message>)
    requires Answers(calls, responses)
    ensures |responses| == |calls|
    ensures DistinctCallIds(calls) ==> forall i | 0 <= i < |responses| ::
              TitledResults(env, calls, responses)[i].0 == CallTitle(env, calls[i])
  {
    hide CallTitle, Succeeded, DistinctCallIds;
    forall i | 0 <= i < |calls| && DistinctCallIds(calls)
      ensures TitledResults(env, calls, responses)[i].0 == CallTitle(env, calls[i])
    {
      OnlyCall(calls, i);
    }
  }

  /** The results of the calls just made, collected under their titles. */
  lemma {:induction false} ResultsAnswer(env: Env, asked: Rewriter, titles: map<string, string>, calls: seq<ToolCall>,
      responses: seq<Message>)
    requires asked.results == [] && asked.titles == AddTitles(env, titles, calls) && calls != []
    requires Answers(calls, responses)
    ensures |responses| == |calls|
    ensures TakeAll(env, asked, responses) == asked.(results := TitledResults(env, calls, responses))
              && TitledResults(env, calls, responses) != []
  {
    hide AddTitles, TakeAll, ResultOf, TitledResults, LastWith, TitleWith;
    ResultsCollect(env, asked, responses);
    CollectedResults(env, titles, asked.titles, calls, responses);
    assert [] + TitledResults(env, calls, responses) == TitledResults(env, calls, responses);
  }

  lemma AfterResults(env: Env, st: Rewriter, after: seq<Message>)
    requires st.results != [] && (after == [] || !after[0].role.Tool?)
    ensures st.Flush().history <= TakeAll(env, st, after).Flush().history
  {
    hide ContentOf, AddTitles, FormatResults;
    if after != [] {
      var next := Take(env, st, after[0]);
      TakeAllExtends(env, next, after[1..]);
      assert st.Flush().history <= next.history;
    }
  }

  // ---- The program's loop -------------------------------------------------------------------

  lemma TakeNext(env: Env, st: Rewriter, messages: seq<Message>)
    requires messages != []
    ensures TakeAll(env, st, messages) == TakeAll(env, Take(env, st, messages[0]), messages[1..])
  {}

  method RewriteHistory(env: Env, messages: seq<Message>) returns (history: seq<Message>)
    ensures history == PromptHistory(env, messages)
  {
    hide TakeAll, AddCalls, AddTitles, Succeeded, FormatResults, CallText, CallTitle;
    history := [];
    var titles: map<string, string>, results: seq<Titled> := map[], [];
    assert messages[0..] == messages;
    for i := 0 to |messages|
      invariant TakeAll(env, Rewriter(history, titles, results), messages[i..]) == TakeAll(env, START, messages)
    {
      var message := messages[i];
      ghost var st := Rewriter(history, titles, results);
      TakeNext(env, st, messages[i..]);
      assert messages[i..][1..] == messages[i + 1..];
      if message.role == Tool {
        var known := message.toolCallId.Some? && message.toolCallId.value in titles;
        var title := if known then titles[message.toolCallId.value] else "tool (unknown call)";
        var text := message.content.GetOr("");
        results := results + [(title, ToolOutput(text, Succeeded(text)))];
      } else {
        if results != [] {
          history := history + [Plain(User, FormatResults(results))];
          results := [];
        }
        var content := message.content.GetOr("");
        if message.role == Assistant {
          content, titles := WriteCalls(env, content, titles, message.toolCalls);
        }
        history := history + [Message(message.role, Some(content), [], None)];
      }
      assert Rewriter(history, titles, results) == Take(env, st, message);
    }
    TakeNothing(env, Rewriter(history, titles, results));
    assert messages[|messages|..] == [];
    if results != [] {
      history := history + [Plain(User, FormatResults(results))];
    }
  }

  lemma TakeNothing(env: Env, st: Rewriter)
    ensures TakeAll(env, st, []) == st
  {}

  method WriteCalls(env: Env, text: string, known: map<string, string>, calls: seq<ToolCall>)
    returns (content: string, titles: map<string, string>)
    ensures content == AddCalls(env, text, calls)
    ensures titles == AddTitles(env, known, calls)
  {
    hide CallText, CallTitle;
    content, titles := text, known;
    assert calls[0..] == calls;
    for i := 0 to |calls|
      invariant AddCalls(env, content, calls[i..]) == AddCalls(env, text, calls)
      invariant AddTitles(env, titles, calls[i..]) == AddTitles(env, known, calls)
    {
      var call := calls[i];
      assert calls[i..][0] == call && calls[i..][1..] == calls[i + 1..];
      var (fence, command) := CallText(env, call);
      ghost var before := content;
      titles := titles[call.id := CallTitle(env, call)];
      if content != "" {
        content := content + "\n\n";
      }
      content := content + ("```" + fence + "\n" + command + "\n```");
      assert content == AddCall(env, before, call);
    }
  }
}
