/**
 What the fenced text of native tool calls means when it is read again: calls that parse, and
 calls that do not and stand in their fence as comments.
 */
module NativeCalls {
  import opened Wrappers
  import opened Text
  import opened Json
  import W = Words
  import opened Tools
  import opened Prompt
  import R = RoundTrip
  import opened History

  // ---- Invocations in a list of calls -------------------------------------------------------

  /** The invocations that calls mean, without the calls that are refused. */
  function Oks(env: Env, calls: seq<Call>): seq<Invocation> {
    if calls == [] then []
    else
      match R.Meaning(env, calls[0])
      case Ok(inv) => [inv] + Oks(env, calls[1..])
      case Err(_) => Oks(env, calls[1..])
  }

  /** The invocation that a native call asks for, if it parses. */
  function Wanted(env: Env, call: ToolCall): seq<Invocation> {
    match ParseCall(env, call.name, call.arguments)
    case Ok(inv) => [inv]
    case Err(_) => []
  }

  function AllWanted(env: Env, calls: seq<ToolCall>): seq<Invocation> {
    if calls == [] then [] else Wanted(env, calls[0]) + AllWanted(env, calls[1..])
  }

  lemma {:induction false} OksConcat(env: Env, a: seq<Call>, b: seq<Call>)
    ensures Oks(env, a + b) == Oks(env, a) + Oks(env, b)
  {
    hide R.Meaning;
    if a == [] {
      assert a + b == b;
    } else {
      assert (a + b)[1..] == a[1..] + b;
      OksConcat(env, a[1..], b);
    }
  }

  lemma {:induction false} OksOfRefused(env: Env, calls: seq<Call>)
    requires forall c | c in calls :: R.Meaning(env, c).Err?
    ensures Oks(env, calls) == []
  {
    hide R.Meaning;
    if calls != [] {
      OksOfRefused(env, calls[1..]);
    }
  }

  lemma OksOfOne(env: Env, calls: seq<Call>, inv: Invocation)
    requires |calls| <= 1
    ensures Oks(env, calls) == [inv] <==> R.OneCall(env, calls, inv)
    ensures |calls| == 1 ==> (Oks(env, calls) == [] <==> R.Meaning(env, calls[0]).Err?)
  {
    hide R.Meaning;
    if |calls| == 1 {
      assert calls[1..] == [] && Oks(env, []) == [];
      var m := R.Meaning(env, calls[0]);
      if m.Ok? {
        assert Oks(env, calls) == [m.value] + [] == [m.value];
        assert [m.value] == [inv] <==> m.value == inv;
      }
    }
  }

  // ---- The parser through the blocks --------------------------------------------------------

  function CallLines(env: Env, call: ToolCall): seq<string> { TextLines(R.Fenced(CallText(env, call))) }

  /** The parser after the block of a call, with the calls that the block adds. */
  function AfterCall(env: Env, st: Parser, call: ToolCall): Parser {
    ParseLines(env.json, st.(calls := []), CallLines(env, call))
  }

  /**
   The block of a call, read in this state, keeps the call. One that parses must survive outside
   fences, or happen to be what an open `tool` fence held; one that does not must invent nothing.
   */
  predicate Carries(env: Env, st: Parser, call: ToolCall) {
    match ParseCall(env, call.name, call.arguments)
    case Ok(inv) =>
      if st.kind == Some(ToolFence) then R.OneCall(env, R.Held(env.json, st), inv)
      else st.kind == None && R.Survives(inv)
    case Err(_) => Oks(env, AfterCall(env, st, call).calls) == []
  }

  /** Each call is kept where the parser is when it reaches the call's block. */
  predicate Kept(env: Env, st: Parser, calls: seq<ToolCall>)
    decreases |calls|
  {
    calls == [] || (Carries(env, st, calls[0]) && Kept(env, AfterCall(env, st, calls[0]), calls[1..]))
  }

  predicate Reachable(st: Parser) { st.kind != Some(ToolFence) ==> st.body == "" }

  /** A block means what its call asks for exactly when it keeps the call. */
  lemma CarriesIsMeaning(env: Env, st: Parser, call: ToolCall)
    requires Lawful(env.json) && R.NamesAreLines(env.cli) && Reachable(st)
    ensures Carries(env, st, call) <==> Oks(env, AfterCall(env, st, call).calls) == Wanted(env, call)
  {
    hide Lawful, R.NamesAreLines, ParseCall, ParseLines, TextLines, R.Survives, R.OneCall, Oks, IsInvocation, R.Held,
      R.BlockLines, PromptRender, R.AfterBlock;
    var r := ParseCall(env, call.name, call.arguments);
    if r.Ok? {
      var inv := r.value;
      ParsedIsInvocation(env, call.name, call.arguments);
      R.LinesOfBlock(env, inv);
      TextOfParsed(env, call);
      assert CallLines(env, call) == R.BlockLines(env, inv);
      if st.kind == None {
        R.BlockMeaning(env, inv);
        BlockOnItsOwn(env, inv);
        assert st.(calls := []) == FRESH;
        OksOfOne(env, AfterCall(env, st, call).calls, inv);
      } else {
        var held, misread := R.Held(env.json, st), R.AfterBlock(env, Some(OtherFence), inv).calls;
        R.OpenBlock(env, st.(calls := []), inv);
        HeldIgnoresCalls(env.json, st);
        R.MisreadBlock(env, inv);
        assert [] + held + misread == held + misread;
        OksConcat(env, held, misread);
        OksOfRefused(env, misread);
        HeldIsOne(env, st, inv);
      }
    }
  }

  lemma TextOfParsed(env: Env, call: ToolCall)
    requires ParseCall(env, call.name, call.arguments).Ok?
    ensures var inv := ParseCall(env, call.name, call.arguments).value;
            R.Fenced(CallText(env, call)) == R.Block(env, inv)
  {
    hide ParseCall, PromptRender;
  }

  lemma BlockOnItsOwn(env: Env, inv: Invocation)
    ensures R.AfterBlock(env, None, inv) == ParseLines(env.json, FRESH, R.BlockLines(env, inv))
  {
    hide ParseLines, R.BlockLines;
  }

  lemma HeldIgnoresCalls(lib: JsonLib, st: Parser)
    ensures R.Held(lib, st.(calls := [])) == R.Held(lib, st)
  {
    hide JsonCall;
  }

  lemma HeldIsOne(env: Env, st: Parser, inv: Invocation)
    ensures if st.kind == Some(ToolFence)
            then Oks(env, R.Held(env.json, st)) == [inv] <==> R.OneCall(env, R.Held(env.json, st), inv)
            else Oks(env, R.Held(env.json, st)) == []
  {
    hide JsonCall, R.Meaning;
    OksOfOne(env, R.Held(env.json, st), inv);
  }

  lemma KeptIgnoresCalls(env: Env, a: Parser, b: Parser, calls: seq<ToolCall>)
    requires a.(calls := []) == b.(calls := [])
    ensures Kept(env, a, calls) <==> Kept(env, b, calls)
  {
    hide ParseCall, ParseLines, CallLines, R.Survives, R.OneCall, Oks;
    if calls != [] {
      HeldIgnoresCalls(env.json, a);
      HeldIgnoresCalls(env.json, b);
      assert AfterCall(env, a, calls[0]) == AfterCall(env, b, calls[0]);
    }
  }

  /** Refused calls at the end of a text do not count. */
  lemma OksOfPrompt(env: Env, content: string)
    ensures Oks(env, ParsePrompt(env.json, content)) == Oks(env, R.Start(env.json, content).calls)
  {
    hide R.Start, ParsePrompt, ParseCall;
    var unfinished := R.PromptIsStart(env.json, content);
    OksConcat(env, R.Start(env.json, content).calls, unfinished);
    if unfinished != [] {
      R.InvalidIsRefused(env, unfinished[0].arguments);
    }
    OksOfRefused(env, unfinished);
  }

  /** One more block adds what it means, read where the text before left the parser. */
  lemma OneMoreBlock(env: Env, content: string, call: ToolCall)
    ensures var st, next := R.Start(env.json, content), R.Start(env.json, AddCall(env, content, call));
            var own := AfterCall(env, st, call);
            && next.(calls := []) == own.(calls := []) && R.AtBoundary(next) && R.AtBoundary(own) && Reachable(st)
            && Oks(env, ParsePrompt(env.json, AddCall(env, content, call)))
               == Oks(env, ParsePrompt(env.json, content)) + Oks(env, own.calls)
  {
    hide R.Start, ParsePrompt, ParseLines, TextLines, CallText, Oks;
    var lib, st := env.json, R.Start(env.json, content);
    R.StartKeeps(lib, content);
    R.StartAfterBlock(lib, content, CallText(env, call));
    ParseLinesFrame(lib, st.(calls := []), st.calls, CallLines(env, call));
    assert st.calls + [] == st.calls && st.(calls := []).(calls := st.calls) == st;
    OksOfPrompt(env, content);
    OksOfPrompt(env, AddCall(env, content, call));
    OksConcat(env, st.calls, AfterCall(env, st, call).calls);
  }

  // ---- Calls keep their meaning -------------------------------------------------------------

  /** The text with its native calls means what the text meant, and then what the calls ask for, in order. */
  predicate Faithful(env: Env, content: string, calls: seq<ToolCall>) {
    Oks(env, ParsePrompt(env.json, AddCalls(env, content, calls)))
      == Oks(env, ParsePrompt(env.json, content)) + AllWanted(env, calls)
  }

  lemma FaithfulNone(env: Env, content: string)
    ensures Faithful(env, content, [])
  {
    hide ParsePrompt, Oks;
    assert Oks(env, ParsePrompt(env.json, content)) + [] == Oks(env, ParsePrompt(env.json, content));
  }

  /** The first call of several, and the others after it. */
  lemma FaithfulFirst(env: Env, content: string, first: ToolCall, rest: seq<ToolCall>)
    requires Lawful(env.json) && R.NamesAreLines(env.cli)
    ensures Faithful(env, content, [first]) <==> Carries(env, R.Start(env.json, content), first)
    ensures Faithful(env, content, [first]) ==>
              (Faithful(env, content, [first] + rest) <==> Faithful(env, AddCall(env, content, first), rest))
  {
    hide Lawful, R.NamesAreLines, ParsePrompt, R.Start, Carries, AfterCall, Oks, Wanted, AddCall, Reachable,
      R.AtBoundary;
    var next := AddCall(env, content, first);
    OneMoreBlock(env, content, first);
    CarriesIsMeaning(env, R.Start(env.json, content), first);
    var before, wanted := Oks(env, ParsePrompt(env.json, content)), Wanted(env, first);
    var own := Oks(env, AfterCall(env, R.Start(env.json, content), first).calls);
    assert [first][1..] == [] && ([first] + rest)[1..] == rest;
    assert AddCalls(env, next, []) == next && AllWanted(env, []) == [];
    assert wanted + [] == wanted;
    SamePrefix(before, own, wanted);
    assert before + (wanted + AllWanted(env, rest)) == before + wanted + AllWanted(env, rest);
    SamePrefix(before + wanted, Oks(env, ParsePrompt(env.json, AddCalls(env, next, rest))), AllWanted(env, rest));
  }

  lemma SamePrefix<T>(before: seq<T>, a: seq<T>, b: seq<T>)
    ensures before + a == before + b <==> a == b
  {
    if before + a == before + b {
      assert (before + a)[|before|..] == a && (before + b)[|before|..] == b;
    }
  }

  /** Faithful with the first call, with the first two, and so on through all of them. */
  predicate FaithfulThroughout(env: Env, content: string, calls: seq<ToolCall>) {
    forall k | 0 <= k <= |calls| :: Faithful(env, content, calls[..k])
  }

  lemma ThroughoutNone(env: Env, content: string)
    ensures FaithfulThroughout(env, content, [])
  {
    hide Faithful;
    FaithfulNone(env, content);
    var none: seq<ToolCall> := [];
    assert forall k | 0 <= k <= |none| :: none[..k] == none;
  }

  lemma ThroughoutFirst(env: Env, content: string, calls: seq<ToolCall>)
    requires Lawful(env.json) && R.NamesAreLines(env.cli) && calls != []
    ensures FaithfulThroughout(env, content, calls) <==>
              Carries(env, R.Start(env.json, content), calls[0])
                && FaithfulThroughout(env, AddCall(env, content, calls[0]), calls[1..])
  {
    hide Lawful, R.NamesAreLines, Faithful, Carries, AddCall, R.Start;
    var st, first, rest := R.Start(env.json, content), calls[0], calls[1..];
    var next := AddCall(env, content, first);
    FaithfulNone(env, content);
    FaithfulFirst(env, content, first, []);
    assert calls[..1] == [first] + [] == [first] && calls[..0] == [];
    forall k | 0 <= k <= |rest| && Carries(env, st, first)
      ensures Faithful(env, content, calls[..k + 1]) <==> Faithful(env, next, rest[..k])
    {
      assert calls[..k + 1] == [first] + rest[..k];
      FaithfulFirst(env, content, first, rest[..k]);
    }
    if Carries(env, st, first) {
      if FaithfulThroughout(env, content, calls) {
        forall k | 0 <= k <= |rest| ensures Faithful(env, next, rest[..k]) {
          assert Faithful(env, content, calls[..k + 1]);
        }
      }
      if FaithfulThroughout(env, next, rest) {
        forall k | 0 <= k <= |calls| ensures Faithful(env, content, calls[..k]) {
          if k > 0 {
            assert Faithful(env, next, rest[..k - 1]);
          }
        }
      }
    }
  }

  /**
   Native calls of any kind after any text: with the first call, the first two and so on through all
   of them, the rewritten text means exactly those that parse, in order, if and only if each call is
   kept where the parser reaches it.
   */
  lemma {:induction false} NativeCallsKeepMeaning(env: Env, content: string, calls: seq<ToolCall>)
    requires Lawful(env.json) && R.NamesAreLines(env.cli)
    ensures FaithfulThroughout(env, content, calls) <==> Kept(env, R.Start(env.json, content), calls)
    decreases |calls|
  {
    hide Lawful, R.NamesAreLines, FaithfulThroughout, Carries, AddCall, R.Start, AfterCall, ParsePrompt, Reachable,
      R.AtBoundary, Oks;
    if calls == [] {
      ThroughoutNone(env, content);
    } else {
      var st, next := R.Start(env.json, content), AddCall(env, content, calls[0]);
      NativeCallsKeepMeaning(env, next, calls[1..]);
      OneMoreBlock(env, content, calls[0]);
      KeptIgnoresCalls(env, R.Start(env.json, next), AfterCall(env, st, calls[0]), calls[1..]);
      ThroughoutFirst(env, content, calls);
    }
  }

  // ---- What a call that does not parse may say ----------------------------------------------

  /** A line inside a fence that the parser passes over. */
  predicate IgnoredLine(line: string) { Trim(line) == "" || Trim(line)[0] == '#' }

  /** The lines after the first, which alone stands behind the comment sign. */
  function LaterLines(text: string): seq<string> {
    var lines := TextLines(text + "\n");
    if lines == [] then [] else lines[1..]
  }

  /** Whether a line of a `mistl-help` fence asks for help that exists. */
  predicate AsksForHelp(cli: Command, line: string) {
    IsHelpPath(cli, DropHelpFlag(DropLeadingMistl(W.SplitArgs(Trim(line)))))
  }

  /** The comment that stands for a call which does not parse has no line that would be read as a call. */
  predicate Quiet(env: Env, call: ToolCall) {
    if call.name == TOOL_MISTL then forall line | line in LaterLines(call.arguments) :: IgnoredLine(line)
    else if call.name == TOOL_HELP then
      forall line | line in LaterLines(call.arguments) :: IgnoredLine(line) || !AsksForHelp(env.cli, line)
    else true
  }

  predicate Fair(env: Env, call: ToolCall) {
    match ParseCall(env, call.name, call.arguments)
    case Ok(inv) => R.Survives(inv)
    case Err(_) => Quiet(env, call)
  }

  /** Calls that do not parse put no fence line into their comment. */
  predicate NoInnerFence(env: Env, calls: seq<ToolCall>) {
    forall c | c in calls && ParseCall(env, c.name, c.arguments).Err? :: R.NoFence(CallText(env, c).1)
  }

  lemma NoFenceWithBreak(text: string)
    requires R.NoFence(text) && text != ""
    ensures forall line | line in TextLines(text + "\n") :: !(FENCE <= Trim(line))
  {
    hide TextLines, Trim;
    R.LastLine(text);
    var ls := TextLines(text);
    var last := ls[|ls| - 1];
    assert last in ls;
    TrimWithoutCr(last);
    assert Trim("") == "" by { TrimmedAlready(""); }
  }

  lemma TrimWithoutCr(line: string)
    ensures Trim(DropCr(line)) == Trim(line)
  {
    hide Trim;
    WhitespaceFacts();
    if DropCr(line) != line {
      TrimDropsLast(line);
    }
  }

  /** A line that starts with the comment sign is a comment. */
  lemma CommentLine(line: string)
    requires line != "" && line[0] == '#'
    ensures IgnoredLine(line)
  {
    hide TrimEnd;
    WhitespaceFacts();
    EndIsPlain(line);
  }

  lemma BreakIn(text: string) returns (k: nat)
    ensures k <= |text| && (text + "\n")[k] == '\n' && '\n' !in (text + "\n")[..k]
  {
    var t := text + "\n";
    k := IndexOf(t, '\n');
    assert forall i | 0 <= i < k :: t[i] == t[..k][i];
    assert t[|text|] == '\n';
  }

  /** The first line of a text starts as the text does. */
  lemma FirstStarts(text: string)
    requires text != "" && text[0] != '\n' && text[0] != '\r'
    ensures var ls := TextLines(text + "\n"); ls != [] && ls[0] != "" && ls[0][0] == text[0]
  {
    hide TextLines;
    var t := text + "\n";
    var k := BreakIn(text);
    var head, tail := t[..k], t[k + 1..];
    assert t == head + "\n" + tail;
    assert k > 0 && head[0] == text[0];
    FirstLine(head, tail);
  }

  // ---- The comment in its fence -------------------------------------------------------------

  /** The fence of a call that does not parse. */
  function FailedKind(name: string): Kind {
    if name == TOOL_MISTL then MistlFence else if name == TOOL_HELP then HelpFence else ToolFence
  }

  /** Lines of an open fence make calls one by one. */
  lemma {:induction false} InsideFence(env: Env, kind: Kind, lines: seq<string>)
    requires !kind.ToolFence? && forall line | line in lines :: !(FENCE <= Trim(line))
    ensures var r := ParseLines(env.json, Parser(Some(kind), "", []), lines);
            && r.kind == Some(kind) && r.body == ""
            && (Oks(env, r.calls) == [] <==>
                forall line | line in lines :: Oks(env, LineCalls(env.json, kind, Trim(line))) == [])
    decreases |lines|
  {
    hide Trim, LineCalls, R.Meaning;
    if lines != [] {
      assert lines[0] in lines;
      var rest := lines[1..];
      InsideFence(env, kind, rest);
      var first := LineCalls(env.json, kind, Trim(lines[0]));
      assert [] + first == first && first + [] == first;
      var st := Parser(Some(kind), "", []);
      assert ParseLine(env.json, st, lines[0]) == st.(calls := first + st.calls);
      ParseLinesFrame(env.json, st, first, rest);
      OksConcat(env, first, ParseLines(env.json, st, rest).calls);
      assert forall line :: line in lines <==> line == lines[0] || line in rest;
    }
  }

  /** Lines of an open `tool` fence add to its body. */
  lemma {:induction false} InsideTool(lib: JsonLib, body: string, lines: seq<string>)
    requires forall line | line in lines :: !(FENCE <= Trim(line))
    ensures var r := ParseLines(lib, Parser(Some(ToolFence), body, []), lines);
            && r.kind == Some(ToolFence) && r.calls == []
            && body <= r.body && (lines != [] ==> body + lines[0] <= r.body)
    decreases |lines|
  {
    hide Trim;
    if lines != [] {
      assert lines[0] in lines;
      InsideTool(lib, body + lines[0] + "\n", lines[1..]);
      assert body + lines[0] <= body + lines[0] + "\n";
    }
  }

  lemma OpenFailed(lib: JsonLib, name: string)
    ensures var fence := if name == TOOL_MISTL then "mistl" else if name == TOOL_HELP then "mistl-help" else "tool";
            && ParseLine(lib, FRESH, "```" + fence) == Parser(Some(FailedKind(name)), "", [])
            && '\n' !in "```" + fence && '\r' !in "```" + fence
  {
    hide KindOf, Trim;
    R.FenceKinds();
    R.FenceLine("mistl");
    R.FenceLine("mistl-help");
    R.FenceLine("tool");
  }

  /** The block of a call that does not parse, read between blocks: its comment in its fence. */
  lemma FailedBlock(env: Env, st: Parser, call: ToolCall)
    requires st.kind == None && Reachable(st) && ParseCall(env, call.name, call.arguments).Err?
    ensures var inside := Parser(Some(FailedKind(call.name)), "", []);
            var before := ParseLines(env.json, inside, TextLines(CallText(env, call).1 + "\n"));
            AfterCall(env, st, call) == ParseLine(env.json, before, "```")
  {
    hide TextLines, ParseLine, ParseLines, ParseCall, FailedKind;
    var r := CallText(env, call);
    OpenFailed(env.json, call.name);
    R.FencedLines(r);
    R.PlainFirstLine("```" + r.0, r.1 + "\n");
    assert "```" + r.0 + "\n" + (r.1 + "\n") == "```" + r.0 + "\n" + r.1 + "\n";
    var body := TextLines(r.1 + "\n");
    assert CallLines(env, call) == ["```" + r.0] + body + ["```"];
    assert st.(calls := []) == FRESH;
    R.ParseSnoc(env.json, FRESH, ["```" + r.0] + body, "```");
    R.ParseOneMore(env.json, FRESH, "```" + r.0, body);
  }

  /** A line of a `mistl` fence means a call, unless the parser passes over it. */
  lemma MistlLineMeans(env: Env, line: string)
    requires Lawful(env.json)
    ensures Oks(env, LineCalls(env.json, MistlFence, Trim(line))) == [] <==> IgnoredLine(line)
  {
    hide Lawful, Trim, ParseCall, ArgsObject, W.SplitArgs, StripPrompt;
    var calls := LineCalls(env.json, MistlFence, Trim(line));
    if !IgnoredLine(line) {
      R.MistlWords(env, W.SplitArgs(StripPrompt(Trim(line))));
      OksOfOne(env, calls, Mistl(Run([])));
    }
  }

  lemma HelpText(env: Env, line: string)
    requires Lawful(env.json)
    ensures ParseCall(env, TOOL_HELP, env.json.write(Obj([Entry("command", Str(line))]))).Ok? <==>
              IsHelpPath(env.cli, DropHelpFlag(DropLeadingMistl(W.SplitArgs(line))))
  {
    hide MapOf, IsHelpPath, DropLeadingMistl, DropHelpFlag, W.SplitArgs, R.PlainEntries, WellFormed, Lawful;
    var e := Entry("command", Str(line));
    R.MakePlain([e]);
    MapOfOne(e);
    R.CallWithPlainArguments(env, TOOL_HELP, [e]);
  }

  /** A line of a `mistl-help` fence means a call, unless it is passed over or names no subcommand. */
  lemma HelpLineMeans(env: Env, line: string)
    requires Lawful(env.json)
    ensures Oks(env, LineCalls(env.json, HelpFence, Trim(line))) == [] <==>
              IgnoredLine(line) || !AsksForHelp(env.cli, line)
  {
    hide Lawful, Trim, ParseCall, W.SplitArgs, IsHelpPath, DropLeadingMistl, DropHelpFlag;
    var calls := LineCalls(env.json, HelpFence, Trim(line));
    if !IgnoredLine(line) {
      HelpText(env, Trim(line));
      OksOfOne(env, calls, Mistl(Run([])));
    }
  }

  lemma OneLineTexts(a: string, b: string)
    requires NoLineBreak(a) && NoLineBreak(b)
    ensures NoLineBreak(a + b)
  {}

  lemma ErrorTexts()
    ensures NoLineBreak(ARGS_ERROR) && NoLineBreak(HELP_ERROR) && NoLineBreak(JSON_ERROR)
  {
    hide NoLineBreak;
    ArgsTexts();
    HelpTexts();
    HelpTails();
    JsonText();
    OneLineTexts("args must be ", "an array of strings");
    OneLineTexts("mistl_help accepts only ", "a subcommand path, ");
    OneLineTexts("mistl_help accepts only " + "a subcommand path, ", "without flags ");
    OneLineTexts("mistl_help accepts only " + "a subcommand path, " + "without flags ", "or positional values");
  }

  lemma ArgsTexts()
    ensures NoLineBreak("args must be ") && NoLineBreak("an array of strings")
  {}

  lemma HelpTexts()
    ensures NoLineBreak("mistl_help accepts only ") && NoLineBreak("a subcommand path, ")
  {}

  lemma HelpTails()
    ensures NoLineBreak("without flags ") && NoLineBreak("or positional values")
  {}

  lemma JsonText()
    ensures NoLineBreak("invalid tool arguments JSON")
  {}

  /** Why a mistl call does not parse is said in one line. */
  lemma MistlErrorIsLine(env: Env, name: string, arguments: string)
    requires IsMistlTool(name)
    ensures var r := ParseCall(env, name, arguments); r.Err? ==> NoLineBreak(r.error)
  {
    hide IsBlank, Trim, IsHelpPath, DropHelpFlag, DropLeadingMistl, WordsFrom, MapOf, NoLineBreak;
    ErrorTexts();
  }

  /** The comment for a mistl call: two comment lines, and then the arguments from their second line on. */
  lemma CommentLines(env: Env, call: ToolCall)
    requires IsMistlTool(call.name) && ParseCall(env, call.name, call.arguments).Err?
    ensures var lines := TextLines(CallText(env, call).1 + "\n");
            |lines| >= 2 && lines[2..] == LaterLines(call.arguments) && IgnoredLine(lines[0]) && IgnoredLine(lines[1])
  {
    hide TextLines, ParseCall, IgnoredLine;
    MistlErrorIsLine(env, call.name, call.arguments);
    var e := ParseCall(env, call.name, call.arguments).error;
    var first, p := "# invalid tool call: " + e, "# " + call.name + " ";
    assert CallText(env, call).1 + "\n" == first + "\n" + (p + call.arguments + "\n") by { CommentText(env, call); }
    R.PlainFirstLine(first, p + call.arguments + "\n");
    CommentLine(first);
    PrefixedLines(p, call.arguments);
    CommentLine(TextLines(p + call.arguments + "\n")[0]);
  }

  lemma CommentText(env: Env, call: ToolCall)
    requires ParseCall(env, call.name, call.arguments).Err?
    ensures var e := ParseCall(env, call.name, call.arguments).error;
            CallText(env, call).1 == "# invalid tool call: " + e + "\n" + ("# " + call.name + " " + call.arguments)
  {
    hide ParseCall;
    assert "\n# " == "\n" + "# ";
  }

  lemma PrefixedLines(p: string, t: string)
    requires p != "" && '\n' !in p && p[0] == '#'
    ensures var ls := TextLines(p + t + "\n"); ls != [] && ls[1..] == LaterLines(t) && ls[0] != "" && ls[0][0] == '#'
  {
    hide TextLines;
    var k := BreakIn(t);
    var head, tail := (t + "\n")[..k], (t + "\n")[k + 1..];
    assert t + "\n" == head + "\n" + tail;
    assert p + t + "\n" == (p + head) + "\n" + tail;
    FirstLine(head, tail);
    FirstLine(p + head, tail);
    FirstStarts(p + t);
  }

  /** A comment without fence lines is passed over in silence exactly when it is quiet. */
  lemma QuietMeansSilent(env: Env, st: Parser, call: ToolCall)
    requires Lawful(env.json) && st.kind == None && Reachable(st)
    requires ParseCall(env, call.name, call.arguments).Err? && R.NoFence(CallText(env, call).1)
    ensures AfterCall(env, st, call).kind == None && Reachable(AfterCall(env, st, call))
    ensures Oks(env, AfterCall(env, st, call).calls) == [] <==> Quiet(env, call)
  {
    hide Lawful, TextLines, ParseLine, ParseLines, ParseCall, AfterCall, IgnoredLine, AsksForHelp, LineCalls, Trim,
      LaterLines, CallText, R.NoFence, JsonCall, Oks;
    var comment := CallText(env, call).1;
    var lines, kind := TextLines(comment + "\n"), FailedKind(call.name);
    CommentStarts(env, call);
    NoFenceWithBreak(comment);
    FailedBlock(env, st, call);
    var before := ParseLines(env.json, Parser(Some(kind), "", []), lines);
    R.CloseFence(env.json, before);
    if IsMistlTool(call.name) {
      CommentLines(env, call);
      InsideFence(env, kind, lines);
      assert lines == [lines[0], lines[1]] + LaterLines(call.arguments);
      forall line
        ensures kind == MistlFence ==> (Oks(env, LineCalls(env.json, kind, Trim(line))) == [] <==> IgnoredLine(line))
        ensures kind == HelpFence ==>
                  (Oks(env, LineCalls(env.json, kind, Trim(line))) == [] <==>
                   IgnoredLine(line) || !AsksForHelp(env.cli, line))
      {
        MistlLineMeans(env, line);
        HelpLineMeans(env, line);
      }
    } else {
      FirstStarts(comment);
      InsideTool(env.json, "", lines);
      assert "" + lines[0] == lines[0];
      CommentIsRefused(env, before.body);
      OksOfRefused(env, [JsonCall(env.json, before.body)]);
      assert [] + [JsonCall(env.json, before.body)] == [JsonCall(env.json, before.body)];
    }
  }

  lemma CommentStarts(env: Env, call: ToolCall)
    requires ParseCall(env, call.name, call.arguments).Err?
    ensures var t := CallText(env, call).1; t != "" && t[0] == '#'
  {
    hide ParseCall;
  }

  lemma CommentIsRefused(env: Env, body: string)
    requires Lawful(env.json) && body != "" && body[0] == '#'
    ensures R.Meaning(env, JsonCall(env.json, body)).Err?
  {
    hide ParseCall, PrintsWell, WellFormed;
    R.InvalidIsRefused(env, JsonCall(env.json, body).arguments);
  }

  // ---- Main results -------------------------------------------------------------------------

  /** Outside fences, a list of calls is kept exactly when each call is fair. */
  lemma {:induction false} FairIsKept(env: Env, st: Parser, calls: seq<ToolCall>)
    requires Lawful(env.json) && R.NamesAreLines(env.cli)
    requires st.kind == None && Reachable(st) && NoInnerFence(env, calls)
    ensures Kept(env, st, calls) <==> forall c | c in calls :: Fair(env, c)
    decreases |calls|
  {
    hide Lawful, R.NamesAreLines, R.Survives, AfterCall, Quiet, CallText, R.NoFence, ParseCall, Oks, Reachable;
    if calls != [] {
      var call := calls[0];
      assert call in calls && forall c :: c in calls <==> c == call || c in calls[1..];
      if ParseCall(env, call.name, call.arguments).Err? {
        QuietMeansSilent(env, st, call);
      } else if R.Survives(ParseCall(env, call.name, call.arguments).value) {
        SurvivorEndsOutside(env, st, call);
      }
      if Fair(env, call) {
        FairIsKept(env, AfterCall(env, st, call), calls[1..]);
      }
    }
  }

  /** Inside an open fence the comment of a failed call is plain text, and its closing fence opens another one. */
  lemma FailedInside(env: Env, st: Parser, call: ToolCall)
    requires st.kind.Some? && Reachable(st)
    requires ParseCall(env, call.name, call.arguments).Err? && R.NoFence(CallText(env, call).1)
    ensures AfterCall(env, st, call) == Parser(Some(OtherFence), "", R.Held(env.json, st))
  {
    hide TextLines, ParseLine, ParseLines, ParseCall, Trim, CallText, R.NoFence, JsonCall, R.Held;
    var lib, r := env.json, CallText(env, call);
    CommentStarts(env, call);
    NoFenceWithBreak(r.1);
    FailedOpening(env, call);
    R.FencedLines(r);
    R.PlainFirstLine("```" + r.0, r.1 + "\n");
    assert "```" + r.0 + "\n" + (r.1 + "\n") == "```" + r.0 + "\n" + r.1 + "\n";
    var body, held := TextLines(r.1 + "\n"), R.Held(lib, st);
    assert CallLines(env, call) == ["```" + r.0] + body + ["```"];
    R.ParseSnoc(lib, st.(calls := []), ["```" + r.0] + body, "```");
    R.ParseOneMore(lib, st.(calls := []), "```" + r.0, body);
    HeldIgnoresCalls(lib, st);
    assert [] + held == held && held + [] == held;
    ClosesFence(lib, st.(calls := []), "```" + r.0);
    ParseLinesFrame(lib, FRESH, held, body);
    R.NoFenceNoCalls(lib, body);
    R.CloseFence(lib, Parser(None, "", held));
  }

  lemma FailedOpening(env: Env, call: ToolCall)
    requires ParseCall(env, call.name, call.arguments).Err?
    ensures var line := "```" + CallText(env, call).0;
            '\n' !in line && '\r' !in line && FENCE <= Trim(line)
  {
    hide Trim, ParseCall;
    OpenFailed(env.json, call.name);
    R.FenceLine("mistl");
    R.FenceLine("mistl-help");
    R.FenceLine("tool");
  }

  lemma ClosesFence(lib: JsonLib, st: Parser, line: string)
    requires st.kind.Some? && Reachable(st) && FENCE <= Trim(line)
    ensures ParseLine(lib, st, line) == Parser(None, "", st.calls + R.Held(lib, st))
  {
    hide Trim, KindOf, JsonCall;
    assert st.calls + [] == st.calls;
  }

  /** Inside a fence other than `tool`, a list of calls is kept exactly when none of them parses. */
  lemma {:induction false} FailedIsKept(env: Env, st: Parser, calls: seq<ToolCall>)
    requires st.kind.Some? && st.kind != Some(ToolFence) && Reachable(st) && NoInnerFence(env, calls)
    ensures Kept(env, st, calls) <==> forall c | c in calls :: ParseCall(env, c.name, c.arguments).Err?
    decreases |calls|
  {
    hide R.Survives, AfterCall, CallText, R.NoFence, ParseCall, JsonCall;
    if calls != [] {
      var call := calls[0];
      assert call in calls && forall c :: c in calls <==> c == call || c in calls[1..];
      if ParseCall(env, call.name, call.arguments).Err? {
        FailedInside(env, st, call);
        FailedIsKept(env, AfterCall(env, st, call), calls[1..]);
      }
    }
  }

  lemma SurvivorEndsOutside(env: Env, st: Parser, call: ToolCall)
    requires Lawful(env.json) && R.NamesAreLines(env.cli) && st.kind == None && Reachable(st)
    requires var r := ParseCall(env, call.name, call.arguments); r.Ok? && R.Survives(r.value)
    ensures AfterCall(env, st, call).kind == None && Reachable(AfterCall(env, st, call))
  {
    hide Lawful, R.NamesAreLines, ParseCall, ParseLines, TextLines, R.Survives, IsInvocation, R.BlockLines,
      R.AfterBlock, PromptRender, R.OneCall;
    var inv := ParseCall(env, call.name, call.arguments).value;
    ParsedIsInvocation(env, call.name, call.arguments);
    R.LinesOfBlock(env, inv);
    TextOfParsed(env, call);
    R.BlockMeaning(env, inv);
    BlockOnItsOwn(env, inv);
    assert st.(calls := []) == FRESH;
  }

  /** Outside fences all calls must be fair, and inside an open one none may parse. */
  predicate Fitting(env: Env, st: Parser, calls: seq<ToolCall>) {
    if st.kind == None then forall c | c in calls :: Fair(env, c)
    else forall c | c in calls :: ParseCall(env, c.name, c.arguments).Err?
  }

  /** In an open `tool` fence the first call meets what the fence held, and the others fit behind it. */
  predicate FittingAnywhere(env: Env, st: Parser, calls: seq<ToolCall>) {
    if st.kind != Some(ToolFence) then Fitting(env, st, calls)
    else calls == [] || (Carries(env, st, calls[0]) && Fitting(env, AfterCall(env, st, calls[0]), calls[1..]))
  }

  lemma FittingIsKept(env: Env, st: Parser, calls: seq<ToolCall>)
    requires Lawful(env.json) && R.NamesAreLines(env.cli)
    requires st.kind != Some(ToolFence) && Reachable(st) && NoInnerFence(env, calls)
    ensures Kept(env, st, calls) <==> Fitting(env, st, calls)
  {
    hide Lawful, R.NamesAreLines, Kept, Fair, NoInnerFence, ParseCall;
    if st.kind == None {
      FairIsKept(env, st, calls);
    } else {
      FailedIsKept(env, st, calls);
    }
  }

  /**
   After any text, and with calls whose comments have no fence line: with the first call, the first
   two and so on through all of them, the rewritten text means what the text meant and then exactly
   the calls that parse, in order, if and only if the calls fit where the text ends.
   */
  lemma AnyTextKeepsMeaning(env: Env, content: string, calls: seq<ToolCall>)
    requires Lawful(env.json) && R.NamesAreLines(env.cli) && NoInnerFence(env, calls)
    ensures FaithfulThroughout(env, content, calls) <==> FittingAnywhere(env, R.Start(env.json, content), calls)
  {
    hide Lawful, R.NamesAreLines, FaithfulThroughout, R.Start, Fitting, Carries, AfterCall, NoInnerFence, AddCall,
      ParsePrompt, Oks;
    var st := R.Start(env.json, content);
    R.StartKeeps(env.json, content);
    NativeCallsKeepMeaning(env, content, calls);
    if st.kind != Some(ToolFence) {
      FittingIsKept(env, st, calls);
    } else if calls != [] {
      OneMoreBlock(env, content, calls[0]);
      FewerInnerFences(env, calls);
      FittingIsKept(env, AfterCall(env, st, calls[0]), calls[1..]);
    }
  }

  lemma FewerInnerFences(env: Env, calls: seq<ToolCall>)
    requires calls != [] && NoInnerFence(env, calls)
    ensures NoInnerFence(env, calls[1..])
  {
    hide ParseCall, CallText, R.NoFence;
    assert forall c | c in calls[1..] :: c in calls;
  }

  /** The message with its first `k` calls. */
  function WithCalls(m: Message, k: nat): Message
    requires k <= |m.toolCalls|
  {
    m.(toolCalls := m.toolCalls[..k])
  }

  /** The rewritten message means exactly those of its calls that parse, in order. */
  predicate KeepsMeaning(env: Env, m: Message) {
    Oks(env, ParsePrompt(env.json, ContentOf(env, m))) == AllWanted(env, m.toolCalls)
  }

  /**
   The rewritten history keeps the meaning of native calls: after plain text, with the first call,
   the first two and so on through all of them, the message means exactly the calls that parse, in
   order, if and only if each of these survives and each other one has only harmless lines.
   */
  lemma HistoryKeepsMeaning(env: Env, m: Message)
    requires Lawful(env.json) && R.NamesAreLines(env.cli)
    requires m.role.Assistant? && R.NoFence(m.content.GetOr("")) && NoInnerFence(env, m.toolCalls)
    ensures (forall k | 0 <= k <= |m.toolCalls| :: KeepsMeaning(env, WithCalls(m, k))) <==>
              forall c | c in m.toolCalls :: Fair(env, c)
    ensures (forall c | c in m.toolCalls :: Fair(env, c)) ==> KeepsMeaning(env, m)
  {
    hide Lawful, R.NamesAreLines, R.NoFence, NoInnerFence, R.Start, Fair, AddCalls, ParsePrompt, Oks, AllWanted,
      Reachable;
    var content := m.content.GetOr("");
    PlainStart(env, content);
    AnyTextKeepsMeaning(env, content, m.toolCalls);
    forall k | 0 <= k <= |m.toolCalls|
      ensures KeepsMeaning(env, WithCalls(m, k)) <==> Faithful(env, content, m.toolCalls[..k])
    {
      assert [] + AllWanted(env, m.toolCalls[..k]) == AllWanted(env, m.toolCalls[..k]);
    }
    assert m.toolCalls[..|m.toolCalls|] == m.toolCalls;
    assert WithCalls(m, |m.toolCalls|) == m;
  }

  lemma PlainStart(env: Env, content: string)
    requires R.NoFence(content)
    ensures R.Start(env.json, content).kind == None && Reachable(R.Start(env.json, content))
    ensures Oks(env, ParsePrompt(env.json, content)) == []
  {
    hide TextLines, R.Start, ParseLines;
    R.StartKeeps(env.json, content);
    R.NoFenceNoCalls(env.json, TextLines(content));
  }

  // ---- Calls that all parse -----------------------------------------------------------------

  /** The invocations of calls that all parse. */
  predicate ParseTo(env: Env, calls: seq<ToolCall>, invs: seq<Invocation>) {
    |calls| == |invs| && forall i | 0 <= i < |calls| :: ParseCall(env, calls[i].name, calls[i].arguments) == Ok(invs[i])
  }

  lemma {:induction false} AddedCallsAreBlocks(env: Env, content: string, calls: seq<ToolCall>, invs: seq<Invocation>)
    requires ParseTo(env, calls, invs)
    ensures AddCalls(env, content, calls) == R.Rewritten(env, content, invs)
    decreases |calls|
  {
    hide ParseCall, PromptRender;
    if calls != [] {
      AddedCallsAreBlocks(env, AddCall(env, content, calls[0]), calls[1..], invs[1..]);
    }
  }

  /**
   When all calls parse, the whole message says it: it means what its text meant and then exactly the
   calls, if and only if there are none, or the text ends outside fences and all of them survive.
   */
  lemma ParsedCallsKeepMeaning(env: Env, m: Message, invs: seq<Invocation>)
    requires Lawful(env.json) && R.NamesAreLines(env.cli)
    requires m.role.Assistant? && ParseTo(env, m.toolCalls, invs)
    ensures var content := m.content.GetOr("");
            Meanings(env, ParsePrompt(env.json, ContentOf(env, m)))
              == Meanings(env, ParsePrompt(env.json, content)) + R.Accepted(invs)
            <==> invs == [] || (R.After(env.json, content).kind == None && R.AllSurvive(invs))
  {
    hide Lawful, R.NamesAreLines, R.AllSurvive, ParseCall, R.Rewritten, AddCalls, IsInvocation, Meanings, ParsePrompt,
      R.After;
    AddedCallsAreBlocks(env, m.content.GetOr(""), m.toolCalls, invs);
    forall inv | inv in invs ensures IsInvocation(env.cli, inv) {
      var i :| 0 <= i < |invs| && invs[i] == inv;
      ParsedIsInvocation(env, m.toolCalls[i].name, m.toolCalls[i].arguments);
    }
    R.RewritingPreservesMeaning(env, m.content.GetOr(""), invs);
  }

  // ---- Shell fences -------------------------------------------------------------------------

  /** A line of a shell fence is a call exactly when it runs the program itself, with or without a prompt. */
  lemma ShellLine(env: Env, words: seq<string>)
    requires Lawful(env.json)
    ensures words != [] ==>
              && Oks(env, LineCalls(env.json, ShellFence, "mistl " + W.Line(words))) == [Mistl(Run(words))]
              && Oks(env, LineCalls(env.json, ShellFence, "$ mistl " + W.Line(words))) == [Mistl(Run(words))]
  {
    hide Lawful, W.SplitArgs, W.Line, ArgsObject;
    if words != [] {
      var line := "mistl " + W.Line(words);
      ProgramFirst(words);
      StartsMistl(W.Line(words));
      assert StripPrompt(line) == line && StripPrompt("$ " + line) == line by { PromptOrNot(line); }
      assert "$ mistl " + W.Line(words) == "$ " + line by { PromptBefore(W.Line(words)); }
      R.MistlWords(env, ["mistl"] + words);
      assert (["mistl"] + words)[1..] == words;
      ShellMakesCall(env.json, line);
      OksOfOne(env, LineCalls(env.json, ShellFence, line), Mistl(Run(words)));
      OksOfOne(env, LineCalls(env.json, ShellFence, "$ " + line), Mistl(Run(words)));
    }
  }

  lemma PromptBefore(rest: string)
    ensures "$ mistl " + rest == "$ " + ("mistl " + rest)
  {}

  lemma StartsMistl(rest: string)
    ensures "mistl " <= "mistl " + rest && ("mistl " + rest)[0] == 'm'
  {}

  lemma PromptOrNot(line: string)
    requires line != "" && line[0] == 'm'
    ensures StripPrompt(line) == line && StripPrompt("$ " + line) == line
  {
    R.HasPrompt(line);
    R.HasPrompt("$ " + line);
    assert ("$ " + line)[2..] == line;
  }

  lemma ProgramFirst(words: seq<string>)
    requires words != []
    ensures W.SplitArgs("mistl " + W.Line(words)) == ["mistl"] + words
  {
    hide W.SplitArgs, W.Replace;
    WhitespaceFacts();
    assert !W.NeedsQuotes("mistl");
    W.SplitOfLine(["mistl"] + words);
    assert (["mistl"] + words)[1..] == words;
    assert W.Line(["mistl"] + words) == "mistl" + " " + W.Line(words);
    assert "mistl" + " " + W.Line(words) == "mistl " + W.Line(words) by { OneSpace(W.Line(words)); }
  }

  lemma OneSpace(rest: string)
    ensures "mistl" + " " + rest == "mistl " + rest
  {}

  lemma ShellMakesCall(lib: JsonLib, line: string)
    requires "mistl " <= line && line != "" && line[0] == 'm'
    requires StripPrompt(line) == line && StripPrompt("$ " + line) == line
    ensures LineCalls(lib, ShellFence, line) == [Call(TOOL_MISTL, lib.write(ArgsObject(W.SplitArgs(line))))]
    ensures LineCalls(lib, ShellFence, "$ " + line) == LineCalls(lib, ShellFence, line)
  {
    hide W.SplitArgs, StripPrompt, ArgsObject;
    assert ("$ " + line)[0] == '$';
  }

  /** Any other command in a shell fence is left alone. */
  lemma OtherCommands(lib: JsonLib, line: string)
    requires |line| < 6 || line[..6] != "mistl "
    requires |line| < 8 || line[..8] != "$ mistl "
    ensures LineCalls(lib, ShellFence, line) == []
  {
    hide W.SplitArgs, ArgsObject;
    assert |line| >= 8 ==> line[..8] == line[..2] + line[2..][..6];
  }

  /** The body of a `tool` fence is a call of the tool it names, with the arguments it gives. */
  lemma ToolFenceMeans(env: Env, body: string, name: string, arguments: seq<Entry>)
    requires Lawful(env.json) && WellFormed(Obj(arguments)) && env.json.read(body).Some?
    requires Field(FieldsOf(env.json.read(body).value), "name") == Some(Str(name))
    requires Field(FieldsOf(env.json.read(body).value), "arguments") == Some(Obj(arguments))
    ensures var c := JsonCall(env.json, body);
            && c.name == name
            && env.json.read(c.arguments).Some? && Same(Obj(arguments), env.json.read(c.arguments).value)
  {
    hide WellFormed, Same, FieldsOf;
    assert PrintsWell(env.json, Obj(arguments));
    assert ReadsBack(env.json, Obj(arguments), "");
    assert env.json.write(Obj(arguments)) + "" == env.json.write(Obj(arguments));
  }

  /** Any other body asks for nothing. */
  lemma OtherToolFences(env: Env, body: string)
    requires env.json.read(body).Some? ==>
               var fields := FieldsOf(env.json.read(body).value);
               || "name" !in fields || !fields["name"].Str? || "arguments" !in fields || !fields["arguments"].Obj?
    ensures R.Meaning(env, JsonCall(env.json, body)).Err?
  {
    hide ParseCall, FieldsOf;
    R.InvalidIsRefused(env, JsonCall(env.json, body).arguments);
  }

  /** A `tool` fence that is not closed asks for nothing, and no other fence minds. */
  lemma UnclosedFences(env: Env, st: Parser)
    ensures st.calls <= Finish(env.json, st) && |Finish(env.json, st)| <= |st.calls| + 1
    ensures st.kind != Some(ToolFence) ==> Finish(env.json, st) == st.calls
    ensures st.kind == Some(ToolFence) ==>
              |Finish(env.json, st)| == |st.calls| + 1 && R.Meaning(env, Finish(env.json, st)[|st.calls|]).Err?
  {
    hide ParseCall;
    if st.kind == Some(ToolFence) {
      R.InvalidIsRefused(env, Finish(env.json, st)[|st.calls|].arguments);
    }
  }

  // ---- Examples -----------------------------------------------------------------------------

  /** A mistl call with two lines of arguments that are no JSON. */
  function TwoLines(id: string, name: string, word: string): ToolCall { ToolCall(id, name, "x\n" + word) }

  /** A word that may stand alone on a line. */
  predicate PlainWord(word: string) {
    word != "" && forall i | 0 <= i < |word| :: 'a' <= word[i] <= 'z'
  }

  lemma TwoLinesFail(env: Env, call: ToolCall, word: string)
    requires IsMistlTool(call.name) && PlainWord(word) && call.arguments == "x\n" + word
    requires env.json.read("x\n" + word) == None
    ensures ParseCall(env, call.name, call.arguments).Err?
  {
    hide Trim, ParseMistl;
    WhitespaceFacts();
    TrimmedAlready("x\n" + word);
  }

  /** The second line of the arguments is read as if the model had written it. */
  lemma SecondLineIsRead(env: Env, call: ToolCall, word: string)
    requires IsMistlTool(call.name) && PlainWord(word) && call.arguments == "x\n" + word
    requires ParseCall(env, call.name, call.arguments).Err?
    ensures AfterCall(env, FRESH, call) == Parser(None, "", LineCalls(env.json, FailedKind(call.name), word))
    ensures LaterLines(call.arguments) == [word] && Trim(word) == word
  {
    hide TextLines, ParseLine, ParseLines, ParseCall, AfterCall, IgnoredLine, LineCalls, Trim, CallText, PlainWord;
    WordIsLine(word);
    R.PlainFirstLine("x", word + "\n");
    R.PlainFirstLine(word, "");
    NoLines();
    assert "x" + "\n" + (word + "\n") == call.arguments + "\n" && word + "\n" + "" == word + "\n";
    assert LaterLines(call.arguments) == [word];
    CommentLines(env, call);
    FailedBlock(env, FRESH, call);
    var lines, st := TextLines(CallText(env, call).1 + "\n"), Parser(Some(FailedKind(call.name)), "", []);
    assert lines == [lines[0], lines[1], word];
    R.RunThree(env.json, st, lines[0], lines[1], word);
    PassedOver(env.json, st, lines[0]);
    PassedOver(env.json, st, lines[1]);
    WordLine(env.json, st, word);
    R.CloseFence(env.json, st.(calls := LineCalls(env.json, FailedKind(call.name), word)));
  }

  lemma WordIsLine(word: string)
    requires PlainWord(word)
    ensures '\n' !in word && '\r' !in word && Trim(word) == word && !(FENCE <= word) && !IgnoredLine(word)
  {
    WhitespaceFacts();
    TrimmedAlready(word);
  }

  lemma PassedOver(lib: JsonLib, st: Parser, line: string)
    requires st.kind.Some? && !st.kind.value.ToolFence? && IgnoredLine(line)
    ensures ParseLine(lib, st, line) == st
  {
    hide Trim;
    assert st.calls + [] == st.calls;
  }

  lemma WordLine(lib: JsonLib, st: Parser, word: string)
    requires st.kind.Some? && !st.kind.value.ToolFence? && st.calls == []
    requires Trim(word) == word && !(FENCE <= word)
    ensures ParseLine(lib, st, word) == st.(calls := LineCalls(lib, st.kind.value, word))
  {
    hide Trim, LineCalls;
    assert [] + LineCalls(lib, st.kind.value, word) == LineCalls(lib, st.kind.value, word);
  }

  lemma WordIsSplit(word: string)
    requires PlainWord(word)
    ensures W.SplitArgs(word) == [word] && StripPrompt(word) == word
  {
    hide W.SplitArgs, W.Replace;
    WhitespaceFacts();
    assert !W.NeedsQuotes(word);
    assert W.Line([word]) == word;
    W.SplitOfLine([word]);
    R.HasPrompt(word);
  }

  /** A call that does not parse, but whose second line is read as a command. */
  lemma InventedCall(env: Env, id: string)
    requires Lawful(env.json) && env.json.read("x\nstore") == None
    ensures var call := TwoLines(id, TOOL_MISTL, "store");
            && ParseCall(env, call.name, call.arguments).Err?
            && Meanings(env, ParsePrompt(env.json, ContentOf(env, Message(Assistant, None, [call], None))))
               == [Ok(Mistl(Run(["store"])))]
  {
    hide Lawful, ParseCall, AfterCall, LineCalls, R.Start, ParsePrompt, CallText, W.SplitArgs, ArgsObject, StripPrompt;
    var call := TwoLines(id, TOOL_MISTL, "store");
    assert "x\n" + "store" == "x\nstore";
    TwoLinesFail(env, call, "store");
    SecondLineIsRead(env, call, "store");
    WordIsSplit("store");
    MistlWordCall(env.json, "store");
    R.MistlWords(env, ["store"]);
    CallsOfOne(env, call);
  }

  lemma MistlWordCall(lib: JsonLib, word: string)
    requires PlainWord(word)
    ensures LineCalls(lib, MistlFence, word)
         == [Call(TOOL_MISTL, lib.write(ArgsObject(W.SplitArgs(StripPrompt(word)))))]
  {
    hide ArgsObject, W.SplitArgs, StripPrompt;
  }

  /** A message with one call and no text. */
  lemma CallsOfOne(env: Env, call: ToolCall)
    ensures ContentOf(env, Message(Assistant, None, [call], None)) == AddCall(env, "", call)
    ensures AfterCall(env, FRESH, call).kind != Some(ToolFence) ==>
              ParsePrompt(env.json, AddCall(env, "", call)) == AfterCall(env, FRESH, call).calls
  {
    hide CallText, TextLines, ParseLines, ParsePrompt, AddCall;
    assert [call][1..] == [] && AddCalls(env, AddCall(env, "", call), []) == AddCall(env, "", call);
    JoinedCall(env, call);
    R.StartAfterBlock(env.json, "", CallText(env, call));
    var none := R.PromptIsStart(env.json, AddCall(env, "", call));
    assert FRESH.(calls := []) == FRESH;
    var calls := AfterCall(env, FRESH, call).calls;
    assert calls + [] == calls;
  }

  lemma JoinedCall(env: Env, call: ToolCall)
    ensures AddCall(env, "", call) == R.Joined("", R.Fenced(CallText(env, call)))
  {
    hide CallText;
  }

  /**
   Why the beginnings of a message are looked at: here one call is lost, and another that does not
   parse makes up for it, so that the whole message means what its calls ask for.
   */
  lemma LostAndInvented(env: Env)
    requires Lawful(env.json) && R.NamesAreLines(env.cli) && env.json.read("x\nmistl") == None
    ensures var broken, overview := TwoLines("1", TOOL_HELP, "mistl"), ToolCall("2", TOOL_HELP, "");
            && !Fair(env, broken) && !Fair(env, overview)
            && KeepsMeaning(env, Message(Assistant, None, [broken, overview], None))
  {
    hide Lawful, R.NamesAreLines, ParseCall, AfterCall, R.Start, ParsePrompt, CallText, Oks, AddCall, R.Survives,
      R.AtBoundary, LaterLines, IgnoredLine, AsksForHelp;
    var broken, overview := TwoLines("1", TOOL_HELP, "mistl"), ToolCall("2", TOOL_HELP, "");
    var inv := Mistl(Help([]));
    assert "x\n" + "mistl" == "x\nmistl";
    TwoLinesFail(env, broken, "mistl");
    SecondLineIsRead(env, broken, "mistl");
    OverviewIsNotFair(env, overview);
    BrokenIsNotFair(env, broken);
    StartOfNothing(env);
    var one := AddCall(env, "", broken);
    OneMoreBlock(env, "", broken);
    OneMoreBlock(env, one, overview);
    OverviewIsLost(env, R.Start(env.json, one), overview);
    TwoCalls(env, broken, overview);
    assert [] + [inv] + [] == [inv] && [] + [inv] == [inv];
  }

  lemma StartOfNothing(env: Env)
    ensures R.Start(env.json, "") == FRESH && Oks(env, ParsePrompt(env.json, "")) == []
  {
    hide ParsePrompt;
    OksOfPrompt(env, "");
  }

  lemma TwoCalls(env: Env, a: ToolCall, b: ToolCall)
    ensures ContentOf(env, Message(Assistant, None, [a, b], None)) == AddCall(env, AddCall(env, "", a), b)
    ensures AllWanted(env, [a, b]) == Wanted(env, a) + Wanted(env, b)
  {
    hide AddCall, Wanted;
    var one := AddCall(env, "", a);
    assert [a, b][1..] == [b] && [b][1..] == [];
    assert AddCalls(env, AddCall(env, one, b), []) == AddCall(env, one, b);
    assert AddCalls(env, one, [b]) == AddCall(env, one, b);
    assert AllWanted(env, [b]) == Wanted(env, b) + [] == Wanted(env, b);
  }

  lemma OverviewIsNotFair(env: Env, call: ToolCall)
    requires call.name == TOOL_HELP && call.arguments == ""
    ensures ParseCall(env, call.name, call.arguments) == Ok(Mistl(Help([]))) && !Fair(env, call)
  {
    hide Trim;
    assert IsBlank("") by { TrimmedAlready(""); }
  }

  /** The line of the overview call is empty, and read as nothing. */
  lemma OverviewIsLost(env: Env, st: Parser, call: ToolCall)
    requires Lawful(env.json) && R.NamesAreLines(env.cli) && st.kind == None && Reachable(st)
    requires ParseCall(env, call.name, call.arguments) == Ok(Mistl(Help([])))
    ensures Oks(env, AfterCall(env, st, call).calls) == []
  {
    hide Lawful, R.NamesAreLines, ParseCall, ParseLines, TextLines, R.BlockLines, R.AfterBlock, PromptRender;
    var inv := Mistl(Help([]));
    R.LinesOfBlock(env, inv);
    TextOfParsed(env, call);
    BlockOnItsOwn(env, inv);
    R.WordsBlock(env, inv);
    R.EmptyLine();
    assert st.(calls := []) == FRESH;
  }

  lemma BrokenIsNotFair(env: Env, call: ToolCall)
    requires Lawful(env.json) && call == TwoLines(call.id, TOOL_HELP, "mistl")
    requires ParseCall(env, call.name, call.arguments).Err? && LaterLines(call.arguments) == ["mistl"]
    ensures !Fair(env, call)
    ensures Oks(env, LineCalls(env.json, HelpFence, "mistl")) == [Mistl(Help([]))]
  {
    hide Lawful, ParseCall, LaterLines, W.SplitArgs, W.Replace;
    WhitespaceFacts();
    WordIsLine("mistl");
    WordIsSplit("mistl");
    R.HelpLine(env, ["mistl"]);
    assert "mistl" in LaterLines(call.arguments);
    assert W.Line(["mistl"]) == "mistl" by { assert !W.NeedsQuotes("mistl"); }
    OksOfOne(env, LineCalls(env.json, HelpFence, "mistl"), Mistl(Help([])));
  }
}
