/**
 Native tool calls rewritten as prompt text parse back to the same calls: shell quoting inside
 line-based fences, JSON inside `tool` fences, both inside the parser's line machine.
 */
module RoundTrip {
  import opened Wrappers
  import opened Text
  import opened Json
  import W = Words
  import opened Tools
  import opened Prompt

  // ---- JSON arguments through the library ---------------------------------------------------

  ghost predicate PlainEntries(entries: seq<Entry>) {
    && WellFormed(Obj(entries))
    && forall e | e in entries :: IsFlat(e.value)
  }

  lemma MakePlain(entries: seq<Entry>)
    requires DistinctKeys(entries)
    requires forall e | e in entries :: IsFlat(e.value) && (e.value.Num? ==> IsInteger(e.value.n))
    ensures PlainEntries(entries)
  {
    forall i | 0 <= i < |entries| ensures WellFormed(entries[i].value) {
      FlatIsWellFormed(entries[i].value);
    }
  }

  lemma FlatIsWellFormed(v: Json)
    requires IsFlat(v) && (v.Num? ==> IsInteger(v.n))
    ensures WellFormed(v)
  {}

  /** Objects that agree with a plain one are plain, with the same fields. */
  lemma PlainSame(a: seq<Entry>, w: Json)
    requires PlainEntries(a) && Same(Obj(a), w) && WellFormed(w)
    ensures w.Obj? && PlainEntries(w.entries) && MapOf(w.entries) == MapOf(a)
  {
    hide MapOf, IsFlat;
    SameMembersFlat(a, w.entries);
    forall e | e in w.entries ensures IsFlat(e.value) {
      FindIsMembership(w.entries, e.key, e.value);
      assert Find(a, e.key) == Some(e.value) by {
        FlatFind(a, w.entries, e.key);
      }
    }
  }

  lemma FlatFind(a: seq<Entry>, b: seq<Entry>, key: string)
    requires MapOf(a) == MapOf(b)
    ensures Find(a, key) == Find(b, key)
  {
    assert key in MapOf(a) <==> key in MapOf(b);
  }

  /** Plain arguments survive printing and parsing, with or without a line break after them. */
  lemma ArgumentsReadBack(lib: JsonLib, entries: seq<Entry>, ws: string)
    requires Lawful(lib) && PlainEntries(entries) && (ws == "" || ws == "\n")
    ensures var r := lib.read(lib.write(Obj(entries)) + ws);
            r.Some? && r.value.Obj? && PlainEntries(r.value.entries) && MapOf(r.value.entries) == MapOf(entries)
  {
    hide PlainEntries, Same, WellFormed, MapOf;
    assert WellFormed(Obj(entries)) by { PlainIsWellFormed(entries); }
    assert PrintsWell(lib, Obj(entries));
    assert ReadsBack(lib, Obj(entries), ws);
    PlainSame(entries, lib.read(lib.write(Obj(entries)) + ws).value);
  }

  lemma PlainIsWellFormed(entries: seq<Entry>)
    requires PlainEntries(entries)
    ensures WellFormed(Obj(entries))
  {}

  /** A printed object is a line that trimming, fences and comments leave alone. */
  lemma PrintedObject(lib: JsonLib, v: Json)
    requires Lawful(lib) && WellFormed(v) && v.Obj?
    ensures var s := lib.write(v);
            && s != "" && s[0] == '{' && Trim(s) == s && !IsBlank(s)
            && '\n' !in s && '\r' !in s
            && !(FENCE <= s)
  {
    hide WellFormed;
    assert PrintsWell(lib, v);
    var s := lib.write(v);
    WhitespaceFacts();
    TrimmedAlready(s);
  }

  /** A call with plain arguments is understood through their fields. */
  lemma CallWithPlainArguments(env: Env, name: string, entries: seq<Entry>)
    requires Lawful(env.json) && PlainEntries(entries)
    ensures ParseCall(env, name, env.json.write(Obj(entries))) ==
              if IsMistlTool(name) then ParseMistl(env.cli, name, MapOf(entries))
              else ParseWorkspace(name, MapOf(entries))
  {
    hide PlainEntries, MapOf, ParseMistl, ParseWorkspace, IsBlank, Trim;
    PlainIsWellFormed(entries);
    var s := env.json.write(Obj(entries));
    PrintedObject(env.json, Obj(entries));
    ArgumentsReadBack(env.json, entries, "");
    assert s + "" == s;
  }

  lemma ArgsArePlain(words: seq<string>)
    ensures PlainEntries([Entry("args", Arr(Texts(words)))])
    ensures MapOf([Entry("args", Arr(Texts(words)))]) == map["args" := Arr(Texts(words))]
  {
    MapOfOne(Entry("args", Arr(Texts(words))));
    MakePlain([Entry("args", Arr(Texts(words)))]);
  }

  /** A mistl call by a word list. */
  lemma MistlWords(env: Env, words: seq<string>)
    requires Lawful(env.json)
    ensures ParseCall(env, TOOL_MISTL, env.json.write(ArgsObject(words))) == Ok(Mistl(Run(DropLeadingMistl(words))))
  {
    hide PlainEntries, MapOf, Texts, WordsOf;
    ArgsArePlain(words);
    CallWithPlainArguments(env, TOOL_MISTL, [Entry("args", Arr(Texts(words)))]);
    WordsOfTexts(words);
  }

  /** A help call by a command line. */
  lemma HelpLine(env: Env, path: seq<string>)
    requires Lawful(env.json)
    ensures var r := ParseCall(env, TOOL_HELP, env.json.write(Obj([Entry("command", Str(W.Line(path)))])));
            var rest := DropHelpFlag(DropLeadingMistl(path));
            if IsHelpPath(env.cli, rest) then r == Ok(Mistl(Help(rest))) else r.Err?
  {
    hide MapOf, IsHelpPath, DropLeadingMistl, DropHelpFlag, W.SplitArgs, PlainEntries, WellFormed, Lawful;
    var e := Entry("command", Str(W.Line(path)));
    MakePlain([e]);
    MapOfOne(e);
    CallWithPlainArguments(env, TOOL_HELP, [e]);
    W.SplitOfLine(path);
  }

  /** A just call by a word list. */
  lemma JustWords(env: Env, words: seq<string>)
    requires Lawful(env.json) && words != []
    ensures var r := ParseCall(env, "just", env.json.write(JustObject(words)));
            if IsBlank(words[0]) then r.Err? else r == Ok(Just(words[0], words[1..], false))
  {
    hide MapOf, IsBlank, Texts, WordsOf, PlainEntries, WellFormed, Lawful, ParseCall;
    var a, b := Entry("recipe", Str(words[0])), Entry("args", Arr(Texts(words[1..])));
    JustIsPlain(words);
    MapOfTwo(a, b);
    CallWithPlainArguments(env, "just", [a, b]);
    WordsOfTexts(words[1..]);
  }

  lemma JustIsPlain(words: seq<string>)
    requires words != []
    ensures PlainEntries([Entry("recipe", Str(words[0])), Entry("args", Arr(Texts(words[1..])))])
  {
    MakePlain([Entry("recipe", Str(words[0])), Entry("args", Arr(Texts(words[1..])))]);
  }

  // ---- A rendered object through the `tool` fence -------------------------------------------

  /** A list of members with plain values and different keys. */
  ghost predicate PlainList(entries: seq<Entry>) {
    && (forall i | 0 <= i < |entries| :: PlainValue(entries[i].value))
    && (forall i, j | 0 <= i < j < |entries| :: entries[i].key != entries[j].key)
  }

  ghost predicate PlainValue(v: Json) { IsFlat(v) && (v.Num? ==> IsInteger(v.n)) }

  lemma PlainListIsPlain(entries: seq<Entry>)
    requires PlainList(entries)
    ensures PlainEntries(entries)
  {
    MakePlain(entries);
  }

  lemma PlainValues(s: string, o: Option<string>, b: bool, n: Option<nat>, words: seq<string>)
    ensures PlainValue(Str(s)) && PlainValue(OptionalText(o)) && PlainValue(Bool(b))
    ensures (n.Some? ==> n.value < USIZE_LIMIT) ==> PlainValue(OptionalNumber(n))
    ensures PlainValue(Arr(Texts(words)))
  {}

  lemma RenderIsPlain(cli: Command, inv: Invocation)
    requires IsInvocation(cli, inv) && Render(inv).Object?
    ensures PlainEntries(Render(inv).arguments)
  {
    hide IsBlank, IsHelpPath, Multiline, HasLineBreak, PlainEntries, PlainValue, Texts, OptionalText, OptionalNumber;
    var e := Render(inv).arguments;
    match inv {
      case Mistl(Run(args)) => PlainValues("", None, false, None, args);
      case Mistl(Help(path)) =>
      case Just(recipe, args, background) => PlainValues(recipe, None, background, None, args);
      case ListDir(path) => PlainValues("", path, false, None, []);
      case FindFiles(glob, all) => PlainValues(glob, None, all, None, []);
      case Grep(pattern, path, glob, ci) =>
        PlainValues(pattern, path, ci, None, []);
        PlainValues("", glob, ci, None, []);
      case ReadFile(path, offset, limit) =>
        PlainValues(path, None, false, offset, []);
        PlainValues("", None, false, limit, []);
      case Shell(command, background) => PlainValues(command, None, background, None, []);
      case ProcessList =>
      case ProcessOutput(id, tail) => PlainValues("", None, false, tail, []); PlainNumber(id);
      case ProcessStop(id) => PlainNumber(id);
    }
    PlainListIsPlain(e);
  }

  lemma PlainNumber(n: nat)
    requires n < USIZE_LIMIT
    ensures PlainValue(Num(n))
  {}

  lemma CallObjectWellFormed(name: string, arguments: seq<Entry>)
    requires PlainEntries(arguments)
    ensures WellFormed(CallObject(name, arguments))
  {
    hide PlainEntries;
    PlainIsWellFormed(arguments);
  }

  /** The name and arguments found in a value that is the same as a call object. */
  lemma SameCallObject(name: string, arguments: seq<Entry>, w: Json)
    requires PlainEntries(arguments) && WellFormed(w) && Same(CallObject(name, arguments), w)
    ensures w.Obj?
    ensures Field(FieldsOf(w), "name") == Some(Str(name))
    ensures var a := Field(FieldsOf(w), "arguments");
            a.Some? && a.value.Obj? && PlainEntries(a.value.entries) && MapOf(a.value.entries) == MapOf(arguments)
  {
    hide PlainEntries, MapOf, WellFormed;
    var v := CallObject(name, arguments);
    CallObjectWellFormed(name, arguments);
    WellFormedKeys(v);
    WellFormedKeys(w);
    FindMember(v.entries, 0);
    FindMember(v.entries, 1);
    SameGivesField(v.entries, w.entries, "name");
    SameGivesField(v.entries, w.entries, "arguments");
    var a := Find(w.entries, "arguments").value;
    FieldIsFind(w.entries, "name");
    FieldIsFind(w.entries, "arguments");
    MemberWellFormed(w.entries, "arguments");
    PlainSame(arguments, a);
  }

  lemma WellFormedKeys(v: Json)
    requires WellFormed(v) && v.Obj?
    ensures DistinctKeys(v.entries)
  {}

  lemma MemberWellFormed(entries: seq<Entry>, key: string)
    requires WellFormed(Obj(entries)) && Find(entries, key).Some?
    ensures WellFormed(Find(entries, key).value)
  {
    assert Entry(key, Find(entries, key).value) in entries;
  }

  lemma FieldIsFind(entries: seq<Entry>, key: string)
    ensures Field(MapOf(entries), key) == Find(entries, key)
  {}

  /** The body of a `tool` fence is read as the call that was rendered into it. */
  lemma ToolBody(env: Env, name: string, arguments: seq<Entry>)
    requires Lawful(env.json) && PlainEntries(arguments)
    ensures var c := JsonCall(env.json, env.json.write(CallObject(name, arguments)) + "\n");
            && c.name == name
            && ParseCall(env, name, c.arguments) ==
                 if IsMistlTool(name) then ParseMistl(env.cli, name, MapOf(arguments))
                 else ParseWorkspace(name, MapOf(arguments))
  {
    hide PlainEntries, MapOf, WellFormed, Same, CallObject, ParseCall, ParseMistl, ParseWorkspace;
    var v := CallObject(name, arguments);
    CallObjectWellFormed(name, arguments);
    assert PrintsWell(env.json, v);
    assert ReadsBack(env.json, v, "\n");
    var w := env.json.read(env.json.write(v) + "\n").value;
    SameCallObject(name, arguments, w);
    CallWithPlainArguments(env, name, Field(FieldsOf(w), "arguments").value.entries);
  }

  /** Every call rendered as an object reads back, less a leading program name. */
  lemma ObjectReadsBack(env: Env, inv: Invocation)
    requires Lawful(env.json) && IsInvocation(env.cli, inv) && Render(inv).Object?
    ensures var r := Render(inv);
            var c := JsonCall(env.json, env.json.write(CallObject(r.name, r.arguments)) + "\n");
            ParseCall(env, c.name, c.arguments) == Ok(ReadBack(inv))
  {
    hide PlainEntries, MapOf, ParseCall, JsonCall, Lawful, Texts, WordsOf, ParseWorkspace, IsInvocation;
    RenderIsPlain(env.cli, inv);
    var r := Render(inv);
    ToolBody(env, r.name, r.arguments);
    if inv.Mistl? {
      ArgsArePlain(inv.inv.args);
      WordsOfTexts(inv.inv.args);
    } else {
      ObjectFieldsParse(env.cli, inv);
      ObjectNames(inv);
    }
  }

  lemma ObjectNames(inv: Invocation)
    requires Render(inv).Object? && !inv.Mistl?
    ensures !IsMistlTool(Render(inv).name)
  {}

  // ---- Which calls survive ------------------------------------------------------------------

  /** The line of words is not taken for a comment, a fence or a shell prompt. */
  predicate LineSurvives(words: seq<string>) {
    && words != []
    && !("#" <= W.QuoteWord(words[0]))
    && !(FENCE <= W.QuoteWord(words[0]))
    && !(words[0] == "$" && |words| > 1)
  }

  /** The first word is not read as the program's own name. */
  predicate KeepsFirstWord(words: seq<string>) {
    words != [] && !IsMistlWord(words[0])
  }

  /**
   The calls that read back as themselves: all that travel as JSON, except a mistl call that
   starts with the program's own name, and those whose line of words survives.
   */
  predicate Survives(inv: Invocation) {
    match inv
    case Mistl(Run(args)) => KeepsFirstWord(args) && (Multiline(args) || LineSurvives(args))
    case Mistl(Help(path)) =>
      && KeepsFirstWord(path) && DropHelpFlag(path) == path
      && !("#" <= W.QuoteWord(path[0])) && !(FENCE <= W.QuoteWord(path[0]))
    case Just(recipe, args, _) => Render(inv).Object? || LineSurvives([recipe] + args)
    case _ => true
  }

  /** Subcommand names are single lines. */
  ghost predicate NamesAreLines(cli: Command) {
    !HasLineBreak(cli.name) && forall sub | sub in cli.subs :: NamesAreLines(sub)
  }

  lemma {:induction false} HelpPathIsLines(cli: Command, path: seq<string>)
    requires NamesAreLines(cli) && IsHelpPath(cli, path)
    ensures forall w | w in path :: !HasLineBreak(w)
    decreases |path|
  {
    if path != [] {
      var sub := FindSub(cli.subs, path[0]).value;
      HelpPathIsLines(sub, path[1..]);
    }
  }

  // ---- The line of words --------------------------------------------------------------------

  lemma LineStart(words: seq<string>)
    requires words != []
    ensures W.QuoteWord(words[0]) <= W.Line(words)
    ensures var q, l := W.QuoteWord(words[0]), W.Line(words); |l| > |q| ==> l[|q|] == ' ' && |words| > 1
  {
    hide W.QuoteWord;
  }

  /** Fences and comments are decided by the first word. */
  lemma LineOpening(words: seq<string>)
    requires words != []
    ensures var q, l := W.QuoteWord(words[0]), W.Line(words);
            && q != "" && l != "" && l[0] == q[0]
            && (FENCE <= l <==> FENCE <= q)
            && Trim(l) == l
  {
    hide W.QuoteWord, W.Line, Trim;
    LineStart(words);
    W.QuotedWordIsTrimmed(words[0]);
    W.LineIsTrimmed(words);
    TrimmedAlready(W.Line(words));
    var q, l := W.QuoteWord(words[0]), W.Line(words);
    assert forall i | 0 <= i < |q| :: l[i] == q[i];
    if |q| < 3 && |l| >= 3 {
      assert l[|q|] == ' ';
    }
  }

  /** A shell prompt is seen exactly when `$` stands before other words, and then it is removed. */
  lemma PromptStripped(words: seq<string>)
    requires words != []
    ensures W.SplitArgs(StripPrompt(W.Line(words))) == if words[0] == "$" && |words| > 1 then words[1..] else words
  {
    hide W.QuoteWord, W.Line, W.SplitArgs;
    if words[0] == "$" && |words| > 1 {
      PromptLine(words);
      W.SplitOfLine(words[1..]);
    } else {
      NoPrompt(words);
      W.SplitOfLine(words);
    }
  }

  lemma PromptLine(words: seq<string>)
    requires |words| > 1 && words[0] == "$"
    ensures "$ " <= W.Line(words) && W.Line(words)[2..] == W.Line(words[1..])
  {
    hide W.QuoteWord;
    PromptIsBare();
    assert W.Line(words) == "$" + " " + W.Line(words[1..]);
  }

  lemma PromptIsBare()
    ensures W.QuoteWord("$") == "$"
  {
    hide W.Replace;
    WhitespaceFacts();
    assert !W.NeedsQuotes("$");
  }

  lemma NoPrompt(words: seq<string>)
    requires words != [] && !(words[0] == "$" && |words| > 1)
    ensures !("$ " <= W.Line(words))
  {
    hide W.Line, IsWhitespace, W.Replace;
    LineStart(words);
    W.QuotedWordIsTrimmed(words[0]);
    WhitespaceFacts();
    var q, l := W.QuoteWord(words[0]), W.Line(words);
    assert forall i | 0 <= i < |q| :: l[i] == q[i];
    assert |q| == 1 ==> q == [q[0]];
    BareOrQuoted(words[0]);
    var prompt := |l| >= 2 && l[0] == '$' && l[1] == ' ';
    assert |q| >= 2 ==> !prompt;
    assert |q| == 1 && q[0] == '$' ==> words[0] == "$";
    assert |q| == 1 ==> !prompt;
    HasPrompt(l);
  }

  lemma HasPrompt(l: string)
    ensures "$ " <= l <==> |l| >= 2 && l[0] == '$' && l[1] == ' '
  {}

  lemma BareOrQuoted(w: string)
    ensures var q := W.QuoteWord(w);
            q != "" && (q[0] == '"' || (q == w && forall i | 0 <= i < |q| :: q[i] != ' '))
  {
    hide W.Replace, IsWhitespace;
    WhitespaceFacts();
  }

  /** A surviving line is not multiline text, so it is one line of the message. */
  lemma LineIsOneLine(words: seq<string>)
    requires forall w | w in words :: !HasLineBreak(w)
    ensures '\n' !in W.Line(words) && '\r' !in W.Line(words)
  {
    W.LineAddsOnlySyntax(words, '\n');
    W.LineAddsOnlySyntax(words, '\r');
  }

  // ---- One block ----------------------------------------------------------------------------

  /** A call as it is written into the assistant message. */
  function Block(env: Env, inv: Invocation): string { Fenced(PromptRender(env, inv)) }

  /** A fence with a body, as text. */
  function Fenced(r: (string, string)): string { "```" + r.0 + "\n" + r.1 + "\n```" }

  /** The lines of a block. */
  function BlockLines(env: Env, inv: Invocation): seq<string> {
    var r := PromptRender(env, inv);
    ["```" + r.0, r.1, "```"]
  }

  lemma RunThree(lib: JsonLib, st: Parser, a: string, b: string, c: string)
    ensures ParseLines(lib, st, [a, b, c]) == ParseLine(lib, ParseLine(lib, ParseLine(lib, st, a), b), c)
  {
    hide ParseLine;
    assert [a, b, c][1..] == [b, c] && [b, c][1..] == [c] && [c][1..] == [];
    var x := ParseLine(lib, st, a);
    var y := ParseLine(lib, x, b);
    var z := ParseLine(lib, y, c);
    assert ParseLines(lib, z, []) == z;
    assert ParseLines(lib, y, [c]) == z;
    assert ParseLines(lib, x, [b, c]) == z;
  }

  /** The parser after a block that it reads with this fence open, and with no calls before. */
  function AfterBlock(env: Env, kind: Option<Kind>, inv: Invocation): Parser {
    ParseLines(env.json, Parser(kind, "", []), BlockLines(env, inv))
  }

  /** Between blocks the parser is outside fences, or inside one that it ignores. */
  predicate AtBoundary(st: Parser) {
    st.body == "" && (st.kind == None || st.kind == Some(OtherFence))
  }

  /** The fence that a rendered call opens. */
  function FenceOf(inv: Invocation): Kind {
    match Render(inv)
    case Object(_, _) => ToolFence
    case Words(fence, _) => if fence == "mistl" then MistlFence else if fence == "just" then JustFence else HelpFence
  }

  lemma FenceLine(fence: string)
    requires fence in ["", "mistl", "mistl-help", "just", "tool"]
    ensures Trim("```" + fence) == "```" + fence && ("```" + fence)[3..] == fence && FENCE <= "```" + fence
  {
    var s := "```" + fence;
    assert s[|s| - 1] == if fence == "" then '`' else fence[|fence| - 1];
    TrimmedAlready(s);
  }

  lemma FenceKinds()
    ensures KindOf("") == OtherFence && KindOf("mistl") == MistlFence && KindOf("mistl-help") == HelpFence
    ensures KindOf("just") == JustFence && KindOf("tool") == ToolFence
  {
    assert ToLower("mistl") == "mistl" && ToLower("mistl-help") == "mistl-help";
    assert ToLower("just") == "just" && ToLower("tool") == "tool" && ToLower("") == "";
  }

  lemma OpenFence(env: Env, inv: Invocation)
    ensures ParseLine(env.json, FRESH, "```" + PromptRender(env, inv).0) == Parser(Some(FenceOf(inv)), "", [])
    ensures ParseLine(env.json, Parser(Some(OtherFence), "", []), "```" + PromptRender(env, inv).0) == FRESH
  {
    hide KindOf, Trim, Multiline, HasLineBreak, W.Line, CallObject;
    FenceKinds();
    FenceLine(PromptRender(env, inv).0);
  }

  lemma CloseFence(lib: JsonLib, st: Parser)
    ensures ParseLine(lib, st, "```") ==
              match st.kind
              case None => st.(kind := Some(OtherFence))
              case Some(ToolFence) => Parser(None, "", st.calls + [JsonCall(lib, st.body)])
              case Some(_) => st.(kind := None)
  {
    hide KindOf, Trim, JsonCall;
    FenceKinds();
    FenceLine("");
    assert "```" + "" == "```";
  }

  lemma BlockIsThreeSteps(env: Env, kind: Option<Kind>, inv: Invocation)
    requires kind == None || kind == Some(OtherFence)
    ensures var inside := Parser(if kind.None? then Some(FenceOf(inv)) else None, "", []);
            var before := ParseLine(env.json, inside, PromptRender(env, inv).1);
            AfterBlock(env, kind, inv) == ParseLine(env.json, before, "```")
  {
    hide ParseLine, ParseLines, PromptRender, FenceOf;
    var r := PromptRender(env, inv);
    RunThree(env.json, Parser(kind, "", []), "```" + r.0, r.1, "```");
    OpenFence(env, inv);
  }

  /** A block that travels as JSON is read as the call in its body. */
  lemma ObjectBlock(env: Env, inv: Invocation)
    requires Lawful(env.json) && IsInvocation(env.cli, inv) && Render(inv).Object?
    ensures AfterBlock(env, None, inv) == Parser(None, "", [JsonCall(env.json, PromptRender(env, inv).1 + "\n")])
  {
    hide Lawful, IsInvocation, Render, Trim, JsonCall, AfterBlock, CallObject, PlainEntries, KindOf, LineCalls;
    BlockIsThreeSteps(env, None, inv);
    var r := Render(inv);
    RenderIsPlain(env.cli, inv);
    CallObjectWellFormed(r.name, r.arguments);
    CallIsObject(r.name, r.arguments);
    PrintedObject(env.json, CallObject(r.name, r.arguments));
    var body := PromptRender(env, inv).1;
    assert ParseLine(env.json, Parser(Some(ToolFence), "", []), body) == Parser(Some(ToolFence), "" + body + "\n", []);
    assert "" + body == body;
    CloseFence(env.json, Parser(Some(ToolFence), body + "\n", []));
    assert [] + [JsonCall(env.json, body + "\n")] == [JsonCall(env.json, body + "\n")];
  }

  lemma CallIsObject(name: string, arguments: seq<Entry>)
    ensures CallObject(name, arguments).Obj?
  {}

  /** A block of words is read as the calls of its line, unless the line closes the fence. */
  lemma WordsBlock(env: Env, inv: Invocation)
    requires Render(inv).Words?
    ensures var line := W.Line(Render(inv).words);
            AfterBlock(env, None, inv) ==
              if FENCE <= line then Parser(Some(OtherFence), "", [])
              else Parser(None, "", LineCalls(env.json, FenceOf(inv), line))
  {
    hide Render, Trim, JsonCall, AfterBlock, KindOf, LineCalls, W.Line;
    BlockIsThreeSteps(env, None, inv);
    var words := Render(inv).words;
    var line := W.Line(words);
    assert Trim(line) == line by { WordsAreTrimmed(words); }
    var inside := Parser(Some(FenceOf(inv)), "", []);
    var after := ParseLine(env.json, inside, line);
    assert [] + LineCalls(env.json, FenceOf(inv), line) == LineCalls(env.json, FenceOf(inv), line);
    assert after == if FENCE <= line then FRESH
      else Parser(Some(FenceOf(inv)), "", LineCalls(env.json, FenceOf(inv), line));
    CloseFence(env.json, after);
  }

  lemma WordsAreTrimmed(words: seq<string>)
    ensures Trim(W.Line(words)) == W.Line(words)
  {
    hide Trim;
    if words == [] {
      TrimmedAlready("");
    } else {
      LineOpening(words);
    }
  }

  /** A call that the parser makes up for a `tool` fence it cannot read is refused. */
  lemma InvalidIsRefused(env: Env, arguments: string)
    ensures ParseCall(env, "invalid_tool", arguments).Err?
  {
    hide IsBlank, Trim, Required, MapOf;
  }

  /** Read inside an ignored fence, a block gives at most one call, and that is refused. */
  lemma MisreadBlock(env: Env, inv: Invocation)
    requires Lawful(env.json)
    ensures var st := AfterBlock(env, Some(OtherFence), inv);
            AtBoundary(st) && |st.calls| <= 1 && forall c | c in st.calls :: Meaning(env, c).Err?
  {
    hide Render, Trim, AfterBlock, KindOf, LineCalls, PromptRender, ParseCall, PrintsWell, WellFormed;
    BlockIsThreeSteps(env, Some(OtherFence), inv);
    CloseFence(env.json, ParseLine(env.json, FRESH, PromptRender(env, inv).1));
    InvalidIsRefused(env, JsonCall(env.json, "").arguments);
  }

  /** The call that closing the open fence makes. */
  function Held(lib: JsonLib, st: Parser): seq<Call> {
    if st.kind == Some(ToolFence) then [JsonCall(lib, st.body)] else []
  }

  /** Read inside any open fence, a block closes it and is then misread. */
  lemma OpenBlock(env: Env, st: Parser, inv: Invocation)
    requires Lawful(env.json) && st.kind.Some? && (st.kind != Some(ToolFence) ==> st.body == "")
    ensures var r, misread := ParseLines(env.json, st, BlockLines(env, inv)), AfterBlock(env, Some(OtherFence), inv);
            r == misread.(calls := st.calls + Held(env.json, st) + misread.calls)
  {
    hide ParseLine, ParseLines, PromptRender, FenceOf, Trim, KindOf, Lawful, JsonCall;
    var lib, r := env.json, PromptRender(env, inv);
    RunThree(lib, st, "```" + r.0, r.1, "```");
    RunThree(lib, Parser(Some(OtherFence), "", []), "```" + r.0, r.1, "```");
    OpenFence(env, inv);
    ClosesAny(env, st, inv);
    var held := st.calls + Held(lib, st);
    assert held + [] == held;
    RunTwo(lib, FRESH, r.1, "```");
    RunTwo(lib, Parser(None, "", held), r.1, "```");
    ParseLinesFrame(lib, FRESH, held, [r.1, "```"]);
  }

  lemma ClosesAny(env: Env, st: Parser, inv: Invocation)
    requires st.kind.Some? && (st.kind != Some(ToolFence) ==> st.body == "")
    ensures ParseLine(env.json, st, "```" + PromptRender(env, inv).0)
         == Parser(None, "", st.calls + Held(env.json, st))
  {
    hide KindOf, Trim, Multiline, HasLineBreak, W.Line, CallObject, JsonCall;
    FenceLine(PromptRender(env, inv).0);
    assert st.calls + [] == st.calls;
  }

  lemma RunTwo(lib: JsonLib, st: Parser, a: string, b: string)
    ensures ParseLines(lib, st, [a, b]) == ParseLine(lib, ParseLine(lib, st, a), b)
  {
    hide ParseLine;
    assert [a, b][1..] == [b] && [b][1..] == [];
    assert ParseLines(lib, ParseLine(lib, ParseLine(lib, st, a), b), []) == ParseLine(lib, ParseLine(lib, st, a), b);
  }

  // ---- What one block means -----------------------------------------------------------------

  function Meaning(env: Env, call: Call): Result<Invocation> {
    ParseCall(env, call.name, call.arguments)
  }

  /** Exactly one call, which means the invocation. */
  predicate OneCall(env: Env, calls: seq<Call>, inv: Invocation) {
    |calls| == 1 && Meaning(env, calls[0]) == Ok(inv)
  }

  lemma MistlLine(env: Env, args: seq<string>)
    requires Lawful(env.json)
    ensures var calls := LineCalls(env.json, MistlFence, W.Line(args));
            && |calls| <= 1
            && (LineSurvives(args) && KeepsFirstWord(args) ==> OneCall(env, calls, Mistl(Run(args))))
            && (OneCall(env, calls, Mistl(Run(args))) && !(FENCE <= W.Line(args)) ==>
               LineSurvives(args) && KeepsFirstWord(args))
  {
    hide W.Line, W.QuoteWord, W.SplitArgs, Lawful, ParseCall, ArgsObject, StripPrompt;
    if args == [] {
      assert W.Line(args) == "" by { EmptyLine(); }
    } else {
      LineOpening(args);
      PromptStripped(args);
      var words := if args[0] == "$" && |args| > 1 then args[1..] else args;
      MistlWords(env, words);
      assert |DropLeadingMistl(words)| <= |words|;
    }
  }

  lemma EmptyLine()
    ensures W.Line([]) == ""
  {}

  lemma HelpBlockLine(env: Env, path: seq<string>)
    requires Lawful(env.json) && IsHelpPath(env.cli, path)
    ensures var calls := LineCalls(env.json, HelpFence, W.Line(path));
            && |calls| <= 1
            && (Survives(Mistl(Help(path))) ==> OneCall(env, calls, Mistl(Help(path))))
            && (OneCall(env, calls, Mistl(Help(path))) && !(FENCE <= W.Line(path)) ==> Survives(Mistl(Help(path))))
  {
    hide W.Line, W.QuoteWord, Lawful, ParseCall, IsHelpPath;
    if path == [] {
      assert W.Line(path) == "" by { EmptyLine(); }
    } else {
      LineOpening(path);
      HelpLine(env, path);
      var rest := DropLeadingMistl(path);
      assert |DropHelpFlag(rest)| <= |rest| <= |path|;
      assert |rest| == |path| <==> !IsMistlWord(path[0]);
      assert rest == path <==> !IsMistlWord(path[0]);
    }
  }

  lemma JustLine(env: Env, recipe: string, args: seq<string>)
    requires Lawful(env.json) && !IsBlank(recipe)
    ensures var words := [recipe] + args;
            var calls := LineCalls(env.json, JustFence, W.Line(words));
            && |calls| <= 1
            && (LineSurvives(words) ==> OneCall(env, calls, Just(recipe, args, false)))
            && (OneCall(env, calls, Just(recipe, args, false)) && !(FENCE <= W.Line(words)) ==> LineSurvives(words))
  {
    hide W.Line, W.QuoteWord, W.SplitArgs, Lawful, ParseCall, JustObject, StripPrompt, IsBlank;
    var words := [recipe] + args;
    assert words[1..] == args;
    LineOpening(words);
    PromptStripped(words);
    JustWords(env, if recipe == "$" && args != [] then args else words);
  }

  /** A line of words after a fence ends it only when its first word does. */
  lemma SurvivorsKeepFence(words: seq<string>)
    requires words != []
    ensures FENCE <= W.Line(words) <==> FENCE <= W.QuoteWord(words[0])
  {
    hide W.Line, W.QuoteWord;
    LineOpening(words);
  }

  /** The calls of a block read outside fences: exactly the invocation, or not exactly it. */
  lemma BlockMeaning(env: Env, inv: Invocation)
    requires Lawful(env.json) && IsInvocation(env.cli, inv)
    ensures var st := AfterBlock(env, None, inv);
            && AtBoundary(st) && |st.calls| <= 1
            && (OneCall(env, st.calls, inv) <==> Survives(inv))
            && (Survives(inv) ==> st.kind == None)
  {
    hide W.Line, W.QuoteWord, Lawful, ParseCall, IsHelpPath, LineCalls, AfterBlock, JsonCall, IsBlank, CallObject,
      LineSurvives;
    if Render(inv).Object? {
      ObjectBlock(env, inv);
      ObjectReadsBack(env, inv);
      ReadBackKeeps(inv);
    } else {
      WordsBlock(env, inv);
      WordsMeaning(env, inv);
    }
  }

  lemma ReadBackKeeps(inv: Invocation)
    requires Render(inv).Object?
    ensures ReadBack(inv) == inv <==> Survives(inv)
  {
    hide LineSurvives;
    if inv.Mistl? {
      assert Multiline(inv.inv.args);
    }
  }

  lemma WordsMeaning(env: Env, inv: Invocation)
    requires Lawful(env.json) && IsInvocation(env.cli, inv) && Render(inv).Words?
    ensures var line := W.Line(Render(inv).words);
            var calls := LineCalls(env.json, FenceOf(inv), line);
            && |calls| <= 1
            && (Survives(inv) ==> !(FENCE <= line) && OneCall(env, calls, inv))
            && (!(FENCE <= line) && OneCall(env, calls, inv) ==> Survives(inv))
  {
    hide W.Line, W.QuoteWord, Lawful, OneCall, LineCalls, IsBlank, IsHelpPath, Multiline, HasLineBreak;
    var words := Render(inv).words;
    if words != [] {
      SurvivorsKeepFence(words);
    }
    match inv
    case Mistl(Run(args)) => MistlLine(env, args);
    case Mistl(Help(path)) => HelpBlockLine(env, path);
    case Just(recipe, args, _) => JustLine(env, recipe, args);
  }

  // ---- The rewritten message ----------------------------------------------------------------

  /** The parser after all lines of a text. */
  function After(lib: JsonLib, text: string): Parser {
    ParseLines(lib, FRESH, TextLines(text))
  }

  /** One more call at the end of the message. */
  function Append(env: Env, content: string, inv: Invocation): string { Joined(content, Block(env, inv)) }

  function Joined(content: string, block: string): string {
    (if content == "" then "" else content + "\n\n") + block
  }

  /** The parser where the next block begins. */
  function Start(lib: JsonLib, content: string): Parser {
    if content == "" then FRESH else After(lib, content + "\n\n")
  }

  /** The message with all its calls written as blocks. */
  function Rewritten(env: Env, content: string, invs: seq<Invocation>): string
    decreases |invs|
  {
    if invs == [] then content else Rewritten(env, Append(env, content, invs[0]), invs[1..])
  }

  lemma BodyIsOneLine(env: Env, inv: Invocation)
    requires Lawful(env.json) && NamesAreLines(env.cli) && IsInvocation(env.cli, inv)
    ensures var r := PromptRender(env, inv);
            && '\n' !in r.0 && '\r' !in r.0
            && '\n' !in r.1 && '\r' !in r.1
  {
    hide Lawful, W.Line, IsBlank, CallObject, HasLineBreak, Multiline;
    var r := Render(inv);
    if r.Object? {
      RenderIsPlain(env.cli, inv);
      CallObjectWellFormed(r.name, r.arguments);
      CallIsObject(r.name, r.arguments);
      PrintedObject(env.json, CallObject(r.name, r.arguments));
    } else {
      WordsAreLines(env, inv);
      LineIsOneLine(r.words);
    }
  }

  lemma WordsAreLines(env: Env, inv: Invocation)
    requires NamesAreLines(env.cli) && IsInvocation(env.cli, inv) && Render(inv).Words?
    ensures forall w | w in Render(inv).words :: !HasLineBreak(w)
  {
    hide HasLineBreak, IsBlank, IsHelpPath, NamesAreLines;
    if inv.Mistl? && inv.inv.Help? {
      HelpPathIsLines(env.cli, inv.inv.path);
    }
  }

  lemma PlainFirstLine(a: string, b: string)
    requires '\n' !in a && '\r' !in a
    ensures TextLines(a + "\n" + b) == [a] + TextLines(b)
  {
    FirstLine(a, b);
  }

  lemma LinesOfBlock(env: Env, inv: Invocation)
    requires Lawful(env.json) && NamesAreLines(env.cli) && IsInvocation(env.cli, inv)
    ensures TextLines(Block(env, inv)) == BlockLines(env, inv)
    ensures TextLines(Block(env, inv) + "\n") == BlockLines(env, inv)
  {
    hide Lawful, NamesAreLines, IsInvocation, PromptRender, TextLines;
    BodyIsOneLine(env, inv);
    var r := PromptRender(env, inv);
    var fence := "```" + r.0;
    ThreeLines(fence, r.1, "```");
    assert Block(env, inv) == fence + "\n" + r.1 + "\n" + "```" by { BlockText(env, inv); }
  }

  lemma BlockText(env: Env, inv: Invocation)
    ensures var r := PromptRender(env, inv); Block(env, inv) == "```" + r.0 + "\n" + r.1 + "\n" + "```"
  {
    hide PromptRender;
    assert "\n```" == "\n" + "```";
  }

  lemma ThreeLines(a: string, b: string, c: string)
    requires '\n' !in a && '\r' !in a && '\n' !in b && '\r' !in b && '\n' !in c && '\r' !in c && c != ""
    ensures TextLines(a + "\n" + b + "\n" + c) == [a, b, c]
    ensures TextLines(a + "\n" + b + "\n" + c + "\n") == [a, b, c]
  {
    hide TextLines;
    assert a + "\n" + b + "\n" + c == a + "\n" + (b + "\n" + c);
    assert a + "\n" + b + "\n" + c + "\n" == a + "\n" + (b + "\n" + (c + "\n" + ""));
    PlainFirstLine(a, b + "\n" + c);
    PlainFirstLine(b, c);
    OneLine(c);
    PlainFirstLine(a, b + "\n" + (c + "\n" + ""));
    PlainFirstLine(b, c + "\n" + "");
    PlainFirstLine(c, "");
    NoLines();
  }

  /** A blank line changes nothing between blocks. */
  lemma BlankLine(lib: JsonLib, st: Parser)
    requires AtBoundary(st)
    ensures ParseLine(lib, st, "") == st
  {
    assert Trim("") == "";
    assert st.calls + [] == st.calls;
  }

  lemma LinesOfNewline()
    ensures TextLines("\n") == [""]
  {
    FirstLine("", "");
    assert "" + "\n" + "" == "\n";
  }

  lemma NothingRead(lib: JsonLib)
    ensures After(lib, "") == FRESH
  {
    NoLines();
  }

  lemma ParseOneMore(lib: JsonLib, st: Parser, line: string, rest: seq<string>)
    ensures ParseLines(lib, st, [line] + rest) == ParseLines(lib, ParseLine(lib, st, line), rest)
  {
    hide ParseLine;
    assert ([line] + rest)[1..] == rest;
  }

  lemma ParseNone(lib: JsonLib, st: Parser)
    ensures ParseLines(lib, st, []) == st
  {}

  lemma ParseSnoc(lib: JsonLib, st: Parser, lines: seq<string>, line: string)
    ensures ParseLines(lib, st, lines + [line]) == ParseLine(lib, ParseLines(lib, st, lines), line)
  {
    hide ParseLine, ParseLines;
    ParseLinesConcat(lib, st, lines, [line]);
    ParseOneMore(lib, ParseLines(lib, st, lines), line, []);
    assert [line] + [] == [line];
    ParseNone(lib, ParseLine(lib, ParseLines(lib, st, lines), line));
  }

  /** Only an open `tool` fence has a body. */
  lemma {:induction false} BodyOnlyInTool(lib: JsonLib, st: Parser, lines: seq<string>)
    requires st.kind != Some(ToolFence) ==> st.body == ""
    ensures var r := ParseLines(lib, st, lines); r.kind != Some(ToolFence) ==> r.body == ""
    decreases |lines|
  {
    hide Trim, KindOf, JsonCall, LineCalls;
    if lines != [] {
      BodyOnlyInTool(lib, ParseLine(lib, st, lines[0]), lines[1..]);
    }
  }

  // ---- Blocks after a text ------------------------------------------------------------------

  /** The two parsers differ at most in what they hold of a `tool` body. */
  predicate Alike(a: Parser, b: Parser) { a.kind == b.kind && a.calls == b.calls }

  /** A carriage return at the end of a line matters only inside a `tool` body. */
  lemma LineWithoutCr(lib: JsonLib, st: Parser, line: string)
    ensures Alike(ParseLine(lib, st, DropCr(line)), ParseLine(lib, st, line))
  {
    hide Trim, KindOf, JsonCall, LineCalls;
    if DropCr(line) != line {
      WhitespaceFacts();
      TrimDropsLast(line);
    }
  }

  lemma EmptyLineIsQuiet(lib: JsonLib, st: Parser)
    ensures Alike(ParseLine(lib, st, ""), st)
  {
    assert Trim("") == "";
    assert st.calls + [] == st.calls;
  }

  lemma {:induction false} LastLine(t: string)
    requires t != ""
    ensures TextLines(t) != []
    ensures var ls := TextLines(t);
            var init := ls[..|ls| - 1];
            TextLines(t + "\n") == if t[|t| - 1] == '\n' then ls + [""] else init + [DropCr(ls[|ls| - 1])]
    decreases |t|
  {
    hide TextLines, DropCr;
    var k := IndexOf(t, '\n');
    NoLines();
    if k == |t| {
      assert t[..k] == t;
      OneLine(t);
      FirstLine(t, "");
      assert t + "\n" + "" == t + "\n";
    } else {
      var head, tail := t[..k], t[k + 1..];
      assert t == head + "\n" + tail;
      assert t + "\n" == head + "\n" + (tail + "\n");
      FirstLine(head, tail);
      FirstLine(head, tail + "\n");
      if tail == "" {
        LinesOfNewline();
        assert tail + "\n" == "\n";
        assert [DropCr(head)] + [] == [DropCr(head)];
        assert t[|t| - 1] == '\n';
      } else {
        LastLine(tail);
        var ls := TextLines(tail);
        assert TextLines(t) == [DropCr(head)] + ls;
        assert ([DropCr(head)] + ls)[..|ls|] == [DropCr(head)] + ls[..|ls| - 1];
      }
    }
  }

  /** A line break behind a text adds no call and leaves fences as they are. */
  lemma LineBreakAfter(lib: JsonLib, t: string)
    requires t != ""
    ensures Alike(After(lib, t + "\n"), After(lib, t))
  {
    hide TextLines, ParseLine, ParseLines, DropCr;
    LastLine(t);
    var ls := TextLines(t);
    var init, last := ls[..|ls| - 1], ls[|ls| - 1];
    assert ls == init + [last];
    ParseSnoc(lib, FRESH, init, last);
    ParseSnoc(lib, FRESH, init, DropCr(last));
    ParseSnoc(lib, FRESH, ls, "");
    LineWithoutCr(lib, ParseLines(lib, FRESH, init), last);
    EmptyLineIsQuiet(lib, After(lib, t));
  }

  lemma TwoLineBreaks(t: string)
    ensures TextLines(t + "\n\n") == TextLines(t + "\n") + [""]
  {
    hide TextLines;
    assert t + "\n\n" == t + "\n" + "\n";
    LinesJoin(t, "\n");
    LinesOfNewline();
  }

  /** Where the next block begins, the same fence is open and the same calls have been found. */
  lemma StartKeeps(lib: JsonLib, content: string)
    ensures Alike(Start(lib, content), After(lib, content))
    ensures Start(lib, content).kind != Some(ToolFence) ==> Start(lib, content).body == ""
  {
    hide TextLines, ParseLine, ParseLines;
    NothingRead(lib);
    BodyOnlyInTool(lib, FRESH, TextLines(content + "\n\n"));
    if content != "" {
      LineBreakAfter(lib, content);
      TwoLineBreaks(content);
      ParseSnoc(lib, FRESH, TextLines(content + "\n"), "");
      EmptyLineIsQuiet(lib, After(lib, content + "\n"));
    }
  }

  /** The calls of a text: those found where the next block begins, and one more for an open `tool` fence. */
  lemma PromptIsStart(lib: JsonLib, content: string) returns (unfinished: seq<Call>)
    ensures ParsePrompt(lib, content) == Start(lib, content).calls + unfinished
    ensures if Start(lib, content).kind == Some(ToolFence)
            then |unfinished| == 1 && unfinished[0].name == "invalid_tool"
            else unfinished == []
  {
    hide TextLines, ParseLines, Start;
    StartKeeps(lib, content);
    var st := After(lib, content);
    unfinished := if st.kind == Some(ToolFence) then [InvalidCall(lib, "unterminated tool block", st.body)] else [];
    assert st.calls + [] == st.calls;
  }

  lemma JoinedLines(lib: JsonLib, content: string, block: string)
    ensures After(lib, Joined(content, block)) == ParseLines(lib, Start(lib, content), TextLines(block))
  {
    hide TextLines, ParseLines;
    if content == "" {
      assert Joined(content, block) == block;
    } else {
      assert Joined(content, block) == content + "\n" + "\n" + block;
      assert content + "\n\n" == content + "\n" + "\n";
      LinesJoin(content + "\n", block);
      ParseLinesConcat(lib, FRESH, TextLines(content + "\n\n"), TextLines(block));
    }
  }

  /** The lines of a block are those before its closing fence, and that, also with a line break behind. */
  lemma FencedLines(r: (string, string))
    ensures TextLines(Fenced(r)) == TextLines("```" + r.0 + "\n" + r.1 + "\n") + ["```"]
    ensures TextLines(Fenced(r) + "\n") == TextLines(Fenced(r))
  {
    hide TextLines;
    var x := "```" + r.0 + "\n" + r.1;
    assert Fenced(r) == x + "\n" + "```";
    assert Fenced(r) + "\n" == x + "\n" + ("```" + "\n");
    LinesJoin(x, "```");
    LinesJoin(x, "```" + "\n");
    OneLine("```");
    PlainFirstLine("```", "");
    NoLines();
    assert "```" + "\n" + "" == "```" + "\n";
    assert ["```"] + [] == ["```"];
  }

  /** Whatever stands in a block, and wherever it is read, the parser is between blocks after it. */
  lemma BlockEnds(lib: JsonLib, st: Parser, r: (string, string))
    requires st.kind != Some(ToolFence) ==> st.body == ""
    ensures AtBoundary(ParseLines(lib, st, TextLines(Fenced(r))))
  {
    hide TextLines, ParseLine, ParseLines, Fenced;
    FencedLines(r);
    var inner := TextLines("```" + r.0 + "\n" + r.1 + "\n");
    BodyOnlyInTool(lib, st, inner);
    ParseSnoc(lib, st, inner, "```");
    CloseFence(lib, ParseLines(lib, st, inner));
  }

  /** Each block is read where the one before left the parser. */
  lemma StartAfterBlock(lib: JsonLib, content: string, r: (string, string))
    ensures var next := Start(lib, Joined(content, Fenced(r)));
            next == ParseLines(lib, Start(lib, content), TextLines(Fenced(r))) && AtBoundary(next)
  {
    hide TextLines, ParseLine, ParseLines, Start;
    var block := Fenced(r);
    StartKeeps(lib, content);
    BlockEnds(lib, Start(lib, content), r);
    FencedLines(r);
    TwoLineBreaks(block);
    JoinedLines(lib, content, block + "\n\n");
    assert Joined(content, block + "\n\n") == Joined(content, block) + "\n\n";
    StartIs(lib, Joined(content, block));
    ParseSnoc(lib, Start(lib, content), TextLines(block), "");
    BlankLine(lib, ParseLines(lib, Start(lib, content), TextLines(block)));
  }

  lemma StartIs(lib: JsonLib, content: string)
    ensures content != "" ==> Start(lib, content) == After(lib, content + "\n\n")
  {}

  /** The block of a rendered call, read between blocks: as if it were read on its own. */
  lemma StartAfterCall(env: Env, content: string, inv: Invocation)
    requires Lawful(env.json) && NamesAreLines(env.cli) && IsInvocation(env.cli, inv)
    ensures var st, next := Start(env.json, content), Start(env.json, Append(env, content, inv));
            && AtBoundary(next)
            && next == ParseLines(env.json, st, BlockLines(env, inv))
            && (AtBoundary(st) ==>
                  var r := AfterBlock(env, st.kind, inv); next == r.(calls := st.calls + r.calls))
  {
    hide Lawful, NamesAreLines, IsInvocation, BlockLines, TextLines, ParseLines, Start, PromptRender;
    var st := Start(env.json, content);
    LinesOfBlock(env, inv);
    StartAfterBlock(env.json, content, PromptRender(env, inv));
    ParseLinesFrame(env.json, Parser(st.kind, "", []), st.calls, BlockLines(env, inv));
    assert st.calls + [] == st.calls;
  }

  /** The calls mean the invocations, one each, in order. */
  predicate MeansExactly(env: Env, calls: seq<Call>, invs: seq<Invocation>) {
    |calls| == |invs| && forall i | 0 <= i < |invs| :: Meaning(env, calls[i]) == Ok(invs[i])
  }

  predicate AllSurvive(invs: seq<Invocation>) { forall inv | inv in invs :: Survives(inv) }

  lemma MeansFirst(env: Env, first: seq<Call>, more: seq<Call>, invs: seq<Invocation>)
    requires invs != [] && |first| <= 1 && |more| <= |invs| - 1
    ensures MeansExactly(env, first + more, invs) <==>
              OneCall(env, first, invs[0]) && MeansExactly(env, more, invs[1..])
  {
    hide Meaning;
    var all := first + more;
    if |first| == 1 {
      assert forall i | 0 <= i < |more| :: all[i + 1] == more[i];
      if MeansExactly(env, all, invs) {
        assert all[0] == first[0];
        forall i | 0 <= i < |more| ensures Meaning(env, more[i]) == Ok(invs[1..][i]) {
          assert Meaning(env, all[i + 1]) == Ok(invs[i + 1]);
        }
      }
      if OneCall(env, first, invs[0]) && MeansExactly(env, more, invs[1..]) {
        forall i | 0 <= i < |invs| ensures Meaning(env, all[i]) == Ok(invs[i]) {
          if i > 0 {
            assert Meaning(env, more[i - 1]) == Ok(invs[1..][i - 1]);
          }
        }
      }
    }
  }

  /** Calls of the rewritten message beyond those of its content. */
  function Added(env: Env, content: string, invs: seq<Invocation>): seq<Call> {
    var before, after := Start(env.json, content).calls, Start(env.json, Rewritten(env, content, invs)).calls;
    if |before| <= |after| then after[|before|..] else []
  }

  lemma {:induction false} RewrittenMeaning(env: Env, content: string, invs: seq<Invocation>)
    requires Lawful(env.json) && NamesAreLines(env.cli)
    requires forall inv | inv in invs :: IsInvocation(env.cli, inv)
    requires AtBoundary(Start(env.json, content))
    ensures var st, before := Start(env.json, Rewritten(env, content, invs)), Start(env.json, content);
            && AtBoundary(st)
            && st.calls == before.calls + Added(env, content, invs)
            && |Added(env, content, invs)| <= |invs|
            && (before.kind == None ==> (MeansExactly(env, Added(env, content, invs), invs) <==> AllSurvive(invs)))
    decreases |invs|
  {
    hide Start, Append, Lawful, NamesAreLines, IsInvocation, Survives, OneCall, MeansExactly, AfterBlock, ParseLines,
      BlockLines, AllSurvive;
    var before := Start(env.json, content);
    if invs == [] {
      assert before.calls + [] == before.calls;
      assert MeansExactly(env, [], []) && AllSurvive([]) by { MeansNothing(env); }
    } else {
      var inv, rest := invs[0], invs[1..];
      var next := Append(env, content, inv);
      var r := AfterBlock(env, before.kind, inv);
      StartAfterCall(env, content, inv);
      if before.kind == None {
        BlockMeaning(env, inv);
      } else {
        MisreadBlock(env, inv);
      }
      assert forall i | i in rest :: i in invs;
      RewrittenMeaning(env, next, rest);
      var more := Added(env, next, rest);
      assert before.calls + r.calls + more == before.calls + (r.calls + more);
      assert Added(env, content, invs) == r.calls + more;
      MeansFirst(env, r.calls, more, invs);
      AllSurviveFirst(invs);
    }
  }

  lemma MeansNothing(env: Env)
    ensures MeansExactly(env, [], []) && AllSurvive([])
  {}

  lemma AllSurviveFirst(invs: seq<Invocation>)
    requires invs != []
    ensures AllSurvive(invs) <==> Survives(invs[0]) && AllSurvive(invs[1..])
  {
    hide Survives;
    assert forall inv :: inv in invs <==> inv == invs[0] || inv in invs[1..];
  }

  // ---- Main results -------------------------------------------------------------------------

  function Accepted(invs: seq<Invocation>): (r: seq<Result<Invocation>>)
    ensures |r| == |invs|
  {
    seq(|invs|, i requires 0 <= i < |invs| => Ok(invs[i]))
  }

  /**
   Rewriting native calls as prompt text keeps their meaning: the rewritten message means what the
   text meant followed by exactly the invocations, in order, if and only if there are none, or the
   text ends outside fences and every one of them survives.
   */
  lemma RewritingPreservesMeaning(env: Env, content: string, invs: seq<Invocation>)
    requires Lawful(env.json) && NamesAreLines(env.cli)
    requires forall inv | inv in invs :: IsInvocation(env.cli, inv)
    ensures Meanings(env, ParsePrompt(env.json, Rewritten(env, content, invs)))
         == Meanings(env, ParsePrompt(env.json, content)) + Accepted(invs)
       <==> invs == [] || (After(env.json, content).kind == None && AllSurvive(invs))
  {
    hide Lawful, NamesAreLines, IsInvocation, Survives, Start, After, Rewritten, Added, ParsePrompt, ParseCall;
    StartKeeps(env.json, content);
    if invs == [] {
      RewrittenNone(env, content);
      var meanings := Meanings(env, ParsePrompt(env.json, content));
      assert meanings + Accepted(invs) == meanings;
    } else if After(env.json, content).kind == None {
      RewrittenMeaning(env, content, invs);
      var before, added := Start(env.json, content).calls, Added(env, content, invs);
      var none := PromptIsStart(env.json, content);
      var nothing := PromptIsStart(env.json, Rewritten(env, content, invs));
      assert before + none == before && before + added + nothing == before + added;
      MeaningsSplit(env, before, added, invs);
    } else {
      OpenFenceLosesCalls(env, content, invs);
    }
  }

  lemma RewrittenNone(env: Env, content: string)
    ensures Rewritten(env, content, []) == content
  {}

  lemma RewrittenFirst(env: Env, content: string, invs: seq<Invocation>)
    requires invs != []
    ensures Rewritten(env, content, invs) == Rewritten(env, Append(env, content, invs[0]), invs[1..])
  {}

  /** Inside an open fence the first block is misread, and later ones cannot make up for it. */
  lemma OpenFenceLosesCalls(env: Env, content: string, invs: seq<Invocation>)
    requires Lawful(env.json) && NamesAreLines(env.cli)
    requires forall inv | inv in invs :: IsInvocation(env.cli, inv)
    requires Start(env.json, content).kind.Some? && invs != []
    ensures Meanings(env, ParsePrompt(env.json, Rewritten(env, content, invs)))
         != Meanings(env, ParsePrompt(env.json, content)) + Accepted(invs)
  {
    hide Lawful, NamesAreLines, IsInvocation, Start, Rewritten, Added, ParseCall, ParsePrompt, AfterBlock, Append,
      ParseLines, BlockLines, JsonCall;
    var lib, inv, rest := env.json, invs[0], invs[1..];
    var st, next := Start(lib, content), Append(env, content, inv);
    assert forall i | i in rest :: i in invs;
    StartKeeps(lib, content);
    StartAfterCall(env, content, inv);
    OpenBlock(env, st, inv);
    MisreadBlock(env, inv);
    RewrittenMeaning(env, next, rest);
    RewrittenFirst(env, content, invs);
    var unfinished := PromptIsStart(lib, content);
    var nothing := PromptIsStart(lib, Rewritten(env, content, invs));
    var misread, added := AfterBlock(env, Some(OtherFence), inv).calls, Added(env, next, rest);
    var all := st.calls + Held(lib, st) + misread + added + nothing;
    assert ParsePrompt(lib, Rewritten(env, content, invs)) == all;
    var k := |st.calls| + |unfinished|;
    assert |misread| == 1 ==> all[k] == misread[0];
    assert (Meanings(env, ParsePrompt(lib, content)) + Accepted(invs))[k] == Ok(inv);
    assert |misread| == 1 ==> Meanings(env, all)[k] == Meaning(env, misread[0]);
  }

  lemma MeaningsSplit(env: Env, before: seq<Call>, added: seq<Call>, invs: seq<Invocation>)
    ensures Meanings(env, before + added) == Meanings(env, before) + Accepted(invs) <==> MeansExactly(env, added, invs)
  {
    hide ParseCall;
    var l := Meanings(env, before + added);
    var r := Meanings(env, before) + Accepted(invs);
    if l == r {
      forall i | 0 <= i < |invs| ensures Meaning(env, added[i]) == Ok(invs[i]) {
        assert l[|before| + i] == r[|before| + i];
      }
    }
    if MeansExactly(env, added, invs) {
      forall i | 0 <= i < |l| ensures l[i] == r[i] {
        if i >= |before| {
          assert Meaning(env, added[i - |before|]) == Ok(invs[i - |before|]);
        }
      }
    }
  }

  /** No line starts with a fence. */
  predicate NoFence(text: string) {
    forall line | line in TextLines(text) :: !(FENCE <= Trim(line))
  }

  lemma {:induction false} NoFenceNoCalls(lib: JsonLib, lines: seq<string>)
    requires forall line | line in lines :: !(FENCE <= Trim(line))
    ensures ParseLines(lib, FRESH, lines) == FRESH
    decreases |lines|
  {
    hide Trim, KindOf, JsonCall, LineCalls;
    if lines != [] {
      assert lines[0] in lines;
      NoFenceNoCalls(lib, lines[1..]);
    }
  }

  /** With plain text before them, the blocks mean exactly the original calls. */
  lemma PlainTextRewriting(env: Env, content: string, invs: seq<Invocation>)
    requires Lawful(env.json) && NamesAreLines(env.cli)
    requires forall inv | inv in invs :: IsInvocation(env.cli, inv)
    requires NoFence(content)
    ensures Meanings(env, ParsePrompt(env.json, Rewritten(env, content, invs))) == Accepted(invs) <==> AllSurvive(invs)
  {
    hide Lawful, NamesAreLines, IsInvocation, Survives, TextLines, Rewritten, ParseCall, Trim;
    NoFenceNoCalls(env.json, TextLines(content));
    RewritingPreservesMeaning(env, content, invs);
    if invs == [] {
      RewrittenNone(env, content);
    }
    assert Meanings(env, []) + Accepted(invs) == Accepted(invs);
  }

  /** The overview help call, with an empty path, is lost in the rewriting. */
  lemma OverviewHelpIsLost(env: Env)
    requires Lawful(env.json) && NamesAreLines(env.cli)
    ensures IsInvocation(env.cli, Mistl(Help([])))
    ensures ParsePrompt(env.json, Rewritten(env, "", [Mistl(Help([]))])) == []
  {
    hide Lawful, NamesAreLines, TextLines, ParseLines, ParseCall, AfterBlock, ParsePrompt, Append;
    var inv := Mistl(Help([]));
    StartAfterCall(env, "", inv);
    WordsBlock(env, inv);
    EmptyLine();
    assert AfterBlock(env, None, inv) == FRESH;
    RewrittenOne(env, inv);
    var nothing := PromptIsStart(env.json, Append(env, "", inv));
    assert FRESH.calls + FRESH.calls == [];
  }

  lemma RewrittenOne(env: Env, inv: Invocation)
    ensures Rewritten(env, "", [inv]) == Append(env, "", inv)
  {
    assert [inv][1..] == [];
    assert Rewritten(env, Append(env, "", inv), []) == Append(env, "", inv);
  }
}
