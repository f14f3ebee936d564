/** Tool invocations: parsing of calls, titles, and their rendering as prompt-mode fences. */
module Tools {
  import opened Wrappers
  import opened Text
  import opened Json
  import opened Words
  import opened Decimal
  import Stringify
  import Redactor

  const USIZE_LIMIT: nat := 0x1_0000_0000_0000_0000
  const U32_LIMIT: nat := 0x1_0000_0000

  datatype MistlInvocation = Run(args: seq<string>) | Help(path: seq<string>)

  datatype Invocation =
    | Mistl(inv: MistlInvocation)
    | Just(recipe: string, args: seq<string>, background: bool)
    | ListDir(dir: Option<string>)
    | FindFiles(glob: string, includeIgnored: bool)
    | Grep(pattern: string, where: Option<string>, globs: Option<string>, caseInsensitive: bool)
    | ReadFile(path: string, offset: Option<nat>, limit: Option<nat>)
    | Shell(command: string, inBackground: bool)
    | ProcessList
    | ProcessOutput(id: nat, tailBytes: Option<nat>)
    | ProcessStop(stopId: nat)

  /** The command tree of the program's own CLI, against which help paths are checked. */
  datatype Command = Command(name: string, aliases: seq<string>, subs: seq<Command>)

  /** First subcommand with that name or alias. */
  function FindSub(subs: seq<Command>, word: string): (r: Option<Command>)
    ensures r.Some? ==> r.value in subs
  {
    if subs == [] then None
    else if subs[0].name == word || word in subs[0].aliases then Some(subs[0])
    else FindSub(subs[1..], word)
  }

  predicate IsHelpPath(cli: Command, path: seq<string>) {
    path == [] ||
    match FindSub(cli.subs, path[0])
    case Some(sub) => sub.name == path[0] && IsHelpPath(sub, path[1..])
    case None => false
  }

  /** What the tool layer is given: a JSON library and the CLI definition. */
  datatype Env = Env(json: JsonLib, cli: Command)

  // ---- Reading arguments --------------------------------------------------------------------

  /** The members of an object by key; `Value::get` finds nothing in other values. */
  type Fields = map<string, Json>

  function FieldsOf(v: Json): Fields {
    match v
    case Obj(entries) => MapOf(entries)
    case _ => map[]
  }

  function MapOf(entries: seq<Entry>): (m: Fields)
    ensures forall key :: key in m <==> Find(entries, key).Some?
    ensures forall key | key in m :: Find(entries, key) == Some(m[key])
  {
    if entries == [] then map[] else MapOf(entries[1..])[entries[0].key := entries[0].value]
  }

  function Field(v: Fields, key: string): Option<Json> {
    if key in v then Some(v[key]) else None
  }

  // Why a mistl call does not parse; pieces are joined where the text is long.
  const ARGS_ERROR := "args must be " + "an array of strings"
  const HELP_ERROR := "mistl_help accepts only " + "a subcommand path, " + "without flags " + "or positional values"
  const JSON_ERROR := "invalid tool arguments JSON"

  /** A word given as a string, a number or a boolean. */
  function WordOf(v: Json): Option<string> {
    match v
    case Str(s) => Some(s)
    case Num(n) => Some(Stringify.FormatNumber(n))
    case Bool(b) => Some(if b then "true" else "false")
    case _ => None
  }

  function WordsOf(items: seq<Json>): Result<seq<string>> {
    if items == [] then Ok([])
    else
      match WordOf(items[0])
      case None => Err("args must contain strings, numbers, or booleans")
      case Some(w) =>
        match WordsOf(items[1..])
        case Ok(rest) => Ok([w] + rest)
        case Err(e) => Err(e)
  }

  /** A list of words, one shell-split string, or nothing. */
  function WordsFrom(v: Option<Json>): Result<seq<string>> {
    match v
    case None => Ok([])
    case Some(Null) => Ok([])
    case Some(Str(s)) => Ok(SplitArgs(s))
    case Some(Arr(items)) => WordsOf(items)
    case Some(_) => Err("args must be an array or a shell-split string")
  }

  function OptionalString(v: Fields, key: string): Result<Option<string>> {
    match Field(v, key)
    case None => Ok(None)
    case Some(Null) => Ok(None)
    case Some(Str(s)) => Ok(Some(s))
    case Some(Num(n)) => Ok(Some(Stringify.FormatNumber(n)))
    case Some(_) => Err(key + " must be a string")
  }

  function Required(v: Fields, key: string): Result<string> {
    match OptionalString(v, key)
    case Err(e) => Err(e)
    case Ok(None) => Err(key + " is required and must not be empty")
    case Ok(Some(s)) => if IsBlank(s) then Err(key + " is required and must not be empty") else Ok(s)
  }

  /** `str::parse::<usize>`: digits with an optional plus sign, within 64 bits. */
  function ParseUsize(s: string): Option<nat> {
    var digits := if s != "" && s[0] == '+' then s[1..] else s;
    if digits != "" && AllDigits(digits) && Value(digits) < USIZE_LIMIT then Some(Value(digits)) else None
  }

  function OptionalInt(v: Fields, key: string): (r: Result<Option<nat>>)
    ensures r.Ok? && r.value.Some? ==> r.value.value < USIZE_LIMIT
  {
    var error := Err(key + " must be a nonnegative integer");
    match Field(v, key)
    case None => Ok(None)
    case Some(Null) => Ok(None)
    case Some(Num(n)) => if 0 <= n < USIZE_LIMIT then Ok(Some(n)) else error
    case Some(Str(s)) =>
      (match ParseUsize(Trim(s))
       case Some(n) => Ok(Some(n))
       case None => error)
    case Some(_) => error
  }

  function Flag(v: Fields, key: string): Result<bool> {
    match Field(v, key)
    case None => Ok(false)
    case Some(Null) => Ok(false)
    case Some(Bool(b)) => Ok(b)
    case Some(_) => Err(key + " must be a boolean")
  }

  function ProcessId(v: Fields): (r: Result<nat>)
    ensures r.Ok? ==> 0 < r.value < U32_LIMIT
  {
    match OptionalInt(v, "id")
    case Err(e) => Err(e)
    case Ok(None) => Err("id must be a positive integer")
    case Ok(Some(n)) =>
      if n == 0 then Err("id must be a positive integer")
      else if n >= U32_LIMIT then Err("id is too large")
      else Ok(n)
  }

  // ---- Parsing a call -----------------------------------------------------------------------

  const TOOL_MISTL := "mistl"
  const TOOL_HELP := "mistl_help"

  predicate IsMistlWord(w: string) { w == "mistl" || w == "mistl.exe" }

  function DropLeadingMistl(words: seq<string>): seq<string> {
    if words != [] && IsMistlWord(words[0]) then words[1..] else words
  }

  function DropHelpFlag(words: seq<string>): seq<string> {
    if words != [] && words[|words| - 1] in ["--help", "-h"] then words[..|words| - 1] else words
  }

  /** A mistl call from its parsed arguments. */
  function ParseMistl(cli: Command, name: string, v: Fields): Result<Invocation> {
    if name == TOOL_MISTL then
      match WordsFrom(Field(v, "args"))
      case Err(_) => Err(ARGS_ERROR)
      case Ok(args) => Ok(Mistl(Run(DropLeadingMistl(args))))
    else
      match WordsFrom(Field(v, "command").Or<Json>(Field(v, "args")))
      case Err(_) => Err(ARGS_ERROR)
      case Ok(words) =>
        var path := DropHelpFlag(DropLeadingMistl(words));
        if IsHelpPath(cli, path) then Ok(Mistl(Help(path)))
        else Err(HELP_ERROR)
  }

  function ParseJust(v: Fields): Result<Invocation> {
    match (Required(v, "recipe"), WordsFrom(Field(v, "args")), Flag(v, "background"))
    case (Ok(recipe), Ok(args), Ok(background)) => Ok(Just(recipe, args, background))
    case (Err(e), _, _) => Err(e)
    case (_, Err(e), _) => Err(e)
    case (_, _, Err(e)) => Err(e)
  }

  function ParseListDir(v: Fields): Result<Invocation> {
    match OptionalString(v, "path")
    case Ok(path) => Ok(ListDir(path))
    case Err(e) => Err(e)
  }

  function ParseFindFiles(v: Fields): Result<Invocation> {
    match (Required(v, "glob"), Flag(v, "include_ignored"))
    case (Ok(glob), Ok(all)) => Ok(FindFiles(glob, all))
    case (Err(e), _) => Err(e)
    case (_, Err(e)) => Err(e)
  }

  function ParseGrep(v: Fields): Result<Invocation> {
    match (Required(v, "pattern"), OptionalString(v, "path"), OptionalString(v, "glob"), Flag(v, "case_insensitive"))
    case (Ok(pattern), Ok(path), Ok(glob), Ok(ci)) => Ok(Grep(pattern, path, glob, ci))
    case (Err(e), _, _, _) => Err(e)
    case (_, Err(e), _, _) => Err(e)
    case (_, _, Err(e), _) => Err(e)
    case (_, _, _, Err(e)) => Err(e)
  }

  function ParseReadFile(v: Fields): Result<Invocation> {
    match OptionalInt(v, "offset")
    case Err(e) => Err(e)
    case Ok(offset) =>
      if offset == Some(0) then Err("offset must be at least 1")
      else
        match (Required(v, "path"), OptionalInt(v, "limit"))
        case (Ok(path), Ok(limit)) => Ok(ReadFile(path, offset, limit))
        case (Err(e), _) => Err(e)
        case (_, Err(e)) => Err(e)
  }

  function ParseShell(v: Fields): Result<Invocation> {
    match (Required(v, "command"), Flag(v, "background"))
    case (Ok(command), Ok(background)) => Ok(Shell(command, background))
    case (Err(e), _) => Err(e)
    case (_, Err(e)) => Err(e)
  }

  function ParseProcessOutput(v: Fields): Result<Invocation> {
    match (ProcessId(v), OptionalInt(v, "tail_bytes"))
    case (Ok(id), Ok(tail)) => Ok(ProcessOutput(id, tail))
    case (Err(e), _) => Err(e)
    case (_, Err(e)) => Err(e)
  }

  function ParseProcessStop(v: Fields): Result<Invocation> {
    match ProcessId(v)
    case Ok(id) => Ok(ProcessStop(id))
    case Err(e) => Err(e)
  }

  /** A workspace call from the fields of its arguments. */
  function ParseWorkspace(name: string, v: Fields): Result<Invocation> {
    if name == "just" then ParseJust(v)
    else if name == "list_dir" then ParseListDir(v)
    else if name == "find_files" then ParseFindFiles(v)
    else if name == "grep" then ParseGrep(v)
    else if name == "read_file" then ParseReadFile(v)
    else if name == "shell" then ParseShell(v)
    else if name == "process_list" then Ok(ProcessList)
    else if name == "process_output" then ParseProcessOutput(v)
    else if name == "process_stop" then ParseProcessStop(v)
    else if name == "invalid_tool" then
      match Required(v, "error")
      case Ok(e) => Err(e)
      case Err(e) => Err(e)
    else Err("unknown tool: " + name)
  }

  predicate IsMistlTool(name: string) { name == TOOL_MISTL || name == TOOL_HELP }

  function ParseValue(env: Env, name: string, v: Json): Result<Invocation> {
    if IsMistlTool(name) then ParseMistl(env.cli, name, FieldsOf(v))
    else if !v.Obj? then Err("tool arguments must be a JSON object")
    else ParseWorkspace(name, FieldsOf(v))
  }

  /** A call as the model or the prompt parser produced it: a tool name and JSON text. */
  function ParseCall(env: Env, name: string, arguments: string): Result<Invocation> {
    if IsBlank(arguments) then ParseValue(env, name, Obj([]))
    else
      match env.json.read(if IsMistlTool(name) then Trim(arguments) else arguments)
      case None => Err(JSON_ERROR)
      case Some(v) => ParseValue(env, name, v)
  }

  /** The invocations that calls can produce. */
  predicate IsInvocation(cli: Command, inv: Invocation) {
    match inv
    case Mistl(Run(_)) => true
    case Mistl(Help(path)) => IsHelpPath(cli, path)
    case Just(recipe, _, _) => !IsBlank(recipe)
    case ListDir(_) => true
    case FindFiles(glob, _) => !IsBlank(glob)
    case Grep(pattern, _, _, _) => !IsBlank(pattern)
    case ReadFile(path, offset, limit) =>
      && !IsBlank(path) && offset != Some(0)
      && (offset.Some? ==> offset.value < USIZE_LIMIT) && (limit.Some? ==> limit.value < USIZE_LIMIT)
    case Shell(command, _) => !IsBlank(command)
    case ProcessList => true
    case ProcessOutput(id, tail) => 0 < id < U32_LIMIT && (tail.Some? ==> tail.value < USIZE_LIMIT)
    case ProcessStop(id) => 0 < id < U32_LIMIT
  }

  /** Every call that parses gives one of them. */
  lemma ParsedIsInvocation(env: Env, name: string, arguments: string)
    ensures var r := ParseCall(env, name, arguments); r.Ok? ==> IsInvocation(env.cli, r.value)
  {
    hide IsBlank, WordsFrom, IsHelpPath, IsInvocation, ParseWorkspace, ParseMistl;
    forall v: Fields
      ensures ParseMistl(env.cli, name, v).Ok? ==> IsInvocation(env.cli, ParseMistl(env.cli, name, v).value)
      ensures ParseWorkspace(name, v).Ok? ==> IsInvocation(env.cli, ParseWorkspace(name, v).value)
    {
      ParsedMistl(env.cli, name, v);
      ParsedWorkspace(env.cli, name, v);
    }
  }

  lemma ParsedMistl(cli: Command, name: string, v: Fields)
    ensures ParseMistl(cli, name, v).Ok? ==> IsInvocation(cli, ParseMistl(cli, name, v).value)
  {
    hide WordsFrom, IsHelpPath, DropLeadingMistl, DropHelpFlag;
  }

  lemma ParsedWorkspace(cli: Command, name: string, v: Fields)
    ensures ParseWorkspace(name, v).Ok? ==> IsInvocation(cli, ParseWorkspace(name, v).value)
  {
    hide WordsFrom, IsBlank, Flag, OptionalString, OptionalInt;
  }

  // ---- Titles -------------------------------------------------------------------------------

  /** One call on one line, before redaction. */
  function PlainTitle(env: Env, inv: Invocation): string {
    match inv
    case Mistl(Run(args)) => Titled("mistl", args)
    case Mistl(Help(path)) => Titled("mistl", path) + " --help"
    case Just(recipe, args, background) => Titled("just", [recipe] + args) + (if background then " &" else "")
    case ListDir(dir) => "list_dir " + dir.GetOr(".")
    case FindFiles(glob, _) => "find_files " + glob
    case Grep(pattern, where, _, _) => "grep " + env.json.write(Str(pattern)) + " " + where.GetOr(".")
    case ReadFile(path, offset, limit) =>
      var start := offset.GetOr(1);
      var end := SaturatingSub(SaturatingAdd(start, limit.GetOr(400)), 1);
      "read_file " + path + ":" + Numeral(start) + "-" + Numeral(end)
    case Shell(command, background) => "$ " + command + (if background then " &" else "")
    case ProcessList => "process_list"
    case ProcessOutput(id, _) => "process_output " + Numeral(id)
    case ProcessStop(id) => "process_stop " + Numeral(id)
  }

  function SaturatingAdd(a: nat, b: nat): nat { if a + b < USIZE_LIMIT then a + b else USIZE_LIMIT - 1 }

  function SaturatingSub(a: nat, b: nat): nat { if a >= b then a - b else 0 }

  function Titled(head: string, words: seq<string>): string {
    if words == [] then head else head + " " + Line(words)
  }

  function Title(env: Env, inv: Invocation): string { Redactor.Redacted(PlainTitle(env, inv)) }

  // ---- Rendering as a fence -----------------------------------------------------------------

  predicate HasLineBreak(w: string) { '\n' in w || '\r' in w }

  predicate Multiline(words: seq<string>) { exists w | w in words :: HasLineBreak(w) }

  function Texts(words: seq<string>): (r: seq<Json>)
    ensures |r| == |words|
    ensures forall i | 0 <= i < |words| :: r[i] == Str(words[i])
  {
    seq(|words|, i requires 0 <= i < |words| => Str(words[i]))
  }

  function OptionalText(s: Option<string>): Json {
    match s
    case None => Null
    case Some(t) => Str(t)
  }

  function OptionalNumber(n: Option<nat>): Json {
    match n
    case None => Null
    case Some(m) => Num(m)
  }

  /** How a call is written: words on a line of a fence, or a JSON object in a `tool` fence. */
  datatype Rendering = Words(fence: string, words: seq<string>) | Object(name: string, arguments: seq<Entry>)

  function Render(inv: Invocation): Rendering {
    match inv
    case Mistl(Run(args)) =>
      if Multiline(args) then Object(TOOL_MISTL, [Entry("args", Arr(Texts(args)))]) else Words("mistl", args)
    case Mistl(Help(path)) => Words("mistl-help", path)
    case Just(recipe, args, background) =>
      if HasLineBreak(recipe) || Multiline(args) || background then
        Object("just", [Entry("recipe", Str(recipe)), Entry("args", Arr(Texts(args))),
          Entry("background", Bool(background))])
      else Words("just", [recipe] + args)
    case ListDir(path) => Object("list_dir", [Entry("path", OptionalText(path))])
    case FindFiles(glob, all) => Object("find_files", [Entry("glob", Str(glob)), Entry("include_ignored", Bool(all))])
    case Grep(pattern, path, glob, ci) =>
      Object("grep", [Entry("pattern", Str(pattern)), Entry("path", OptionalText(path)),
        Entry("glob", OptionalText(glob)), Entry("case_insensitive", Bool(ci))])
    case ReadFile(path, offset, limit) =>
      Object("read_file", [Entry("path", Str(path)), Entry("offset", OptionalNumber(offset)),
        Entry("limit", OptionalNumber(limit))])
    case Shell(command, background) =>
      Object("shell", [Entry("command", Str(command)), Entry("background", Bool(background))])
    case ProcessList => Object("process_list", [])
    case ProcessOutput(id, tail) =>
      Object("process_output", [Entry("id", Num(id)), Entry("tail_bytes", OptionalNumber(tail))])
    case ProcessStop(id) => Object("process_stop", [Entry("id", Num(id))])
  }

  /** The JSON object of a `tool` fence. */
  function CallObject(name: string, arguments: seq<Entry>): Json {
    Obj([Entry("name", Str(name)), Entry("arguments", Obj(arguments))])
  }

  /** Fence name and body. */
  function PromptRender(env: Env, inv: Invocation): (string, string) {
    match Render(inv)
    case Words(fence, words) => (fence, Line(words))
    case Object(name, arguments) => ("tool", env.json.write(CallObject(name, arguments)))
  }

  // ---- JSON arguments read back -------------------------------------------------------------

  /** Member values that sameness leaves no freedom in: leaves and lists of strings. */
  ghost predicate IsFlat(v: Json) {
    match v
    case Arr(items) => forall i | 0 <= i < |items| :: items[i].Str?
    case Obj(_) => false
    case _ => true
  }

  lemma SameFlat(v: Json, w: Json)
    requires IsFlat(v) && Same(v, w)
    ensures v == w
  {
    if v.Arr? {
      assert v.items == w.items;
    }
  }

  lemma SameMembersFlat(a: seq<Entry>, b: seq<Entry>)
    requires DistinctKeys(a) && DistinctKeys(b) && Same(Obj(a), Obj(b))
    requires forall e | e in a :: IsFlat(e.value)
    ensures MapOf(a) == MapOf(b)
  {
    hide Same, IsFlat, MapOf;
    forall key ensures Find(a, key) == Find(b, key) {
      SameGivesField(a, b, key);
      if Find(a, key).Some? {
        SameFlat(Find(a, key).value, Find(b, key).value);
      }
    }
  }

  lemma {:induction false} WordsOfTexts(words: seq<string>)
    ensures WordsOf(Texts(words)) == Ok(words)
  {
    if words != [] {
      var texts := Texts(words);
      assert texts[0] == Str(words[0]) && texts[1..] == Texts(words[1..]);
      WordsOfTexts(words[1..]);
      assert WordsOf(texts) == Ok([words[0]] + words[1..]);
      assert [words[0]] + words[1..] == words;
    }
  }

  /** What the JSON arguments of a rendered call parse to: the call, less a leading program name. */
  function ReadBack(inv: Invocation): Invocation {
    match inv
    case Mistl(Run(args)) => Mistl(Run(DropLeadingMistl(args)))
    case _ => inv
  }

  lemma MapOfOne(a: Entry)
    ensures MapOf([a]) == map[a.key := a.value]
  {
    assert [a][1..] == [];
  }

  lemma MapOfTwo(a: Entry, b: Entry)
    ensures MapOf([a, b]) == map[b.key := b.value][a.key := a.value]
  {
    MapOfOne(b);
    assert [a, b][1..] == [b];
  }

  lemma MapOfThree(a: Entry, b: Entry, c: Entry)
    ensures MapOf([a, b, c]) == map[c.key := c.value][b.key := b.value][a.key := a.value]
  {
    MapOfTwo(b, c);
    assert [a, b, c][1..] == [b, c];
  }

  lemma MapOfFour(a: Entry, b: Entry, c: Entry, d: Entry)
    ensures MapOf([a, b, c, d]) == map[d.key := d.value][c.key := c.value][b.key := b.value][a.key := a.value]
  {
    MapOfThree(b, c, d);
    assert [a, b, c, d][1..] == [b, c, d];
  }

  lemma JustParses(recipe: string, args: seq<string>, background: bool)
    requires !IsBlank(recipe)
    ensures ParseJust(map["background" := Bool(background)]["args" := Arr(Texts(args))]["recipe" := Str(recipe)])
              == Ok(Just(recipe, args, background))
  {
    hide IsBlank, WordsOf;
    WordsOfTexts(args);
  }

  lemma GrepParses(pattern: string, path: Option<string>, glob: Option<string>, ci: bool)
    requires !IsBlank(pattern)
    ensures var m := map["case_insensitive" := Bool(ci)]["glob" := OptionalText(glob)]
                     ["path" := OptionalText(path)]["pattern" := Str(pattern)];
            ParseGrep(m) == Ok(Grep(pattern, path, glob, ci))
  {
    hide IsBlank;
  }

  lemma ReadFileParses(path: string, offset: Option<nat>, limit: Option<nat>)
    requires !IsBlank(path) && offset != Some(0)
    requires (offset.Some? ==> offset.value < USIZE_LIMIT) && (limit.Some? ==> limit.value < USIZE_LIMIT)
    ensures var m := map["limit" := OptionalNumber(limit)]["offset" := OptionalNumber(offset)]["path" := Str(path)];
            ParseReadFile(m) == Ok(ReadFile(path, offset, limit))
  {
    hide IsBlank, ParseUsize, Trim;
  }

  lemma PairsParse(text: string, b: bool, id: nat, tail: Option<nat>)
    ensures !IsBlank(text) ==>
              ParseFindFiles(map["include_ignored" := Bool(b)]["glob" := Str(text)]) == Ok(FindFiles(text, b))
    ensures !IsBlank(text) ==> ParseShell(map["background" := Bool(b)]["command" := Str(text)]) == Ok(Shell(text, b))
    ensures 0 < id < U32_LIMIT && (tail.Some? ==> tail.value < USIZE_LIMIT) ==>
              ParseProcessOutput(map["tail_bytes" := OptionalNumber(tail)]["id" := Num(id)])
                == Ok(ProcessOutput(id, tail))
    ensures 0 < id < U32_LIMIT ==> ParseProcessStop(map["id" := Num(id)]) == Ok(ProcessStop(id))
  {
    hide IsBlank, ParseUsize, Trim;
  }

  /** The tool's name picks its own parser. */
  lemma ByName(v: Fields)
    ensures ParseWorkspace("just", v) == ParseJust(v) && ParseWorkspace("list_dir", v) == ParseListDir(v)
    ensures ParseWorkspace("find_files", v) == ParseFindFiles(v) && ParseWorkspace("grep", v) == ParseGrep(v)
    ensures ParseWorkspace("read_file", v) == ParseReadFile(v) && ParseWorkspace("shell", v) == ParseShell(v)
    ensures ParseWorkspace("process_list", v) == Ok(ProcessList)
    ensures ParseWorkspace("process_output", v) == ParseProcessOutput(v)
    ensures ParseWorkspace("process_stop", v) == ParseProcessStop(v)
  {
    hide ParseJust, ParseListDir, ParseGrep, ParseFindFiles, ParseReadFile, ParseShell, ParseProcessOutput,
      ParseProcessStop, Required;
  }

  lemma ListDirParses(dir: Option<string>)
    ensures ParseListDir(map["path" := OptionalText(dir)]) == Ok(ListDir(dir))
  {}

  lemma LargeFieldsParse(inv: Invocation)
    requires (inv.Just? && !IsBlank(inv.recipe)) || (inv.Grep? && !IsBlank(inv.pattern))
    requires Render(inv).Object?
    ensures var r := Render(inv); ParseWorkspace(r.name, MapOf(r.arguments)) == Ok(inv)
  {
    hide IsBlank, MapOf, Multiline, HasLineBreak, Texts, ParseJust, ParseGrep, ParseWorkspace;
    var e := Render(inv).arguments;
    ByName(MapOf(e));
    match inv
    case Just(recipe, args, background) => MapOfThree(e[0], e[1], e[2]); JustParses(recipe, args, background);
    case Grep(pattern, path, glob, ci) => MapOfFour(e[0], e[1], e[2], e[3]); GrepParses(pattern, path, glob, ci);
  }

  /** The fields of a rendered workspace call parse to the call. */
  lemma ObjectFieldsParse(cli: Command, inv: Invocation)
    requires IsInvocation(cli, inv) && Render(inv).Object? && !inv.Mistl?
    ensures var r := Render(inv); ParseWorkspace(r.name, MapOf(r.arguments)) == Ok(inv)
  {
    hide IsBlank, MapOf, IsHelpPath, Multiline, HasLineBreak, Texts;
    hide ParseJust, ParseGrep, ParseFindFiles, ParseReadFile, ParseShell, ParseProcessOutput, ParseProcessStop;
    hide ParseListDir, ParseWorkspace;
    var e := Render(inv).arguments;
    ByName(MapOf(e));
    match inv
    case ListDir(path) => MapOfOne(e[0]); ListDirParses(path);
    case FindFiles(glob, all) => MapOfTwo(e[0], e[1]); PairsParse(glob, all, 0, None);
    case ReadFile(path, offset, limit) => MapOfThree(e[0], e[1], e[2]); ReadFileParses(path, offset, limit);
    case Shell(command, background) => MapOfTwo(e[0], e[1]); PairsParse(command, background, 0, None);
    case ProcessList =>
    case ProcessOutput(id, tail) => MapOfTwo(e[0], e[1]); PairsParse("", false, id, tail);
    case ProcessStop(id) => MapOfOne(e[0]); PairsParse("", false, id, None);
    case _ => LargeFieldsParse(inv);
  }

  // ---- Names of tools and of their arguments ------------------------------------------------

  /** Arguments that may be left out, and what they then are. */
  lemma OptionalArguments(s: string)
    requires !IsBlank(s)
    ensures ParseJust(map["recipe" := Str(s)]) == Ok(Just(s, [], false))
    ensures ParseListDir(map[]) == Ok(ListDir(None))
    ensures ParseFindFiles(map["glob" := Str(s)]) == Ok(FindFiles(s, false))
    ensures ParseShell(map["command" := Str(s)]) == Ok(Shell(s, false))
  {
    hide IsBlank, WordsOf;
  }

  lemma OptionalLimits(s: string, m: nat)
    requires !IsBlank(s) && 0 < m < 0x1_0000_0000
    ensures ParseGrep(map["pattern" := Str(s)]) == Ok(Grep(s, None, None, false))
    ensures ParseReadFile(map["path" := Str(s)]) == Ok(ReadFile(s, None, None))
    ensures ParseProcessOutput(map["id" := Num(m)]) == Ok(ProcessOutput(m, None))
  {
    hide IsBlank, ParseUsize, Trim;
  }

  /** Whether a field is there and is text that is not blank; a number is its text. */
  predicate HasText(v: Fields, key: string) {
    key in v && match v[key] case Str(s) => !IsBlank(s) case Num(_) => true case _ => false
  }

  lemma RequiredMeans(v: Fields, key: string)
    ensures Required(v, key).Ok? <==> HasText(v, key)
  {
    hide IsBlank;
    if key in v && v[key].Num? {
      NumberIsNotBlank(v[key].n);
    }
  }

  lemma NumberIsNotBlank(n: int)
    ensures !IsBlank(Stringify.FormatNumber(n))
  {
    hide Numeral;
    NumeralDigits(if n < 0 then -n else n);
    WhitespaceFacts();
  }

  /** Without its required text no such tool is called. */
  lemma TextIsRequired(v: Fields)
    ensures !HasText(v, "recipe") ==> ParseJust(v).Err?
    ensures !HasText(v, "glob") ==> ParseFindFiles(v).Err?
    ensures !HasText(v, "pattern") ==> ParseGrep(v).Err?
    ensures !HasText(v, "path") ==> ParseReadFile(v).Err?
    ensures !HasText(v, "command") ==> ParseShell(v).Err?
  {
    hide Required, HasText, Flag, WordsFrom, OptionalString, OptionalInt;
    RequiredMeans(v, "recipe");
    RequiredMeans(v, "glob");
    RequiredMeans(v, "pattern");
    RequiredMeans(v, "path");
    RequiredMeans(v, "command");
  }

  /** Numbers are read within their limits, and a process has a positive id. */
  lemma NumbersAreLimited(v: Fields, key: string, x: int)
    requires key in v && v[key] == Num(x)
    ensures OptionalInt(v, key).Ok? <==> 0 <= x < 0x1_0000_0000_0000_0000
    ensures OptionalInt(v, key).Ok? ==> OptionalInt(v, key).value == Some(x)
    ensures key == "id" ==> (ProcessId(v).Ok? <==> 0 < x < 0x1_0000_0000)
    ensures key == "offset" && x == 0 ==> ParseReadFile(v).Err?
    ensures key == "id" && !(0 < x < 0x1_0000_0000) ==> ParseProcessOutput(v).Err? && ParseProcessStop(v).Err?
  {
    hide Required;
  }

  /** Flags are booleans, and absent ones are not set. */
  lemma FlagMeans(v: Fields, key: string)
    ensures Flag(v, key) == Ok(true) <==> key in v && v[key] == Bool(true)
    ensures Flag(v, key) == Ok(false) <==> key !in v || v[key] == Bool(false) || v[key] == Null
  {}

  /** Words are texts, numbers and booleans, as they are written, and nothing else. */
  lemma WordsAre(s: string, n: int, other: Json)
    ensures WordsOf([Str(s)]) == Ok([s])
    ensures WordsOf([Num(n)]) == Ok([if n < 0 then "-" + Numeral(-n) else Numeral(n)])
    ensures WordsOf([Bool(true)]) == Ok(["true"]) && WordsOf([Bool(false)]) == Ok(["false"])
    ensures other.Null? || other.Arr? || other.Obj? ==> WordsOf([other]).Err?
  {
    hide Numeral, WordsOf;
    OneWord(Str(s));
    OneWord(Num(n));
    OneWord(Bool(true));
    OneWord(Bool(false));
    OneWord(other);
  }

  lemma OneWord(v: Json)
    ensures WordOf(v).Some? ==> WordsOf([v]) == Ok([WordOf(v).value])
    ensures WordOf(v).None? ==> WordsOf([v]).Err?
  {
    hide WordOf;
    assert [v][1..] == [] && WordsOf([]) == Ok([]);
    assert WordOf(v).Some? ==> [WordOf(v).value] + [] == [WordOf(v).value];
  }

  lemma {:induction false} WordsInOrder(a: seq<Json>, b: seq<Json>)
    ensures WordsOf(a + b).Ok? <==> WordsOf(a).Ok? && WordsOf(b).Ok?
    ensures WordsOf(a + b).Ok? ==> WordsOf(a + b).value == WordsOf(a).value + WordsOf(b).value
  {
    hide WordOf;
    if a == [] {
      assert a + b == b;
    } else {
      assert (a + b)[1..] == a[1..] + b;
      WordsInOrder(a[1..], b);
    }
  }

  /** A number in text may have a plus sign, and has at least one digit and at most 64 bits. */
  lemma NumbersInText(n: nat)
    ensures n < 0x1_0000_0000_0000_0000 ==> ParseUsize(Numeral(n)) == ParseUsize("+" + Numeral(n)) == Some(n)
    ensures n >= 0x1_0000_0000_0000_0000 ==> ParseUsize(Numeral(n)) == ParseUsize("+" + Numeral(n)) == None
    ensures ParseUsize("") == ParseUsize("+") == ParseUsize("-" + Numeral(n)) == None
  {
    hide Numeral, Value;
    ValueOfNumeral(n);
    assert ("+" + Numeral(n))[1..] == Numeral(n);
    assert IsDigit(Numeral(n)[0]) && !IsDigit(("-" + Numeral(n))[0]);
  }

  /** The words of a call of the program itself, with or without its name in front, or as one line. */
  lemma MistlArguments(cli: Command, words: seq<string>, line: string)
    ensures words == [] || (words[0] != "mistl" && words[0] != "mistl.exe") ==>
              ParseMistl(cli, "mistl", map["args" := Arr(Texts(words))]) == Ok(Mistl(Run(words)))
    ensures ParseMistl(cli, "mistl", map["args" := Arr(Texts(["mistl"] + words))]) == Ok(Mistl(Run(words)))
    ensures ParseMistl(cli, "mistl", map["args" := Arr(Texts(["mistl.exe"] + words))]) == Ok(Mistl(Run(words)))
    ensures ParseMistl(cli, "mistl", map["args" := Str(line)])
         == ParseMistl(cli, "mistl", map["args" := Arr(Texts(SplitArgs(line)))])
    ensures ParseMistl(cli, "mistl", map[]) == Ok(Mistl(Run([])))
  {
    hide SplitArgs, WordsOf, Texts, DropLeadingMistl;
    DroppedName(words);
    DroppedName([]);
    WordsOfTexts(words);
    WordsOfTexts(["mistl"] + words);
    WordsOfTexts(["mistl.exe"] + words);
    WordsOfTexts(SplitArgs(line));
  }

  /** The program's own name in front of its words does not count. */
  lemma DroppedName(words: seq<string>)
    ensures words == [] || (words[0] != "mistl" && words[0] != "mistl.exe") ==> DropLeadingMistl(words) == words
    ensures DropLeadingMistl(["mistl"] + words) == DropLeadingMistl(["mistl.exe"] + words) == words
  {}

  /** A request for help names a path of subcommands, and may have the flag behind it. */
  lemma HelpArguments(cli: Command, path: seq<string>, line: string)
    requires path == [] || (path[0] != "mistl" && path[0] != "mistl.exe")
    requires path == [] || (path[|path| - 1] != "--help" && path[|path| - 1] != "-h")
    ensures var parsed := if IsHelpPath(cli, path) then Ok(Mistl(Help(path))) else Err(HELP_ERROR);
            && ParseMistl(cli, "mistl_help", map["command" := Arr(Texts(path))]) == parsed
            && ParseMistl(cli, "mistl_help", map["args" := Arr(Texts(path))]) == parsed
            && ParseMistl(cli, "mistl_help", map["command" := Arr(Texts(path + ["--help"]))]) == parsed
            && ParseMistl(cli, "mistl_help", map["command" := Arr(Texts(path + ["-h"]))]) == parsed
    ensures ParseMistl(cli, "mistl_help", map["command" := Str(line)])
         == ParseMistl(cli, "mistl_help", map["command" := Arr(Texts(SplitArgs(line)))])
  {
    hide SplitArgs, WordsOf, Texts, IsHelpPath, ParseMistl, DropLeadingMistl, DropHelpFlag;
    HelpWords(cli, path);
    HelpWords(cli, path + ["--help"]);
    HelpWords(cli, path + ["-h"]);
    DroppedFlags(path);
    HelpLine(cli, line);
  }

  lemma HelpWords(cli: Command, words: seq<string>)
    ensures var path := DropHelpFlag(DropLeadingMistl(words));
            var parsed := if IsHelpPath(cli, path) then Ok(Mistl(Help(path))) else Err(HELP_ERROR);
            && ParseMistl(cli, "mistl_help", map["command" := Arr(Texts(words))]) == parsed
            && ParseMistl(cli, "mistl_help", map["args" := Arr(Texts(words))]) == parsed
  {
    hide WordsOf, Texts, IsHelpPath, DropLeadingMistl, DropHelpFlag;
    WordsOfTexts(words);
  }

  lemma HelpLine(cli: Command, line: string)
    ensures ParseMistl(cli, "mistl_help", map["command" := Str(line)])
         == ParseMistl(cli, "mistl_help", map["command" := Arr(Texts(SplitArgs(line)))])
  {
    hide SplitArgs, WordsOf, Texts, IsHelpPath, DropLeadingMistl, DropHelpFlag;
    WordsOfTexts(SplitArgs(line));
  }

  lemma DroppedFlags(path: seq<string>)
    requires path == [] || (path[0] != "mistl" && path[0] != "mistl.exe")
    requires path == [] || (path[|path| - 1] != "--help" && path[|path| - 1] != "-h")
    ensures DropHelpFlag(DropLeadingMistl(path)) == path
    ensures DropHelpFlag(DropLeadingMistl(path + ["--help"])) == path
    ensures DropHelpFlag(DropLeadingMistl(path + ["-h"])) == path
  {
    hide DropLeadingMistl;
    DroppedName(path);
    DroppedName(path + ["--help"]);
    DroppedName(path + ["-h"]);
    assert (path + ["--help"])[..|path|] == path && (path + ["-h"])[..|path|] == path;
    assert path != [] ==> (path + ["--help"])[0] == path[0] && (path + ["-h"])[0] == path[0];
    assert "--help" != "mistl" && "-h" != "mistl" && "--help" != "mistl.exe" && "-h" != "mistl.exe";
  }

  /** The program's two tools are known by their names. */
  lemma MistlTools(env: Env, v: Json)
    ensures ParseValue(env, "mistl", v) == ParseMistl(env.cli, "mistl", FieldsOf(v))
    ensures ParseValue(env, "mistl_help", v) == ParseMistl(env.cli, "mistl_help", FieldsOf(v))
  {
    hide ParseMistl, ParseWorkspace;
  }

  lemma NoPathIsHelp(cli: Command)
    ensures IsHelpPath(cli, [])
  {}

  /** A path leads through the first subcommand that answers to each word, and only by its own name. */
  lemma HelpPathsAre(cli: Command, word: string, rest: seq<string>, k: nat)
    requires k < |cli.subs| && (cli.subs[k].name == word || word in cli.subs[k].aliases)
    requires forall j | 0 <= j < k :: cli.subs[j].name != word && word !in cli.subs[j].aliases
    ensures IsHelpPath(cli, [word] + rest) <==> cli.subs[k].name == word && IsHelpPath(cli.subs[k], rest)
  {
    assert ([word] + rest)[1..] == rest;
    FirstSub(cli.subs, word, k);
  }

  lemma {:induction false} FirstSub(subs: seq<Command>, word: string, k: nat)
    requires k < |subs| && (subs[k].name == word || word in subs[k].aliases)
    requires forall j | 0 <= j < k :: subs[j].name != word && word !in subs[j].aliases
    ensures FindSub(subs, word) == Some(subs[k])
    decreases k
  {
    if k > 0 {
      assert forall j | 0 <= j < k - 1 :: subs[1..][j] == subs[j + 1];
      FirstSub(subs[1..], word, k - 1);
    }
  }

  lemma {:induction false} StrangeWordsLeadNowhere(cli: Command, word: string, rest: seq<string>)
    requires forall sub | sub in cli.subs :: sub.name != word
    ensures !IsHelpPath(cli, [word] + rest)
  {}

  /** Arguments are a JSON document; nothing at all stands for an object without members. */
  lemma ArgumentsAreRead(env: Env, name: string, arguments: string, v: Json)
    ensures Trim(arguments) == "" ==> ParseCall(env, name, arguments) == ParseValue(env, name, Obj([]))
    ensures Trim(arguments) != "" && Trim(arguments) == arguments && env.json.read(arguments) == Some(v) ==>
              ParseCall(env, name, arguments) == ParseValue(env, name, v)
    ensures Trim(arguments) != "" && Trim(arguments) == arguments && env.json.read(arguments) == None ==>
              ParseCall(env, name, arguments).Err?
    ensures name != "mistl" && name != "mistl_help" && !v.Obj? ==> ParseValue(env, name, v).Err?
    ensures name == "mistl" || name == "mistl_help" ==>
              ParseCall(env, name, arguments) == ParseCall(env, name, Trim(arguments))
  {
    hide Trim, ParseMistl, ParseWorkspace;
    TrimIsTrimmed(arguments);
  }

  lemma TrimIsTrimmed(s: string)
    ensures Trim(Trim(s)) == Trim(s)
  {
    hide Trim, IsWhitespace;
    TrimmedEnds(s);
    TrimmedAlready(Trim(s));
  }

  /** A call that the prompt parser made up fails with its own reason. */
  lemma InvalidToolSaysWhy(reason: string)
    requires Trim(reason) != ""
    ensures ParseWorkspace("invalid_tool", map["error" := Str(reason)]) == Err(reason)
  {
    hide Trim;
  }

  /** Other names are no tools. */
  lemma OtherTools(name: string, v: Fields)
    requires name !in ["just", "list_dir", "find_files", "grep", "read_file", "shell",
                       "process_list", "process_output", "process_stop"]
    ensures ParseWorkspace(name, v).Err?
  {
    hide Required;
  }

  /** Titles of commands are command lines: split, they give the program and its words. */
  lemma CommandTitles(env: Env, words: seq<string>, recipe: string)
    ensures SplitArgs(PlainTitle(env, Mistl(Run(words)))) == ["mistl"] + words
    ensures SplitArgs(PlainTitle(env, Mistl(Help(words)))) == ["mistl"] + words + ["--help"]
    ensures SplitArgs(PlainTitle(env, Just(recipe, words, false))) == ["just", recipe] + words
    ensures SplitArgs(PlainTitle(env, Just(recipe, words, true))) == ["just", recipe] + words + ["&"]
  {
    hide SplitArgs, Line, QuoteWord;
    PlainWords();
    TitleLine("mistl", words);
    TitleLine("just", [recipe] + words);
    SplitOfLine(["mistl"] + words);
    LineSnoc(["mistl"] + words, "--help");
    SplitOfLine(["mistl"] + words + ["--help"]);
    assert ["just"] + ([recipe] + words) == ["just", recipe] + words;
    SplitOfLine(["just", recipe] + words);
    LineSnoc(["just", recipe] + words, "&");
    SplitOfLine(["just", recipe] + words + ["&"]);
    SpaceHelp(Titled("mistl", words));
    SpaceAnd(Titled("just", [recipe] + words));
    assert Titled("just", [recipe] + words) + "" == Titled("just", [recipe] + words);
  }

  lemma SpaceHelp(s: string)
    ensures s + " --help" == s + " " + "--help"
  {}

  lemma SpaceAnd(s: string)
    ensures s + " &" == s + " " + "&"
  {}

  lemma PlainWords()
    ensures QuoteWord("mistl") == "mistl" && QuoteWord("just") == "just"
    ensures QuoteWord("--help") == "--help" && QuoteWord("&") == "&"
  {
    hide Replace, IsWhitespace;
    WhitespaceFacts();
  }

  lemma TitleLine(head: string, words: seq<string>)
    requires QuoteWord(head) == head
    ensures Titled(head, words) == Line([head] + words)
  {
    hide QuoteWord;
    assert ([head] + words)[1..] == words;
  }

  lemma {:induction false} LineSnoc(words: seq<string>, w: string)
    requires words != []
    ensures Line(words + [w]) == Line(words) + " " + QuoteWord(w)
  {
    hide QuoteWord;
    assert (words + [w])[1..] == words[1..] + [w];
    if |words| > 1 {
      LineSnoc(words[1..], w);
      assert QuoteWord(words[0]) + " " + (Line(words[1..]) + " " + QuoteWord(w))
          == QuoteWord(words[0]) + " " + Line(words[1..]) + " " + QuoteWord(w);
    } else {
      assert words == [words[0]] && words[1..] + [w] == [w];
    }
  }

  /** A title never names a line beyond 64 bits. */
  lemma LastLineSaturates(env: Env, s: string, m: nat, n: nat)
    requires 0 < m && m + n >= 0x1_0000_0000_0000_0000
    ensures PlainTitle(env, ReadFile(s, Some(m), Some(n)))
         == "read_file " + s + ":" + Numeral(m) + "-" + Numeral(0xFFFF_FFFF_FFFF_FFFE)
  {
    hide Numeral;
  }

  /** Titles of the other tools, with what stands for arguments that were left out. */
  lemma OtherTitles(env: Env, s: string, t: string, m: nat, n: nat)
    requires 0 < n && 0 < m && m + n < USIZE_LIMIT
    ensures PlainTitle(env, ListDir(None)) == "list_dir ." && PlainTitle(env, ListDir(Some(s))) == "list_dir " + s
    ensures PlainTitle(env, FindFiles(s, true)) == PlainTitle(env, FindFiles(s, false)) == "find_files " + s
    ensures PlainTitle(env, Grep(s, Some(t), None, true)) == "grep " + env.json.write(Str(s)) + " " + t
    ensures PlainTitle(env, Grep(s, None, None, false)) == "grep " + env.json.write(Str(s)) + " ."
    ensures PlainTitle(env, ReadFile(s, Some(m), Some(n)))
         == "read_file " + s + ":" + Numeral(m) + "-" + Numeral(m + n - 1)
    ensures PlainTitle(env, ReadFile(s, None, None)) == "read_file " + s + ":" + Numeral(1) + "-" + Numeral(400)
    ensures PlainTitle(env, Shell(s, false)) == "$ " + s && PlainTitle(env, Shell(s, true)) == "$ " + s + " &"
    ensures PlainTitle(env, ProcessList) == "process_list"
    ensures PlainTitle(env, ProcessOutput(m, None)) == "process_output " + Numeral(m)
    ensures PlainTitle(env, ProcessStop(m)) == "process_stop " + Numeral(m)
  {
    hide Numeral;
    assert "$ " + s + "" == "$ " + s;
  }
}
