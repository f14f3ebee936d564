/**
 Prompt-mode tool protocol: calls written as fenced blocks in an assistant message, and the
 line-by-line parser that extracts them.
 */
module Prompt {
  import opened Wrappers
  import opened Text
  import opened Json
  import opened Decimal
  import W = Words
  import opened Tools

  const FENCE := "```"

  /** A call as text: tool name and JSON arguments. */
  datatype Call = Call(name: string, arguments: string)

  datatype Kind = MistlFence | HelpFence | JustFence | ToolFence | ShellFence | OtherFence

  /** Parser state between lines: the open fence, the body of a `tool` fence, the calls so far. */
  datatype Parser = Parser(kind: Option<Kind>, body: string, calls: seq<Call>)
  {
    function Push(call: Call): Parser { this.(calls := calls + [call]) }
  }

  const FRESH := Parser(None, "", [])

  function KindOf(info: string): Kind {
    var lang := ToLower(Trim(info));
    if lang == "mistl" then MistlFence
    else if lang == "mistl-help" then HelpFence
    else if lang == "just" then JustFence
    else if lang == "tool" then ToolFence
    else if lang == "sh" || lang == "bash" || lang == "shell" || lang == "console" then ShellFence
    else OtherFence
  }

  function StripPrompt(line: string): string {
    if "$ " <= line then line[2..] else line
  }

  function ArgsObject(words: seq<string>): Json { Obj([Entry("args", Arr(Texts(words)))]) }

  function JustObject(words: seq<string>): Json
    requires words != []
  {
    Obj([Entry("recipe", Str(words[0])), Entry("args", Arr(Texts(words[1..])))])
  }

  function InvalidCall(lib: JsonLib, error: string, body: string): Call {
    Call("invalid_tool", lib.write(Obj([Entry("error", Str(error)), Entry("body", Str(body))])))
  }

  /** The call in the body of a `tool` fence, or an error call. */
  function JsonCall(lib: JsonLib, body: string): Call {
    match lib.read(body)
    case None => InvalidCall(lib, "invalid tool block JSON", body)
    case Some(v) =>
      match (Field(FieldsOf(v), "name"), Field(FieldsOf(v), "arguments"))
      case (Some(Str(name)), Some(Obj(arguments))) => Call(name, lib.write(Obj(arguments)))
      case _ => InvalidCall(lib, "tool block requires a name and an arguments object", body)
  }

  /** The calls that one line of an open fence other than `tool` makes. */
  function LineCalls(lib: JsonLib, kind: Kind, line: string): seq<Call> {
    if line == "" || line[0] == '#' then []
    else match kind
      case MistlFence => [Call(TOOL_MISTL, lib.write(ArgsObject(W.SplitArgs(StripPrompt(line)))))]
      case HelpFence => [Call(TOOL_HELP, lib.write(Obj([Entry("command", Str(line))])))]
      case JustFence =>
        var words := W.SplitArgs(StripPrompt(line));
        if words == [] then [] else [Call("just", lib.write(JustObject(words)))]
      case ShellFence =>
        var l := StripPrompt(line);
        if "mistl " <= l then [Call(TOOL_MISTL, lib.write(ArgsObject(W.SplitArgs(l))))] else []
      case _ => []
  }

  function ParseLine(lib: JsonLib, st: Parser, raw: string): Parser {
    var line := Trim(raw);
    match st.kind
    case None => if FENCE <= line then st.(kind := Some(KindOf(line[3..]))) else st
    case Some(kind) =>
      if FENCE <= line then
        if kind.ToolFence? then Parser(None, "", st.calls + [JsonCall(lib, st.body)])
        else st.(kind := None)
      else if kind.ToolFence? then st.(body := st.body + raw + "\n")
      else st.(calls := st.calls + LineCalls(lib, kind, line))
  }

  function ParseLines(lib: JsonLib, st: Parser, lines: seq<string>): Parser
    decreases |lines|
  {
    if lines == [] then st else ParseLines(lib, ParseLine(lib, st, lines[0]), lines[1..])
  }

  /** An unterminated `tool` fence becomes an error call. */
  function Finish(lib: JsonLib, st: Parser): seq<Call> {
    if st.kind == Some(ToolFence) then st.calls + [InvalidCall(lib, "unterminated tool block", st.body)] else st.calls
  }

  function ParsePrompt(lib: JsonLib, text: string): seq<Call> {
    Finish(lib, ParseLines(lib, FRESH, TextLines(text)))
  }

  /** What the calls of a message mean. */
  function Meanings(env: Env, calls: seq<Call>): (r: seq<Result<Invocation>>)
    ensures |r| == |calls|
  {
    seq(|calls|, i requires 0 <= i < |calls| => ParseCall(env, calls[i].name, calls[i].arguments))
  }

  lemma {:induction false} ParseLinesConcat(lib: JsonLib, st: Parser, a: seq<string>, b: seq<string>)
    ensures ParseLines(lib, st, a + b) == ParseLines(lib, ParseLines(lib, st, a), b)
    decreases |a|
  {
    hide ParseLine;
    if a == [] {
      assert a + b == b;
    } else {
      assert (a + b)[1..] == a[1..] + b;
      ParseLinesConcat(lib, ParseLine(lib, st, a[0]), a[1..], b);
    }
  }

  /** Calls already found are never looked at again. */
  lemma {:induction false} ParseLinesFrame(lib: JsonLib, st: Parser, before: seq<Call>, lines: seq<string>)
    ensures var r := ParseLines(lib, st, lines);
            ParseLines(lib, st.(calls := before + st.calls), lines) == r.(calls := before + r.calls)
    decreases |lines|
  {
    if lines != [] {
      ParseLineFrame(lib, st, before, lines[0]);
      hide ParseLine;
      ParseLinesFrame(lib, ParseLine(lib, st, lines[0]), before, lines[1..]);
    }
  }

  lemma ParseLineFrame(lib: JsonLib, st: Parser, before: seq<Call>, raw: string)
    ensures var r := ParseLine(lib, st, raw);
            ParseLine(lib, st.(calls := before + st.calls), raw) == r.(calls := before + r.calls)
  {
    hide LineCalls, JsonCall, Trim, KindOf;
    var line := Trim(raw);
    if st.kind.Some? {
      var one := [JsonCall(lib, st.body)];
      assert before + (st.calls + one) == before + st.calls + one;
      var more := LineCalls(lib, st.kind.value, line);
      assert before + (st.calls + more) == before + st.calls + more;
    }
  }

  // ---- Which fences make calls --------------------------------------------------------------

  /** The word behind the backticks, without the space around it and in any case, names the fence. */
  lemma FenceNames(info: string)
    ensures KindOf(info) == MistlFence <==> SameButCase(Trim(info), "mistl")
    ensures KindOf(info) == HelpFence <==> SameButCase(Trim(info), "mistl-help")
    ensures KindOf(info) == JustFence <==> SameButCase(Trim(info), "just")
    ensures KindOf(info) == ToolFence <==> SameButCase(Trim(info), "tool")
    ensures KindOf(info) == ShellFence <==>
              || SameButCase(Trim(info), "sh") || SameButCase(Trim(info), "bash")
              || SameButCase(Trim(info), "shell") || SameButCase(Trim(info), "console")
  {
    hide Trim, ToLower, SameButCase;
    NamesAreLower();
    var t := Trim(info);
    LowerIgnoresCase(t, "mistl");
    LowerIgnoresCase(t, "mistl-help");
    LowerIgnoresCase(t, "just");
    LowerIgnoresCase(t, "tool");
    LowerIgnoresCase(t, "sh");
    LowerIgnoresCase(t, "bash");
    LowerIgnoresCase(t, "shell");
    LowerIgnoresCase(t, "console");
    assert |"mistl"| == 5 && |"mistl-help"| == 10 && |"just"| == 4 && |"tool"| == 4;
    assert "just"[0] != "tool"[0] && "just"[0] != "bash"[0] && "tool"[0] != "bash"[0] && "mistl"[0] != "shell"[0];
    assert |"sh"| == 2 && |"bash"| == 4 && |"shell"| == 5 && |"console"| == 7;
  }

  lemma NamesAreLower()
    ensures ToLower("mistl") == "mistl" && ToLower("mistl-help") == "mistl-help" && ToLower("just") == "just"
    ensures ToLower("tool") == "tool" && ToLower("sh") == "sh" && ToLower("bash") == "bash"
    ensures ToLower("shell") == "shell" && ToLower("console") == "console"
  {}

  /** Between the lines of a message: what a line does, by the fence it stands in. */
  lemma LineMeans(lib: JsonLib, st: Parser, raw: string)
    ensures var line, r := Trim(raw), ParseLine(lib, st, raw);
            var fence := |line| >= 3 && line[0] == '`' && line[1] == '`' && line[2] == '`';
            if st.kind == None then r == if fence then st.(kind := Some(KindOf(line[3..]))) else st
            else if fence then
              && r.kind == None
              && r.calls == st.calls + (if st.kind == Some(ToolFence) then [JsonCall(lib, st.body)] else [])
              && r.body == if st.kind == Some(ToolFence) then "" else st.body
            else if st.kind == Some(ToolFence) then r == st.(body := st.body + raw + "\n")
            else r.kind == st.kind && r.body == st.body && st.calls <= r.calls && |r.calls| <= |st.calls| + 1
  {
    hide Trim, KindOf, JsonCall, LineCalls;
    FewLineCalls(lib, st.kind.GetOr(OtherFence), Trim(raw));
    assert st.calls + [] == st.calls;
  }

  lemma FewLineCalls(lib: JsonLib, kind: Kind, line: string)
    ensures |LineCalls(lib, kind, line)| <= 1
    ensures kind.ToolFence? || kind.OtherFence? || line == "" || line[0] == '#' ==> LineCalls(lib, kind, line) == []
  {
    hide W.SplitArgs, StripPrompt, ArgsObject, JustObject;
  }

  // ---- The program's loop -------------------------------------------------------------------

  datatype ToolCall = ToolCall(id: string, name: string, arguments: string)

  /** The found calls with their ids `p1`, `p2`, and so on. */
  function WithIds(calls: seq<Call>): (r: seq<ToolCall>)
    ensures |r| == |calls|
    ensures forall i | 0 <= i < |calls| :: r[i] == ToolCall("p" + Numeral(i + 1), calls[i].name, calls[i].arguments)
  {
    seq(|calls|, i requires 0 <= i < |calls| => ToolCall("p" + Numeral(i + 1), calls[i].name, calls[i].arguments))
  }

  /** Ids within one message never repeat. */
  lemma IdsAreDistinct(calls: seq<Call>, i: nat, j: nat)
    requires i < j < |calls|
    ensures WithIds(calls)[i].id != WithIds(calls)[j].id
  {
    var a, b := WithIds(calls)[i].id, WithIds(calls)[j].id;
    if a == b {
      assert a[1..] == Numeral(i + 1) && b[1..] == Numeral(j + 1);
      NumeralIsInjective(i + 1, j + 1);
    }
  }

  method ParsePromptCalls(lib: JsonLib, text: string) returns (calls: seq<ToolCall>)
    ensures calls == WithIds(ParsePrompt(lib, text))
  {
    hide Trim, KindOf, JsonCall, LineCalls, WithIds, Numeral, TextLines;
    var lines := TextLines(text);
    var kind: Option<Kind>, body, found: seq<Call> := None, "", [];
    assert lines[0..] == lines;
    for n := 0 to |lines|
      invariant ParseLines(lib, Parser(kind, body, found), lines[n..]) == ParseLines(lib, FRESH, lines)
    {
      var raw := lines[n];
      var line := Trim(raw);
      ghost var st := Parser(kind, body, found);
      assert lines[n..][0] == raw && lines[n..][1..] == lines[n + 1..];
      if kind.None? {
        if FENCE <= line {
          kind := Some(KindOf(line[3..]));
        }
      } else if FENCE <= line {
        if kind == Some(ToolFence) {
          found := found + [JsonCall(lib, body)];
          body := "";
        }
        kind := None;
      } else if kind == Some(ToolFence) {
        body := body + raw + "\n";
      } else {
        found := found + LineCalls(lib, kind.value, line);
      }
      assert Parser(kind, body, found) == ParseLine(lib, st, raw);
    }
    if kind == Some(ToolFence) {
      found := found + [InvalidCall(lib, "unterminated tool block", body)];
    }
    calls := WithIds(found);
  }
}
