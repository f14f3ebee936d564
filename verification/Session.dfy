/**
 The agent session: turns of model requests and tool calls, the switch from native tools to
 prompt text, and the approval of calls. Everything outside (the model's replies, the user's
 answers, tool outputs, cancellation) is a `World` that the methods may meet in any form.
 */
module Session {
  import opened Wrappers
  import opened Text
  import opened Tools
  import opened Prompt
  import opened History
  import Redactor

  datatype Mode = NativeTools | PromptText

  datatype Reply =
    | Answer(content: string, toolCalls: seq<ToolCall>)
    | Failed(toolsUnsupported: bool, cancelled: bool)

  datatype Safety = ReadOnly | Mutating | Blocked(reason: string)

  datatype Approval = Yes | Always | No

  /** What one turn meets: replies by request, and per request the events of its calls. */
  datatype World = World(
    endpointReady: bool,
    catalog: Option<string>,
    reply: nat -> Reply,
    classify: Invocation -> Safety,
    approval: (nat, nat) -> Approval,
    output: (nat, nat) -> ToolOutput,
    cancelled: (nat, nat) -> bool)

  // ---- What the chat protocol asks ----------------------------------------------------------

  /**
   Every message with tool calls is directly followed by the results for those calls, in order,
   and results stand nowhere else.
   */
  predicate WellPaired(ms: seq<Message>)
    decreases |ms|
  {
    ms == [] ||
    var calls := ms[0].toolCalls;
    && !ms[0].role.Tool?
    && (calls != [] ==> ms[0].role.Assistant?)
    && |ms| > |calls|
    && Answers(calls, ms[1..1 + |calls|])
    && WellPaired(ms[1 + |calls|..])
  }

  predicate StartsWithSystem(ms: seq<Message>) { ms == [] || ms[0].role.System? }

  /** A history that may be sent in a mode. */
  predicate Sound(mode: Mode, ms: seq<Message>) {
    WellPaired(ms) && StartsWithSystem(ms) && (mode.PromptText? ==> AllPlain(ms))
  }

  /** A message with its results, then the rest. */
  lemma WellPairedCons(m: Message, responses: seq<Message>, rest: seq<Message>)
    requires !m.role.Tool? && (m.toolCalls != [] ==> m.role.Assistant?)
    requires Answers(m.toolCalls, responses) && WellPaired(rest)
    ensures WellPaired([m] + responses + rest)
  {
    hide Answers;
    var ms := [m] + responses + rest;
    AnswersLength(m.toolCalls, responses);
    assert ms[1..1 + |m.toolCalls|] == responses && ms[1 + |m.toolCalls|..] == rest;
  }

  lemma AnswersLength(calls: seq<ToolCall>, responses: seq<Message>)
    requires Answers(calls, responses)
    ensures |responses| == |calls|
    ensures forall m | m in responses :: m.role.Tool? && m.toolCalls == []
  {}

  lemma WellPairedHead(ms: seq<Message>)
    requires WellPaired(ms) && ms != []
    ensures var k := 1 + |ms[0].toolCalls|;
            && k <= |ms| && !ms[0].role.Tool? && (ms[0].toolCalls != [] ==> ms[0].role.Assistant?)
            && Answers(ms[0].toolCalls, ms[1..k]) && WellPaired(ms[k..])
  {
    hide Answers;
  }

  lemma {:induction false} WellPairedConcat(a: seq<Message>, b: seq<Message>)
    requires WellPaired(a) && WellPaired(b)
    ensures WellPaired(a + b)
    decreases |a|
  {
    hide Answers, WellPaired;
    if a == [] {
      assert a + b == b;
    } else {
      WellPairedHead(a);
      var k := 1 + |a[0].toolCalls|;
      WellPairedConcat(a[k..], b);
      WellPairedCons(a[0], a[1..k], a[k..] + b);
      assert a + b == [a[0]] + a[1..k] + (a[k..] + b);
    }
  }

  lemma WellPairedOne(m: Message)
    requires !m.role.Tool? && m.toolCalls == []
    ensures WellPaired([m])
  {
    assert [m][1..1] == [] && [m][1..] == [];
    assert WellPaired([]);
  }

  lemma {:induction false} PlainIsPaired(ms: seq<Message>)
    requires AllPlain(ms)
    ensures WellPaired(ms)
    decreases |ms|
  {
    if ms != [] {
      assert IsPlain(ms[0]);
      assert ms[1..1] == [];
      PlainIsPaired(ms[1..]);
    }
  }

  lemma WellPairedExchange(m: Message, responses: seq<Message>)
    requires m.role.Assistant? && Answers(m.toolCalls, responses)
    ensures WellPaired([m] + responses)
  {
    hide Answers;
    assert WellPaired([]);
    WellPairedCons(m, responses, []);
    assert [m] + responses + [] == [m] + responses;
  }

  /** In a well-paired history the results for the message at any place follow it. */
  lemma {:induction false} EveryCallIsAnswered(ms: seq<Message>, i: nat)
    requires WellPaired(ms) && i < |ms| && !ms[i].role.Tool?
    ensures i + |ms[i].toolCalls| < |ms|
    ensures Answers(ms[i].toolCalls, ms[i + 1..i + 1 + |ms[i].toolCalls|])
    decreases |ms|
  {
    hide Answers;
    var k := 1 + |ms[0].toolCalls|;
    AnswersLength(ms[0].toolCalls, ms[1..k]);
    assert forall j | 0 < j < k :: ms[j] in ms[1..k];
    if i > 0 {
      var rest := ms[k..];
      EveryCallIsAnswered(rest, i - k);
      assert rest[i - k] == ms[i];
      var n := |ms[i].toolCalls|;
      assert rest[i - k + 1..i - k + 1 + n] == ms[i + 1..i + 1 + n];
    }
  }

  // ---- Results for calls --------------------------------------------------------------------

  /** One finished call. */
  datatype Done = Done(id: string, title: string, output: ToolOutput)

  function FindText(results: seq<Done>, id: string): Option<string> {
    if results == [] then None
    else if results[0].id == id then Some(results[0].output.text)
    else FindText(results[1..], id)
  }

  /** Every call gets a result, also after cancellation. */
  function Responses(calls: seq<ToolCall>, results: seq<Done>): (r: seq<Message>)
    ensures Answers(calls, r)
  {
    seq(|calls|, i requires 0 <= i < |calls| =>
      ToolResult(calls[i].id, FindText(results, calls[i].id).GetOr("cancelled")))
  }

  /** The results belong to the first calls, in order. */
  predicate InOrder(calls: seq<ToolCall>, results: seq<Done>) {
    |results| <= |calls| && forall i | 0 <= i < |results| :: results[i].id == calls[i].id
  }

  lemma {:induction false} FindFirst(calls: seq<ToolCall>, results: seq<Done>, id: string)
    requires InOrder(calls, results)
    ensures var k := FirstWith(calls, id);
            FindText(results, id) == if k < |results| then Some(results[k].output.text) else None
    decreases |results|
  {
    if results != [] {
      assert results[0].id == calls[0].id;
      if calls[0].id != id {
        FindFirst(calls[1..], results[1..], id);
      }
    }
  }

  /**
   Each call is answered by the output of the first call with its id, or `cancelled` if that one
   never ran; with different ids that is its own output.
   */
  lemma ResponsesAreOwn(calls: seq<ToolCall>, results: seq<Done>, i: nat)
    requires InOrder(calls, results) && i < |calls|
    ensures var k := FirstWith(calls, calls[i].id);
            Responses(calls, results)[i].content == Some(if k < |results| then results[k].output.text else "cancelled")
    ensures DistinctCallIds(calls) ==> FirstWith(calls, calls[i].id) == i
  {
    hide DistinctCallIds;
    OnlyCall(calls, i);
    FindFirst(calls, results, calls[i].id);
  }

  function Pairs(results: seq<Done>): (r: seq<Titled>)
    ensures |r| == |results|
  {
    seq(|results|, i requires 0 <= i < |results| => (results[i].title, results[i].output))
  }

  // ---- Shell commands of the user -----------------------------------------------------------

  function ShellNote(command: string, output: ToolOutput): string {
    Redactor.Redacted("[The user ran a shell command in the workspace]\n$ " + command + "\n" + output.text)
  }

  function Join(notes: seq<string>): string {
    if notes == [] then "" else if |notes| == 1 then notes[0] else notes[0] + "\n\n" + Join(notes[1..])
  }

  function Prepended(notes: seq<string>, text: string): string {
    if notes == [] then text else Join(notes) + "\n\n" + text
  }

  /** Each note stands before the text, in order, followed by a blank line. */
  lemma {:induction false} PrependedInOrder(notes: seq<string>, text: string)
    requires notes != []
    ensures Prepended(notes, text) == notes[0] + "\n\n" + Prepended(notes[1..], text)
  {
    if |notes| > 1 {
      assert Join(notes) + "\n\n" + text == notes[0] + "\n\n" + (Join(notes[1..]) + "\n\n" + text);
    }
  }

  lemma NothingPrepended(text: string)
    ensures Prepended([], text) == text
  {}

  /** A note shows the command and its output, unless they name a token. */
  lemma NoteShows(command: string, output: ToolOutput)
    ensures var note := "[The user ran a shell command in the workspace]\n$ " + command + "\n" + output.text;
            Redactor.NamesNoToken(note) ==> ShellNote(command, output) == note
  {
    hide Redactor.Redacted, Redactor.NamesNoToken;
    var note := "[The user ran a shell command in the workspace]\n$ " + command + "\n" + output.text;
    if Redactor.NamesNoToken(note) {
      Redactor.OnlyKeysCount(note);
    }
  }

  // ---- The record of a session --------------------------------------------------------------

  /** One model request as it was sent, and whether calls were approved by standing consent then. */
  datatype Request = Request(mode: Mode, messages: seq<Message>, consent: bool)

  /** One executed call, with the answer that allowed it, if the user was asked. */
  datatype Execution = Execution(inv: Invocation, safety: Safety, answer: Option<Approval>)

  predicate AlwaysGiven(log: seq<Execution>) { exists e | e in log :: e.answer == Some(Always) }

  /** Blocked calls never run; state-changing ones run on a yes or on standing consent given before. */
  predicate Justified(initial: bool, log: seq<Execution>) {
    forall k | 0 <= k < |log| ::
      && !log[k].safety.Blocked?
      && log[k].answer != Some(No)
      && (log[k].safety.Mutating? && log[k].answer == None ==> initial || AlwaysGiven(log[..k]))
  }

  /** Requests in order: well formed, and never native after prompt text. */
  predicate GoodRequests(mode: Mode, log: seq<Request>) {
    && (forall r | r in log :: r.messages != [] && Sound(r.mode, r.messages))
    && (forall i, j | 0 <= i < j < |log| && log[i].mode.PromptText? :: log[j].mode.PromptText?)
    && (forall r | r in log && r.mode.PromptText? :: mode.PromptText?)
  }

  lemma JustifiedSnoc(initial: bool, log: seq<Execution>, e: Execution)
    requires Justified(initial, log)
    requires !e.safety.Blocked? && e.answer != Some(No)
    requires e.safety.Mutating? && e.answer == None ==> initial || AlwaysGiven(log)
    ensures Justified(initial, log + [e])
  {
    hide AlwaysGiven;
    var more := log + [e];
    forall k | 0 <= k < |more|
      ensures !more[k].safety.Blocked? && more[k].answer != Some(No)
      ensures more[k].safety.Mutating? && more[k].answer == None ==> initial || AlwaysGiven(more[..k])
    {
      if k < |log| {
        assert more[..k] == log[..k] && more[k] == log[k];
      } else {
        assert more[..k] == log;
      }
    }
  }

  lemma RequestSnoc(log: seq<Request>, r: Request)
    requires GoodRequests(r.mode, log) && r.messages != [] && Sound(r.mode, r.messages)
    ensures GoodRequests(r.mode, log + [r])
  {
    hide Sound;
    var more := log + [r];
    forall i, j | 0 <= i < j < |more| && more[i].mode.PromptText? ensures more[j].mode.PromptText? {
      assert more[i] in log;
    }
  }

  predicate FellBack(env: Env, system: string, before: seq<Message>, after: seq<Message>) {
    PromptHistory(env, before) != [] && after == PromptHistory(env, before)[0 := Plain(System, system)]
  }

  /** After the switch the rewritten history stands behind the new system prompt, in place of the old one. */
  lemma FellBackMeans(env: Env, system: string, before: seq<Message>, after: seq<Message>)
    requires FellBack(env, system, before, after)
    ensures |after| == |PromptHistory(env, before)| > 0
    ensures after[0] == Message(System, Some(system), [], None) && after[1..] == PromptHistory(env, before)[1..]
  {
    hide PromptHistory;
  }

  /** The rewritten history keeps its place for the system prompt and the protocol. */
  lemma FallbackIsSound(env: Env, system: string, ms: seq<Message>)
    requires ms != [] && Sound(NativeTools, ms)
    ensures PromptHistory(env, ms) != [] && PromptHistory(env, ms)[0].role.System?
    ensures Sound(PromptText, PromptHistory(env, ms)[0 := Plain(System, system)])
  {
    hide PromptHistory, ContentOf, WellPaired;
    MessageHasItsPlace(env, [], ms[0], ms[1..]);
    assert PromptHistory(env, []) == [] by { NoHistory(env); }
    assert [] + [ms[0]] + ms[1..] == ms;
    var h := PromptHistory(env, ms);
    RewrittenIsPlain(env, ms);
    var after := h[0 := Plain(System, system)];
    assert AllPlain(after) by {
      forall m | m in after ensures IsPlain(m) {
        assert m == after[0] || m in h;
      }
    }
    PlainIsPaired(after);
  }

  lemma NoHistory(env: Env)
    ensures PromptHistory(env, []) == []
  {}

  lemma SoundAppend(mode: Mode, ms: seq<Message>, more: seq<Message>)
    requires Sound(mode, ms) && ms != [] && WellPaired(more)
    requires mode.PromptText? ==> AllPlain(more)
    ensures Sound(mode, ms + more)
  {
    hide WellPaired, IsPlain;
    WellPairedConcat(ms, more);
  }

  lemma SoundPlain(mode: Mode, ms: seq<Message>, role: Role, text: string)
    requires Sound(mode, ms) && ms != [] && !role.Tool?
    ensures Sound(mode, ms + [Plain(role, text)])
  {
    hide WellPaired;
    WellPairedOne(Plain(role, text));
    SoundAppend(mode, ms, [Plain(role, text)]);
  }

  // ---- What calls do ------------------------------------------------------------------------

  /** The effect of one call: its output, what was executed, and the consent afterwards. */
  datatype Ran = Ran(output: ToolOutput, executed: seq<Execution>, consent: bool)

  function Failure(text: string): ToolOutput { ToolOutput(Redactor.Redacted(text), false) }

  function RanCall(env: Env, world: World, n: nat, j: nat, call: ToolCall, consent: bool): Ran {
    match ParseCall(env, call.name, call.arguments)
    case Err(e) => Ran(Failure("error: " + e), [], consent)
    case Ok(inv) =>
      var safety := world.classify(inv);
      var answer := world.approval(n, j);
      if safety.Blocked? then Ran(Failure("refused: " + safety.reason), [], consent)
      else if safety.ReadOnly? || consent then Ran(world.output(n, j), [Execution(inv, safety, None)], consent)
      else if answer.No? then
        var text := if world.cancelled(n, j) then "cancelled" else "the user declined to run this command";
        Ran(Failure(text), [], consent)
      else Ran(world.output(n, j), [Execution(inv, safety, Some(answer))], answer.Always?)
  }

  /** The consent in force when call `i` of a message is looked at. */
  function ConsentAt(env: Env, world: World, n: nat, calls: seq<ToolCall>, consent: bool, i: nat): bool
    requires i <= |calls|
  {
    if i == 0 then consent
    else RanCall(env, world, n, i - 1, calls[i - 1], ConsentAt(env, world, n, calls, consent, i - 1)).consent
  }

  /** Call `i` of a message as it ran. */
  function RanAt(env: Env, world: World, n: nat, calls: seq<ToolCall>, consent: bool, i: nat): Ran
    requires i < |calls|
  {
    RanCall(env, world, n, i, calls[i], ConsentAt(env, world, n, calls, consent, i))
  }

  /** Everything that the first `i` calls executed. */
  function Executed(env: Env, world: World, n: nat, calls: seq<ToolCall>, consent: bool, i: nat): seq<Execution>
    requires i <= |calls|
  {
    if i == 0 then []
    else Executed(env, world, n, calls, consent, i - 1) + RanAt(env, world, n, calls, consent, i - 1).executed
  }

  lemma NoCallsYet(env: Env, world: World, n: nat, calls: seq<ToolCall>, consent: bool)
    ensures ConsentAt(env, world, n, calls, consent, 0) == consent && Executed(env, world, n, calls, consent, 0) == []
  {}

  lemma OneMoreCall(env: Env, world: World, n: nat, calls: seq<ToolCall>, consent: bool, i: nat)
    requires i < |calls|
    ensures var ran := RanAt(env, world, n, calls, consent, i);
            && ran == RanCall(env, world, n, i, calls[i], ConsentAt(env, world, n, calls, consent, i))
            && ConsentAt(env, world, n, calls, consent, i + 1) == ran.consent
            && Executed(env, world, n, calls, consent, i + 1)
               == Executed(env, world, n, calls, consent, i) + ran.executed
  {
    hide RanCall;
  }

  /** How many of `k` calls are looked at: through the first after which the turn is cancelled. */
  function DoneCount(world: World, n: nat, j: nat, k: nat): (d: nat)
    requires j <= k
    ensures j <= d <= k && (j < k ==> j < d)
    ensures forall i | j <= i < d - 1 :: !world.cancelled(n, i)
    ensures d < k ==> world.cancelled(n, d - 1)
    decreases k - j
  {
    if j == k then k else if world.cancelled(n, j) then j + 1 else DoneCount(world, n, j + 1, k)
  }

  lemma NothingToDo(world: World, n: nat, k: nat)
    ensures DoneCount(world, n, k, k) == k
  {}

  lemma DoneStep(world: World, n: nat, j: nat, k: nat)
    requires j < k
    ensures DoneCount(world, n, j, k) == if world.cancelled(n, j) then j + 1 else DoneCount(world, n, j + 1, k)
  {}

  function ResultsOf(env: Env, world: World, n: nat, calls: seq<ToolCall>, consent: bool): (r: seq<Done>)
    ensures InOrder(calls, r) && |r| == DoneCount(world, n, 0, |calls|)
  {
    seq(DoneCount(world, n, 0, |calls|), i requires 0 <= i < |calls| =>
      Done(calls[i].id, CallTitle(env, calls[i]), RanAt(env, world, n, calls, consent, i).output))
  }

  /** Results of the first calls, as those calls ran. */
  predicate ResultsSoFar(env: Env, world: World, n: nat, calls: seq<ToolCall>, consent: bool, results: seq<Done>) {
    |results| <= |calls| &&
    forall i | 0 <= i < |results| ::
      results[i] == Done(calls[i].id, CallTitle(env, calls[i]), RanAt(env, world, n, calls, consent, i).output)
  }

  lemma NoResults(env: Env, world: World, n: nat, calls: seq<ToolCall>, consent: bool)
    ensures ResultsSoFar(env, world, n, calls, consent, [])
  {}

  lemma OneMoreResult(env: Env, world: World, n: nat, calls: seq<ToolCall>, consent: bool, results: seq<Done>, d: Done)
    requires ResultsSoFar(env, world, n, calls, consent, results) && |results| < |calls|
    requires var i := |results|;
             d == Done(calls[i].id, CallTitle(env, calls[i]), RanAt(env, world, n, calls, consent, i).output)
    ensures ResultsSoFar(env, world, n, calls, consent, results + [d])
  {
    hide CallTitle, RanAt;
  }

  lemma ResultsAre(env: Env, world: World, n: nat, calls: seq<ToolCall>, consent: bool, results: seq<Done>)
    requires ResultsSoFar(env, world, n, calls, consent, results) && |results| == DoneCount(world, n, 0, |calls|)
    ensures results == ResultsOf(env, world, n, calls, consent)
  {
    hide CallTitle, RanAt, DoneCount;
  }

  /**
   The history answers each call with what became of the first call that has its id, with different
   ids itself: with its output if it ran, with the reason if it failed, was refused or declined, and
   with `cancelled` if it was never reached.
   */
  lemma CallsAreAnswered(env: Env, world: World, n: nat, calls: seq<ToolCall>, consent: bool, i: nat)
    requires i < |calls|
    ensures FirstWith(calls, calls[i].id) <= i
    ensures var text := Responses(calls, ResultsOf(env, world, n, calls, consent))[i].content;
            var k := FirstWith(calls, calls[i].id);
            var ran := RanAt(env, world, n, calls, consent, k);
            if k >= DoneCount(world, n, 0, |calls|) then text == Some("cancelled")
            else if ran.executed != [] then text == Some(world.output(n, k).text)
            else text == Some(ran.output.text) && !ran.output.ok
    ensures DistinctCallIds(calls) ==> FirstWith(calls, calls[i].id) == i
  {
    hide CallTitle, ParseCall, Failure, DistinctCallIds, InOrder, ConsentAt;
    ResponsesAreOwn(calls, ResultsOf(env, world, n, calls, consent), i);
    OnlyCall(calls, i);
    var k := FirstWith(calls, calls[i].id);
    RanOrFailed(env, world, n, k, calls[k], ConsentAt(env, world, n, calls, consent, k));
  }

  lemma RanOrFailed(env: Env, world: World, n: nat, j: nat, call: ToolCall, consent: bool)
    ensures var r := RanCall(env, world, n, j, call, consent);
            if r.executed != [] then r.output == world.output(n, j) else !r.output.ok
  {
    hide ParseCall, Redactor.Redacted;
  }

  /** A call that did not run is also read as failed from the text that is kept of it. */
  lemma FailureIsKept(env: Env, world: World, n: nat, j: nat, call: ToolCall, consent: bool)
    ensures var r := RanCall(env, world, n, j, call, consent);
            r.executed == [] ==> !r.output.ok && !Succeeded(r.output.text)
    ensures !Succeeded("cancelled")
  {
    hide ParseCall, Redactor.Redacted, Succeeded;
    var r := ParseCall(env, call.name, call.arguments);
    StopsAreFailures();
    if r.Err? {
      ErrorIsFailure("error: ", r.error);
    } else if world.classify(r.value).Blocked? {
      ErrorIsFailure("refused: ", world.classify(r.value).reason);
    }
  }

  lemma StopsAreFailures()
    ensures !Succeeded("cancelled") && !Succeeded(Redactor.Redacted("cancelled"))
    ensures !Succeeded(Redactor.Redacted("the user declined to run this command"))
  {
    hide Redactor.Redacted, Succeeded;
    CancelledIsPlain();
    DeclinedIsPlain();
    DeclinedIsLine();
    StopIsFailure("cancelled");
    StopIsFailure("the user declined to run this command");
    Unredacted("cancelled");
    Unredacted("the user declined to run this command");
  }

  lemma CancelledIsPlain()
    ensures Redactor.NoKeyHeads("cancelled") && '\n' !in "cancelled"
  {}

  lemma DeclinedIsPlain()
    ensures Redactor.NoKeyHeads("the user declined to run this command")
  {}

  lemma DeclinedIsLine()
    ensures '\n' !in "the user declined to run this command"
  {
    var s := "the user declined to run this command";
    assert forall i | 0 <= i < |s| :: s[i] != '\n';
  }

  lemma StopIsFailure(text: string)
    requires text == "cancelled" || text == "the user declined to run this command"
    requires '\n' !in text && text != ""
    ensures !Succeeded(text)
  {
    hide TextLines;
    OneLine(text);
  }

  lemma Unredacted(text: string)
    requires Redactor.NoKeyHeads(text)
    ensures Redactor.Redacted(text) == text
  {
    Redactor.PlainPassesThrough(text, "");
    assert text + "" == text;
  }

  lemma ErrorIsFailure(start: string, reason: string)
    requires start == "error: " || start == "refused: "
    ensures !Succeeded(Redactor.Redacted(start + reason))
  {
    hide Redactor.Redacted, Succeeded;
    Redactor.PlainPassesThrough(start, reason);
    var text := Redactor.Redacted(start + reason);
    FirstLineStarts(text, start);
    FailureIsSeen(text, start);
  }

  lemma FailureIsSeen(text: string, start: string)
    requires start == "error: " || start == "refused: "
    requires TextLines(text) != [] && start <= TextLines(text)[0]
    ensures !Succeeded(text)
  {
    hide TextLines, Contains;
    var first := TextLines(text)[0];
    assert first[0] == start[0] && first[1] == start[1];
    assert start == "error: " ==> "error:" <= first;
    assert start == "refused: " ==> "refused:" <= first;
  }

  /** The output of a call that did not run says why. */
  lemma WhyItDidNotRun(env: Env, world: World, n: nat, j: nat, call: ToolCall, consent: bool)
    ensures var r := ParseCall(env, call.name, call.arguments);
            var text := RanCall(env, world, n, j, call, consent).output.text;
            && (r.Err? ==> text == Redactor.Redacted("error: " + r.error))
            && (r.Ok? && world.classify(r.value).Blocked? ==>
                  text == Redactor.Redacted("refused: " + world.classify(r.value).reason))
            && (r.Ok? && world.classify(r.value).Mutating? && !consent && world.approval(n, j).No? ==>
                  text == if world.cancelled(n, j) then "cancelled" else "the user declined to run this command")
  {
    hide ParseCall, Redactor.Redacted;
    CancelledIsPlain();
    DeclinedIsPlain();
    Unredacted("cancelled");
    Unredacted("the user declined to run this command");
  }

  /** A call runs exactly if it parses, is not blocked, and is read-only, consented to or approved. */
  lemma CallRunsExactlyWhen(env: Env, world: World, n: nat, j: nat, call: ToolCall, consent: bool)
    ensures var r, ran := ParseCall(env, call.name, call.arguments), RanCall(env, world, n, j, call, consent);
            var asked := r.Ok? && world.classify(r.value).Mutating? && !consent;
            && (ran.executed != [] <==>
                  r.Ok? && !world.classify(r.value).Blocked? && (asked ==> !world.approval(n, j).No?))
            && (ran.consent <==> consent || (asked && world.approval(n, j).Always?))
            && |ran.executed| <= 1
  {
    hide ParseCall, Redactor.Redacted;
  }

  // ---- What a turn does ---------------------------------------------------------------------

  /** The calls that an answer makes. */
  function CallsOf(env: Env, mode: Mode, answer: Reply): seq<ToolCall>
    requires answer.Answer?
  {
    if mode.NativeTools? then answer.toolCalls else WithIds(ParsePrompt(env.json, answer.content))
  }

  function AssistantMessage(mode: Mode, answer: Reply): Message
    requires answer.Answer?
  {
    if mode.PromptText? then Plain(Assistant, answer.content)
    else Message(Assistant, if answer.content == "" then None else Some(answer.content), answer.toolCalls, None)
  }

  function ResultMessages(mode: Mode, calls: seq<ToolCall>, results: seq<Done>): seq<Message> {
    if calls == [] then []
    else if mode.NativeTools? then Responses(calls, results)
    else [Plain(User, FormatResults(Pairs(results)))]
  }

  /** What the next request would be after an answer: the answer and the results of its calls are added. */
  function AfterAnswer(env: Env, world: World, n: nat, r: Request, answer: Reply): (after: Request)
    requires answer.Answer?
    ensures after.mode == r.mode && r.messages < after.messages
  {
    var calls := CallsOf(env, r.mode, answer);
    var results := ResultsOf(env, world, n, calls, r.consent);
    Request(r.mode, r.messages + [AssistantMessage(r.mode, answer)] + ResultMessages(r.mode, calls, results),
            ConsentAt(env, world, n, calls, r.consent, |results|))
  }

  /** The title of a call as it is told: redacted, or the bare name of a call that does not parse. */
  function ToldTitle(env: Env, call: ToolCall): string {
    var r := ParseCall(env, call.name, call.arguments);
    if r.Ok? then Redactor.Redacted(PlainTitle(env, r.value)) else call.name
  }

  lemma TitleIsTold(env: Env, call: ToolCall)
    ensures CallTitle(env, call) == ToldTitle(env, call)
  {
    hide ParseCall, Redactor.Redacted, PlainTitle;
  }

  /**
   In prompt mode the answer to calls is one message of the user, which tells the title, the output
   and the outcome of every call that was looked at, in order, and of no other.
   */
  lemma CallsAreTold(env: Env, world: World, n: nat, r: Request, answer: Reply)
    requires answer.Answer? && r.mode.PromptText?
    ensures var calls := WithIds(ParsePrompt(env.json, answer.content));
            var after := AfterAnswer(env, world, n, r, answer).messages;
            if calls == [] then after == r.messages + [Plain(Assistant, answer.content)]
            else
              var told := seq(DoneCount(world, n, 0, |calls|), i requires 0 <= i < |calls| =>
                (ToldTitle(env, calls[i]), RanAt(env, world, n, calls, r.consent, i).output));
              && |after| == |r.messages| + 2
              && after[..|r.messages|] == r.messages && after[|r.messages|] == Plain(Assistant, answer.content)
              && after[|r.messages| + 1].role.User? && IsPlain(after[|r.messages| + 1])
              && TellsAll(after[|r.messages| + 1].content.value, told)
  {
    hide CallTitle, ToldTitle, RanAt, DoneCount, ParsePrompt, WithIds, FormatResults, TellsAll, ConsentAt;
    var calls := CallsOf(env, r.mode, answer);
    if calls != [] {
      var results := Pairs(ResultsOf(env, world, n, calls, r.consent));
      var told := seq(DoneCount(world, n, 0, |calls|), i requires 0 <= i < |calls| =>
        (ToldTitle(env, calls[i]), RanAt(env, world, n, calls, r.consent, i).output));
      forall i | 0 <= i < |calls| ensures CallTitle(env, calls[i]) == ToldTitle(env, calls[i]) {
        TitleIsTold(env, calls[i]);
      }
      assert results == told;
      FormattedTellsAll(results);
    }
  }

  /** With native tools the answer enters with its calls, and behind it one result for each, under its id. */
  lemma CallsEnter(env: Env, world: World, n: nat, r: Request, answer: Reply, i: nat)
    requires answer.Answer? && r.mode.NativeTools?
    ensures var calls, k := answer.toolCalls, |r.messages|;
            var after := AfterAnswer(env, world, n, r, answer).messages;
            var content := if answer.content == "" then None else Some(answer.content);
            && |after| == k + 1 + |calls| && after[..k] == r.messages
            && after[k] == Message(Assistant, content, calls, None)
            && (i < |calls| ==>
                  var j := FirstWith(calls, calls[i].id);
                  var done := j < DoneCount(world, n, 0, |calls|);
                  var text := if done then RanAt(env, world, n, calls, r.consent, j).output.text else "cancelled";
                  after[k + 1 + i] == Message(Tool, Some(text), [], Some(calls[i].id)))
  {
    hide CallTitle, RanAt, DoneCount, ConsentAt, FirstWith, DistinctCallIds, InOrder;
    var calls := answer.toolCalls;
    if i < |calls| {
      ResponsesAreOwn(calls, ResultsOf(env, world, n, calls, r.consent), i);
    }
  }

  function ExecutedAfter(env: Env, world: World, n: nat, r: Request, answer: Reply): seq<Execution>
    requires answer.Answer?
  {
    var calls := CallsOf(env, r.mode, answer);
    Executed(env, world, n, calls, r.consent, DoneCount(world, n, 0, |calls|))
  }

  /** The turn goes on after an answer with calls, unless it was cancelled during or after them. */
  predicate GoesOn(env: Env, world: World, n: nat, mode: Mode, answer: Reply)
    requires answer.Answer?
  {
    var calls := CallsOf(env, mode, answer);
    calls != [] && !world.cancelled(n, DoneCount(world, n, 0, |calls|) - 1) && !world.cancelled(n, |calls|)
  }

  /** It goes on exactly when there were calls and nothing was cancelled, at any call or behind the last. */
  lemma GoesOnExactlyWhen(env: Env, world: World, n: nat, mode: Mode, answer: Reply)
    requires answer.Answer?
    ensures var calls := CallsOf(env, mode, answer);
            GoesOn(env, world, n, mode, answer) <==>
              calls != [] && forall i | 0 <= i <= |calls| :: !world.cancelled(n, i)
  {
    hide CallsOf, DoneCount;
  }

  /** A failed request is sent again only to drop native tools. */
  predicate Retries(mode: Mode, reply: Reply): (b: bool)
    ensures b ==> reply.Failed? && mode.NativeTools?
  {
    reply.Failed? && !reply.cancelled && mode.NativeTools? && reply.toolsUnsupported
  }

  /** What a turn takes place in: the tools' environment, the prompt-mode system text, and the world. */
  datatype Scene = Scene(env: Env, system: string, world: World)

  /** Request `b` follows request `a`, which was answered by reply `i` of the turn. */
  predicate Follows(scene: Scene, i: nat, a: Request, b: Request) {
    var reply := scene.world.reply(i);
    if reply.Answer? then
      && GoesOn(scene.env, scene.world, i, a.mode, reply)
      && b == AfterAnswer(scene.env, scene.world, i, a, reply)
    else
      && Retries(a.mode, reply) && b.mode.PromptText? && b.consent == a.consent
      && FellBack(scene.env, scene.system, a.messages, b.messages)
  }

  /** Requests sent so far, and the one that would be sent next, after a number of steps. */
  predicate UnderWay(scene: Scene, steps: nat, start: Request, sent: seq<Request>, next: Request) {
    && (sent + [next])[0] == start
    && (forall i | 0 <= i < |sent| :: Follows(scene, i, sent[i], (sent + [next])[i + 1]))
    && (start.mode.PromptText? ==> next.mode.PromptText?)
    && |sent| == steps + (if next.mode == start.mode then 0 else 1)
  }

  /** The last request got reply `i`, and this is what is left of the turn. */
  predicate Ends(scene: Scene, i: nat, last: Request, end: Request, exhausted: bool) {
    var reply := scene.world.reply(i);
    if reply.Answer? then
      && end == AfterAnswer(scene.env, scene.world, i, last, reply)
      && (exhausted || !GoesOn(scene.env, scene.world, i, last.mode, reply))
    else end == last && !Retries(last.mode, reply)
  }

  /**
   A whole turn: the first request sends the opening history, each further one follows from the reply
   to the one before, and the turn ends with a failure, an answer without calls, a cancellation, or
   when the steps are used up; dropping native tools, at most once, costs no step.
   */
  predicate OneTurn(scene: Scene, maxSteps: nat, start: Request, sent: seq<Request>, end: Request) {
    var allowed := maxSteps + if end.mode == start.mode then 0 else 1;
    if maxSteps == 0 then sent == [] && end == start
    else
      && sent != [] && sent[0] == start && |sent| <= allowed
      && (forall i | 0 <= i < |sent| - 1 :: Follows(scene, i, sent[i], sent[i + 1]))
      && (start.mode.PromptText? ==> end.mode.PromptText?)
      && end.mode == sent[|sent| - 1].mode
      && Ends(scene, |sent| - 1, sent[|sent| - 1], end, |sent| == allowed)
  }

  /** What the calls of the answer to request `i` executed. */
  function ReplyLog(scene: Scene, i: nat, r: Request): seq<Execution> {
    var reply := scene.world.reply(i);
    if reply.Answer? then ExecutedAfter(scene.env, scene.world, i, r, reply) else []
  }

  /** What the calls of the first `k` answers of a turn executed. */
  function TurnLog(scene: Scene, sent: seq<Request>, k: nat): seq<Execution>
    requires k <= |sent|
  {
    if k == 0 then [] else TurnLog(scene, sent, k - 1) + ReplyLog(scene, k - 1, sent[k - 1])
  }

  // ---- The agent ----------------------------------------------------------------------------

  class Agent {
    const env: Env
    const maxSteps: nat
    const systemText: (Mode, string) -> string
    const initialConsent: bool

    var messages: seq<Message>
    var mode: Mode
    var autoApprove: bool
    var catalog: string
    var notes: seq<string>

    ghost var requests: seq<Request>
    ghost var executions: seq<Execution>

    ghost predicate Valid()
      reads this
    {
      && Sound(mode, messages)
      && GoodRequests(mode, requests)
      && Justified(initialConsent, executions)
      && (autoApprove ==> initialConsent || AlwaysGiven(executions))
    }

    constructor (env: Env, maxSteps: nat, systemText: (Mode, string) -> string, mode: Mode, autoApprove: bool)
      ensures Valid() && messages == [] && this.mode == mode
      ensures requests == [] && executions == [] && initialConsent == autoApprove
    {
      this.env := env;
      this.maxSteps := maxSteps;
      this.systemText := systemText;
      this.initialConsent := autoApprove;
      this.messages := [];
      this.mode := mode;
      this.autoApprove := autoApprove;
      this.catalog := "";
      this.notes := [];
      this.requests := [];
      this.executions := [];
    }

    /** Only the system prompt is kept. */
    method Clear()
      requires Valid()
      modifies `messages, `notes
      ensures Valid() && notes == []
      ensures messages == old(messages)[..if old(messages) == [] then 0 else 1]
    {
      hide WellPaired;
      if messages != [] {
        SystemAlone(mode, messages);
        messages := messages[..1];
      }
      notes := [];
    }

    /** A command of the user is noted, redacted, for the next message. */
    method Shell(command: string, output: ToolOutput)
      requires Valid()
      modifies `notes
      ensures Valid()
      ensures IsBlank(command) ==> notes == old(notes)
      ensures !IsBlank(command) ==>
                notes == old(notes) + [ShellNote(command, output)] && Redactor.ShowsNoValue(notes[|notes| - 1])
    {
      hide WellPaired, Redactor.Redacted, IsBlank, Redactor.ShowsNoValue;
      if IsBlank(command) {
        return;
      }
      Redactor.RedactedShowsNoValue("[The user ran a shell command in the workspace]\n$ " + command + "\n"
        + output.text);
      notes := notes + [ShellNote(command, output)];
    }

    /** Switches to prompt text once, when the provider says that it has no tools. */
    method FallbackToPrompt(unsupported: bool) returns (switched: bool)
      requires Valid() && messages != []
      modifies `mode, `messages
      ensures Valid() && messages != []
      ensures switched <==> old(mode).NativeTools? && unsupported
      ensures switched ==> mode.PromptText? && FellBack(env, systemText(PromptText, catalog), old(messages), messages)
      ensures !switched ==> mode == old(mode) && messages == old(messages)
    {
      hide WellPaired, PromptHistory, Justified;
      if mode != NativeTools || !unsupported {
        return false;
      }
      FallbackIsSound(env, systemText(PromptText, catalog), messages);
      mode := PromptText;
      messages := RewriteHistory(env, messages);
      messages := messages[0 := Plain(System, systemText(mode, catalog))];
      switched := true;
    }

    /** The history as the next request would send it. */
    ghost function Next(): Request
      reads this
    {
      Request(mode, messages, autoApprove)
    }

    /** One model request, sent again at most once after dropping native tools. */
    method Complete(world: World, first: nat) returns (answer: Option<Reply>, sent: nat)
      requires Valid() && messages != []
      modifies `mode, `messages, `requests
      ensures Valid() && messages != []
      ensures 1 <= sent <= 2
      ensures requests == old(requests) + [old(Next())] + (if sent == 2 then [Next()] else [])
      ensures answer == (if world.reply(first + sent - 1).Answer? then Some(world.reply(first + sent - 1)) else None)
      ensures sent == 1 ==> Next() == old(Next())
      ensures var reply := world.reply(first);
              sent == 2 <==> old(mode).NativeTools? && reply.Failed? && reply.toolsUnsupported && !reply.cancelled
      ensures sent == 2 <==> Retries(old(mode), world.reply(first))
      ensures sent == 2 ==> mode.PromptText? && FellBack(env, systemText(PromptText, catalog), old(messages), messages)
    {
      hide WellPaired, PromptHistory, FellBack, Justified, GoodRequests, Sound;
      sent := 0;
      while true
        invariant Valid() && messages != []
        invariant sent <= 1
        invariant sent == 0 ==> requests == old(requests) && Next() == old(Next())
        invariant sent == 1 ==>
                    && requests == old(requests) + [old(Next())]
                    && Retries(old(mode), world.reply(first)) && mode.PromptText?
                    && FellBack(env, systemText(PromptText, catalog), old(messages), messages)
        decreases 1 - sent
      {
        RequestSnoc(requests, Next());
        requests := requests + [Next()];
        var reply := world.reply(first + sent);
        sent := sent + 1;
        if reply.Answer? {
          return Some(reply), sent;
        }
        if reply.cancelled {
          return None, sent;
        }
        var switched := FallbackToPrompt(reply.toolsUnsupported);
        if !switched {
          return None, sent;
        }
      }
    }

    /** One call: parsed, classified, approved if it needs to be, and run. */
    method RunCall(world: World, call: ToolCall, n: nat, j: nat) returns (title: string, output: ToolOutput)
      requires Valid()
      modifies `autoApprove, `executions
      ensures Valid()
      ensures title == CallTitle(env, call)
      ensures var ran := RanCall(env, world, n, j, call, old(autoApprove));
              output == ran.output && executions == old(executions) + ran.executed && autoApprove == ran.consent
      ensures var r := ParseCall(env, call.name, call.arguments);
              var asked := r.Ok? && world.classify(r.value).Mutating? && !old(autoApprove);
              executions == old(executions) <==>
                r.Err? || world.classify(r.value).Blocked? || (asked && world.approval(n, j).No?)
      ensures old(autoApprove) ==> autoApprove
    {
      hide WellPaired, AllPlain, GoodRequests, Title, ParseCall, Redactor.Redacted;
      var r := ParseCall(env, call.name, call.arguments);
      if r.Err? {
        return call.name, ToolOutput(Redactor.Redacted("error: " + r.error), false);
      }
      var inv := r.value;
      title := Title(env, inv);
      var safety := world.classify(inv);
      var answer: Option<Approval> := None;
      match safety {
      case ReadOnly =>
      case Blocked(reason) => return title, ToolOutput(Redactor.Redacted("refused: " + reason), false);
      case Mutating =>
        if !autoApprove {
          answer := Some(world.approval(n, j));
          match answer.value {
          case Yes =>
          case Always => autoApprove := true;
          case No =>
            var text := if world.cancelled(n, j) then "cancelled" else "the user declined to run this command";
            return title, ToolOutput(Redactor.Redacted(text), false);
          }
        }
      }
      var e := Execution(inv, safety, answer);
      JustifiedSnoc(initialConsent, executions, e);
      AlwaysStays(executions, e);
      executions := executions + [e];
      output := world.output(n, j);
    }

    /** The calls of one message in order, until one is cancelled. */
    method RunCalls(world: World, n: nat, calls: seq<ToolCall>) returns (results: seq<Done>, stopped: bool)
      requires Valid()
      modifies `autoApprove, `executions
      ensures Valid()
      ensures results == ResultsOf(env, world, n, calls, old(autoApprove))
      ensures executions == old(executions) + Executed(env, world, n, calls, old(autoApprove), |results|)
      ensures autoApprove == ConsentAt(env, world, n, calls, old(autoApprove), |results|)
      ensures stopped <==> results != [] && world.cancelled(n, |results| - 1)
    {
      hide Valid, CallTitle, ParseCall, RanCall, RanAt, ConsentAt, Executed, DoneCount, ResultsOf, InOrder;
      hide ResultsSoFar;
      ghost var consent, log: seq<Execution> := autoApprove, [];
      results, stopped := [], false;
      NoCallsYet(env, world, n, calls, consent);
      NothingToDo(world, n, |calls|);
      NoResults(env, world, n, calls, consent);
      assert executions == old(executions) + log;
      for j := 0 to |calls|
        invariant Valid() && consent == old(autoApprove)
        invariant |results| == j && ResultsSoFar(env, world, n, calls, consent, results)
        invariant DoneCount(world, n, 0, |calls|) == DoneCount(world, n, j, |calls|)
        invariant executions == old(executions) + log && log == Executed(env, world, n, calls, consent, j)
        invariant autoApprove == ConsentAt(env, world, n, calls, consent, j)
        invariant !stopped && (j > 0 ==> !world.cancelled(n, j - 1))
      {
        OneMoreCall(env, world, n, calls, consent, j);
        DoneStep(world, n, j, |calls|);
        ghost var ran := RanAt(env, world, n, calls, consent, j);
        var title, output := RunCall(world, calls[j], n, j);
        OneMoreResult(env, world, n, calls, consent, results, Done(calls[j].id, title, output));
        results := results + [Done(calls[j].id, title, output)];
        assert old(executions) + log + ran.executed == old(executions) + (log + ran.executed);
        log := log + ran.executed;
        if world.cancelled(n, j) {
          stopped := true;
          break;
        }
      }
      ResultsAre(env, world, n, calls, consent, results);
    }

    /** The answer and the results of its calls enter the history together. */
    method Exchange(world: World, n: nat, answer: Reply) returns (more: bool)
      requires Valid() && messages != [] && answer.Answer?
      modifies `messages, `autoApprove, `executions
      ensures Valid() && messages != []
      ensures Next() == AfterAnswer(env, world, n, old(Next()), answer)
      ensures executions == old(executions) + ExecutedAfter(env, world, n, old(Next()), answer)
      ensures more <==> GoesOn(env, world, n, mode, answer)
    {
      hide WellPaired, ParseCall, WithIds, ParsePrompt, Answers, GoodRequests, Justified, Sound, AlwaysGiven;
      hide AssistantMessage, FormatResults, RanAt, ConsentAt, Executed, DoneCount, ResultsOf, Responses, Pairs;
      var calls;
      if mode == NativeTools {
        calls := answer.toolCalls;
      } else {
        calls := ParsePromptCalls(env.json, answer.content);
      }
      assert calls == CallsOf(env, mode, answer);
      var said := AssistantMessage(mode, answer);
      if calls == [] {
        AnswerIsSound(env, mode, messages, answer, []);
        assert messages + [said] + [] == messages + [said];
        messages := messages + [said];
        NothingToDo(world, n, 0);
        NoCallsYet(env, world, n, calls, autoApprove);
        return false;
      }
      var results, stopped := RunCalls(world, n, calls);
      AnswerIsSound(env, mode, messages, answer, results);
      var answers;
      if mode == NativeTools {
        answers := AnswerCalls(calls, results);
      } else {
        answers := [Plain(User, FormatResults(Pairs(results)))];
      }
      messages := messages + [said] + answers;
      more := !stopped && !world.cancelled(n, |calls|);
    }

    /** The user's message enters the history, behind the system prompt and the notes. */
    method Open(world: World, text: string) returns (started: bool)
      requires Valid()
      modifies `messages, `notes, `catalog
      ensures Valid()
      ensures started <==> world.endpointReady && (old(messages) == [] ==> world.catalog.Some?)
      ensures !started ==> messages == old(messages) && notes == old(notes) && catalog == old(catalog)
      ensures started ==>
                && notes == [] && messages != []
                && catalog == (if old(messages) == [] then world.catalog.value else old(catalog))
                && messages == Opening(systemText(mode, catalog), old(messages), old(notes), text)
    {
      hide WellPaired, GoodRequests, Justified, Sound, Prepended, AlwaysGiven;
      started := world.endpointReady && (messages == [] ==> world.catalog.Some?);
      if !started {
        return;
      }
      if messages == [] {
        catalog := world.catalog.value;
        messages := [Plain(System, systemText(mode, catalog))];
        FirstMessage(mode, systemText(mode, catalog));
      }
      SoundPlain(mode, messages, User, Prepended(notes, text));
      messages := messages + [Plain(User, Prepended(notes, text))];
      notes := [];
    }

    /** One step of a turn: a request, sent again if native tools are dropped, and the calls of its answer. */
    method Step(world: World, n: nat, ghost step: nat, ghost start: Request, ghost sent: seq<Request>)
      returns (more: bool, count: nat, ghost all: seq<Request>)
      requires Valid() && messages != [] && n == |sent|
      requires UnderWay(Scene(env, systemText(PromptText, catalog), world), step, start, sent, Next())
      modifies `mode, `messages, `requests, `autoApprove, `executions
      ensures Valid() && messages != []
      ensures sent < all && |all| == n + count && requests == old(requests) + all[n..]
      ensures var scene := Scene(env, systemText(PromptText, catalog), world);
              var last := all[|all| - 1];
              && JustSent(scene, step + 1, start, all)
              && TurnLog(scene, all, |all|) == TurnLog(scene, sent, n) + ReplyLog(scene, |all| - 1, last)
              && executions == old(executions) + ReplyLog(scene, |all| - 1, last)
              && Ends(scene, |all| - 1, last, Next(), more)
              && (more ==> Follows(scene, |all| - 1, last, Next()) && Next().mode == last.mode)
    {
      hide Valid, Follows, UnderWay, JustSent, TurnLog, AfterAnswer, ExecutedAfter, GoesOn, FellBack, Retries;
      ghost var scene := Scene(env, systemText(PromptText, catalog), world);
      ghost var asked := Next();
      var answer;
      answer, count := Complete(world, n);
      ghost var last := Next();
      all := sent + [asked] + (if count == 2 then [last] else []);
      StepIsSent(scene, step, start, sent, asked, count, last);
      LogOfStep(scene, sent, all);
      assert all[|all| - 1] == last && all[n..] == [asked] + (if count == 2 then [last] else []);
      if answer == None {
        return false, count, all;
      }
      more := Exchange(world, n + count - 1, answer.value);
      if more {
        AnswerIsFollowed(scene, |all| - 1, last, Next());
      }
    }

    /** One turn: requests and calls until the model stops asking, fails, or runs out of steps. */
    method Turn(world: World, text: string)
      requires Valid()
      modifies this
      ensures Valid()
      ensures old(requests) <= requests && (old(mode).PromptText? ==> mode.PromptText?)
      ensures var started := world.endpointReady && (old(messages) == [] ==> world.catalog.Some?);
              if !started then
                && Next() == old(Next()) && notes == old(notes)
                && requests == old(requests) && executions == old(executions)
              else
                var scene := Scene(env, systemText(PromptText, catalog), world);
                var start := Request(old(mode),
                  Opening(systemText(old(mode), catalog), old(messages), old(notes), text), old(autoApprove));
                var sent := requests[|old(requests)|..];
                && notes == [] && catalog == (if old(messages) == [] then world.catalog.value else old(catalog))
                && OneTurn(scene, maxSteps, start, sent, Next())
                && executions == old(executions) + TurnLog(scene, sent, |sent|)
    {
      hide Valid, Opening, Follows, UnderWay, JustSent, OneTurn, TurnLog, Ends, ReplyLog;
      var started := Open(world, text);
      if !started {
        return;
      }
      ghost var scene := Scene(env, systemText(PromptText, catalog), world);
      ghost var start := Next();
      ghost var sent: seq<Request> := [];
      NothingSent(scene, start);
      TurnWithoutSteps(scene, start);
      var n := 0;
      for step := 0 to maxSteps
        invariant Valid() && messages != [] && notes == []
        invariant catalog == (if old(messages) == [] then world.catalog.value else old(catalog))
        invariant requests == old(requests) + sent && n == |sent|
        invariant executions == old(executions) + TurnLog(scene, sent, n)
        invariant UnderWay(scene, step, start, sent, Next())
        invariant step == maxSteps ==> OneTurn(scene, maxSteps, start, sent, Next())
      {
        ghost var before := sent;
        var more, count;
        more, count, sent := Step(world, n, step, start, before);
        n := n + count;
        assert sent == before + sent[|before|..];
        if !more || step + 1 == maxSteps {
          TurnEnds(scene, step + 1, maxSteps, start, sent, Next(), more);
        }
        if !more {
          break;
        }
        TurnGoesOn(scene, step + 1, start, sent, Next());
      }
      assert requests[|old(requests)|..] == sent;
      TurnKeepsMode(scene, maxSteps, start, sent, Next());
    }
  }

  /** Every call id gets a response, even if cancelled. */
  method AnswerCalls(calls: seq<ToolCall>, results: seq<Done>) returns (messages: seq<Message>)
    ensures messages == Responses(calls, results)
  {
    messages := [];
    for i := 0 to |calls|
      invariant messages == Responses(calls, results)[..i]
    {
      var text := FindText(results, calls[i].id).GetOr("cancelled");
      messages := messages + [ToolResult(calls[i].id, text)];
      assert Responses(calls, results)[..i + 1] == Responses(calls, results)[..i] + [ToolResult(calls[i].id, text)];
    }
  }

  function Opening(system: string, ms: seq<Message>, notes: seq<string>, text: string): seq<Message> {
    (if ms == [] then [Plain(System, system)] else ms) + [Plain(User, Prepended(notes, text))]
  }

  /** A turn opens with the history so far, or the system prompt, and then the user's message with the notes. */
  lemma OpeningIs(system: string, ms: seq<Message>, notes: seq<string>, text: string)
    ensures var o := Opening(system, ms, notes, text);
            && |o| == (if ms == [] then 2 else |ms| + 1)
            && (ms == [] ==> o[0] == Message(System, Some(system), [], None)) && (ms != [] ==> o[..|ms|] == ms)
            && o[|o| - 1] == Message(User, Some(Prepended(notes, text)), [], None)
  {
    hide Prepended;
  }

  lemma FirstMessage(mode: Mode, text: string)
    ensures Sound(mode, [Plain(System, text)])
  {
    WellPairedOne(Plain(System, text));
  }

  /** Requests sent in a number of steps, the last of them still without its reply. */
  predicate JustSent(scene: Scene, steps: nat, start: Request, sent: seq<Request>) {
    && sent != [] && sent[0] == start
    && (forall i | 0 <= i < |sent| - 1 :: Follows(scene, i, sent[i], sent[i + 1]))
    && (start.mode.PromptText? ==> sent[|sent| - 1].mode.PromptText?)
    && |sent| == steps + (if sent[|sent| - 1].mode == start.mode then 0 else 1)
  }

  lemma NothingSent(scene: Scene, start: Request)
    ensures UnderWay(scene, 0, start, [], start) && TurnLog(scene, [], 0) == []
  {
    hide Follows;
    assert [] + [start] == [start];
  }

  lemma AnswerIsFollowed(scene: Scene, i: nat, a: Request, b: Request)
    requires scene.world.reply(i).Answer? && GoesOn(scene.env, scene.world, i, a.mode, scene.world.reply(i))
    requires b == AfterAnswer(scene.env, scene.world, i, a, scene.world.reply(i))
    ensures Follows(scene, i, a, b)
  {
    hide GoesOn, AfterAnswer;
  }

  lemma TurnKeepsMode(scene: Scene, maxSteps: nat, start: Request, sent: seq<Request>, end: Request)
    requires OneTurn(scene, maxSteps, start, sent, end)
    ensures start.mode.PromptText? ==> end.mode.PromptText?
  {
    hide Follows, Ends;
  }

  lemma TurnWithoutSteps(scene: Scene, start: Request)
    ensures OneTurn(scene, 0, start, [], start)
  {}

  lemma StepIsSent(scene: Scene, steps: nat, start: Request, sent: seq<Request>, asked: Request, count: nat,
      last: Request)
    requires UnderWay(scene, steps, start, sent, asked)
    requires count == 1 || count == 2
    requires count == 1 ==> last == asked
    requires count == 2 ==>
               && Retries(asked.mode, scene.world.reply(|sent|))
               && last.mode.PromptText? && last.consent == asked.consent
               && FellBack(scene.env, scene.system, asked.messages, last.messages)
    ensures JustSent(scene, steps + 1, start, sent + [asked] + (if count == 2 then [last] else []))
  {
    hide FellBack, AfterAnswer, GoesOn;
    var so := sent + [asked];
    var all := so + (if count == 2 then [last] else []);
    forall i | 0 <= i < |all| - 1 ensures Follows(scene, i, all[i], all[i + 1]) {
      if i < |sent| {
        assert all[i] == sent[i] && all[i + 1] == so[i + 1];
      }
    }
    assert all[0] == so[0];
  }

  lemma TurnEnds(scene: Scene, steps: nat, maxSteps: nat, start: Request, sent: seq<Request>, end: Request, more: bool)
    requires 0 < steps <= maxSteps && JustSent(scene, steps, start, sent)
    requires Ends(scene, |sent| - 1, sent[|sent| - 1], end, more) && (more ==> steps == maxSteps)
    ensures OneTurn(scene, maxSteps, start, sent, end)
  {
    hide Follows, AfterAnswer, GoesOn, Retries;
  }

  lemma TurnGoesOn(scene: Scene, steps: nat, start: Request, sent: seq<Request>, next: Request)
    requires JustSent(scene, steps, start, sent)
    requires Follows(scene, |sent| - 1, sent[|sent| - 1], next) && next.mode == sent[|sent| - 1].mode
    ensures UnderWay(scene, steps, start, sent, next)
  {
    hide Follows;
    var so := sent + [next];
    forall i | 0 <= i < |sent| ensures Follows(scene, i, sent[i], so[i + 1]) {
      assert i < |sent| - 1 ==> so[i + 1] == sent[i + 1];
    }
  }

  lemma {:induction false} LogPrefix(scene: Scene, a: seq<Request>, b: seq<Request>, k: nat)
    requires a <= b && k <= |a|
    ensures TurnLog(scene, a, k) == TurnLog(scene, b, k)
    decreases k
  {
    hide ReplyLog;
    if k > 0 {
      LogPrefix(scene, a, b, k - 1);
    }
  }

  lemma LogSnoc(scene: Scene, sent: seq<Request>, k: nat)
    requires k < |sent|
    ensures TurnLog(scene, sent, k + 1) == TurnLog(scene, sent, k) + ReplyLog(scene, k, sent[k])
  {
    hide ReplyLog;
  }

  /** A step adds to the log what its answer executed; a request that is sent again executed nothing. */
  lemma LogOfStep(scene: Scene, sent: seq<Request>, all: seq<Request>)
    requires sent <= all && |sent| + 1 <= |all| <= |sent| + 2
    requires |all| == |sent| + 2 ==> scene.world.reply(|sent|).Failed?
    ensures TurnLog(scene, all, |all|) == TurnLog(scene, sent, |sent|) + ReplyLog(scene, |all| - 1, all[|all| - 1])
  {
    hide TurnLog, ExecutedAfter;
    LogPrefix(scene, sent, all, |sent|);
    LogSnoc(scene, all, |all| - 1);
    if |all| == |sent| + 2 {
      LogSnoc(scene, all, |sent|);
      assert TurnLog(scene, all, |sent|) + [] == TurnLog(scene, all, |sent|);
    }
  }

  lemma AlwaysStays(log: seq<Execution>, e: Execution)
    ensures AlwaysGiven(log) || e.answer == Some(Always) ==> AlwaysGiven(log + [e])
  {
    if AlwaysGiven(log) {
      var x :| x in log && x.answer == Some(Always);
      assert x in log + [e];
    } else if e.answer == Some(Always) {
      assert e in log + [e];
    }
  }

  lemma AnswerAlone(mode: Mode, ms: seq<Message>, said: Message)
    requires Sound(mode, ms) && ms != [] && said.role.Assistant? && said.toolCalls == []
    requires mode.PromptText? ==> IsPlain(said)
    ensures Sound(mode, ms + [said])
  {
    hide WellPaired;
    WellPairedOne(said);
    SoundAppend(mode, ms, [said]);
  }

  /** An answer and the results of its calls keep the protocol in either mode. */
  lemma AnswerIsSound(env: Env, mode: Mode, ms: seq<Message>, answer: Reply, results: seq<Done>)
    requires Sound(mode, ms) && ms != [] && answer.Answer?
    ensures var said, calls := AssistantMessage(mode, answer), CallsOf(env, mode, answer);
            Sound(mode, ms + [said] + ResultMessages(mode, calls, results))
  {
    hide WellPaired, WithIds, ParsePrompt, Answers, FormatResults, Pairs, Responses, Sound;
    var said, calls := AssistantMessage(mode, answer), CallsOf(env, mode, answer);
    if calls == [] {
      AnswerAlone(mode, ms, said);
      assert ms + [said] + [] == ms + [said];
    } else if mode.NativeTools? {
      ExchangeIsSound(mode, ms, said, Responses(calls, results));
    } else {
      SoundPlain(mode, ms, Assistant, answer.content);
      SoundPlain(mode, ms + [said], User, FormatResults(Pairs(results)));
    }
  }

  lemma ExchangeIsSound(mode: Mode, ms: seq<Message>, said: Message, responses: seq<Message>)
    requires mode.NativeTools? && Sound(mode, ms) && ms != []
    requires said.role.Assistant? && Answers(said.toolCalls, responses)
    ensures Sound(mode, ms + [said] + responses)
  {
    hide WellPaired, Answers;
    WellPairedExchange(said, responses);
    SoundAppend(mode, ms, [said] + responses);
    assert ms + ([said] + responses) == ms + [said] + responses;
  }

  lemma SystemAlone(mode: Mode, ms: seq<Message>)
    requires Sound(mode, ms) && ms != []
    ensures Sound(mode, ms[..1])
  {
    assert ms[0].toolCalls == [];
    assert ms[..1] == [ms[0]];
    WellPairedOne(ms[0]);
  }

  // ---- Whole sessions -----------------------------------------------------------------------

  datatype UserCommand = Send(text: string) | ClearHistory | UserShell(command: string, output: ToolOutput)

  /** What the protocol promises about one request, place by place. */
  predicate GoodRequest(r: Request) {
    && r.messages != [] && r.messages[0].role.System?
    && (forall i | 0 <= i < |r.messages| && r.messages[i].toolCalls != [] ::
          i + |r.messages[i].toolCalls| < |r.messages| &&
          Answers(r.messages[i].toolCalls, r.messages[i + 1..i + 1 + |r.messages[i].toolCalls|]))
    && (r.mode.PromptText? ==> AllPlain(r.messages))
  }

  lemma SoundIsGood(r: Request)
    requires r.messages != [] && Sound(r.mode, r.messages)
    ensures GoodRequest(r)
  {
    hide WellPaired, Answers, AllPlain;
    var ms := r.messages;
    forall i | 0 <= i < |ms| && ms[i].toolCalls != []
      ensures i + |ms[i].toolCalls| < |ms| && Answers(ms[i].toolCalls, ms[i + 1..i + 1 + |ms[i].toolCalls|])
    {
      OnlyAssistantsCall(ms, i);
      EveryCallIsAnswered(ms, i);
    }
  }

  /** Only assistant messages make calls. */
  lemma {:induction false} OnlyAssistantsCall(ms: seq<Message>, i: nat)
    requires WellPaired(ms) && i < |ms| && ms[i].toolCalls != []
    ensures ms[i].role.Assistant?
    decreases |ms|
  {
    hide Answers;
    var k := 1 + |ms[0].toolCalls|;
    AnswersLength(ms[0].toolCalls, ms[1..k]);
    assert forall j | 0 < j < k :: ms[j] in ms[1..k];
    if i > 0 {
      assert ms[k..][i - k] == ms[i];
      OnlyAssistantsCall(ms[k..], i - k);
    }
  }

  /** Every request of a session, whatever the user and the world do, keeps the protocol. */
  method Converse(env: Env, maxSteps: nat, systemText: (Mode, string) -> string, mode: Mode, autoApprove: bool,
      commands: seq<UserCommand>, world: nat -> World) returns (agent: Agent)
    ensures agent.Valid() && agent.initialConsent == autoApprove
    ensures forall r | r in agent.requests :: GoodRequest(r)
    ensures forall i, j | 0 <= i < j < |agent.requests| && agent.requests[i].mode.PromptText? ::
              agent.requests[j].mode.PromptText?
    ensures mode.PromptText? ==> agent.mode.PromptText?
    ensures Justified(autoApprove, agent.executions)
  {
    agent := new Agent(env, maxSteps, systemText, mode, autoApprove);
    for i := 0 to |commands|
      invariant agent.Valid() && fresh(agent) && agent.initialConsent == autoApprove
      invariant mode.PromptText? ==> agent.mode.PromptText?
    {
      hide *;
      match commands[i] {
      case Send(text) => agent.Turn(world(i), text);
      case ClearHistory => agent.Clear();
      case UserShell(command, output) => agent.Shell(command, output);
      }
    }
    forall r | r in agent.requests ensures GoodRequest(r) {
      SoundIsGood(r);
    }
  }
}
