# A verified model of mistl's hard core

mistl is a peer-to-peer node with an AI network, an embedded terminal agent and signed wire messages.
This project models the parts of it where a small mistake is hard to see and proves what they promise:

* **Child output** (`Text`, `Utf8`, `Escapes`, `Redactor`, `Capture`, `Process`, `Workspace`): bytes arrive in
  arbitrary chunks and pass through an incremental UTF-8 decoder, an escape-sequence state machine, a token
  redactor and a bounded capture. The chunked code equals one function of all the bytes. Reading a file page by
  page is treated the same way.
* **Tool calls** (`Words`, `Json`, `Stringify`, `Tools`, `Prompt`, `RoundTrip`, `History`, `NativeCalls`, `Session`):
  native tool calls, those that do not parse included, are rewritten as fenced text and read back; the session keeps
  the chat protocol through cancellation and through the switch from native tools to prompt text.
* **AI consumer** (`ResponseStream`, `AiConsumer`): reordering of answer chunks, the provider catalog, the pin, the
  trust list, and isolation of requests from other peers.
* **Canonical forms and configuration** (`WireSign`, `Providers`, `External`, `Migration`, `Urls`, `Webhooks`,
  `Origins`): the signed canonical JSON text, merging application registrations, migrating legacy settings, hiding
  and restoring webhook secrets, normalizing browser origins.

## How the model is built

Strings are sequences of Unicode scalar values and `Size` is their length in UTF-8. Bytes are integers below 256.
`IsWhitespace` is Unicode White_Space, as `char::is_whitespace` tests it. Objects that the program updates in place
are classes (`CleanStream`, `OutputRedactor`, `Capture`, `ChildOutput`, `BufReader`, `Wire`, `Agent`, `Consumer`,
`Store`, `Config`), and its loops are methods; each is proved equal to a specification function, and the results below
are proved about those functions. What a specification function fixes by itself (names, limits, texts, which
character ends what, which branch is taken) is stated once more about its results, in literals and without naming its
parts.

JSON values have integer numbers. An object is a list of entries, so that key order can be spoken about; `Same` is
equality up to key order. The JSON library that prints and parses tool calls is a pair of functions with one law
(`Json.Lawful`): what is printed is one line and reads back as the same value, and neither nothing nor text that starts
with `#` is a document. `Stringify.OwnLibraryIsLawful` gives an instance, so the law is not empty. Ed25519 is a pair of
functions of which only "what a key signs verifies under that key's DID, with a signature text of the expected length"
is used. Node ids, the tree of CLI subcommands, the classification of calls, model replies, user answers, tool outputs,
cancellation, saving to disk and the DID of a sender are parameters.

## What turned out not to hold

Each point names the lemmas that state it, with what they assume.

* With a lawful JSON library and subcommand names that are single lines, and for calls that all parse: rewriting a
  message with at least one native call keeps the meaning of its text and of all its calls exactly when the text ends
  outside code fences and each call `Survives` (`RoundTrip.RewritingPreservesMeaning`,
  `NativeCalls.ParsedCallsKeepMeaning`). A `mistl` call with no words, with a first word starting with `#` or three
  backticks, with a lone `$` before other words, or with the program's own name in front does not survive; the overview
  help call is lost (`RoundTrip.OverviewHelpIsLost`). A text that stops inside a code block loses its calls.
* A call that does not parse is written as a comment of which only the first line of its arguments is one. A second
  line can be read back as a command that nobody asked for (`NativeCalls.InventedCall`, for a lawful library that
  rejects the arguments). Under the same two assumptions, after text without fences and as long as no comment has a
  fence line, a message and all its beginnings mean exactly the calls that parse, in order, exactly when those survive
  and every later argument line of a failed `mistl` call is blank or starts with `#` once trimmed, or, for
  `mistl_help`, names no subcommand (`NativeCalls.HistoryKeepsMeaning`); calls written into a `tool` fence are always
  harmless there. `NativeCalls.AnyTextKeepsMeaning` drops the assumption on the text and
  `NativeCalls.NativeCallsKeepMeaning` also that on the comments. Beginnings are needed: a lost call can be made good
  by an invented one (`NativeCalls.LostAndInvented`).
* When a model repeats a call id, every call with that id gets the output of the first and the title of the last of
  them (`Session.ResponsesAreOwn`, `Session.CallsAreAnswered`, `History.ExchangeIsRewritten`); with distinct ids these
  are its own.
* Paging with `limit` 0 names the same offset again and never ends (`Workspace.PagingProgress`, for an offset within
  the file).
* The two escape removers differ on stray escape characters (`Escapes.RemoversDisagreeOnStrayEsc`). They agree on a
  text and all its beginnings exactly when, run side by side, both or neither keep each character
  (`Escapes.RemoversAgreeExactly`); commands that end properly are enough, and more than it takes
  (`Escapes.RemoversAgree`).
* A provider's `trusted` flag speaks of the list at its last hello and goes stale both ways
  (`AiConsumer.TrustFlagGoesStale`, `AiConsumer.TrustFlagOutlivesItsList`). After every run it agrees with the current
  list exactly when the list at the last stored hello and the current one are both empty or both not
  (`AiConsumer.TrustFlagIsCurrent`); the catalog itself is always filtered by the current list.
* For valid registrations of different owners and a lawful URL parser: one owner that registers a provider `room:x` and
  a room `x` gets one id twice (`External.ClashExample`). Added ids are all different exactly when no registration does
  so for a room that the user does not have and no earlier owner lists, and all ids after the merge are exactly when,
  besides, the user's own are and no registration brings one of these in (`External.MergeAddsIds`).
* The migration changes settings without asking for a save exactly when blank legacy stream rooms are all that is left
  of the legacy fields (`Migration.UnreportedChange`, `Migration.UnreportedExample`).
* A configuration that is shown masked and sent back becomes what it was exactly when, for each webhook, the one at its
  place in the first pipeline of its id has the same URL if it has the same mask, and otherwise the URL shows no mask
  and is its own; and each non-empty header value is that of the first header of its name there, under the same origin
  (`Webhooks.MaskThenRestore`, for every configuration). With one id used twice the second pipeline can get the first
  one's URL (`Webhooks.SharedIdExample`). With distinct pipeline ids it is always accepted, and comes back exactly when
  every non-empty header value is that of the first header of its name (`Webhooks.DistinctIdsRestore`).
* A slash behind an accepted origin is ignored exactly when the text ends neither in a slash nor in whitespace; a
  refused text stays refused (`Origins.SlashDoesNotMatter`).
* The limit of 1024 held-back chunks can never be reached from a sound state, and every state of a request is sound
  (`ResponseStream.BufferLimitIsUnreachable`, `ResponseStream.EventsKeepSound`).

## Model

| member | source | states |
|---|---|---|
| Utf8.NextIsStable | src/agent/process.rs:498-526 | a decision of the decoder does not change when more bytes arrive |
| Utf8.BadRunIsMaximalSubpart | src/agent/process.rs:506-521 | a bad run is the longest part that begins a character, or one byte: what becomes one U+FFFD |
| Utf8.BadRunIsReplaced | src/agent/process.rs:506-534 | a bad run, or a character cut off at the end, is shown as one U+FFFD |
| Utf8.ValidExactlyWhenEncoding | src/agent/process.rs:498-526 | bytes decode as valid exactly when they encode some text (section 4 of RFC 3629) |
| Utf8.SettledTwice | src/agent/process.rs:498-526 | text settled from two chunks is that settled from both together, with the undecided bytes carried over |
| Utf8.SettledThenRest | src/agent/process.rs:498-534 | what settles early is a prefix of the lossy decoding of everything |
| Escapes.StripConcat | src/agent/process.rs:536-581 | removing escapes from two pieces in sequence is removing them from both together |
| Escapes.StrippedHasNoEsc | src/agent/process.rs:536-581 | no ESC survives |
| Escapes.SequenceVanishes | src/agent/process.rs:536-581 | a piece that the state machine reads from plain to plain without showing anything disappears, wherever it stands in plain text |
| Escapes.ControlSequenceVanishes | src/agent/process.rs:548-559 | behind ESC and `[`, everything through the first of the characters 0x40 to 0x7E disappears, and nothing else does |
| Escapes.CommandVanishes | src/agent/process.rs:548-573 | behind ESC and `]`, everything through the first BEL, or the first backslash right behind an ESC, disappears, and nothing else does |
| Escapes.PairVanishes | src/agent/process.rs:540-552 | ESC and any other character disappear, and nothing else does |
| Escapes.StripAnsiKeepsPlain | src/agent/mistl_tool.rs:532-564 | text without ESC passes unchanged |
| Escapes.StripAnsiIsMachine | src/agent/mistl_tool.rs:532-564 | the remover's nested skipping loops are a state machine that always leaves a command after ESC and one character |
| Escapes.RemoversAgreeExactly | src/agent/mistl_tool.rs:532-564 | the whole-text remover and the streaming one agree on a text and all its beginnings if and only if both or neither keep each character |
| Escapes.RemoversAgree | src/agent/mistl_tool.rs:532-564 | a sufficient condition for agreement on one text: every command ends properly |
| Escapes.RemoversDisagreeOnStrayEsc | src/agent/mistl_tool.rs:532-564 | an input on which the two removers differ |
| Redactor.StreamingRedacts | src/agent/tools.rs:24-60 | character by character, the redactor emits the whole-text redaction and holds back at most six characters |
| Redactor.FeedAllConcat | src/agent/tools.rs:24-60 | pushing two pieces is pushing both together |
| Redactor.RedactedShowsNoValue | src/agent/tools.rs:24-60 | after every token key in the output stands the mask, the end, or a terminator |
| Redactor.ValueIsMasked | src/agent/tools.rs:24-60 | the value behind the first key of a text, through to whitespace, `&`, a quote or an angle bracket, becomes one `<redacted>`, and what follows is redacted on its own |
| Redactor.OnlyKeysCount | src/agent/tools.rs:24-60 | a text without `?token=` and `&token=` is left as it is |
| Redactor.RedactionIsIdempotent | src/agent/tools.rs:62-67 | redacting again changes nothing |
| Redactor.ValueDoesNotLeak | src/agent/tools.rs:24-60 | two texts that differ only in a non-empty token value are redacted to the same text |
| Redactor.OutputRedactor.Push | src/agent/tools.rs:25-54 | the loop over characters equals the specification, for every state |
| Redactor.OutputRedactor.Finish | src/agent/tools.rs:56-59 | the held characters come out and the state is reset |
| Redactor.RedactOutput | src/agent/tools.rs:62-67 | push then finish is the redaction |
| Process.PushTwice | src/agent/process.rs:498-526 | two pushes equal one push of both chunks |
| Process.ChunkingIsInvisible | src/agent/process.rs:491-581 | for every byte sequence and every chunking, the pushed pieces and the finish concatenate to redact(strip(decode(all bytes))) |
| Process.CleanedIsSafe | src/agent/process.rs:491-581 | the cleaned output has no ESC and shows no token value |
| Process.CleanStream.Push | src/agent/process.rs:498-526 | the decoding loop over `consumed` equals the specification |
| Process.CleanStream.Finish | src/agent/process.rs:528-534 | undecided bytes and held characters come out |
| Process.CleanStream.Clean | src/agent/process.rs:536-581 | the escape loop equals strip then redact |
| Process.Deliver | src/agent/process.rs:468-479 | a chunk reaches only its own stream |
| Process.Observe | src/agent/process.rs:468-479 | what settles goes, unchanged, to the capture and to the live display of its stream |
| Process.ChildOutput.Receive | src/agent/process.rs:397-456 | for any interleaving, each stream has digested exactly its own bytes |
| Process.ChildOutput.FinishStream | src/agent/process.rs:397-456 | a stream's capture and display hold the cleaned form of all its bytes, and the text of the capture shows it whole or as a split |
| Process.ChildOutput.Finish | src/agent/process.rs:397-456 | both streams end with the cleaned form of their own bytes, shown whole or as a split |
| Capture.CaptureConserves | src/agent/process.rs:583-630 | everything appended is head, dropped part and tail, with `omitted` the dropped size and both halves within 512 KiB |
| Capture.OmissionThreshold | src/agent/process.rs:583-630 | when something is omitted, and that without omission the text is the whole input |
| Capture.SplitIsShown | src/agent/process.rs:620-629 | where the input is the longest beginning that fits into 512 KiB, something, and the longest end of the rest that fits, the text is the beginning, a line that counts the bytes of the rest, and the end |
| Capture.WholeOrSplit | src/agent/process.rs:583-630 | every input is shown whole or has such a split |
| Capture.SpillIsVisible | src/agent/process.rs:583-630 | the notice appears exactly when something was dropped |
| Capture.DropInTwoSteps | src/agent/process.rs:591-598 | cutting the log twice is cutting it once |
| Capture.Capture.Append | src/agent/process.rs:606-618 | the result depends only on all text appended; the room subtraction never underflows |
| Capture.Capture.Text | src/agent/process.rs:620-629 | the text of everything appended; it shows that whole, or as the head, the count and the tail of a split |
| Capture.Tail | src/agent/process.rs:583-589 | the longest suffix that fits, cut at a character |
| Capture.AppendTail | src/agent/process.rs:591-598 | the log keeps its newest bytes and reports how many it lost |
| Workspace.ReadDisplayLine | src/agent/workspace.rs:709-757 | one line, cut to 300 characters and a mark, however the bytes are cut into buffers |
| Workspace.ReadFile | src/agent/workspace.rs:651-698 | succeeds exactly for valid UTF-8 without NUL, with the line count and page of the simple split |
| Workspace.FileFromLines | src/agent/workspace.rs:651-698 | a file is text exactly when its first line and the rest are |
| Workspace.PagingShowsEveryLine | src/agent/workspace.rs:651-698 | following the named offsets shows every line once, in order |
| Workspace.PagingProgress | src/agent/workspace.rs:651-698 | the next offset makes progress exactly for a positive limit |
| Workspace.PageLine | src/agent/workspace.rs:651-698 | a shown line is its number, a colon, a space and the line |
| Workspace.LineIsShown | src/agent/workspace.rs:709-757 | a line of up to 300 characters is shown whole, a longer one cut there with an ellipsis |
| Workspace.StrayBreaksAreBlank | src/agent/workspace.rs:709-757 | a carriage return inside a line is shown as a space |
| Words.SplitOfLine | src/agent/mistl_tool.rs:137-185 | splitting the space-joined quoted words gives back the words, for every list of strings |
| Words.SingleQuoted | src/agent/mistl_tool.rs:137-185 | between single quotes every character stands for itself, and quoted and bare parts make one word |
| Words.DoubleQuoted | src/agent/mistl_tool.rs:137-185 | between double quotes a backslash hides a double quote or a backslash, and else stands for itself |
| Words.BackslashOutside | src/agent/mistl_tool.rs:137-185 | outside quotes a backslash hides a quote of either kind, and else stands for itself |
| Words.SpaceSeparates | src/agent/mistl_tool.rs:137-185 | any whitespace separates words, and none of it is left |
| Words.LineIsTrimmed | src/agent/mistl_tool.rs:363-372 | the line of quoted words has no whitespace at its ends |
| Words.LineAddsOnlySyntax | src/agent/mistl_tool.rs:363-372 | quoting adds only quotes, backslashes and spaces |
| Words.SplitArgsLoop | src/agent/mistl_tool.rs:137-185 | the splitter's loop equals the specification |
| Tools.ParsedIsInvocation | src/agent/tools.rs:198-264 | every call that parses gives a well-formed invocation |
| Tools.ByName | src/agent/tools.rs:221-263 | each tool's name picks its own arguments |
| Tools.JustParses | src/agent/tools.rs:222-226 | the arguments of `just` by their keys |
| Tools.GrepParses | src/agent/tools.rs:234-239 | the arguments of `grep` by their keys |
| Tools.ReadFileParses | src/agent/tools.rs:240-250 | the arguments of `read_file` by their keys |
| Tools.PairsParse | src/agent/tools.rs:230-260 | the arguments of `find_files`, `shell`, `process_output` and `process_stop` by their keys |
| Tools.OptionalArguments | src/agent/tools.rs:222-273 | arguments that may be left out, and what they then are: no words, no path, no background |
| Tools.OptionalLimits | src/agent/tools.rs:234-290 | the same for limits, paths and flags of `grep`, `read_file` and `process_output` |
| Tools.TextIsRequired | src/agent/tools.rs:210-254 | without its required text, or with a blank one, no such call parses |
| Tools.NumbersAreLimited | src/agent/tools.rs:215-290 | numbers are read exactly from 0 to the largest of 64 bits; process ids are positive and of 32 bits; offset 0 is refused |
| Tools.OtherTools | src/agent/tools.rs:261-263 | other names are no tools |
| Tools.ArgumentsAreRead | src/agent/tools.rs:198-209 | arguments are a JSON document, for the program's two tools without the space around it; nothing at all is an object without members, and other tools take objects only |
| Tools.MistlArguments | src/agent/mistl_tool.rs:76-135 | the words of a `mistl` call under `args`, as a list or one line, with or without the program's name in front |
| Tools.HelpArguments | src/agent/mistl_tool.rs:76-135 | a request for help under `command` or `args`, with or without the flag behind it, is accepted exactly for help paths |
| Tools.HelpPathsAre | src/agent/mistl_tool.rs:233-245 | a path goes through the first subcommand that answers to each word, and only by its own name |
| Tools.NumbersInText | src/agent/tools.rs:275-290 | a number may be given as text, with a plus sign or without, within 64 bits |
| Tools.CommandTitles | src/agent/tools.rs:353-402 | the titles of commands are command lines that split into the program and its words |
| Tools.ObjectFieldsParse | src/agent/tools.rs:403-496 | the JSON fields that a call is rendered to parse to that call |
| Prompt.ParseLinesConcat | src/agent/prompt.rs:61-155 | the line machine can be stopped and resumed anywhere |
| Prompt.ParseLinesFrame | src/agent/prompt.rs:61-155 | calls already found do not influence later ones |
| Prompt.FenceNames | src/agent/prompt.rs:90-100 | which words behind the backticks, in any case, name which fence |
| Prompt.LineMeans | src/agent/prompt.rs:86-145 | what a line does outside fences, in a `tool` fence and in any other: what opens, what closes, what is collected |
| Prompt.IdsAreDistinct | src/agent/prompt.rs:76-85 | ids within one message never repeat |
| Prompt.ParsePromptCalls | src/agent/prompt.rs:61-155 | the loop over lines equals the specification |
| RoundTrip.PromptStripped | src/agent/prompt.rs:124-150 | a shell prompt is removed exactly for a lone `$` before other words |
| RoundTrip.ObjectReadsBack | src/agent/tools.rs:403-496 | a call in a `tool` fence reads back as itself, less a leading program name |
| RoundTrip.BlockMeaning | src/agent/session.rs:114-144 | a block read outside fences gives exactly its call if and only if the call survives |
| RoundTrip.RewritingPreservesMeaning | src/agent/session.rs:114-144 | for every text, the rewritten message means what the text meant followed by exactly the native calls, if and only if there are none, or the text ends outside fences and all of them survive |
| RoundTrip.PlainTextRewriting | src/agent/session.rs:114-144 | for text without fences the message means exactly the native calls, if and only if all survive |
| RoundTrip.OpenFenceLosesCalls | src/agent/session.rs:114-144 | after a text that ends inside a fence, calls are lost whatever they are |
| RoundTrip.OverviewHelpIsLost | src/agent/session.rs:605-660 | the help call with an empty path is lost |
| History.RewriteHistory | src/agent/session.rs:83-155 | the loop over messages, titles and results equals the specification |
| History.RewrittenIsPlain | src/agent/session.rs:145-155 | no message keeps a tool field or the tool role |
| History.RewritingIsIdempotent | src/agent/session.rs:83-155 | rewriting again changes nothing |
| History.MessageHasItsPlace | src/agent/session.rs:109-151 | every message but results keeps its place, after the rewriting of what came before, with its own text, or none if it has none, and its calls added |
| History.ExchangeIsRewritten | src/agent/session.rs:83-155 | a call message with its results becomes that text and one user message that tells each result under the title of the last call with its id: its own if ids differ |
| History.StrayResultIsTold | src/agent/session.rs:88-110 | the result of a call that is not in the history is told under the title `tool (unknown call)` |
| History.FailedCallIsComment | src/agent/session.rs:124-143 | a call that does not parse is written into a fence of its tool, as a comment with the reason, the name and the arguments |
| History.FormattedTellsAll | src/agent/prompt.rs:177-192 | results are told under one heading, in order, each as `$ ` and its title, its output without the whitespace at the end, and `status: ok` exactly when it succeeded, else `status: failed` |
| History.SuccessIsRead | src/agent/session.rs:98-108 | a stored result counts as a success exactly when its first line is `exit code: 0` without a `[note]` anywhere, or is no exit code and none of the four failures |
| NativeCalls.CarriesIsMeaning | src/agent/session.rs:114-144 | wherever it is read, a block means what its call asks for exactly when the call is kept there: one that parses must survive outside fences, or meet what an open `tool` fence held |
| NativeCalls.QuietMeansSilent | src/agent/session.rs:122-134 | the comment for a call that does not parse gives no call exactly when its later argument lines are harmless |
| NativeCalls.NativeCallsKeepMeaning | src/agent/session.rs:114-144 | for any text and any calls: the message with its first calls, however many, means exactly those that parse, in order, if and only if each block keeps its call where the parser reaches it |
| NativeCalls.AnyTextKeepsMeaning | src/agent/session.rs:114-144 | for any text, and calls whose comments have no fence line, the same with the condition on the calls alone: fair ones outside fences, none that parses inside one |
| NativeCalls.HistoryKeepsMeaning | src/agent/session.rs:114-144 | after plain text the rewritten message means exactly the calls that parse, in order, for all beginnings of the list if and only if these survive and the others are harmless |
| NativeCalls.ParsedCallsKeepMeaning | src/agent/session.rs:114-144 | when all calls parse, the whole message means its text and exactly the calls, if and only if there are none, or the text ends outside fences and all survive |
| NativeCalls.ShellLine | src/agent/prompt.rs:136-141 | a line of a shell fence that runs the program, with or without a `$` in front, asks for exactly that call |
| NativeCalls.OtherCommands | src/agent/prompt.rs:136-141 | any other line of a shell fence asks for nothing |
| NativeCalls.ToolFenceMeans | src/agent/prompt.rs:157-173 | the body of a `tool` fence with a name and an arguments object is a call of that tool with these arguments |
| NativeCalls.OtherToolFences | src/agent/prompt.rs:157-173 | any other body asks for nothing |
| NativeCalls.UnclosedFences | src/agent/prompt.rs:147-153 | a `tool` fence that is not closed adds one call that is refused, and any other fence none |
| NativeCalls.InventedCall | src/agent/session.rs:122-134 | a call that does not parse and whose rewriting is read as a command |
| NativeCalls.LostAndInvented | src/agent/session.rs:114-144 | a message in which a call is lost and another one invented, so that only the whole looks right |
| Session.EveryCallIsAnswered | src/agent/session.rs:449-461 | in a well-paired history each call's result follows, in order |
| Session.CallRunsExactlyWhen | src/agent/session.rs:483-548 | a call runs exactly if it parses, is not blocked, and is read-only, consented to or approved; consent comes only from `Always` |
| Session.WhyItDidNotRun | src/agent/session.rs:489-532 | the output of a call that did not run says why: the error, the refusal, the decline, or the cancellation |
| Session.CallsAreAnswered | src/agent/session.rs:439-461 | the history answers a call with what became of the first call with its id, itself if ids differ: its output, the reason why it did not run, or `cancelled` if it was never reached |
| Session.CallsEnter | src/agent/session.rs:426-461 | with native tools the answer enters the history with its calls, and behind it one result for each, in order, under its id |
| Session.CallsAreTold | src/agent/session.rs:439-471 | in prompt mode the answer to calls is one user message that tells the title, the output and the outcome of every call that was looked at, in order, and of no other |
| Session.GoesOnExactlyWhen | src/agent/session.rs:426-471 | a turn goes on after an answer exactly when it made calls and nothing was cancelled |
| Session.FailureIsKept | src/agent/session.rs:483-548 | a call that did not run is also read as failed from the text that is kept of it |
| Session.AnswerIsSound | src/agent/session.rs:426-471 | an answer with its results keeps the protocol in either mode |
| Session.AnswerCalls | src/agent/session.rs:449-461 | the loop that gives every call id a response |
| Session.ResponsesAreOwn | src/agent/session.rs:449-461 | a call is answered by the output of the first call with its id, or `cancelled` if that never ran; with distinct ids by its own |
| Session.PrependedInOrder | src/agent/session.rs:67-75 | shell notes stand before the message, in order |
| Session.NoteShows | src/agent/session.rs:59-65 | a note is a heading, the command and its output, unless these name a token |
| Session.FallbackIsSound | src/agent/session.rs:358-370 | the rewritten history is well formed and has a place for the system prompt |
| Session.Agent.Clear | src/agent/session.rs:242-245 | only the system prompt is kept |
| Session.Agent.Shell | src/agent/session.rs:247-278 | a command is noted redacted; a blank one is not |
| Session.Agent.FallbackToPrompt | src/agent/session.rs:358-370 | switches exactly in native mode on an unsupported-tools error, and rewrites the history |
| Session.Agent.Complete | src/agent/session.rs:393-425 | the retry loop sends at most twice, and twice exactly after an answer, in native mode, that tools are not supported |
| Session.Agent.RunCall | src/agent/session.rs:483-548 | output, execution record and consent of one call, and exactly when it runs |
| Session.Agent.RunCalls | src/agent/session.rs:439-447 | calls run in order until one is cancelled, each result under its id and title with that call's own output, and the log grows by exactly the calls that ran |
| Session.Agent.Exchange | src/agent/session.rs:426-471 | the next request is the last one with the answer and the results of its calls added, as `CallsEnter` or `CallsAreTold` say; the turn goes on exactly as `GoesOnExactlyWhen` says |
| Session.Agent.Step | src/agent/session.rs:393-471 | one request, sent again if tools are dropped, with the calls of its answer |
| Session.Agent.Open | src/agent/session.rs:372-391 | the opening history of a turn, or no change at all |
| Session.Agent.Turn | src/agent/session.rs:372-481 | a started turn with steps sends the opening history, each further request follows from the reply to the one before, at most one more than the steps; how it ends, the history and the executions are fixed by the replies; the mode never returns to native |
| Session.Converse | src/agent/session.rs:183-217 | in every session every request starts with the system message, answers every call in order, and after the switch is plain; no blocked call runs, and a state-changing one only on consent |
| ResponseStream.ChunkKeeps | src/ai/consumer.rs:633-697 | held-back numbers lie in (next, next+1024], forwarded deltas concatenate to the content, content and held-back bytes are each within 8 MiB |
| ResponseStream.BufferLimitIsUnreachable | src/ai/consumer.rs:654-660 | by counting, the separate limit of 1024 chunks never fires |
| ResponseStream.ReorderingIsInvisible | src/ai/consumer.rs:633-697 | in any order and with repeats the content is the answer up to the first missing chunk, exactly when no chunk is too far ahead |
| ResponseStream.CompleteAnswer | src/ai/consumer.rs:633-697 | once all chunks have arrived the content is the whole answer and nothing is held back |
| ResponseStream.AnswerIsRestored | src/ai/consumer.rs:633-725 | the request resolves with the whole answer |
| ResponseStream.UnnumberedAreAppended | src/ai/consumer.rs:646-657 | chunks without numbers are appended as they come, up to 8 MiB, and leave the numbered ones alone |
| ResponseStream.EndOfAnswer | src/ai/consumer.rs:699-728 | a request ends with the final text, or else the content, and with the tool calls if there are any; more than 128 calls, more than 8 MiB or no list are refused |
| ResponseStream.FailureEnds | src/ai/consumer.rs:729-741 | a failure ends the request with its message, and its code if there is one |
| ResponseStream.EventsKeepSound | src/ai/consumer.rs:633-741 | the limits hold in every state of every request |
| ResponseStream.SumBytes | src/ai/consumer.rs:662-665 | the sum over held-back chunks |
| ResponseStream.DrainLoop | src/ai/consumer.rs:677-686 | the draining loop equals the specification, also where it stops |
| ResponseStream.ApplyChunk | src/ai/consumer.rs:646-688 | one chunk, all branches and errors |
| ResponseStream.RunRequest | src/ai/consumer.rs:633-741 | the request loop: its outcome, and forwarded deltas within the limit in every outcome |
| AiConsumer.RunKeeps | src/ai/consumer.rs:173-382 | every run keeps this: at most 256 entries keyed by node, the pin is one of them and advertises chat, and a non-empty list matches all |
| AiConsumer.ListRules | src/ai/consumer.rs:86-94 | after every run of a fresh consumer with a list: every entry and the pin have a verified DID that the list names, or in any case the node id that it hashes to; at most 256 entries; the pin advertises chat |
| AiConsumer.StrangersAreIgnored | src/ai/consumer.rs:204-245 | a hello of a peer that the list does not name, or with more or longer values than allowed, changes nothing |
| AiConsumer.HelloIsStored | src/ai/consumer.rs:204-312 | every other hello with services is stored as it says, while there is room, and pinned if it offers chat and nobody else is |
| AiConsumer.EmptyHelloLeaves | src/ai/consumer.rs:204-312 | a hello without services takes the peer out as a disconnect does |
| AiConsumer.NewListFilters | src/ai/consumer.rs:173-193 | a new list keeps exactly the entries and the pin that it names; an empty one keeps all |
| AiConsumer.EventsArrive | src/ai/consumer.rs:313-362 | what a peer sends about a request is queued for that request, if it is bound to this peer, and changes nothing else |
| AiConsumer.PeersLeave | src/ai/consumer.rs:365-382 | a peer that leaves takes its entry and its pin with it, and one rejection is queued for each of its requests |
| AiConsumer.ViewStep | src/ai/consumer.rs:204-382 | a step changes a request's entry as a function of the trust list and that entry alone |
| AiConsumer.NonInterference | src/ai/consumer.rs:204-382 | two runs that agree on the peer's messages, its disconnects, the trust list and rejections give the request the same events |
| AiConsumer.TrustFlagIsCurrent | src/ai/consumer.rs:173-312 | after every run an entry's flag agrees with the list exactly when the lists at its last stored hello and now are both empty or both not |
| AiConsumer.TrustFlagGoesStale | src/ai/consumer.rs:173-193 | installing a list that names a provider leaves its flag false |
| AiConsumer.TrustFlagOutlivesItsList | src/ai/consumer.rs:173-193 | clearing the list leaves a flag true |
| AiConsumer.Consumer.SetTrustedProviders | src/ai/consumer.rs:173-193 | filters the catalog and drops a pin that no longer qualifies |
| AiConsumer.Consumer.HandleMessage | src/ai/consumer.rs:204-351 | the whole new state, which hellos are accepted, and when a provider is greeted |
| AiConsumer.Consumer.SendEvent | src/ai/consumer.rs:353-362 | an event reaches a request only from the peer it is bound to |
| AiConsumer.Consumer.OnPeerDisconnected | src/ai/consumer.rs:365-382 | removes the peer, its pin, and rejects only its requests |
| AiConsumer.Consumer.RegisterRequest | src/ai/consumer.rs:598-604 | binds a request to a peer |
| AiConsumer.Consumer.DropRequest | src/ai/consumer.rs:606-620 | removes the request on every exit |
| AiConsumer.Consumer.RejectEverything | src/ai/consumer.rs:745-755 | queues one rejection for every request |
| AiConsumer.Consumer.ProviderForModel | src/ai/consumer.rs:440-456 | a provider that lists the model whenever one does: the pin, else the first in order |
| Json.SameExactlyWhenAgree | src/wiresign.rs:70-101 | sameness up to key order is agreement of every field |
| Json.CanonIsSame | src/wiresign.rs:70-101 | sorting keys at every level changes nothing but order |
| Json.LessIsByCharacter | src/wiresign.rs:83-101 | keys are ordered by their first differing character, and a text comes before what continues it |
| Stringify.StringifyDecodes | src/wiresign.rs:70-129 | the canonical text decodes, uniquely, to the value it was made from |
| Stringify.ValueText | src/wiresign.rs:70-129 | the text of `null`, booleans, numbers, strings and lists of up to two parts |
| Stringify.CharacterText | src/wiresign.rs:70-82 | how each character is written in a string, in the shortest form of section 7 of RFC 8259 |
| Stringify.MembersAreOrdered | src/wiresign.rs:83-101 | two members are written with the smaller key first, wherever they stood |
| Stringify.SameTextExactlyWhenSame | src/wiresign.rs:70-129 | two values have the same text if and only if they are the same up to key order |
| Stringify.OwnLibraryIsLawful | src/wiresign.rs:70-129 | the canonical printer with its decoder is a lawful JSON library |
| WireSign.PayloadCommitsToEveryField | src/wiresign.rs:131-140 | equal payloads if and only if all fields but `signature` agree |
| WireSign.SignedWireVerifies | src/wiresign.rs:142-198 | a wire is signed exactly if its `fromId` is the key's DID; what is signed verifies, differs in `signature` only, and signing it again changes nothing |
| WireSign.AuthenticExactlyWhen | src/wiresign.rs:167-198 | a wire is authentic exactly when it is an object with a string `fromId` of 56 bytes and a string `signature` of 86 bytes that decodes to one which the scheme accepts, from that sender, for the canonical text of the other fields |
| WireSign.SignatureBindsWire | src/wiresign.rs:142-198 | with a scheme that accepts a key's signature for what was signed only, a signature carried over to another wire is good there exactly when no other field differs |
| WireSign.NothingFromStrangers | src/wiresign.rs:167-198 | where the scheme accepts nothing from a sender, no wire of this sender is authentic |
| WireSign.SignatureIsWritten | src/wiresign.rs:142-165 | a wire of the key's own sender is signed: `signature` becomes the encoded signature of the canonical text of the other fields, which stay |
| WireSign.VerificationIgnoresOrder | src/wiresign.rs:167-198 | verification does not depend on key order |
| WireSign.Wire.Sign | src/wiresign.rs:142-165 | signing in place sets only `signature`, or fails without a change |
| External.MergeIsUnion | src/ai/external.rs:253-311 | room by room the merge is the union; a disabled room is untouched |
| External.AddRefsIsUnion | src/ai/external.rs:291-300 | the list is kept, exactly what was missing is added, nothing new repeats |
| External.MergeKeepsUsers | src/ai/external.rs:253-311 | users' providers keep place and settings; at most one provider is added per room, where there was none |
| External.ProvidersAreImported | src/ai/external.rs:253-264 | every registered provider is there after the merge, behind the user's, with its own name, URL, key and switch, under `ext:`, its owner and its id |
| External.RoomsShareTheirOffers | src/ai/external.rs:265-303 | a room that is not disabled shares exactly what the user's shared and what registrations share there, each reference under its owner, and provides if the user's did or one of them offers to |
| External.AddedRoomInWords | src/ai/external.rs:274-290 | a room that the user lacks gets a provider of that name and `mist-network://` URL, with the id `ext:`, the first owner that lists it, `:room:` and its name |
| External.MergeAddsIds | src/ai/external.rs:253-290 | the ids after the merge; added ids are all different exactly when no registration has a provider `room:x` and a room `x` that the user lacks and no earlier owner lists; all ids are exactly when also the user's are and none of these is brought in again |
| External.ClashIsOfInputs | src/ai/external.rs:253-290 | the clash among added ids is that condition on the registrations and the user's list |
| External.TakenIsOfInputs | src/ai/external.rs:253-290 | an added id is one of the user's exactly when a registration has a provider or adds a room with such an id |
| External.AddedExactly | src/ai/external.rs:265-290 | which rooms and providers are added, and by which owner |
| External.IdsTellOwnersApart | src/ai/external.rs:60-74 | ids from different owners never collide |
| External.OwnersAre | src/ai/external.rs:60-74 | owners are exactly the texts of 1 to 32 digits, lower-case letters and hyphens that do not begin with a hyphen |
| External.RoomNamesAre | src/ai/external.rs:113-121 | rooms are exactly the texts of 1 to 64 ASCII letters, digits, underscores and hyphens |
| External.TextsAre | src/ai/external.rs:76-82 | names and ids are exactly the texts without control characters that are not blank |
| External.RefusedRegistrations | src/ai/external.rs:85-136 | a valid registration has at most 64 providers, 64 rooms and 512 references, no repeats, references to its own providers only, and web URLs without credentials |
| External.ProvidersAreAccepted | src/ai/external.rs:85-111 | up to 64 providers with web URLs and ids of their own are accepted |
| External.RoomsAreAccepted | src/ai/external.rs:112-136 | up to 64 rooms with up to 512 references to them are accepted |
| External.ClashExample | src/ai/external.rs:253-290 | a valid registration whose two ids are equal |
| External.PutIsUpdate | src/ai/external.rs:170-191 | storing answers for its owner, leaves others alone, and removing undoes it |
| External.WithoutIsRemoval | src/ai/external.rs:193-203 | removing forgets exactly that owner |
| External.Store.Apply | src/ai/external.rs:170-191 | stores exactly valid registrations that could be saved, with the default label |
| External.Store.Remove | src/ai/external.rs:193-203 | removes exactly that owner, or changes nothing |
| External.Store.Merge | src/ai/external.rs:253-303 | the nested loops equal the specification |
| External.OfferRoom | src/ai/external.rs:274-300 | one room's offer: find or add the provider, then add to it |
| Migration.TakenAreFew | src/config.rs:532-544 | the search for a free id ends within one try more than there are providers |
| Migration.UniqueProviderId | src/config.rs:532-544 | the loop returns a free id |
| Migration.MigrationIsIdempotent | src/config.rs:1623-1902 | a second run changes nothing and asks for no save |
| Migration.UnreportedChange | src/config.rs:1623-1902 | settings change without a request to save exactly when there are blank legacy stream rooms and no other legacy field |
| Migration.UnreportedExample | src/config.rs:1883-1902 | a configuration that changes without a request to save |
| Migration.NothingIsOverwritten | src/config.rs:1623-1902 | new-style fields that are set stay |
| Migration.ProvidersAreKept | src/config.rs:1670-1872 | providers keep their order, distinct ids stay distinct, and shared references that were added exist and are no rooms |
| Migration.UpstreamBecomesDefault | src/config.rs:1670-1745 | upstream fields alone become the default model at the provider with that URL and key |
| Migration.UpstreamIsAdded | src/config.rs:1670-1704 | an upstream that no provider reaches becomes a provider named `Default` with its URL and key; for one that is reached none is added |
| Migration.DefaultPresetIsAdded | src/config.rs:1704-1722 | it also becomes the preset `default` at that provider with the legacy model, unless there is a preset of that id |
| Migration.IdsAreNumbered | src/config.rs:532-544 | a free id is kept, and a taken one gets the first number from 2 on that is free |
| Migration.UrlsAreCompared | src/config.rs:521-526 | slashes behind a URL do not count when it is compared |
| Migration.PresetsMove | src/config.rs:1741-1774 | the first preset with the id gives the default reference and effort, the voice and the transcription model, where these are not set |
| Migration.AbsentPresetsGiveNothing | src/config.rs:1741-1774 | without a preset of that id they stay as they are |
| Migration.TransformsMove | src/config.rs:1796-1811 | a preset gives a transform the model, and the effort or the voice, that it does not have |
| Migration.UnknownPresetsStayVisible | src/config.rs:1812-1821 | an unknown preset becomes a model of no provider and changes nothing else |
| Migration.RoomMoves | src/config.rs:1825-1861 | the legacy room, or the default one if models were advertised, gets a provider if it has none; that one shares what was advertised, unless it shares something, and provides if anything was |
| Migration.NamesAreAdvertised | src/config.rs:1842-1856 | a name is advertised as the first preset with that id, else as the first with that model, unless its provider is a room |
| Migration.OtherNamesAreNotAdvertised | src/config.rs:1842-1856 | a name of no preset with a provider is not advertised |
| Migration.StreamMoves | src/config.rs:1883-1902 | a room that is set stays; else the relay room counts before the share room, and blank ones not at all |
| Migration.MailboxMoves | src/config.rs:1644-1653 | the mailbox section always goes, and moves only into a relay section without rooms that is off |
| Migration.Config.MigrateLegacy | src/config.rs:1623-1634 | the four migrations in order |
| Migration.Config.MigrateLegacyAi | src/config.rs:1670-1722 | upstream fields to provider and preset |
| Migration.Config.MigrateModelRefs | src/config.rs:1725-1872 | presets to references, and what is reported |
| Migration.Config.MigrateLegacyStreamRoom | src/config.rs:1883-1902 | relay or share room to room |
| Migration.Config.MigrateLegacyMailbox | src/config.rs:1644-1653 | mailbox to an untouched relay section |
| Migration.MoveRoom | src/config.rs:1826-1861 | the legacy room and what it shares |
| Migration.MovePipelines | src/config.rs:1775-1825 | transforms in place |
| Webhooks.MaskUrlIsIdempotent | src/config.rs:1258-1281 | masking twice is masking once |
| Webhooks.MaskKeepsOrigin | src/config.rs:1241-1281 | the masked URL has the origin of the URL |
| Webhooks.WebUrlsAreMasked | src/config.rs:1258-1281 | of a web URL the user information is shown as `***`, query and fragment as `?***`, and nothing else changes |
| Webhooks.WebOrigins | src/config.rs:1241-1251 | the origin of a web URL is its scheme and host in lower case |
| Webhooks.SchemelessUrls | src/config.rs:1241-1281 | the same for a text without a scheme |
| Webhooks.MaskThenRestore | src/config.rs:1287-1398 | for every configuration: sent back masked, it is accepted exactly when all that is hidden can be looked up, and is what it was exactly when what is looked up for each sink is what was hidden |
| Webhooks.DistinctIdsRestore | src/config.rs:1287-1398 | with distinct pipeline ids it is always accepted, and is what it was exactly when hidden headers can be found again |
| Webhooks.SharedIdExample | src/config.rs:1319-1355 | two pipelines with one id: the second comes back with the first one's secret |
| Webhooks.DistinctNamesAreFindable | src/config.rs:1319-1398 | distinct header names suffice |
| Webhooks.SinksAreAccepted | src/config.rs:1319-1398 | a submitted webhook is accepted exactly when its URL is the stored one's mask or contains no mask, and each masked header has a stored one of its name under the same origin |
| Webhooks.SecretsStayWithTheirOrigin | src/config.rs:1319-1398 | a mask is replaced only while the URL keeps its origin; everything else is taken as sent |
| Webhooks.MaskWebhookSecrets | src/config.rs:1287-1311 | the masking loops equal the specification |
| Webhooks.SubstituteMaskedSecrets | src/config.rs:1319-1398 | the restoring loops equal the specification, with the first error |
| Origins.AcceptedIsCanonical | src/config.rs:682-731 | an accepted origin has a lower-case host and no default port |
| Origins.HostsAreAccepted | src/config.rs:682-731 | a host name is accepted under either scheme, with any port up to 65535; 80 and 443 are dropped under their own scheme |
| Origins.NothingElseIsAccepted | src/config.rs:682-700 | what is accepted is `http` or `https` in any case, and ASCII letters, digits and `-.:[]` behind it |
| Origins.NormalizingIsIdempotent | src/config.rs:682-731 | an accepted result normalizes to itself |
| Origins.PortIsRead | src/config.rs:719-726 | leading zeros and the default port do not matter, ports over 65535 are refused |
| Origins.CaseDoesNotMatter | src/config.rs:682-731 | ASCII case does not matter |
| Origins.SpaceDoesNotMatter | src/config.rs:682-684 | surrounding whitespace does not matter |
| Origins.SlashDoesNotMatter | src/config.rs:683-684 | one slash behind a text does not matter, exactly when the text is refused or ends in neither slash nor whitespace |

## Left out

- Json: numbers are integers; floating-point numbers and their formatting are not modelled, nor is the order in which a JSON library keeps members beyond what `Same` ignores.
- WireSign.SignedWireVerifies: Ed25519, base64 and DID parsing are functions with one law; unforgeability is not stated.
- Prompt.ParsePromptCalls: the texts of JSON errors are shortened; that a call fails, and where, is kept.
- Tools: the safety table behind the classification of calls and the reasons shown for approval are parameters.
- RoundTrip.RewritingPreservesMeaning: subcommand names are taken to be single lines, as they are in the program's own command tree; so they are in all of NativeCalls.
- NativeCalls.HistoryKeepsMeaning: comments with a fence line are left to NativeCalls.NativeCallsKeepMeaning, whose condition on a call that does not parse is what the parser makes of its comment.
- NativeCalls.QuietMeansSilent: the JSON library's own words about why a text does not parse are left out of the comment; they are one line.
- Session.Agent.Turn: ensuring the endpoint is one outcome, events to the user interface and live output are not recorded, and cancellation is seen where the program asks for it.
- Session.Agent.RunCall: the sanitizing of a tool's output on its way out of the toolbox is not repeated here.
- ResponseStream.RunRequest: timeouts and a closed channel are the end of the list of events; chunk numbers do not overflow 64 bits.
- AiConsumer.Consumer.HandleMessage: each call is one atomic step; interleavings inside a call, the notification of waiters and log lines are not modelled.
- AiConsumer.NonInterference: request ids are not reused within a run, as random ids are not.
- Capture.Capture.Append: 64-bit overflow of the omitted count is not modelled.
- Workspace.ReadFile: path confinement, cancellation, input errors and the final cap on the result are not modelled.
- External.Store.Merge: cached model lists are not merged, and time stamps are not kept.
- External.Store.Apply: URL parsing is a parameter of which only the scheme, the host and credentials are seen.
- Migration.Config.MigrateModelRefs: temperature is carried only to be dropped; discarding invalid options before and after the migration is not modelled.
- Webhooks.MaskThenRestore: members of a sink other than URL and headers are not part of the JSON shown here.
- Process spawning, process trees, timeouts and the process manager: operating-system behaviour.
- Truncation of long command results in the middle, human-readable sizes, justfile parsing, directory walking, find and grep: easy or file-system members.
- The consumer's list of all models, the check of explicit model names and the waits for a provider; resolving stored references to connections.
- Voice services, provider-side sharing, the HTTP clients, storage, tunnels and the user interface.
