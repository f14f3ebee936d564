/**
 Output of a child process: chunks of bytes are decoded, stripped of terminal escapes and
 redacted as they arrive, separately for stdout and stderr, and captured within a budget.
 */
module Process {
  import opened Wrappers
  import opened Text
  import opened Utf8
  import opened Escapes
  import R = Redactor
  import C = Capture

  // ---- The whole-input definition -----------------------------------------------------------

  /** What the program shows for the complete byte stream `b`. */
  function Cleaned(b: seq<Byte>): string {
    R.Redacted(StripEscapes(Lossy(b)))
  }

  function Flat(chunks: seq<seq<Byte>>): seq<Byte> {
    if chunks == [] then [] else chunks[0] + Flat(chunks[1..])
  }

  // ---- The incremental form -----------------------------------------------------------------

  /** Bytes of a cut-off character, escape state and redactor state. */
  datatype Stream = Stream(utf8: seq<Byte>, escape: Escape, redactor: R.State)
  {
    ghost predicate Valid() {
      Settled(utf8) == ("", utf8)
    }
  }

  const FRESH := Stream([], Plain, R.START)

  /** Text handed on by the decoder: strip, then redact. */
  function CleanStep(escape: Escape, redactor: R.State, text: string): (Escape, R.State, string) {
    var e := Strip(escape, text);
    var r := R.FeedAll(redactor, e.1);
    (e.0, r.0, r.1)
  }

  function PushStep(st: Stream, bytes: seq<Byte>): (Stream, string) {
    var d := Settled(st.utf8 + bytes);
    var c := CleanStep(st.escape, st.redactor, d.0);
    (Stream(d.1, c.0, c.1), c.2)
  }

  function FinishStep(st: Stream): string {
    var c := CleanStep(st.escape, st.redactor, Lossy(st.utf8));
    c.2 + R.Flush(c.1)
  }

  function PushAll(st: Stream, chunks: seq<seq<Byte>>): (Stream, string)
    decreases |chunks|
  {
    if chunks == [] then (st, "")
    else
      var first := PushStep(st, chunks[0]);
      var rest := PushAll(first.0, chunks[1..]);
      (rest.0, first.1 + rest.1)
  }

  lemma CleanStepConcat(escape: Escape, redactor: R.State, a: string, b: string)
    ensures var one := CleanStep(escape, redactor, a);
            var two := CleanStep(one.0, one.1, b);
            CleanStep(escape, redactor, a + b) == (two.0, two.1, one.2 + two.2)
  {
    StripConcat(escape, a, b);
    R.FeedAllConcat(redactor, Strip(escape, a).1, Strip(Strip(escape, a).0, b).1);
  }

  lemma PushKeepsValid(st: Stream, bytes: seq<Byte>)
    ensures PushStep(st, bytes).0.Valid()
  {
    SettledRemainder(st.utf8 + bytes);
  }

  /** Pushing two chunks one after the other is pushing their concatenation. */
  lemma PushTwice(st: Stream, a: seq<Byte>, b: seq<Byte>)
    ensures PushStep(st, a + b).0 == PushStep(PushStep(st, a).0, b).0
    ensures PushStep(st, a + b).1 == PushStep(st, a).1 + PushStep(PushStep(st, a).0, b).1
  {
    hide Settled, Strip, CleanStep;
    var all := st.utf8 + a;
    assert st.utf8 + (a + b) == all + b;
    SettledTwice(all, b);
    CleanStepConcat(st.escape, st.redactor, Settled(all).0, Settled(Settled(all).1 + b).0);
  }

  lemma PushNothing(st: Stream)
    requires st.Valid()
    ensures PushStep(st, []) == (st, "")
  {
    assert st.utf8 + [] == st.utf8;
  }

  lemma FreshStream()
    ensures FRESH.Valid() && PushStep(FRESH, []) == (FRESH, "")
  {
    PushNothing(FRESH);
  }

  /** Any cut into chunks, empty ones included, has the effect of one push. */
  lemma {:induction false} PushAllIsPush(st: Stream, chunks: seq<seq<Byte>>)
    requires st.Valid()
    ensures PushAll(st, chunks).0 == PushStep(st, Flat(chunks)).0
    ensures PushAll(st, chunks).1 == PushStep(st, Flat(chunks)).1
    decreases |chunks|
  {
    hide PushStep;
    if chunks == [] {
      PushNothing(st);
    } else {
      PushKeepsValid(st, chunks[0]);
      PushAllIsPush(PushStep(st, chunks[0]).0, chunks[1..]);
      PushTwice(st, chunks[0], Flat(chunks[1..]));
    }
  }

  lemma PushThenFinish(bytes: seq<Byte>)
    ensures PushStep(FRESH, bytes).1 + FinishStep(PushStep(FRESH, bytes).0) == Cleaned(bytes)
  {
    hide Settled, Lossy, Strip, CleanStep;
    assert FRESH.utf8 + bytes == bytes;
    SettledRemainder(bytes);
    var d := Settled(bytes);
    CleanStepConcat(Plain, R.START, d.0, Lossy(d.1));
    FinishOfWhole(Lossy(bytes));
    var one := CleanStep(Plain, R.START, d.0);
    var two := CleanStep(one.0, one.1, Lossy(d.1));
    assert (one.2 + two.2) + R.Flush(two.1) == one.2 + (two.2 + R.Flush(two.1));
  }

  lemma FinishOfWhole(text: string)
    ensures var c := CleanStep(Plain, R.START, text); c.2 + R.Flush(c.1) == R.Redacted(StripEscapes(text))
  {
    R.StreamingRedacts(StripEscapes(text));
  }

  /** The incremental stream shows the whole-input result, for every input and every chunking. */
  lemma ChunkingIsInvisible(chunks: seq<seq<Byte>>)
    ensures PushAll(FRESH, chunks).1 + FinishStep(PushAll(FRESH, chunks).0) == Cleaned(Flat(chunks))
  {
    FreshStream();
    PushAllIsPush(FRESH, chunks);
    PushThenFinish(Flat(chunks));
  }

  lemma {:induction false} RedactionAddsOnlyTheMask(s: string, c: char)
    requires c !in s && c !in R.MASK
    ensures c !in R.Redacted(s)
    decreases |s|
  {
    if s == "" {
    } else if R.StartsWithKey(s) {
      RedactionAddsOnlyTheMask(s[7 + R.ValueLen(s[7..])..], c);
    } else {
      RedactionAddsOnlyTheMask(s[1..], c);
    }
  }

  /** The result is free of ESC and of token values. */
  lemma CleanedIsSafe(bytes: seq<Byte>)
    ensures NoEsc(Cleaned(bytes))
    ensures R.ShowsNoValue(Cleaned(bytes))
  {
    StrippedHasNoEsc(Plain, Lossy(bytes));
    RedactionAddsOnlyTheMask(StripEscapes(Lossy(bytes)), ESC);
    R.RedactedShowsNoValue(StripEscapes(Lossy(bytes)));
  }

  // ---- The program's stream -----------------------------------------------------------------

  class CleanStream {
    var utf8: seq<Byte>
    var escape: Escape
    const redactor: R.OutputRedactor

    function View(): Stream
      reads this, redactor
    {
      Stream(utf8, escape, redactor.View())
    }

    constructor ()
      ensures View() == FRESH && fresh(redactor)
    {
      utf8, escape := [], Plain;
      redactor := new R.OutputRedactor();
    }

    method Push(bytes: seq<Byte>) returns (out: string)
      modifies this, redactor
      ensures View() == PushStep(old(View()), bytes).0
      ensures out == PushStep(old(View()), bytes).1
    {
      hide Settled, Next, FromUtf8, CleanStep, IsDecodedTo;
      utf8 := utf8 + bytes;
      var decoded, consumed := "", 0;
      var cutOff := false;
      NothingDecodedYet(utf8);
      while consumed < |utf8| && !cutOff
        invariant consumed <= |utf8|
        invariant unchanged(redactor) && escape == old(escape) && utf8 == old(utf8) + bytes
        invariant IsDecodedTo(utf8, consumed, decoded)
        invariant cutOff ==> consumed < |utf8| && Next(utf8[consumed..]).CutOff?
        decreases |utf8| - consumed, !cutOff
      {
        DecodeMore(utf8, consumed, decoded);
        match FromUtf8(utf8[consumed..])
        case Valid(text) =>
          decoded := decoded + text;
          consumed := |utf8|;
        case Invalid(valid, errorLen) =>
          decoded := decoded + FromUtf8(utf8[consumed..consumed + valid]).text;
          consumed := consumed + valid;
          if errorLen.Some? {
            decoded := decoded + [REPLACEMENT];
            consumed := consumed + errorLen.value;
          } else {
            cutOff := true;
          }
      }
      DecodingStops(utf8, consumed, decoded);
      utf8 := utf8[consumed..];
      out := Clean(decoded);
    }

    method Finish() returns (out: string)
      modifies this, redactor
      ensures out == FinishStep(old(View()))
      ensures utf8 == []
    {
      var decoded := Lossy(utf8);
      utf8 := [];
      var text := Clean(decoded);
      var held := redactor.Finish();
      out := text + held;
    }

    method Clean(text: string) returns (out: string)
      modifies this`escape, redactor
      ensures CleanStep(old(escape), old(redactor.View()), text) == (escape, redactor.View(), out)
    {
      hide Strip;
      var complete := "";
      ghost var start := escape;
      assert text[..0] == "" && Strip(start, "") == (start, "") by { StripOfNothing(start); }
      for i := 0 to |text|
        invariant escape == Strip(start, text[..i]).0
        invariant complete == Strip(start, text[..i]).1
        invariant redactor.View() == old(redactor.View())
      {
        var c := text[i];
        StripSnoc(start, text[..i], c);
        assert text[..i + 1] == text[..i] + [c];
        match escape
        case Plain =>
          if c == ESC {
            escape := Start;
          } else {
            complete := complete + [c];
          }
        case Start => escape := if c == '[' then Csi else if c == ']' then Osc else Plain;
        case Csi => escape := if IsFinal(c) then Plain else Csi;
        case Osc => escape := if c == BEL then Plain else if c == ESC then OscEnd else Osc;
        case OscEnd =>
          if c == '\\' || c == BEL {
            escape := Plain;
          } else if c == ESC {
            escape := OscEnd;
          } else {
            escape := Osc;
          }
      }
      assert text[..|text|] == text;
      StrippedHasNoEsc(start, text);
      StripAnsiKeepsPlain(complete);
      out := redactor.Push(StripAnsi(complete));
    }
  }

  lemma StripOfNothing(e: Escape)
    ensures Strip(e, "") == (e, "")
  {}

  /** `decoded` is the settled text of `b` up to `consumed`. */
  ghost predicate IsDecodedTo(b: seq<Byte>, consumed: nat, decoded: string)
    requires consumed <= |b|
  {
    && Settled(b).0 == decoded + Settled(b[consumed..]).0
    && Settled(b).1 == Settled(b[consumed..]).1
  }

  lemma NothingDecodedYet(b: seq<Byte>)
    ensures IsDecodedTo(b, 0, "")
  {
    assert b[0..] == b;
  }

  /** One round of validation: all the rest, or up to an error and past a bad run. */
  lemma DecodeMore(b: seq<Byte>, consumed: nat, decoded: string)
    requires consumed < |b| && IsDecodedTo(b, consumed, decoded)
    ensures match FromUtf8(b[consumed..])
            case Valid(text) => IsDecodedTo(b, |b|, decoded + text)
            case Invalid(valid, errorLen) =>
              var head := FromUtf8(b[consumed..consumed + valid]);
              && head.Valid?
              && (match errorLen
                  case Some(n) => IsDecodedTo(b, consumed + valid + n, decoded + head.text + [REPLACEMENT])
                  case None =>
                    IsDecodedTo(b, consumed + valid, decoded + head.text) && Next(b[consumed + valid..]).CutOff?)
  {
    hide Next, FromUtf8;
    var rest := b[consumed..];
    match FromUtf8(rest)
    case Valid(text) =>
      LossyOfValid(rest);
      assert b[|b|..] == [];
    case Invalid(valid, errorLen) =>
      SettledUpToError(rest);
      assert rest[..valid] == b[consumed..consumed + valid];
      assert rest[valid..] == b[consumed + valid..];
      if errorLen.Some? {
        assert b[consumed + valid..][errorLen.value..] == b[consumed + valid + errorLen.value..];
      }
  }

  lemma DecodingStops(b: seq<Byte>, consumed: nat, decoded: string)
    requires consumed <= |b| && IsDecodedTo(b, consumed, decoded)
    requires consumed == |b| || Next(b[consumed..]).CutOff?
    ensures Settled(b) == (decoded, b[consumed..])
  {
    hide Next;
    assert Settled(b[consumed..]) == ("", b[consumed..]);
    assert decoded + "" == decoded;
  }

  // ---- Two streams and their captures -------------------------------------------------------

  /** A chunk read from stderr (`true`) or from stdout. */
  type Delivery = (bool, seq<Byte>)

  /** The bytes of one stream, in order, out of an interleaving. */
  function BytesOf(deliveries: seq<Delivery>, stderr: bool): seq<Byte> {
    if deliveries == [] then []
    else (if deliveries[0].0 == stderr then deliveries[0].1 else []) + BytesOf(deliveries[1..], stderr)
  }

  lemma {:induction false} BytesOfSnoc(deliveries: seq<Delivery>, d: Delivery, stderr: bool)
    ensures BytesOf(deliveries + [d], stderr) == BytesOf(deliveries, stderr) + (if d.0 == stderr then d.1 else [])
  {
    if deliveries == [] {
      assert [d][1..] == [] && BytesOf([], stderr) == [];
    } else {
      assert (deliveries + [d])[1..] == deliveries[1..] + [d];
      BytesOfSnoc(deliveries[1..], d, stderr);
    }
  }

  /** Feeds one chunk to its stream; nothing reaches the observer when nothing is settled. */
  method Deliver(streams: seq<CleanStream>, stderr: bool, bytes: seq<Byte>) returns (text: string)
    requires |streams| == 2 && streams[0] != streams[1] && streams[0].redactor != streams[1].redactor
    modifies streams[Index(stderr)], streams[Index(stderr)].redactor
    ensures streams[Index(stderr)].View() == PushStep(old(streams[Index(stderr)].View()), bytes).0
    ensures text == PushStep(old(streams[Index(stderr)].View()), bytes).1
    ensures streams[Index(!stderr)].View() == old(streams[Index(!stderr)].View())
  {
    hide PushStep;
    text := streams[Index(stderr)].Push(bytes);
  }

  /** Passes text that is not empty to the stream's capture and to the live display. */
  method Observe(captures: seq<C.Capture>, stderr: bool, text: string, live: seq<(bool, string)>)
    returns (shown: seq<(bool, string)>)
    requires |captures| == 2 && captures[0] != captures[1]
    requires captures[0].Valid() && captures[1].Valid()
    modifies captures[Index(stderr)]
    ensures captures[0].Valid() && captures[1].Valid()
    ensures captures[Index(stderr)].all == old(captures[Index(stderr)].all) + text
    ensures captures[Index(!stderr)].all == old(captures[Index(!stderr)].all)
    ensures Shown(shown, stderr) == Shown(live, stderr) + text
    ensures Shown(shown, !stderr) == Shown(live, !stderr)
    ensures (forall e | e in live :: e.1 != "") ==> forall e | e in shown :: e.1 != ""
  {
    shown := live;
    if text != "" {
      captures[Index(stderr)].Append(text);
      ShownSnoc(live, stderr, text, stderr);
      ShownSnoc(live, stderr, text, !stderr);
      shown := live + [(stderr, text)];
    }
  }

  function Index(stderr: bool): (i: nat)
    ensures i < 2
  {
    if stderr then 1 else 0
  }

  /**
   The data path of a foreground run: every delivery goes to its own stream, and what settles is
   appended to that stream's capture and shown live.
   */
  class ChildOutput {
    const streams: seq<CleanStream>
    const captures: seq<C.Capture>
    var live: seq<(bool, string)>
    ghost var seen: seq<Delivery>

    ghost predicate Shape() {
      && |streams| == 2 && streams[0] != streams[1] && streams[0].redactor != streams[1].redactor
      && |captures| == 2 && captures[0] != captures[1]
    }

    ghost function Repr(): set<object>
      requires Shape()
    {
      {this, streams[0], streams[0].redactor, streams[1], streams[1].redactor, captures[0], captures[1]}
    }

    /** Stream `stderr` has digested `bytes`, and its capture and the display hold what settled. */
    ghost predicate Tracks(stderr: bool, bytes: seq<Byte>)
      requires Shape()
      reads Repr()
    {
      var i := Index(stderr);
      && streams[i].View() == PushStep(FRESH, bytes).0
      && captures[i].Valid() && captures[i].all == PushStep(FRESH, bytes).1
      && Shown(live, stderr) == captures[i].all
    }

    ghost predicate Valid()
      reads this, if Shape() then Repr() else {}
    {
      && Shape()
      && Tracks(false, BytesOf(seen, false)) && Tracks(true, BytesOf(seen, true))
      && forall e | e in live :: e.1 != ""
    }

    constructor ()
      ensures Valid() && fresh(Repr()) && seen == []
    {
      hide PushStep, C.HeadOf, C.TailOf, C.OmittedOf, Settled;
      var out := new CleanStream();
      var err := new CleanStream();
      var outCapture := new C.Capture();
      var errCapture := new C.Capture();
      streams := [out, err];
      captures := [outCapture, errCapture];
      live, seen := [], [];
      new;
      FreshStream();
      assert Tracks(false, []) && Tracks(true, []);
    }

    method Receive(stderr: bool, bytes: seq<Byte>)
      requires Valid()
      modifies Repr()
      ensures Valid() && seen == old(seen) + [(stderr, bytes)]
    {
      hide PushStep, BytesOf, Shown, C.HeadOf, C.TailOf, C.OmittedOf;
      BytesOfSnoc(seen, (stderr, bytes), stderr);
      BytesOfSnoc(seen, (stderr, bytes), !stderr);
      PushTwice(FRESH, BytesOf(seen, stderr), bytes);
      assert BytesOf(seen, !stderr) + [] == BytesOf(seen, !stderr);
      var text := Deliver(streams, stderr, bytes);
      live := Observe(captures, stderr, text, live);
      seen := seen + [(stderr, bytes)];
      assert Tracks(stderr, BytesOf(seen, stderr)) && Tracks(!stderr, BytesOf(seen, !stderr));
    }

    /** Flushes one stream after the last delivery. */
    method FinishStream(stderr: bool) returns (captured: string)
      requires Shape() && captures[0].Valid() && captures[1].Valid()
      requires Tracks(stderr, BytesOf(seen, stderr))
      modifies this`live, streams[Index(stderr)], streams[Index(stderr)].redactor, captures[Index(stderr)]
      ensures captured == C.TextOf(Cleaned(BytesOf(seen, stderr))) && C.Shows(captured, Cleaned(BytesOf(seen, stderr)))
      ensures Shown(live, stderr) == Cleaned(BytesOf(seen, stderr))
      ensures Shown(live, !stderr) == old(Shown(live, !stderr))
      ensures captures[0].Valid() && captures[1].Valid()
      ensures (forall e | e in old(live) :: e.1 != "") ==> forall e | e in live :: e.1 != ""
    {
      hide PushStep, FinishStep, BytesOf, Shown, Cleaned, C.TextOf, C.HeadOf, C.TailOf, C.OmittedOf,
        C.Shows;
      PushThenFinish(BytesOf(seen, stderr));
      var rest := streams[Index(stderr)].Finish();
      live := Observe(captures, stderr, rest, live);
      captured := captures[Index(stderr)].Text();
    }

    /**
     Each captured text, and each stream's share of the live display, depends on the bytes of
     its own stream alone.
     */
    method Finish() returns (stdout: string, stderr: string)
      requires Valid()
      modifies Repr()
      ensures stdout == C.TextOf(Cleaned(BytesOf(old(seen), false)))
      ensures stderr == C.TextOf(Cleaned(BytesOf(old(seen), true)))
      ensures C.Shows(stdout, Cleaned(BytesOf(old(seen), false))) && C.Shows(stderr, Cleaned(BytesOf(old(seen), true)))
      ensures Shown(live, false) == Cleaned(BytesOf(old(seen), false))
      ensures Shown(live, true) == Cleaned(BytesOf(old(seen), true))
      ensures forall e | e in live :: e.1 != ""
    {
      hide PushStep, FinishStep, BytesOf, Shown, Cleaned, C.TextOf, C.HeadOf, C.TailOf, C.OmittedOf,
        C.Shows;
      stdout := FinishStream(false);
      stderr := FinishStream(true);
    }
  }

  /** What the observer saw of one stream. */
  function Shown(live: seq<(bool, string)>, stderr: bool): string {
    if live == [] then ""
    else (if live[0].0 == stderr then live[0].1 else "") + Shown(live[1..], stderr)
  }

  lemma ShownFirst(e: (bool, string), rest: seq<(bool, string)>, stderr: bool)
    ensures Shown([e] + rest, stderr) == (if e.0 == stderr then e.1 else "") + Shown(rest, stderr)
  {
    assert ([e] + rest)[1..] == rest;
  }

  lemma {:induction false} ShownSnoc(live: seq<(bool, string)>, isErr: bool, text: string, stderr: bool)
    ensures Shown(live + [(isErr, text)], stderr) == Shown(live, stderr) + (if isErr == stderr then text else "")
  {
    var e := (isErr, text);
    if live == [] {
      assert live + [e] == [e] + [];
      ShownFirst(e, [], stderr);
    } else {
      hide Shown;
      assert live == [live[0]] + live[1..] && live + [e] == [live[0]] + (live[1..] + [e]);
      ShownFirst(live[0], live[1..], stderr);
      ShownFirst(live[0], live[1..] + [e], stderr);
      ShownSnoc(live[1..], isErr, text, stderr);
    }
  }
}
