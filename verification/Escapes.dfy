/** Terminal escape sequences: the incremental state machine and the one-shot remover. */
module Escapes {

  const ESC := 0x1B as char
  const BEL := 0x07 as char

  datatype Escape = Plain | Start | Csi | Osc | OscEnd

  /** Final bytes of a control sequence. */
  predicate IsFinal(c: char) { 0x40 as char <= c <= 0x7E as char }

  function NextEscape(e: Escape, c: char): Escape {
    match e
    case Plain => if c == ESC then Start else Plain
    case Start => if c == '[' then Csi else if c == ']' then Osc else Plain
    case Csi => if IsFinal(c) then Plain else Csi
    case Osc => if c == BEL then Plain else if c == ESC then OscEnd else Osc
    case OscEnd => if c == '\\' || c == BEL then Plain else if c == ESC then OscEnd else Osc
  }

  /** Final state and kept text after running the machine over `text`. */
  function Strip(e: Escape, text: string): (Escape, string)
    decreases |text|
  {
    if text == "" then (e, "")
    else
      var rest := Strip(NextEscape(e, text[0]), text[1..]);
      (rest.0, (if e.Plain? && text[0] != ESC then [text[0]] else "") + rest.1)
  }

  function StripEscapes(text: string): string { Strip(Plain, text).1 }

  ghost predicate NoEsc(s: string) { ESC !in s }

  lemma {:induction false} StripConcat(e: Escape, a: string, b: string)
    ensures Strip(e, a + b).0 == Strip(Strip(e, a).0, b).0
    ensures Strip(e, a + b).1 == Strip(e, a).1 + Strip(Strip(e, a).0, b).1
    decreases |a|
  {
    hide NextEscape;
    if a == "" {
      assert a + b == b;
    } else {
      assert (a + b)[1..] == a[1..] + b;
      StripConcat(NextEscape(e, a[0]), a[1..], b);
    }
  }

  lemma StripSnoc(e: Escape, a: string, c: char)
    ensures Strip(e, a + [c]).0 == NextEscape(Strip(e, a).0, c)
    ensures Strip(e, a + [c]).1 == Strip(e, a).1 + (if Strip(e, a).0.Plain? && c != ESC then [c] else "")
  {
    hide NextEscape;
    StripConcat(e, a, [c]);
    var mid := Strip(e, a).0;
    assert Strip(NextEscape(mid, c), [c][1..]) == (NextEscape(mid, c), "");
    assert Strip(mid, [c]).1 == (if mid.Plain? && c != ESC then [c] else "") + "";
  }

  lemma {:induction false} StrippedHasNoEsc(e: Escape, text: string)
    ensures NoEsc(Strip(e, text).1)
    decreases |text|
  {
    hide NextEscape;
    if text != "" {
      StrippedHasNoEsc(NextEscape(e, text[0]), text[1..]);
    }
  }

  lemma {:induction false} PlainTextKept(text: string)
    requires NoEsc(text)
    ensures Strip(Plain, text).0 == Plain && Strip(Plain, text).1 == text
    decreases |text|
  {
    if text != "" {
      PlainTextKept(text[1..]);
    }
  }

  // ---- The sequences that are removed -------------------------------------------------------

  /** Control sequence, operating system command, or two-character escape. */
  ghost predicate IsSequence(w: string) {
    && |w| >= 2 && w[0] == ESC
    && (if w[1] == '[' then
          |w| >= 3 && IsFinal(w[|w| - 1]) && forall i | 2 <= i < |w| - 1 :: !IsFinal(w[i])
        else if w[1] == ']' then
          IsCommandBody(w[2..])
        else |w| == 2)
  }

  /** An OSC payload up to BEL, or up to ESC and a backslash. */
  ghost predicate IsCommandBody(p: string) {
    || (|p| >= 1 && p[|p| - 1] == BEL && IsPayload(p[..|p| - 1]))
    || (|p| >= 2 && p[|p| - 2] == ESC && p[|p| - 1] == '\\' && IsPayload(p[..|p| - 2]))
  }

  ghost predicate IsPayload(p: string) {
    forall i | 0 <= i < |p| :: p[i] != BEL && p[i] != ESC
  }

  lemma {:induction false} SkipTo(e: Escape, p: string)
    requires e.Csi? || e.Osc?
    requires e.Csi? ==> forall i | 0 <= i < |p| :: !IsFinal(p[i])
    requires e.Osc? ==> forall i | 0 <= i < |p| :: p[i] != BEL && p[i] != ESC
    ensures Strip(e, p).0 == e && Strip(e, p).1 == ""
    decreases |p|
  {
    if p != "" {
      SkipTo(e, p[1..]);
    }
  }

  /** A whole escape sequence is removed, whatever surrounds it, and nothing else is. */
  lemma SequenceVanishes(before: string, w: string, after: string)
    requires IsSequence(w) && Strip(Plain, before).0.Plain?
    ensures StripEscapes(before + w + after) == StripEscapes(before) + StripEscapes(after)
  {
    SequenceIsConsumed(w);
    StripConcat(Plain, before + w, after);
    StripConcat(Plain, before, w);
  }

  /** What the two characters that open a sequence do. */
  lemma AfterOpening(s: string)
    requires |s| >= 2 && s[0] == ESC
    ensures Strip(Plain, s).0 == Strip(NextEscape(Start, s[1]), s[2..]).0
    ensures Strip(Plain, s).1 == Strip(NextEscape(Start, s[1]), s[2..]).1
  {
    assert s[1..][1..] == s[2..];
    assert Strip(Start, s[1..]).1 == "" + Strip(NextEscape(Start, s[1]), s[2..]).1;
  }

  lemma SequenceIsConsumed(w: string)
    requires IsSequence(w)
    ensures Strip(Plain, w).0 == Plain && Strip(Plain, w).1 == ""
  {
    AfterOpening(w);
    if w[1] == '[' {
      var p := w[2..|w| - 1];
      SkipTo(Csi, p);
      StripSnoc(Csi, p, w[|w| - 1]);
      assert w[2..] == p + [w[|w| - 1]];
    } else if w[1] == ']' {
      CommandIsConsumed(w[2..]);
    } else {
      assert w[2..] == "";
    }
  }

  lemma CommandIsConsumed(p: string)
    requires IsCommandBody(p)
    ensures Strip(Osc, p).0 == Plain && Strip(Osc, p).1 == ""
  {
    if p[|p| - 1] == BEL && IsPayload(p[..|p| - 1]) {
      var body := p[..|p| - 1];
      SkipTo(Osc, body);
      StripSnoc(Osc, body, BEL);
      assert p == body + [BEL];
    } else {
      var body := p[..|p| - 2];
      SkipTo(Osc, body);
      StripSnoc(Osc, body, ESC);
      StripSnoc(Osc, body + [ESC], '\\');
      assert p == body + [ESC] + ['\\'];
    }
  }

  // ---- What is removed, character by character ----------------------------------------------

  /** A control sequence goes on through all characters but `@` to `~`, and ends with the first of these. */
  lemma ControlSequenceVanishes(before: string, p: string, c: char, after: string)
    requires Strip(Plain, before).0.Plain?
    requires forall i | 0 <= i < |p| :: p[i] < 0x40 as char || p[i] > 0x7E as char
    requires 0x40 as char <= c <= 0x7E as char
    ensures Strip(Plain, [0x1B as char, '['] + p) == (Csi, "")
    ensures StripEscapes(before + [0x1B as char, '['] + p + [c] + after) == StripEscapes(before) + StripEscapes(after)
  {
    hide Strip, StripEscapes;
    var open := [0x1B as char, '['];
    ControlSequenceIsRead(p, c);
    Regroup(before, open, p, [c], after);
    WholeIsRemoved(before, open + p + [c], after);
  }

  lemma Regroup(a: string, b: string, c: string, d: string, e: string)
    ensures a + b + c + d + e == a + (b + c + d) + e
  {}

  /** What is read from plain to plain without showing anything is removed. */
  lemma WholeIsRemoved(before: string, w: string, after: string)
    requires Strip(Plain, before).0.Plain? && Strip(Plain, w) == (Plain, "")
    ensures StripEscapes(before + w + after) == StripEscapes(before) + StripEscapes(after)
  {
    hide Strip;
    StripConcat(Plain, before + w, after);
    StripConcat(Plain, before, w);
  }

  lemma ControlSequenceIsRead(p: string, c: char)
    requires forall i | 0 <= i < |p| :: p[i] < 0x40 as char || p[i] > 0x7E as char
    requires 0x40 as char <= c <= 0x7E as char
    ensures Strip(Plain, [0x1B as char, '['] + p) == (Csi, "")
    ensures Strip(Plain, [0x1B as char, '['] + p + [c]) == (Plain, "")
  {
    hide Strip;
    var open := [0x1B as char, '['];
    AfterOpening(open + p);
    assert (open + p)[2..] == p && (open + p)[1] == '[';
    SkipTo(Csi, p);
    StripSnoc(Plain, open + p, c);
  }

  /** Where a command ends: at a BEL, or at a backslash right behind an ESC. */
  predicate EndsCommand(p: string, i: nat)
    requires i < |p|
  {
    p[i] == 0x07 as char || (p[i] == 0x5C as char && i > 0 && p[i - 1] == 0x1B as char)
  }

  lemma {:induction false} CommandGoesOn(p: string)
    requires forall i | 0 <= i < |p| :: !EndsCommand(p, i)
    ensures Strip(Osc, p) == (if p != "" && p[|p| - 1] == 0x1B as char then OscEnd else Osc, "")
    decreases |p|
  {
    if p != "" {
      var init := p[..|p| - 1];
      forall i | 0 <= i < |init| ensures !EndsCommand(init, i) {
        assert !EndsCommand(p, i);
      }
      CommandGoesOn(init);
      assert !EndsCommand(p, |p| - 1);
      StripSnoc(Osc, init, p[|p| - 1]);
      assert p == init + [p[|p| - 1]];
    }
  }

  /** A command goes on until the first such place, whatever stands in it, and is removed through it. */
  lemma CommandVanishes(before: string, p: string, after: string)
    requires Strip(Plain, before).0.Plain?
    requires p != "" && EndsCommand(p, |p| - 1) && forall i | 0 <= i < |p| - 1 :: !EndsCommand(p, i)
    ensures StripEscapes(before + [0x1B as char, ']'] + p + after) == StripEscapes(before) + StripEscapes(after)
  {
    hide Strip, StripEscapes, EndsCommand;
    WholeCommand(p);
    Regroup(before, [0x1B as char, ']'], p, "", after);
    assert [0x1B as char, ']'] + p + "" == [0x1B as char, ']'] + p;
    assert before + [0x1B as char, ']'] + p + "" == before + [0x1B as char, ']'] + p;
    WholeIsRemoved(before, [0x1B as char, ']'] + p, after);
  }

  lemma WholeCommand(p: string)
    requires p != "" && EndsCommand(p, |p| - 1) && forall i | 0 <= i < |p| - 1 :: !EndsCommand(p, i)
    ensures Strip(Plain, [0x1B as char, ']'] + p) == (Plain, "")
  {
    hide Strip;
    var open := [0x1B as char, ']'];
    CommandIsRead(p);
    AfterOpening(open + p);
    assert (open + p)[2..] == p && (open + p)[1] == ']';
  }

  lemma CommandIsRead(p: string)
    requires p != "" && EndsCommand(p, |p| - 1) && forall i | 0 <= i < |p| - 1 :: !EndsCommand(p, i)
    ensures Strip(Osc, p) == (Plain, "")
  {
    hide Strip;
    var init, c := p[..|p| - 1], p[|p| - 1];
    forall i | 0 <= i < |init| ensures !EndsCommand(init, i) {
      assert !EndsCommand(p, i);
    }
    CommandGoesOn(init);
    StripSnoc(Osc, init, c);
    assert p == init + [c];
  }

  /** Any other character behind ESC is removed with it, and nothing more. */
  lemma PairVanishes(before: string, c: char, after: string)
    requires Strip(Plain, before).0.Plain? && c != '[' && c != ']'
    ensures StripEscapes(before + [0x1B as char, c] + after) == StripEscapes(before) + StripEscapes(after)
  {
    SequenceVanishes(before, [0x1B as char, c], after);
  }

  // ---- The one-shot remover -----------------------------------------------------------------

  /** Characters up to and including the final byte of a control sequence. */
  function CsiLen(s: string): (n: nat)
    ensures n <= |s|
  {
    if s == "" then 0 else if IsFinal(s[0]) then 1 else 1 + CsiLen(s[1..])
  }

  /** Characters of a command: through BEL, or through ESC and whatever follows it. */
  function OscLen(s: string): (n: nat)
    ensures n <= |s|
  {
    if s == "" then 0
    else if s[0] == BEL then 1
    else if s[0] == ESC then if |s| == 1 then 1 else 2
    else 1 + OscLen(s[1..])
  }

  function StripAnsi(s: string): string
    decreases |s|
  {
    if s == "" then ""
    else if s[0] != ESC then [s[0]] + StripAnsi(s[1..])
    else if |s| == 1 then ""
    else if s[1] == '[' then StripAnsi(s[2 + CsiLen(s[2..])..])
    else if s[1] == ']' then StripAnsi(s[2 + OscLen(s[2..])..])
    else StripAnsi(s[2..])
  }

  /** Text the machine has already cleaned is not changed a second time. */
  lemma {:induction false} StripAnsiKeepsPlain(s: string)
    requires NoEsc(s)
    ensures StripAnsi(s) == s
  {
    if s != "" {
      StripAnsiKeepsPlain(s[1..]);
    }
  }

  /** The one-shot remover as a machine: what follows ESC in a command always ends the command. */
  function NextAnsi(e: Escape, c: char): Escape { if e.OscEnd? then Plain else NextEscape(e, c) }

  predicate Keeps(e: Escape, c: char) { e.Plain? && c != ESC }

  function RunAnsi(e: Escape, text: string): string
    decreases |text|
  {
    if text == "" then "" else (if Keeps(e, text[0]) then [text[0]] else "") + RunAnsi(NextAnsi(e, text[0]), text[1..])
  }

  lemma {:induction false} AnsiSkipsCsi(s: string)
    ensures RunAnsi(Csi, s) == RunAnsi(Plain, s[CsiLen(s)..])
  {
    if s != "" && !IsFinal(s[0]) {
      AnsiSkipsCsi(s[1..]);
      assert s[CsiLen(s)..] == s[1..][CsiLen(s[1..])..];
    }
  }

  lemma {:induction false} AnsiSkipsOsc(s: string)
    ensures RunAnsi(Osc, s) == RunAnsi(Plain, s[OscLen(s)..])
  {
    if s != "" && s[0] == ESC {
      if |s| > 1 {
        assert s[1..][1..] == s[2..];
      }
    } else if s != "" && s[0] != BEL {
      AnsiSkipsOsc(s[1..]);
      assert s[OscLen(s)..] == s[1..][OscLen(s[1..])..];
    }
  }

  lemma AnsiOpens(s: string)
    requires |s| >= 2 && s[0] == ESC
    ensures RunAnsi(Plain, s) == RunAnsi(if s[1] == '[' then Csi else if s[1] == ']' then Osc else Plain, s[2..])
  {
    assert s[1..][1..] == s[2..];
    assert RunAnsi(Plain, s) == "" + RunAnsi(Start, s[1..]);
    assert RunAnsi(Start, s[1..]) == "" + RunAnsi(NextAnsi(Start, s[1]), s[2..]);
  }

  /** The remover with its nested skipping loops is that machine. */
  lemma {:induction false} StripAnsiIsMachine(s: string)
    ensures StripAnsi(s) == RunAnsi(Plain, s)
    decreases |s|
  {
    if s == "" {
    } else if s[0] != ESC {
      StripAnsiIsMachine(s[1..]);
    } else if |s| == 1 {
      assert s[1..] == "";
    } else {
      var t := s[2..];
      AnsiOpens(s);
      if s[1] == '[' {
        AnsiSkipsCsi(t);
        StripAnsiIsMachine(t[CsiLen(t)..]);
        assert t[CsiLen(t)..] == s[2 + CsiLen(t)..];
      } else if s[1] == ']' {
        AnsiSkipsOsc(t);
        StripAnsiIsMachine(t[OscLen(t)..]);
        assert t[OscLen(t)..] == s[2 + OscLen(t)..];
      } else {
        StripAnsiIsMachine(t);
      }
    }
  }

  /** Run side by side, the streaming machine in `e` and the one-shot one in `f` keep the same characters. */
  predicate KeepTogether(e: Escape, f: Escape, text: string)
    decreases |text|
  {
    text == "" || ((Keeps(e, text[0]) <==> Keeps(f, text[0]))
      && KeepTogether(NextEscape(e, text[0]), NextAnsi(f, text[0]), text[1..]))
  }

  ghost predicate AgreeOnPrefixes(e: Escape, f: Escape, text: string) {
    forall k | 0 <= k <= |text| :: AgreeAt(e, f, text, k)
  }

  ghost predicate AgreeAt(e: Escape, f: Escape, text: string, k: nat)
    requires k <= |text|
  {
    Strip(e, text[..k]).1 == RunAnsi(f, text[..k])
  }

  lemma AgreeStep(e: Escape, f: Escape, text: string, k: nat)
    requires 0 < k <= |text|
    ensures var c := text[0];
            && Strip(e, text[..k]).1
               == (if Keeps(e, c) then [c] else "") + Strip(NextEscape(e, c), text[1..][..k - 1]).1
            && RunAnsi(f, text[..k]) == (if Keeps(f, c) then [c] else "") + RunAnsi(NextAnsi(f, c), text[1..][..k - 1])
  {
    hide NextEscape, NextAnsi;
    assert text[..k][0] == text[0] && text[..k][1..] == text[1..][..k - 1];
  }

  /** After a character that both or neither keep, agreement is that of the rest. */
  lemma AgreeShift(e: Escape, f: Escape, text: string, k: nat)
    requires 0 < k <= |text| && (Keeps(e, text[0]) <==> Keeps(f, text[0]))
    ensures AgreeAt(e, f, text, k) <==> AgreeAt(NextEscape(e, text[0]), NextAnsi(f, text[0]), text[1..], k - 1)
  {
    hide NextEscape, NextAnsi, Strip, RunAnsi, Keeps;
    var c, rest := text[0], text[1..][..k - 1];
    AgreeStep(e, f, text, k);
    SamePrefix(if Keeps(e, c) then [c] else "", Strip(NextEscape(e, c), rest).1, RunAnsi(NextAnsi(f, c), rest));
  }

  lemma AgreeAtFirst(e: Escape, f: Escape, text: string)
    ensures AgreeAt(e, f, text, 0)
    ensures text != "" ==> (AgreeAt(e, f, text, 1) <==> (Keeps(e, text[0]) <==> Keeps(f, text[0])))
  {
    hide NextEscape, NextAnsi, Strip, RunAnsi, Keeps;
    EmptyRuns(e, f);
    assert text[..0] == "";
    if text != "" {
      AgreeStep(e, f, text, 1);
      EmptyRuns(NextEscape(e, text[0]), NextAnsi(f, text[0]));
      assert text[1..][..0] == "";
    }
  }

  lemma {:induction false} PrefixesAgree(e: Escape, f: Escape, text: string)
    ensures AgreeOnPrefixes(e, f, text) <==> KeepTogether(e, f, text)
    decreases |text|
  {
    hide NextEscape, NextAnsi, AgreeAt, Keeps;
    AgreeAtFirst(e, f, text);
    if text != "" && (Keeps(e, text[0]) <==> Keeps(f, text[0])) {
      var e1, f1, rest := NextEscape(e, text[0]), NextAnsi(f, text[0]), text[1..];
      PrefixesAgree(e1, f1, rest);
      forall k | 0 < k <= |text| ensures AgreeAt(e, f, text, k) <==> AgreeAt(e1, f1, rest, k - 1) {
        AgreeShift(e, f, text, k);
      }
      if AgreeOnPrefixes(e, f, text) {
        forall k | 0 <= k <= |rest| ensures AgreeAt(e1, f1, rest, k) {
          assert AgreeAt(e, f, text, k + 1);
        }
      }
    }
  }

  lemma SamePrefix(p: string, x: string, y: string)
    ensures p + x == p + y <==> x == y
  {
    assert (p + x)[|p|..] == x && (p + y)[|p|..] == y;
  }

  lemma EmptyRuns(e: Escape, f: Escape)
    ensures Strip(e, "").1 == "" && RunAnsi(f, "") == ""
  {}

  /**
   The two removers agree on a text and all its beginnings, as the text streams by, if and only if at
   each character both or neither of the two machines are about to keep it.
   */
  lemma RemoversAgreeExactly(s: string)
    ensures (forall k | 0 <= k <= |s| :: StripAnsi(s[..k]) == StripEscapes(s[..k])) <==> KeepTogether(Plain, Plain, s)
  {
    hide Strip, RunAnsi, StripAnsi, KeepTogether;
    PrefixesAgree(Plain, Plain, s);
    forall k | 0 <= k <= |s| ensures AgreeAt(Plain, Plain, s, k) <==> StripAnsi(s[..k]) == StripEscapes(s[..k]) {
      StripAnsiIsMachine(s[..k]);
    }
  }

  /** Inside a command, ESC is only ever followed by the character that ends the command. */
  ghost predicate CommandsEndProperly(e: Escape, text: string)
    decreases |text|
  {
    text == "" ||
    ((e.OscEnd? ==> text[0] == '\\' || text[0] == BEL) && CommandsEndProperly(NextEscape(e, text[0]), text[1..]))
  }

  /** Then the two machines never part. */
  lemma {:induction false} ProperCommandsKeepTogether(e: Escape, text: string)
    requires CommandsEndProperly(e, text)
    ensures KeepTogether(e, e, text)
    decreases |text|
  {
    if text != "" {
      assert NextAnsi(e, text[0]) == NextEscape(e, text[0]);
      ProperCommandsKeepTogether(NextEscape(e, text[0]), text[1..]);
    }
  }

  /** On texts whose commands all end properly the removers agree, though that is more than it takes. */
  lemma RemoversAgree(s: string)
    requires CommandsEndProperly(Plain, s)
    ensures StripAnsi(s) == StripEscapes(s)
  {
    hide StripAnsi, Strip, KeepTogether, CommandsEndProperly;
    ProperCommandsKeepTogether(Plain, s);
    RemoversAgreeExactly(s);
    assert s[..|s|] == s;
  }

  /** They disagree on a command with a stray ESC: one resumes after it, the other stays inside. */
  lemma RemoversDisagreeOnStrayEsc()
    ensures StripAnsi([ESC, ']', ESC, 'x', 'y']) == "y"
    ensures StripEscapes([ESC, ']', ESC, 'x', 'y']) == ""
  {
    var s := [ESC, ']', ESC, 'x', 'y'];
    var payload := [ESC, 'x', 'y'];
    assert s[2..] == payload && s[4..] == "y" && "y"[1..] == "";
    assert OscLen(payload) == 2 && StripAnsi("y") == ['y'] + "";
    AfterOpening(s);
    assert payload[1..] == "xy" && "xy"[1..] == "y";
    assert Strip(Osc, "y").1 == "" + Strip(Osc, "").1;
    assert Strip(OscEnd, "xy").1 == "" + Strip(Osc, "y").1;
    assert Strip(Osc, payload).1 == "" + Strip(OscEnd, "xy").1;
  }
}
