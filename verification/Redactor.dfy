/**
 The token-query sanitizer that every tool result passes through: the value of a `token`
 query parameter is replaced as the text streams by, with at most a partial key held back.
 */
module Redactor {
  import opened Text

  const QUESTION_KEY := "?token="
  const AMPERSAND_KEY := "&token="
  const MASK := "<redacted>"

  predicate IsKey(s: string) { s == QUESTION_KEY || s == AMPERSAND_KEY }

  predicate IsKeyPrefix(s: string) { s <= QUESTION_KEY || s <= AMPERSAND_KEY }

  predicate StartsWithKey(s: string) { |s| >= 7 && IsKey(s[..7]) }

  /** Text in which no key can begin. */
  ghost predicate NoKeyHeads(w: string) {
    forall i | 0 <= i < |w| :: w[i] != '?' && w[i] != '&'
  }

  lemma KeyShape(key: string)
    requires IsKey(key)
    ensures |key| == 7 && key[0] in ['?', '&'] && NoKeyHeads(key[1..])
    ensures forall n | 0 <= n <= 7 :: IsKeyPrefix(key[..n])
    ensures key == QUESTION_KEY ==> AllInValue(key)
    ensures key == AMPERSAND_KEY ==> !InValue(key[0])
  {}

  lemma PrefixShape(p: string)
    requires IsKeyPrefix(p)
    ensures |p| <= 7 && (|p| == 7 <==> IsKey(p))
    ensures p != "" ==> p[0] in ['?', '&'] && NoKeyHeads(p[1..])
  {}

  lemma MaskShape()
    ensures |MASK| > 0 && NoKeyHeads(MASK) && !InValue(MASK[0])
  {}

  /** Characters that belong to a query value. */
  predicate InValue(c: char) {
    !IsWhitespace(c) && c !in ['&', '\"', '\'', '<', '>']
  }

  ghost predicate AllInValue(v: string) {
    forall i | 0 <= i < |v| :: InValue(v[i])
  }

  // ---- The whole-input definition -----------------------------------------------------------

  /** Length of the longest prefix made of value characters. */
  function ValueLen(s: string): (n: nat)
    ensures n <= |s|
    ensures forall i | 0 <= i < n :: InValue(s[i])
    ensures n < |s| ==> !InValue(s[n])
  {
    if s == "" || !InValue(s[0]) then 0 else 1 + ValueLen(s[1..])
  }

  /** The text with every nonempty value after a key replaced by the mask. */
  function Redacted(s: string): string
    decreases |s|
  {
    if s == "" then ""
    else if StartsWithKey(s) then s[..7] + Hidden(s[7..])  + Redacted(s[7 + ValueLen(s[7..])..])
    else [s[0]] + Redacted(s[1..])
  }

  /** What is shown for the value at the start of `s`. */
  function Hidden(s: string): string {
    if ValueLen(s) > 0 then MASK else ""
  }

  // ---- The streaming form -------------------------------------------------------------------

  datatype State = State(prefix: string, value: bool, masked: bool)
  {
    /** A proper beginning of a key is held back, and nothing is held inside a value. */
    ghost predicate Valid() {
      && IsKeyPrefix(prefix) && !IsKey(prefix)
      && (value ==> prefix == "")
    }
  }

  const START := State("", false, false)

  /** Releases the front of `p` until what is left can still become a key. */
  function Release(p: string): (r: (string, string))
    ensures p == r.0 + r.1
    ensures IsKeyPrefix(r.1)
  {
    if p == "" || IsKeyPrefix(p) then ("", p)
    else var r := Release(p[1..]); ([p[0]] + r.0, r.1)
  }

  /** One character: the next state and what is emitted. */
  function Feed(st: State, c: char): (State, string) {
    if st.value && InValue(c) then
      (State(st.prefix, true, true), if st.masked then "" else MASK)
    else
      var r := Release(st.prefix + [c]);
      if IsKey(r.1) then (State("", true, false), r.0 + r.1)
      else (State(r.1, false, st.masked), r.0)
  }

  function FeedAll(st: State, text: string): (State, string)
    decreases |text|
  {
    if text == "" then (st, "")
    else
      var first := Feed(st, text[0]);
      var rest := FeedAll(first.0, text[1..]);
      (rest.0, first.1 + rest.1)
  }

  function Flush(st: State): string { st.prefix }

  /** Everything still to be emitted in state `st` when `s` is all the input to come. */
  ghost function Pending(st: State, s: string): string {
    if st.value then (if st.masked then "" else Hidden(s)) + Redacted(s[ValueLen(s)..])
    else Redacted(st.prefix + s)
  }

  /** What cannot become a key does not start one either. */
  lemma NotAKey(p: string, s: string)
    requires 0 < |p| <= 7 && !IsKeyPrefix(p)
    ensures !StartsWithKey(p + s)
  {
    hide IsKey, IsKeyPrefix;
    if |p + s| >= 7 {
      assert (p + s)[..7][..|p|] == p;
      if StartsWithKey(p + s) {
        KeyShape((p + s)[..7]);
      }
    }
  }

  lemma {:induction false} RedactedStep(w: string)
    requires w != "" && !StartsWithKey(w)
    ensures Redacted(w) == [w[0]] + Redacted(w[1..])
  {
    hide StartsWithKey, Hidden, ValueLen;
  }

  lemma {:induction false} ReleaseKeepsRedaction(p: string, s: string)
    requires |p| <= 7
    ensures Redacted(p + s) == Release(p).0 + Redacted(Release(p).1 + s)
  {
    hide IsKeyPrefix, StartsWithKey, Redacted;
    if p == "" || IsKeyPrefix(p) {
      assert "" + Redacted(p + s) == Redacted(p + s);
    } else {
      NotAKey(p, s);
      RedactedStep(p + s);
      assert (p + s)[1..] == p[1..] + s;
      ReleaseKeepsRedaction(p[1..], s);
    }
  }

  lemma {:induction false} RedactedAtKey(w: string)
    requires StartsWithKey(w)
    ensures Redacted(w) == w[..7] + Hidden(w[7..]) + Redacted(w[7 + ValueLen(w[7..])..])
  {
    hide StartsWithKey, Hidden, ValueLen;
    assert |w| >= 7 by { KeyIsLong(w); }
  }

  lemma KeyIsLong(w: string)
    ensures StartsWithKey(w) ==> |w| >= 7
  {}

  lemma {:induction false} KeyRedacted(key: string, s: string)
    requires IsKey(key)
    ensures Redacted(key + s) == key + (Hidden(s) + Redacted(s[ValueLen(s)..]))
  {
    KeyShape(key);
    hide IsKey, InValue, ValueLen, Hidden, Redacted;
    var whole := key + s;
    assert whole[..7] == key && whole[7..] == s;
    assert whole[7 + ValueLen(s)..] == s[ValueLen(s)..];
    RedactedAtKey(whole);
  }

  lemma FeedStep(st: State, c: char, s: string)
    requires st.Valid()
    ensures Feed(st, c).0.Valid()
    ensures Pending(st, [c] + s) == Feed(st, c).1 + Pending(Feed(st, c).0, s)
  {
    PrefixShape(st.prefix);
    if st.value && InValue(c) {
      FeedInsideValue(st, c, s);
    } else {
      FeedOutsideValue(st, c, s);
    }
  }

  lemma FeedInsideValue(st: State, c: char, s: string)
    requires st.Valid() && st.value && InValue(c)
    ensures Feed(st, c).0.Valid()
    ensures Pending(st, [c] + s) == Feed(st, c).1 + Pending(Feed(st, c).0, s)
  {
    hide IsKey, IsKeyPrefix, InValue, StartsWithKey;
    assert ([c] + s)[1..] == s;
    assert ([c] + s)[ValueLen([c] + s)..] == s[ValueLen(s)..];
  }

  lemma FeedOutsideValue(st: State, c: char, s: string)
    requires st.Valid() && !(st.value && InValue(c)) && |st.prefix| <= 6
    ensures Feed(st, c).0.Valid()
    ensures Pending(st, [c] + s) == Feed(st, c).1 + Pending(Feed(st, c).0, s)
  {
    var p := st.prefix + [c];
    var kept := Release(p).1;
    assert st.prefix + ([c] + s) == p + s;
    ReleaseKeepsRedaction(p, s);
    if IsKey(kept) {
      KeyRedacted(kept, s);
    }
    assert IsKeyPrefix("") && !IsKey("");
    hide IsKey, IsKeyPrefix, InValue, StartsWithKey, Release;
    if st.value {
      assert ValueLen([c] + s) == 0;
      assert ([c] + s)[0..] == [c] + s == p + s;
    }
    assert Pending(st, [c] + s) == Redacted(p + s);
  }

  lemma {:induction false} FeedAllThenPending(st: State, t: string, s: string)
    requires st.Valid()
    ensures FeedAll(st, t).0.Valid()
    ensures Pending(st, t + s) == FeedAll(st, t).1 + Pending(FeedAll(st, t).0, s)
    decreases |t|
  {
    hide Pending, Feed;
    if t == "" {
      assert t + s == s;
    } else {
      assert t + s == [t[0]] + (t[1..] + s);
      FeedStep(st, t[0], t[1..] + s);
      FeedAllThenPending(Feed(st, t[0]).0, t[1..], s);
    }
  }

  lemma {:induction false} FeedAllConcat(st: State, a: string, b: string)
    ensures FeedAll(st, a + b).0 == FeedAll(FeedAll(st, a).0, b).0
    ensures FeedAll(st, a + b).1 == FeedAll(st, a).1 + FeedAll(FeedAll(st, a).0, b).1
    decreases |a|
  {
    hide Feed;
    if a == "" {
      assert a + b == b;
    } else {
      assert (a + b)[1..] == a[1..] + b;
      FeedAllConcat(Feed(st, a[0]).0, a[1..], b);
    }
  }

  lemma FeedAllSnoc(st: State, t: string, c: char)
    ensures FeedAll(st, t + [c]).0 == Feed(FeedAll(st, t).0, c).0
    ensures FeedAll(st, t + [c]).1 == FeedAll(st, t).1 + Feed(FeedAll(st, t).0, c).1
  {
    hide Feed;
    FeedAllConcat(st, t, [c]);
    var one := Feed(FeedAll(st, t).0, c);
    assert [c][1..] == "" && FeedAll(one.0, "") == (one.0, "");
    assert FeedAll(FeedAll(st, t).0, [c]).1 == one.1 + "";
  }

  lemma PendingAtEnd(st: State)
    requires st.Valid()
    ensures Pending(st, "") == Flush(st)
  {
    PrefixShape(st.prefix);
    if !st.value {
      assert st.prefix + "" == st.prefix;
      KeyPrefixUnchanged(st.prefix);
    }
  }

  lemma {:induction false} KeyPrefixUnchanged(p: string)
    requires |p| < 7
    ensures Redacted(p) == p
  {
    if p != "" {
      KeyPrefixUnchanged(p[1..]);
    }
  }

  /**
   The streaming form computes the whole-input definition, and never holds back more than six
   characters.
   */
  lemma StreamingRedacts(text: string)
    ensures FeedAll(START, text).1 + Flush(FeedAll(START, text).0) == Redacted(text)
    ensures FeedAll(START, text).0.Valid() && |Flush(FeedAll(START, text).0)| <= 6
  {
    assert IsKeyPrefix("") && !IsKey("");
    FeedAllThenPending(START, text, "");
    PendingAtEnd(FeedAll(START, text).0);
    PrefixShape(FeedAll(START, text).0.prefix);
    assert text + "" == text && "" + text == text;
  }

  // ---- What redaction guarantees ------------------------------------------------------------

  /** Redaction keeps the first character. */
  lemma FirstCharacterKept(s: string)
    ensures Redacted(s) == "" <==> s == ""
    ensures s != "" ==> Redacted(s)[0] == s[0]
  {
    hide IsKey;
  }

  /** Redaction cannot create the middle of a key: such text in the output was in the input. */
  lemma {:induction false} MiddleOfKeyIsOriginal(s: string, w: string)
    requires NoKeyHeads(w) && w <= Redacted(s)
    ensures w <= s
  {
    hide IsKey, Redacted;
    if w != "" {
      FirstCharacterKept(s);
      if StartsWithKey(s) {
        KeyShape(s[..7]);
      } else {
        RedactedStep(s);
        assert w[1..] <= Redacted(s[1..]);
        MiddleOfKeyIsOriginal(s[1..], w[1..]);
      }
    }
  }

  /** Output starts with a key only where input did. */
  lemma NoNewKey(s: string)
    requires s != "" && StartsWithKey([s[0]] + Redacted(s[1..]))
    ensures StartsWithKey(s)
  {
    hide IsKey, Redacted;
    var out := [s[0]] + Redacted(s[1..]);
    var key := out[..7];
    assert key[1..] == Redacted(s[1..])[..6];
    assert key == [s[0]] + key[1..];
    KeyShape(key);
    MiddleOfKeyIsOriginal(s[1..], key[1..]);
    assert s[1..][..6] == key[1..];
    assert s[..7] == [s[0]] + s[1..][..6];
  }

  ghost predicate KeyAt(out: string, i: int) {
    0 <= i && i + 7 <= |out| && IsKey(out[i..i + 7])
  }

  /** `out` shows no value: each key is followed by the end or by a character no value contains. */
  ghost predicate ShowsNoValue(out: string) {
    forall i :: KeyAt(out, i) ==> i + 7 == |out| || !InValue(out[i + 7])
  }

  lemma ShowsNoValueCons(c: char, rest: string)
    requires ShowsNoValue(rest)
    requires StartsWithKey([c] + rest) ==> |rest| == 6 || !InValue(rest[6])
    ensures ShowsNoValue([c] + rest)
  {
    hide IsKey, InValue;
    var out := [c] + rest;
    forall i | KeyAt(out, i) ensures i + 7 == |out| || !InValue(out[i + 7]) {
      if i == 0 {
        assert out[..7] == out[0..7];
      } else {
        assert out[i..i + 7] == rest[i - 1..i + 6];
        assert KeyAt(rest, i - 1);
      }
    }
  }

  /** Text without key heads in front adds no key. */
  lemma {:induction false} ShowsNoValuePrepend(w: string, rest: string)
    requires NoKeyHeads(w) && ShowsNoValue(rest)
    ensures ShowsNoValue(w + rest)
  {
    if w == "" {
      assert w + rest == rest;
    } else {
      ShowsNoValuePrepend(w[1..], rest);
      var out := w + rest;
      assert out == [w[0]] + (w[1..] + rest);
      if StartsWithKey(out) {
        KeyShape(out[..7]);
      }
      hide IsKey, InValue, ShowsNoValue;
      ShowsNoValueCons(w[0], w[1..] + rest);
    }
  }

  lemma {:induction false} RedactedShowsNoValue(s: string)
    ensures ShowsNoValue(Redacted(s))
    decreases |s|
  {
    if s == "" {
    } else if StartsWithKey(s) {
      KeyShowsNoValue(s[..7], s[7..]);
      assert s == s[..7] + s[7..];
    } else {
      hide IsKey, InValue, ShowsNoValue;
      RedactedShowsNoValue(s[1..]);
      if StartsWithKey([s[0]] + Redacted(s[1..])) {
        NoNewKey(s);
      }
      ShowsNoValueCons(s[0], Redacted(s[1..]));
    }
  }

  lemma HiddenShape(v: string)
    ensures NoKeyHeads(Hidden(v)) && (Hidden(v) != "" ==> !InValue(Hidden(v)[0]))
    ensures Hidden(v) == "" ==> ValueLen(v) == 0
  {
    hide InValue, ValueLen;
    MaskShape();
  }

  lemma ShownStart(v: string)
    ensures var shown := Hidden(v) + Redacted(v[ValueLen(v)..]); shown == "" || !InValue(shown[0])
  {
    HiddenShape(v);
    hide InValue, Redacted, Hidden;
    FirstCharacterKept(v[ValueLen(v)..]);
  }

  lemma KeyBody(key: string)
    requires IsKey(key)
    ensures |key| == 7 && NoKeyHeads(key[1..])
  {}

  lemma {:induction false} KeyShowsNoValue(key: string, v: string)
    requires IsKey(key)
    ensures ShowsNoValue(Redacted(key + v))
    decreases |v| + 7, 0
  {
    hide InValue, ShowsNoValue, IsKey, IsKeyPrefix, Hidden, ValueLen, Redacted, StartsWithKey, NoKeyHeads;
    KeyBody(key);
    var rest := v[ValueLen(v)..];
    var shown := Hidden(v) + Redacted(rest);
    KeyRedacted(key, v);
    RedactedShowsNoValue(rest);
    HiddenShape(v);
    ShownStart(v);
    ShowsNoValuePrepend(Hidden(v), Redacted(rest));
    ShowsNoValuePrepend(key[1..], shown);
    assert key + shown == [key[0]] + (key[1..] + shown);
    assert shown != "" ==> (key[1..] + shown)[6] == shown[0];
    ShowsNoValueCons(key[0], key[1..] + shown);
  }

  /** Text without key heads passes through. */
  lemma {:induction false} PlainPassesThrough(w: string, s: string)
    requires NoKeyHeads(w)
    ensures Redacted(w + s) == w + Redacted(s)
  {
    hide IsKey, Hidden, ValueLen;
    if w == "" {
      assert w + s == s;
    } else {
      assert (w + s)[0] == w[0];
      if StartsWithKey(w + s) {
        KeyShape((w + s)[..7]);
      }
      assert (w + s)[1..] == w[1..] + s;
      PlainPassesThrough(w[1..], s);
    }
  }

  lemma {:induction false} RedactionIsIdempotent(s: string)
    ensures Redacted(Redacted(s)) == Redacted(s)
    decreases |s|
  {
    if s == "" {
    } else if StartsWithKey(s) {
      assert s == s[..7] + s[7..];
      KeyIdempotent(s[..7], s[7..]);
    } else {
      hide IsKey;
      if StartsWithKey([s[0]] + Redacted(s[1..])) {
        NoNewKey(s);
      }
      RedactionIsIdempotent(s[1..]);
      assert ([s[0]] + Redacted(s[1..]))[1..] == Redacted(s[1..]);
    }
  }

  lemma {:induction false} KeyIdempotent(key: string, v: string)
    requires IsKey(key)
    ensures Redacted(Redacted(key + v)) == Redacted(key + v)
    decreases |v| + 7, 0
  {
    MaskShape();
    var rest := v[ValueLen(v)..];
    var shown := Hidden(v) + Redacted(rest);
    KeyRedacted(key, v);
    FirstCharacterKept(rest);
    assert ValueLen(shown) == 0;
    KeyRedacted(key, shown);
    PlainPassesThrough(Hidden(v), Redacted(rest));
    RedactionIsIdempotent(rest);
    assert shown[0..] == shown;
    assert Hidden(shown) + Redacted(shown) == Redacted(shown);
  }

  // ---- Which characters a value takes in ----------------------------------------------------

  /** A value ends at whitespace, at `&`, at either quote and at either angle bracket, and nowhere else. */
  predicate EndsValue(c: char) {
    || IsWhitespace(c)
    || c == 0x26 as char || c == 0x22 as char || c == 0x27 as char || c == 0x3C as char || c == 0x3E as char
  }

  /** Neither key stands anywhere in the text. */
  predicate NamesNoToken(s: string) {
    forall i | 0 <= i <= |s| :: !("?token=" <= s[i..]) && !("&token=" <= s[i..])
  }

  /** A text without keys is left as it is, up to the place where one can begin. */
  lemma {:induction false} KeylessPasses(w: string, s: string)
    requires NamesNoToken(w) && (s == "" || s[0] == '?' || s[0] == '&')
    ensures Redacted(w + s) == w + Redacted(s)
  {
    hide IsKey, Hidden, ValueLen, NamesNoToken;
    if w == "" {
      assert w + s == s;
    } else {
      NotAtStart(w, s);
      assert (w + s)[1..] == w[1..] + s;
      KeylessPasses(w[1..], s);
      assert [w[0]] + (w[1..] + Redacted(s)) == w + Redacted(s);
    }
  }

  lemma NotAtStart(w: string, s: string)
    requires w != "" && NamesNoToken(w) && (s == "" || s[0] == '?' || s[0] == '&')
    ensures !StartsWithKey(w + s) && NamesNoToken(w[1..])
  {
    assert forall i | 0 <= i < |w| :: w[1..][i..] == w[i + 1..];
    assert w[0..] == w;
    assert |w| >= 7 ==> (w + s)[..7] == w[..7];
    assert |w| < 7 && s != "" ==> (w + s)[|w|] == s[0];
    if StartsWithKey(w + s) {
      KeyHasOneHead((w + s)[..7]);
    }
  }

  lemma KeyHasOneHead(key: string)
    requires IsKey(key)
    ensures forall i | 0 < i < 7 :: key[i] != '?' && key[i] != '&'
  {}

  /** Without a key nothing is redacted. */
  lemma OnlyKeysCount(s: string)
    requires NamesNoToken(s)
    ensures Redacted(s) == s
  {
    hide NamesNoToken;
    KeylessPasses(s, "");
    assert s + "" == s && Redacted("") == "";
  }

  /** The whole value after a key is replaced by one mask, and what follows is redacted on its own. */
  lemma ValueIsMasked(before: string, key: string, v: string, after: string)
    requires key == "?token=" || key == "&token="
    requires NamesNoToken(before)
    requires forall i | 0 <= i < |v| :: !EndsValue(v[i])
    requires after == "" || EndsValue(after[0])
    ensures Redacted(before + key + v + after)
         == before + key + (if v == "" then "" else "<redacted>") + Redacted(after)
  {
    hide Redacted, EndsValue, InValue, ValueLen, Hidden, IsKey, NamesNoToken;
    KeysAre(key);
    ValueGoesOn(v, after);
    HiddenIs(v, after);
    AroundKey(before, key, v, after);
  }

  lemma AroundKey(before: string, key: string, v: string, after: string)
    requires IsKey(key) && NamesNoToken(before) && ValueLen(v + after) == |v|
    ensures Redacted(before + key + v + after) == before + key + Hidden(v + after) + Redacted(after)
  {
    hide Redacted, InValue, ValueLen, Hidden, IsKey, NamesNoToken;
    KeyRedacted(key, v + after);
    KeyShape(key);
    KeylessPasses(before, key + (v + after));
    assert before + key + v + after == before + (key + (v + after));
    assert (v + after)[|v|..] == after;
  }

  lemma KeysAre(key: string)
    requires key == "?token=" || key == "&token="
    ensures IsKey(key)
  {}

  lemma HiddenIs(v: string, after: string)
    requires ValueLen(v + after) == |v|
    ensures Hidden(v + after) == if v == "" then "" else "<redacted>"
  {
    hide ValueLen;
  }

  lemma {:induction false} ValueGoesOn(v: string, after: string)
    requires forall i | 0 <= i < |v| :: !EndsValue(v[i])
    requires after == "" || EndsValue(after[0])
    ensures ValueLen(v + after) == |v|
  {
    hide IsWhitespace;
    if v == "" {
      assert v + after == after;
    } else {
      assert (v + after)[1..] == v[1..] + after;
      ValueGoesOn(v[1..], after);
    }
  }

  // ---- No information flows from a value to the output --------------------------------------

  lemma {:induction false} ValueIsSwallowed(st: State, v: string)
    requires st.value && v != "" && AllInValue(v)
    ensures FeedAll(st, v).0 == State(st.prefix, true, true)
    ensures FeedAll(st, v).1 == if st.masked then "" else MASK
    decreases |v|
  {
    hide InValue, Release;
    var first := Feed(st, v[0]);
    if |v| > 1 {
      ValueIsSwallowed(first.0, v[1..]);
    } else {
      assert FeedAll(first.0, v[1..]) == (first.0, "");
    }
  }

  /** Whatever was held back, a key head is all that is held next. */
  lemma {:induction false} ReleaseAtHead(p: string, head: char)
    requires head in ['?', '&']
    ensures Release(p + [head]).1 == [head]
  {
    var q := p + [head];
    if p == "" {
      assert q == [head];
    } else {
      assert q[1..][|p| - 1] == head;
      if IsKeyPrefix(q) {
        PrefixShape(q);
      }
      assert q[1..] == p[1..] + [head];
      ReleaseAtHead(p[1..], head);
    }
  }

  lemma FeedNothing(st: State)
    ensures FeedAll(st, "") == (st, "")
  {}

  lemma KeyStarts(st: State, key: string)
    requires IsKey(key) && (st.value ==> key == AMPERSAND_KEY)
    ensures |key| == 7 && Feed(st, key[0]).0.prefix == key[..1] && !Feed(st, key[0]).0.value
  {
    KeyShape(key);
    ReleaseAtHead(st.prefix, key[0]);
    PrefixShape(key[..1]);
    assert key[..1] == [key[0]];
  }

  lemma KeyContinues(before: State, key: string, n: nat)
    requires IsKey(key) && 2 <= n <= 7 && |key| == 7
    requires before.prefix == key[..n - 1] && !before.value
    ensures var r := Feed(before, key[n - 1]).0; if n < 7 then r.prefix == key[..n] && !r.value else r.value
  {
    hide InValue;
    KeyShape(key);
    assert key[..n] == key[..n - 1] + [key[n - 1]];
    assert Release(key[..n]) == ("", key[..n]);
    PrefixShape(key[..n]);
  }

  /** Outside a value, or at the `&` that ends one, a key is held until it is whole. */
  lemma {:induction false} KeyIsRecognised(st: State, key: string, n: nat)
    requires IsKey(key) && (st.value ==> key == AMPERSAND_KEY) && 1 <= n <= 7
    ensures |key| == 7
    ensures var r := FeedAll(st, key[..n]).0; if n < 7 then r.prefix == key[..n] && !r.value else r.value
    decreases n
  {
    hide FeedAll, Feed, IsKey, IsKeyPrefix, InValue, AllInValue, NoKeyHeads;
    KeyStarts(st, key);
    FeedAllSnoc(st, key[..n - 1], key[n - 1]);
    assert key[..n] == key[..n - 1] + [key[n - 1]];
    if n == 1 {
      assert key[..0] == "";
      FeedNothing(st);
    } else {
      KeyIsRecognised(st, key, n - 1);
      KeyContinues(FeedAll(st, key[..n - 1]).0, key, n);
    }
  }

  lemma KeyOpensValue(st: State, key: string)
    requires IsKey(key)
    ensures FeedAll(st, key).0.value
  {
    KeyShape(key);
    if st.value && key == QUESTION_KEY {
      ValueIsSwallowed(st, key);
    } else {
      KeyIsRecognised(st, key, 7);
      assert key[..7] == key;
    }
  }

  /** Two texts that differ only in a nonempty value after a key are redacted to the same text. */
  lemma ValueDoesNotLeak(before: string, key: string, v1: string, v2: string, after: string)
    requires IsKey(key)
    requires v1 != "" && AllInValue(v1) && v2 != "" && AllInValue(v2)
    ensures Redacted(before + key + v1 + after) == Redacted(before + key + v2 + after)
  {
    hide FeedAll, Redacted, IsKey, AllInValue;
    FeedAllConcat(START, before, key);
    KeyOpensValue(FeedAll(START, before).0, key);
    var st := FeedAll(START, before + key).0;
    ValueIsSwallowed(st, v1);
    ValueIsSwallowed(st, v2);
    FeedAllConcat(START, before + key, v1);
    FeedAllConcat(START, before + key, v2);
    FeedAllConcat(START, before + key + v1, after);
    FeedAllConcat(START, before + key + v2, after);
    StreamingRedacts(before + key + v1 + after);
    StreamingRedacts(before + key + v2 + after);
  }

  // ---- The program's sanitizer --------------------------------------------------------------

  class OutputRedactor {
    var prefix: string
    var value: bool
    var masked: bool

    function View(): State
      reads this
    {
      State(prefix, value, masked)
    }

    constructor ()
      ensures View() == START
    {
      prefix, value, masked := "", false, false;
    }

    method Push(text: string) returns (out: string)
      modifies this
      ensures View() == FeedAll(old(View()), text).0
      ensures out == FeedAll(old(View()), text).1
    {
      hide Feed;
      out := "";
      for i := 0 to |text|
        invariant View() == FeedAll(old(View()), text[..i]).0
        invariant out == FeedAll(old(View()), text[..i]).1
      {
        FeedAllSnoc(old(View()), text[..i], text[i]);
        assert text[..i + 1] == text[..i] + [text[i]];
        var emitted := PushChar(text[i]);
        out := out + emitted;
      }
      assert text[..|text|] == text;
    }

    /** The body of the loop over the characters. */
    method PushChar(c: char) returns (out: string)
      modifies this
      ensures View() == Feed(old(View()), c).0
      ensures out == Feed(old(View()), c).1
    {
      hide IsWhitespace, IsKey, IsKeyPrefix;
      out := "";
      if value {
        if !IsWhitespace(c) && c !in ['&', '\"', '\'', '<', '>'] {
          if !masked {
            out := MASK;
            masked := true;
          }
          return;
        }
        value := false;
      }
      prefix := prefix + [c];
      ghost var p, wasMasked := prefix, masked;
      while prefix != "" && !IsKeyPrefix(prefix)
        invariant !value && masked == wasMasked
        invariant out + Release(prefix).0 == Release(p).0
        invariant Release(prefix).1 == Release(p).1
        decreases |prefix|
      {
        out := out + [prefix[0]];
        prefix := prefix[1..];
      }
      assert out == Release(p).0 && prefix == Release(p).1;
      if IsKey(prefix) {
        out := out + prefix;
        prefix := "";
        value := true;
        masked := false;
      }
    }

    method Finish() returns (held: string)
      modifies this
      ensures held == Flush(old(View()))
      ensures prefix == "" && !value && masked == old(masked)
    {
      value := false;
      held := prefix;
      prefix := "";
    }
  }

  /** One-shot redaction of a whole text. */
  method RedactOutput(text: string) returns (r: string)
    ensures r == Redacted(text)
    ensures ShowsNoValue(r)
  {
    var redactor := new OutputRedactor();
    r := redactor.Push(text);
    var held := redactor.Finish();
    r := r + held;
    StreamingRedacts(text);
    RedactedShowsNoValue(text);
  }
}
