/**
 UTF-8 (section 4 of RFC 3629): the validating decoder of the standard library, and the lossy
 decoding that an incremental caller has to reproduce chunk by chunk.
 */
module Utf8 {
  import opened Wrappers
  import opened Text

  type Byte = x: int | 0 <= x < 256

  const REPLACEMENT: char := 0xFFFD as char

  // ---- The encoding -------------------------------------------------------------------------

  function EncodeChar(c: char): (b: seq<Byte>)
    ensures |b| == CharSize(c)
  {
    var n := c as int;
    if n < 0x80 then [n]
    else if n < 0x800 then [0xC0 + n / 64, 0x80 + n % 64]
    else if n < 0x10000 then [0xE0 + n / 4096, 0x80 + n / 64 % 64, 0x80 + n % 64]
    else [0xF0 + n / 262144, 0x80 + n / 4096 % 64, 0x80 + n / 64 % 64, 0x80 + n % 64]
  }

  function Encode(s: string): seq<Byte> {
    if s == "" then [] else EncodeChar(s[0]) + Encode(s[1..])
  }

  // ---- One decoding step --------------------------------------------------------------------

  predicate Continuation(b: Byte) { 0x80 <= b < 0xC0 }

  /** Length of the sequence a lead byte announces; 0 when the byte cannot lead. */
  function Width(lead: Byte): (w: nat)
    ensures w <= 4
  {
    if lead < 0x80 then 1
    else if 0xC2 <= lead <= 0xDF then 2
    else if 0xE0 <= lead <= 0xEF then 3
    else if 0xF0 <= lead <= 0xF4 then 4
    else 0
  }

  /** The second byte rules out overlong forms, surrogates and values past U+10FFFF. */
  predicate SecondByte(lead: Byte, b: Byte) {
    if lead == 0xE0 then 0xA0 <= b < 0xC0
    else if lead == 0xED then 0x80 <= b < 0xA0
    else if lead == 0xF0 then 0x90 <= b < 0xC0
    else if lead == 0xF4 then 0x80 <= b < 0x90
    else Continuation(b)
  }

  /** The number spelt by the payload bits of a sequence of one to four bytes. */
  function Scalar(b: seq<int>): int
    requires 1 <= |b| <= 4
  {
    if |b| == 1 then b[0]
    else if |b| == 2 then (b[0] - 0xC0) * 64 + (b[1] - 0x80)
    else if |b| == 3 then (b[0] - 0xE0) * 4096 + (b[1] - 0x80) * 64 + (b[2] - 0x80)
    else (b[0] - 0xF0) * 262144 + (b[1] - 0x80) * 4096 + (b[2] - 0x80) * 64 + (b[3] - 0x80)
  }

  /** What the bytes at the cursor are: a character, a bad run of `len` bytes, or cut off by the end. */
  datatype Step = Char(c: char, len: nat) | Bad(len: nat) | CutOff

  function Next(b: seq<Byte>): (r: Step)
    requires b != []
    ensures r.Char? ==> 1 <= r.len <= 4 && r.len <= |b|
    ensures r.Bad? ==> 1 <= r.len <= 3 && r.len <= |b|
    ensures r.CutOff? ==> |b| <= 3
  {
    var w := Width(b[0]);
    if w == 0 then Bad(1)
    else if w == 1 then Char(Scalar(b[..1]) as char, 1)
    else if |b| < 2 then CutOff
    else if !SecondByte(b[0], b[1]) then Bad(1)
    else if w == 2 then Char(Scalar(b[..2]) as char, 2)
    else if |b| < 3 then CutOff
    else if !Continuation(b[2]) then Bad(2)
    else if w == 3 then Char(Scalar(b[..3]) as char, 3)
    else if |b| < 4 then CutOff
    else if !Continuation(b[3]) then Bad(3)
    else Char(Scalar(b[..4]) as char, 4)
  }

  /** Later bytes never change a step that has been decided. */
  lemma NextIsStable(a: seq<Byte>, b: seq<Byte>)
    requires a != []
    ensures !Next(a).CutOff? ==> Next(a + b) == Next(a)
  {}

  lemma EncodingIsWellFormed(c: char)
    ensures var b := EncodeChar(c);
            && Width(b[0]) == |b|
            && (|b| >= 2 ==> SecondByte(b[0], b[1]))
            && (|b| >= 3 ==> Continuation(b[2]))
            && (|b| == 4 ==> Continuation(b[3]))
  {}

  lemma ScalarOfEncoding(c: char)
    ensures Scalar(EncodeChar(c)) == c as int
  {
    var n := c as int;
    assert n / 64 / 64 == n / 4096 && n / 4096 / 64 == n / 262144;
  }

  /** Splitting off one six-bit digit; the three quotients nest. */
  lemma Base64Digit(n: nat, high: int, low: int)
    requires n == high * 64 + low && 0 <= low < 64
    ensures n / 64 == high && n % 64 == low
    ensures n / 64 / 64 == n / 4096 && n / 4096 / 64 == n / 262144
  {}

  lemma EncodingOfScalar(b: seq<Byte>, c: char)
    requires 1 <= |b| <= 4 && Width(b[0]) == |b|
    requires |b| >= 2 ==> SecondByte(b[0], b[1])
    requires |b| >= 3 ==> Continuation(b[2])
    requires |b| == 4 ==> Continuation(b[3])
    requires c as int == Scalar(b)
    ensures EncodeChar(c) == b
  {
    var n := c as int;
    var b0: int := b[0];
    if |b| == 2 {
      Base64Digit(n, b0 - 0xC0, b[1] - 0x80);
    } else if |b| == 3 {
      var d1: int := b[1] - 0x80;
      Base64Digit(n, (b0 - 0xE0) * 64 + d1, b[2] - 0x80);
      Base64Digit(n / 64, b0 - 0xE0, d1);
    } else if |b| == 4 {
      var d1: int, d2: int := b[1] - 0x80, b[2] - 0x80;
      Base64Digit(n, (b0 - 0xF0) * 4096 + d1 * 64 + d2, b[3] - 0x80);
      Base64Digit(n / 64, (b0 - 0xF0) * 64 + d1, d2);
      Base64Digit(n / 4096, b0 - 0xF0, d1);
    }
  }

  lemma NextOfEncoding(c: char, rest: seq<Byte>)
    ensures Next(EncodeChar(c) + rest) == Char(c, CharSize(c))
  {
    hide EncodeChar, Scalar, Width, SecondByte, Continuation;
    var b := EncodeChar(c);
    EncodingIsWellFormed(c);
    ScalarOfEncoding(c);
    assert (b + rest)[..|b|] == b;
    assert forall i | 0 <= i < |b| :: (b + rest)[i] == b[i];
  }

  lemma EncodingOfNext(b: seq<Byte>)
    requires b != [] && Next(b).Char?
    ensures b[..Next(b).len] == EncodeChar(Next(b).c)
  {
    EncodingOfScalar(b[..Next(b).len], Next(b).c);
  }

  // ---- Bad runs are maximal subparts --------------------------------------------------------

  /** `p` is a nonempty beginning of the encoding of some character. */
  ghost predicate BeginsCharacter(p: seq<Byte>) {
    p != [] && exists c: char :: p <= EncodeChar(c)
  }

  /** A prefix that decodes so far, completed with continuation bytes, is a character. */
  lemma CutOffBeginsCharacter(p: seq<Byte>)
    requires p != [] && Next(p).CutOff?
    ensures BeginsCharacter(p)
  {
    var second: Byte := if p[0] == 0xE0 then 0xA0 else if p[0] == 0xF0 then 0x90 else 0x80;
    var q := if |p| == 1 then p + [second, 0x80, 0x80] else p + [0x80, 0x80];
    assert Next(q).Char?;
    EncodingOfNext(q);
    assert p <= EncodeChar(Next(q).c);
  }

  lemma PrefixOfEncodingIsNotBad(p: seq<Byte>, c: char)
    requires p != [] && p <= EncodeChar(c)
    ensures !Next(p).Bad?
  {
    var whole := EncodeChar(c);
    NextOfEncoding(c, []);
    assert whole + [] == whole;
    assert whole == p + whole[|p|..];
    NextIsStable(p, whole[|p|..]);
  }

  lemma BadBeginsNoCharacter(p: seq<Byte>)
    requires p != [] && Next(p).Bad?
    ensures !BeginsCharacter(p)
  {
    forall c: char | p <= EncodeChar(c) ensures false {
      PrefixOfEncodingIsNotBad(p, c);
    }
  }

  /**
   A bad run is exactly a maximal subpart: the longest prefix that begins a character, or one
   byte when no prefix does. No longer prefix begins a character.
   */
  lemma BadRunIsMaximalSubpart(b: seq<Byte>)
    requires b != [] && Next(b).Bad?
    ensures Next(b).len == 1 || BeginsCharacter(b[..Next(b).len])
    ensures forall k :: Next(b).len < k <= |b| ==> !BeginsCharacter(b[..k])
    ensures !BeginsCharacter(b)
  {
    var n := Next(b).len;
    if n > 1 {
      assert Next(b[..n]).CutOff?;
      CutOffBeginsCharacter(b[..n]);
    }
    forall k | n < k <= |b| ensures !BeginsCharacter(b[..k]) {
      assert Next(b[..k]).Bad?;
      BadBeginsNoCharacter(b[..k]);
    }
    BadBeginsNoCharacter(b);
  }

  // ---- The validating decoder ---------------------------------------------------------------

  /** `std::str::from_utf8`: the text, or where it stops being valid and how long the bad run is. */
  datatype Decoded = Valid(text: string) | Invalid(validUpTo: nat, errorLen: Option<nat>)

  function FromUtf8(b: seq<Byte>): (r: Decoded)
    ensures r.Invalid? ==> r.validUpTo < |b|
    ensures r.Invalid? && r.errorLen.Some? ==> 1 <= r.errorLen.value <= 3 && r.validUpTo + r.errorLen.value <= |b|
  {
    if b == [] then Valid("")
    else
      match Next(b)
      case Bad(len) => Invalid(0, Some(len))
      case CutOff => Invalid(0, None)
      case Char(c, len) =>
        match FromUtf8(b[len..])
        case Valid(text) => Valid([c] + text)
        case Invalid(at, e) => Invalid(len + at, e)
  }

  lemma {:induction false} DecodesOwnEncoding(s: string)
    ensures FromUtf8(Encode(s)) == Valid(s)
  {
    hide Next, EncodeChar, CharSize;
    if s != "" {
      NextOfEncoding(s[0], Encode(s[1..]));
      assert Encode(s)[CharSize(s[0])..] == Encode(s[1..]);
      DecodesOwnEncoding(s[1..]);
    }
  }

  lemma {:induction false} EncodesOwnDecoding(b: seq<Byte>)
    requires FromUtf8(b).Valid?
    ensures Encode(FromUtf8(b).text) == b
  {
    hide Next, EncodeChar;
    if b != [] {
      EncodingOfNext(b);
      EncodesOwnDecoding(b[Next(b).len..]);
    }
  }

  /** Accepted byte strings are exactly the encodings of texts. */
  lemma ValidExactlyWhenEncoding(b: seq<Byte>)
    ensures FromUtf8(b).Valid? <==> exists s: string :: Encode(s) == b
  {
    if FromUtf8(b).Valid? {
      EncodesOwnDecoding(b);
    }
    forall s: string | Encode(s) == b ensures FromUtf8(b).Valid? {
      DecodesOwnEncoding(s);
    }
  }

  /** The part before the error is valid text, so unwrapping its decoding cannot fail. */
  lemma {:induction false} ValidPrefix(b: seq<Byte>)
    requires FromUtf8(b).Invalid?
    ensures FromUtf8(b[..FromUtf8(b).validUpTo]).Valid?
  {
    hide Next;
    var at := FromUtf8(b).validUpTo;
    if at > 0 {
      var len := Next(b).len;
      ValidPrefix(b[len..]);
      assert b[..at][len..] == b[len..][..at - len];
      NextOfPrefix(b, at);
    }
  }

  lemma NextOfPrefix(b: seq<Byte>, k: nat)
    requires b != [] && Next(b).Char? && Next(b).len <= k <= |b|
    ensures Next(b[..k]) == Next(b)
  {}

  // ---- Lossy decoding -----------------------------------------------------------------------

  /** Whole-input decoding with one U+FFFD per maximal bad subpart. */
  function Lossy(b: seq<Byte>): string {
    if b == [] then ""
    else
      match Next(b)
      case Char(c, len) => [c] + Lossy(b[len..])
      case Bad(len) => [REPLACEMENT] + Lossy(b[len..])
      case CutOff => [REPLACEMENT]
  }

  /** A bad run, or a character cut off at the end, is shown as one U+FFFD; text is shown as it is. */
  lemma BadRunIsReplaced(b: seq<Byte>)
    requires b != []
    ensures Next(b).Bad? ==> Lossy(b) == [0xFFFD as char] + Lossy(b[Next(b).len..])
    ensures Next(b).CutOff? ==> Lossy(b) == [0xFFFD as char]
    ensures Next(b).Char? ==> Lossy(b) == [Next(b).c] + Lossy(b[Next(b).len..])
  {
    hide Next;
  }

  /** What an incremental decoder can emit now, and the bytes of a character still cut off. */
  function Settled(b: seq<Byte>): (r: (string, seq<Byte>))
    ensures |r.1| <= 3 && |r.1| <= |b|
  {
    if b == [] then ("", [])
    else
      match Next(b)
      case Char(c, len) => var r := Settled(b[len..]); ([c] + r.0, r.1)
      case Bad(len) => var r := Settled(b[len..]); ([REPLACEMENT] + r.0, r.1)
      case CutOff => ("", b)
  }

  lemma SettledStep(b: seq<Byte>)
    requires b != []
    ensures Next(b).CutOff? ==> Settled(b) == ("", b)
    ensures !Next(b).CutOff? ==>
              var c, rest := if Next(b).Char? then Next(b).c else REPLACEMENT, Settled(b[Next(b).len..]);
              Settled(b) == ([c] + rest.0, rest.1)
  {
    hide Next;
  }

  /** Decoding in two goes settles the same text and leaves the same remainder. */
  lemma {:induction false} SettledTwice(a: seq<Byte>, b: seq<Byte>)
    ensures Settled(a + b).0 == Settled(a).0 + Settled(Settled(a).1 + b).0
    ensures Settled(a + b).1 == Settled(Settled(a).1 + b).1
  {
    hide Next, Settled;
    if a == [] {
      assert a + b == b;
      NothingSettled();
      assert "" + Settled(b).0 == Settled(b).0;
    } else if Next(a).CutOff? {
      SettledStep(a);
      assert "" + Settled(a + b).0 == Settled(a + b).0;
    } else {
      NextIsStable(a, b);
      var len := Next(a).len;
      var c := if Next(a).Char? then Next(a).c else REPLACEMENT;
      SettledStep(a);
      SettledStep(a + b);
      assert (a + b)[len..] == a[len..] + b;
      SettledTwice(a[len..], b);
      var x, y := Settled(a[len..]).0, Settled(Settled(a).1 + b).0;
      assert [c] + (x + y) == ([c] + x) + y;
    }
  }

  lemma NothingSettled()
    ensures Settled([]) == ("", [])
  {}

  /** Emitting what is settled and decoding the remainder later loses nothing. */
  lemma {:induction false} SettledThenRest(a: seq<Byte>, b: seq<Byte>)
    ensures Lossy(a + b) == Settled(a).0 + Lossy(Settled(a).1 + b)
  {
    hide Next;
    if a == [] {
      assert a + b == b;
    } else if Next(a).CutOff? {
      assert Settled(a) == ("", a);
    } else {
      NextIsStable(a, b);
      var len := Next(a).len;
      assert (a + b)[len..] == a[len..] + b;
      SettledThenRest(a[len..], b);
    }
  }

  /** At the end of input the remainder is one bad subpart or nothing. */
  lemma {:induction false} SettledRemainder(b: seq<Byte>)
    ensures var rest := Settled(b).1; rest == [] || Next(rest).CutOff?
    ensures Settled(Settled(b).1) == ("", Settled(b).1)
    ensures Lossy(b) == Settled(b).0 + Lossy(Settled(b).1)
    ensures Lossy(Settled(b).1) == if Settled(b).1 == [] then "" else [REPLACEMENT]
  {
    if b != [] && !Next(b).CutOff? {
      SettledRemainder(b[Next(b).len..]);
    }
  }

  /** On valid input lossy decoding is plain decoding. */
  lemma {:induction false} LossyOfValid(b: seq<Byte>)
    requires FromUtf8(b).Valid?
    ensures Lossy(b) == FromUtf8(b).text
    ensures Settled(b) == (FromUtf8(b).text, [])
  {
    if b != [] {
      LossyOfValid(b[Next(b).len..]);
    }
  }

  /** Validation stops at a step that is not a character. */
  lemma {:induction false} ErrorIsNextStep(b: seq<Byte>)
    requires FromUtf8(b).Invalid?
    ensures Next(b[FromUtf8(b).validUpTo..]) == (match FromUtf8(b).errorLen case Some(n) => Bad(n) case None => CutOff)
  {
    hide Next;
    if Next(b).Char? {
      var len := Next(b).len;
      ErrorIsNextStep(b[len..]);
      assert b[len..][FromUtf8(b[len..]).validUpTo..] == b[FromUtf8(b).validUpTo..];
    } else {
      assert b[0..] == b;
    }
  }

  /** A valid prefix settles completely. */
  lemma {:induction false} SettledAfterValid(a: seq<Byte>, b: seq<Byte>)
    requires FromUtf8(a).Valid?
    ensures Settled(a + b).0 == FromUtf8(a).text + Settled(b).0
    ensures Settled(a + b).1 == Settled(b).1
  {
    LossyOfValid(a);
    SettledTwice(a, b);
    assert [] + b == b;
  }

  /** Where validation stops, decoding is settled up to that point and the error starts there. */
  lemma SettledUpToError(b: seq<Byte>)
    requires FromUtf8(b).Invalid?
    ensures var at := FromUtf8(b).validUpTo;
            && FromUtf8(b[..at]).Valid?
            && Settled(b).0 == FromUtf8(b[..at]).text + Settled(b[at..]).0
            && Settled(b).1 == Settled(b[at..]).1
            && Next(b[at..]) == (match FromUtf8(b).errorLen case Some(n) => Bad(n) case None => CutOff)
  {
    hide Next, FromUtf8, Settled;
    var at := FromUtf8(b).validUpTo;
    ValidPrefix(b);
    ErrorIsNextStep(b);
    SettledAfterValid(b[..at], b[at..]);
    assert b[..at] + b[at..] == b;
  }
}
