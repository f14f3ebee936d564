/**
 Reading a workspace file line by line through a buffered reader, validating every byte while
 keeping only what is displayed.
 */
module Workspace {
  import opened Wrappers
  import opened Text
  import opened Utf8
  import Decimal

  const LF: Byte := 10
  const LINE_CHARS: nat := 300
  const DEFAULT_LIMIT: nat := 400
  const MAX_LIMIT: nat := 2000

  // ---- The simple version -------------------------------------------------------------------

  /** A line as displayed: stray line breaks blanked, cut to 300 characters with a mark. */
  function ShortLine(line: string): string {
    if |line| <= LINE_CHARS then Blanked(line) else Blanked(line[..LINE_CHARS]) + [0x2026 as char]
  }

  function Blanked(line: string): (r: string)
    ensures |r| == |line|
  {
    seq(|line|, i requires 0 <= i < |line| => if line[i] == '\n' || line[i] == '\r' then ' ' else line[i])
  }

  function NumberedLine(n: nat, line: string): string { Decimal.Numeral(n) + ": " + ShortLine(line) }

  function Numbered(lines: seq<string>, first: nat): (r: seq<string>)
    ensures |r| == |lines|
  {
    if lines == [] then [] else [NumberedLine(first, lines[0])] + Numbered(lines[1..], first + 1)
  }

  /** The file is text: valid UTF-8 without NUL. */
  predicate IsTextFile(b: seq<Byte>) {
    FromUtf8(b).Valid? && 0 !in b
  }

  /** Lines `offset .. offset + limit`, counted from 1. */
  function Page(lines: seq<string>, offset: nat, limit: nat): seq<string>
    requires offset >= 1
  {
    var from := if offset - 1 <= |lines| then offset - 1 else |lines|;
    var to := if from + limit <= |lines| then from + limit else |lines|;
    Numbered(lines[from..to], from + 1)
  }

  // ---- Decoding line by line ----------------------------------------------------------------

  /** The decoding of what follows valid text, seen from the start of that text. */
  function After(text: string, bytes: nat, d: Decoded): Decoded {
    match d
    case Valid(more) => Valid(text + more)
    case Invalid(at, e) => Invalid(bytes + at, e)
  }

  lemma DecodeFirst(a: seq<Byte>)
    requires a != [] && Next(a).Char?
    ensures FromUtf8(a) == After([Next(a).c], Next(a).len, FromUtf8(a[Next(a).len..]))
  {
    hide Next;
  }

  lemma AfterTwice(t: string, m: nat, u: string, n: nat, d: Decoded)
    ensures After(t, m, After(u, n, d)) == After(t + u, m + n, d)
  {
    if d.Valid? {
      assert t + (u + d.text) == (t + u) + d.text;
    }
  }

  lemma DecodeNothing(d: Decoded)
    ensures FromUtf8([]) == Valid("") && After("", 0, d) == d
  {
    if d.Valid? {
      assert "" + d.text == d.text;
    }
  }

  lemma DecodeKind(a: seq<Byte>)
    requires a != [] && FromUtf8(a).Valid?
    ensures Next(a).Char?
  {}

  lemma {:induction false} ValidConcat(a: seq<Byte>, b: seq<Byte>)
    requires FromUtf8(a).Valid?
    ensures FromUtf8(a + b) == After(FromUtf8(a).text, |a|, FromUtf8(b))
  {
    hide FromUtf8, Next;
    if a == [] {
      assert a + b == b;
      DecodeNothing(FromUtf8(b));
    } else {
      DecodeKind(a);
      NextIsStable(a, b);
      var c, rest := Next(a).c, a[Next(a).len..];
      DecodeFirst(a);
      DecodeFirst(a + b);
      assert (a + b)[|a| - |rest|..] == rest + b;
      ValidConcat(rest, b);
      AfterTwice([c], |a| - |rest|, FromUtf8(rest).text, |rest|, FromUtf8(b));
    }
  }

  /** A bad run stays bad whatever follows. */
  lemma {:induction false} BadStaysBad(a: seq<Byte>, b: seq<Byte>)
    requires FromUtf8(a).Invalid? && FromUtf8(a).errorLen.Some?
    ensures FromUtf8(a + b).Invalid?
  {
    hide Next;
    NextIsStable(a, b);
    if Next(a).Char? {
      var len := Next(a).len;
      assert (a + b)[len..] == a[len..] + b;
      BadStaysBad(a[len..], b);
    }
  }

  lemma NewlineEndsCharacters(a: seq<Byte>, b: seq<Byte>)
    requires a != [] && Next(a).CutOff?
    ensures Next(a + [LF] + b).Bad?
  {
    var s := a + [LF] + b;
    assert forall i | 0 <= i < |a| :: s[i] == a[i];
    assert s[|a|] == LF;
  }

  /** An LF cannot complete a character, so an invalid line makes the whole file invalid. */
  lemma {:induction false} InvalidBeforeNewline(a: seq<Byte>, b: seq<Byte>)
    requires FromUtf8(a).Invalid?
    ensures FromUtf8(a + [LF] + b).Invalid?
  {
    hide Next;
    var s := a + [LF] + b;
    if Next(a).CutOff? {
      NewlineEndsCharacters(a, b);
    } else {
      NextIsStable(a, [LF] + b);
      assert s == a + ([LF] + b);
      if Next(a).Char? {
        var len := Next(a).len;
        assert s[len..] == a[len..] + [LF] + b;
        InvalidBeforeNewline(a[len..], b);
      }
    }
  }

  lemma NextOfNewline(b: seq<Byte>)
    ensures Next([LF] + b) == Char('\n', 1)
  {}

  /** A whole file is valid exactly when its first line and the rest are, and decodes in two parts. */
  lemma DecodeAcrossNewline(a: seq<Byte>, b: seq<Byte>)
    ensures FromUtf8(a + [LF] + b).Valid? <==> FromUtf8(a).Valid? && FromUtf8(b).Valid?
    ensures FromUtf8(a).Valid? && FromUtf8(b).Valid? ==>
              FromUtf8(a + [LF] + b).text == FromUtf8(a).text + "\n" + FromUtf8(b).text
  {
    hide Next;
    if FromUtf8(a).Valid? {
      assert a + [LF] + b == a + ([LF] + b);
      ValidConcat(a, [LF] + b);
      NextOfNewline(b);
      assert ([LF] + b)[1..] == b;
      if FromUtf8(b).Valid? {
        assert FromUtf8(a).text + (['\n'] + FromUtf8(b).text) == FromUtf8(a).text + "\n" + FromUtf8(b).text;
      }
    } else {
      InvalidBeforeNewline(a, b);
    }
  }

  lemma NewlineOnlyFromByte(b: seq<Byte>)
    requires b != [] && Next(b).Char? && Next(b).c == '\n'
    ensures b[0] == LF
  {
    EncodingOfNext(b);
  }

  lemma {:induction false} NoNewlineDecoded(a: seq<Byte>)
    requires FromUtf8(a).Valid? && LF !in a
    ensures '\n' !in FromUtf8(a).text
  {
    hide Next;
    if a != [] {
      if Next(a).c == '\n' { NewlineOnlyFromByte(a); }
      NoNewlineDecoded(a[Next(a).len..]);
    }
  }

  lemma OnlyLine(b: seq<Byte>)
    requires b != [] && FromUtf8(b).Valid? && LF !in b
    ensures TextLines(FromUtf8(b).text) == [FromUtf8(b).text]
  {
    hide FromUtf8;
    var t := FromUtf8(b).text;
    NoNewlineDecoded(b);
    EncodesOwnDecoding(b);
    assert '\n' !in t[..IndexOf(t, '\n')];
    assert IndexOf(t, '\n') == |t|;
  }

  lemma LineThenRest(a: seq<Byte>, c: seq<Byte>)
    requires LF !in a && FromUtf8(a).Valid? && FromUtf8(c).Valid?
    ensures FromUtf8(a + [LF] + c).Valid?
    ensures TextLines(FromUtf8(a + [LF] + c).text) == [DropCr(FromUtf8(a).text)] + TextLines(FromUtf8(c).text)
  {
    hide FromUtf8;
    DecodeAcrossNewline(a, c);
    NoNewlineDecoded(a);
    var ta, tc := FromUtf8(a).text, FromUtf8(c).text;
    var t := ta + "\n" + tc;
    IndexOfSplit(ta, '\n', tc);
    assert t[..|ta|] == ta && t[|ta| + 1..] == tc;
  }

  // ---- The buffered reader ------------------------------------------------------------------

  function Joined(buffers: seq<seq<Byte>>): seq<Byte> {
    if buffers == [] then [] else buffers[0] + Joined(buffers[1..])
  }

  /** A reader over a file that arrives cut into buffers at arbitrary places. */
  class BufReader {
    var buffers: seq<seq<Byte>>

    ghost predicate Valid()
      reads this
    {
      forall b | b in buffers :: b != []
    }

    /** The bytes not consumed yet. */
    ghost function Rest(): seq<Byte>
      reads this
    {
      Joined(buffers)
    }

    constructor (buffers: seq<seq<Byte>>)
      requires forall b | b in buffers :: b != []
      ensures Valid() && Rest() == Joined(buffers)
    {
      this.buffers := buffers;
    }

    /** The unread part of the current buffer; empty only at the end of the file. */
    method FillBuf() returns (chunk: seq<Byte>)
      requires Valid()
      ensures chunk <= Rest()
      ensures chunk == [] <==> Rest() == []
      ensures chunk == if buffers == [] then [] else buffers[0]
    {
      chunk := if buffers == [] then [] else buffers[0];
      assert buffers != [] ==> buffers[0] in buffers;
    }

    method Consume(n: nat)
      requires Valid() && buffers != [] && n <= |buffers[0]|
      modifies this
      ensures Valid() && Rest() == old(Rest())[n..]
    {
      var left := buffers[0][n..];
      assert forall b | b in buffers[1..] :: b in buffers;
      assert Joined(buffers)[n..] == left + Joined(buffers[1..]);
      if left == [] {
        buffers := buffers[1..];
      } else {
        var tail := buffers[1..];
        buffers := [left] + tail;
        assert buffers[1..] == tail;
      }
    }
  }

  // ---- One line -----------------------------------------------------------------------------

  /** The bytes of the first line, without its LF. */
  function FirstLine(b: seq<Byte>): seq<Byte> { b[..IndexOf(b, LF)] }

  function AfterFirstLine(b: seq<Byte>): seq<Byte> {
    var k := IndexOf(b, LF);
    if k < |b| then b[k + 1..] else []
  }

  /** The displayed form of the first line, from its decoded bytes. */
  function FirstLineText(b: seq<Byte>): string
    requires FromUtf8(FirstLine(b)).Valid?
  {
    var t := FromUtf8(FirstLine(b)).text;
    if IndexOf(b, LF) < |b| then DropCr(t) else t
  }

  /**
   State while scanning a line: `done` has been taken from the file and decodes to `text`
   followed by `pending`, the bytes of a character still cut off. Of `text` only 301
   characters are kept.
   */
  ghost predicate ScannedTo(done: seq<Byte>, n: nat, line: string, pending: seq<Byte>, overflow: bool) {
    && n <= |done|
    && FromUtf8(done[..n]).Valid?
    && pending == done[n..]
    && (pending != [] ==> Next(pending).CutOff?)
    && Kept(FromUtf8(done[..n]).text, line, overflow)
    && LF !in done && 0 !in done
  }

  /** `line` is the part of `text` that is kept. */
  ghost predicate Kept(text: string, line: string, overflow: bool) {
    && line == (if |text| <= LINE_CHARS + 1 then text else text[..LINE_CHARS + 1])
    && (overflow <==> |text| > LINE_CHARS + 1)
  }

  lemma KeepMore(text: string, more: string, line: string, overflow: bool)
    requires Kept(text, line, overflow)
    ensures var room := LINE_CHARS + 1 - |line|;
            var taken := if |more| <= room then more else more[..room];
            Kept(text + more, line + taken, overflow || |more| > room)
  {
    if |text| <= LINE_CHARS + 1 {
      assert |text| + |more| > LINE_CHARS + 1 ==>
          (text + more)[..LINE_CHARS + 1] == text + more[..LINE_CHARS + 1 - |text|];
    } else {
      assert (text + more)[..LINE_CHARS + 1] == text[..LINE_CHARS + 1];
      assert more[..0] == "";
    }
  }

  /** What is kept determines what is displayed, with and without the CR of a line break. */
  lemma KeptIsEnough(text: string, line: string, overflow: bool)
    requires Kept(text, line, overflow)
    ensures ShortLine(line) == ShortLine(text)
    ensures ShortLine(if overflow then line else DropCr(line)) == ShortLine(DropCr(text))
  {
    if overflow {
      assert line[..LINE_CHARS] == text[..LINE_CHARS];
      assert DropCr(text)[..LINE_CHARS] == text[..LINE_CHARS];
    }
  }

  /** Taking `content` from the file moves the scan on, or shows that the line is not text. */
  lemma ScanMore(done: seq<Byte>, n: nat, line: string, pending: seq<Byte>, overflow: bool, content: seq<Byte>)
    requires ScannedTo(done, n, line, pending, overflow) && LF !in content && 0 !in content
    ensures match FromUtf8(pending + content)
            case Valid(text) =>
              var room := LINE_CHARS + 1 - |line|;
              ScannedTo(done + content, |done + content|, line + (if |text| <= room then text else text[..room]), [],
                overflow || |text| > room)
            case Invalid(at, None) =>
              var head := FromUtf8((pending + content)[..at]);
              var room := LINE_CHARS + 1 - |line|;
              && head.Valid?
              && ScannedTo(done + content, n + at,
                 line + (if |head.text| <= room then head.text else head.text[..room]), (pending + content)[at..],
                   overflow || |head.text| > room)
              && FromUtf8(done + content).Invalid?
            case Invalid(at, Some(_)) => forall more: seq<Byte> :: FromUtf8(done + content + more).Invalid?
  {
    hide FromUtf8, Next, Kept;
    var p := pending + content;
    var all := done + content;
    assert all == done[..n] + p;
    match FromUtf8(p)
    case Valid(text) =>
      ValidConcat(done[..n], p);
      KeepMore(FromUtf8(done[..n]).text, text, line, overflow);
      assert all[..|all|] == all && all[|all|..] == [];
    case Invalid(at, None) =>
      SettledUpToError(p);
      ValidConcat(done[..n], p);
      ValidConcat(done[..n], p[..at]);
      assert all[..n + at] == done[..n] + p[..at];
      assert all[n + at..] == p[at..];
      KeepMore(FromUtf8(done[..n]).text, FromUtf8(p[..at]).text, line, overflow);
    case Invalid(at, Some(_)) =>
      forall more: seq<Byte> ensures FromUtf8(all + more).Invalid? {
        BadStaysBad(p, more);
        ValidConcat(done[..n], p + more);
        assert all + more == done[..n] + (p + more);
      }
  }

  /** Text without LF in front belongs to the first line. */
  lemma StartOfFirstLine(p: seq<Byte>, rest: seq<Byte>)
    requires LF !in p
    ensures FirstLine(p + rest) == p + FirstLine(rest)
    ensures IndexOf(p + rest, LF) == |p| + IndexOf(rest, LF)
  {
    if p == [] {
      assert p + rest == rest;
    } else {
      assert (p + rest)[1..] == p[1..] + rest;
      StartOfFirstLine(p[1..], rest);
    }
  }

  /** The first line is acceptable text. */
  predicate IsTextLine(b: seq<Byte>) {
    FromUtf8(FirstLine(b)).Valid? && 0 !in FirstLine(b)
  }

  /** What reading one display line from `b` must give, with `rest` left to read. */
  ghost predicate ReadsLine(b: seq<Byte>, rest: seq<Byte>, r: Result<Option<string>>) {
    match r
    case Ok(None) => b == [] && rest == []
    case Ok(Some(display)) => b != [] && IsTextLine(b) && display == ShortLine(FirstLineText(b))
      && rest == AfterFirstLine(b)
    case Err(_) => b != [] && !IsTextLine(b)
  }

  /** The scan ended at the LF of the first line, or at the end of the file. */
  lemma LineComplete(b: seq<Byte>, pos: nat, line: string, overflow: bool, newline: bool)
    requires pos <= |b| && ScannedTo(b[..pos], pos, line, [], overflow)
    requires if newline then pos < |b| && b[pos] == LF else pos == |b|
    ensures var display := ShortLine(if newline && !overflow then DropCr(line) else line);
            ReadsLine(b, if newline then b[pos + 1..] else [], Ok(if pos == 0 && !newline then None else Some(display)))
  {
    hide FromUtf8, Kept, Blanked, ShortLine;
    var done, rest := b[..pos], b[pos..];
    assert done[..pos] == done && b == done + rest;
    StartOfFirstLine(done, rest);
    assert IndexOf(rest, LF) == 0;
    assert rest[..0] == [] && done + [] == done;
    KeptIsEnough(FromUtf8(done).text, line, overflow);
  }

  lemma CutOffAtEnd(b: seq<Byte>, n: nat, line: string, pending: seq<Byte>, overflow: bool)
    requires ScannedTo(b, n, line, pending, overflow) && pending != []
    ensures b != [] && !IsTextLine(b)
  {
    StartOfFirstLine(b, []);
    assert b + [] == b && b == b[..n] + pending;
    ValidConcat(b[..n], pending);
  }

  lemma NotALine(b: seq<Byte>, rest: seq<Byte>, error: string)
    requires b != [] && !IsTextLine(b)
    ensures ReadsLine(b, rest, Err(error))
  {}

  lemma BinaryLine(b: seq<Byte>, pos: nat)
    requires pos <= |b| && LF !in b[..pos] && 0 in b[..pos]
    ensures b != [] && !IsTextLine(b)
  {
    StartOfFirstLine(b[..pos], b[pos..]);
    assert b == b[..pos] + b[pos..];
  }

  lemma InvalidLine(b: seq<Byte>, pos: nat, newline: bool)
    requires pos <= |b| && LF !in b[..pos]
    requires if newline then pos < |b| && b[pos] == LF && FromUtf8(b[..pos]).Invalid?
             else forall more: seq<Byte> :: FromUtf8(b[..pos] + more).Invalid?
    ensures b != [] && !IsTextLine(b)
  {
    var p, after := b[..pos], b[pos..];
    assert b == p + after;
    StartOfFirstLine(p, after);
    if newline {
      assert FirstLine(after) == [] && p + [] == p;
    }
  }

  /** Validates one chunk of a line and keeps what may be displayed. */
  method TakeContent(ghost done: seq<Byte>, line: string, pending: seq<Byte>, overflow: bool, content: seq<Byte>,
      newline: bool)
    returns (ok: bool, line': string, pending': seq<Byte>, overflow': bool)
    requires |pending| <= |done| && ScannedTo(done, |done| - |pending|, line, pending, overflow)
    requires LF !in content && 0 !in content && |line| <= LINE_CHARS + 1
    ensures |line'| <= LINE_CHARS + 1
    ensures ok ==>
              && |pending'| <= |done + content|
              && ScannedTo(done + content, |done + content| - |pending'|, line', pending', overflow')
    ensures ok && newline ==> pending' == []
    ensures !ok && newline ==> FromUtf8(done + content).Invalid?
    ensures !ok && !newline ==> forall more: seq<Byte> :: FromUtf8(done + content + more).Invalid?
  {
    hide FromUtf8, Next, Kept, ScannedTo;
    ScanMore(done, |done| - |pending|, line, pending, overflow, content);
    var all := pending + content;
    var validLen := |all|;
    assert all[..|all|] == all && all[|all|..] == [];
    line', pending', overflow' := line, all, overflow;
    match FromUtf8(all) {
      case Valid(_) =>
      case Invalid(at, errorLen) =>
        if errorLen.None? && !newline {
          validLen := at;
        } else {
          assert done + content + [] == done + content;
          return false, line', pending', overflow';
        }
    }
    ok := true;
    var text := FromUtf8(all[..validLen]).text;
    var room: nat := LINE_CHARS + 1 - |line|;
    line' := line + if |text| <= room then text else text[..room];
    overflow' := overflow || |text| > room;
    pending' := all[validLen..];
  }

  lemma ContentOfChunk(b: seq<Byte>, pos: nat, chunk: seq<Byte>, n: nat)
    requires pos <= |b| && chunk <= b[pos..] && n <= |chunk|
    requires LF !in b[..pos] && LF !in chunk[..n]
    ensures b[..pos + n] == b[..pos] + chunk[..n]
    ensures n < |chunk| ==> b[pos + n] == chunk[n]
    ensures LF !in b[..pos + n]
    ensures 0 in chunk[..n] ==> 0 in b[..pos + n]
  {
    assert chunk[..n] == b[pos..pos + n];
    assert b[..pos + n] == b[..pos] + b[pos..pos + n];
  }

  method ReadDisplayLine(reader: BufReader) returns (r: Result<Option<string>>)
    requires reader.Valid()
    modifies reader
    ensures reader.Valid()
    ensures ReadsLine(old(reader.Rest()), reader.Rest(), r)
  {
    hide FromUtf8, Next, Kept, ScannedTo, ReadsLine, ShortLine, Joined, IndexOf;
    ghost var b, pos := reader.Rest(), 0;
    var line, pending, overflow, anyBytes := "", [], false, false;
    NothingScanned();
    assert b[..0] == [] && b[0..] == b;
    while true
      invariant reader.Valid()
      invariant pos <= |b| && reader.Rest() == b[pos..]
      invariant |pending| <= pos && ScannedTo(b[..pos], pos - |pending|, line, pending, overflow)
      invariant LF !in b[..pos] && |line| <= LINE_CHARS + 1
      invariant anyBytes <==> pos > 0
      decreases |b| - pos
    {
      var chunk := reader.FillBuf();
      if chunk == [] {
        assert b[..pos] == b;
        if pending != [] {
          CutOffAtEnd(b, pos - |pending|, line, pending, overflow);
          NotALine(b, [], "cannot read text file (binary or invalid UTF-8)");
          return Err("cannot read text file (binary or invalid UTF-8)");
        }
        LineComplete(b, pos, line, overflow, false);
        return Ok(if anyBytes then Some(ShortLine(line)) else None);
      }
      var contentLen := IndexOf(chunk, LF);
      var newline := contentLen < |chunk|;
      var content := chunk[..contentLen];
      ghost var next := pos + contentLen;
      ContentOfChunk(b, pos, chunk, contentLen);
      if 0 in content {
        BinaryLine(b, next);
        NotALine(b, b[pos..], "cannot read binary file");
        return Err("cannot read binary file");
      }
      anyBytes := true;
      var ok;
      ok, line, pending, overflow := TakeContent(b[..pos], line, pending, overflow, content, newline);
      if !ok {
        InvalidLine(b, next, newline);
        NotALine(b, b[pos..], "cannot read text file (binary or invalid UTF-8)");
        return Err("cannot read text file (binary or invalid UTF-8)");
      }
      reader.Consume(contentLen + if newline then 1 else 0);
      pos := next;
      if newline {
        LineComplete(b, pos, line, overflow, true);
        if !overflow {
          line := DropCr(line);
        }
        return Ok(Some(ShortLine(line)));
      }
    }
  }

  lemma NothingScanned()
    ensures ScannedTo([], 0, "", [], false)
  {}

  // ---- The whole file -----------------------------------------------------------------------

  /** A file is text exactly when its first line and what follows are; its lines are theirs. */
  lemma FileFromLines(b: seq<Byte>)
    requires b != []
    ensures IsTextFile(b) <==> IsTextLine(b) && IsTextFile(AfterFirstLine(b))
    ensures IsTextFile(b) ==>
              TextLines(FromUtf8(b).text) == [FirstLineText(b)] + TextLines(FromUtf8(AfterFirstLine(b)).text)
  {
    hide FromUtf8, DropCr, TextLines;
    var k := IndexOf(b, LF);
    DecodeNothing(Valid(""));
    NoLines();
    if k == |b| {
      assert b[..k] == b;
      if FromUtf8(b).Valid? {
        OnlyLine(b);
      }
    } else {
      var a, c := b[..k], b[k + 1..];
      assert b == a + [LF] + c;
      DecodeAcrossNewline(a, c);
      if FromUtf8(b).Valid? {
        LineThenRest(a, c);
      }
    }
  }

  datatype Listing = Listing(total: nat, lines: seq<string>, next: Option<nat>)

  function FirstWanted(offset: Option<nat>): (n: nat)
    ensures n >= 1
  {
    if offset.GetOr(1) >= 1 then offset.GetOr(1) else 1
  }

  function HowMany(limit: Option<nat>): (n: nat)
    ensures n <= MAX_LIMIT
  {
    if limit.GetOr(DEFAULT_LIMIT) <= MAX_LIMIT then limit.GetOr(DEFAULT_LIMIT) else MAX_LIMIT
  }

  /** The requested page of a text and where the next one starts. */
  function ListingOf(lines: seq<string>, offset: nat, limit: nat): Listing
    requires offset >= 1
  {
    var page := Page(lines, offset, limit);
    var end: nat := if offset + |page| - 1 <= |lines| then offset + |page| - 1 else |lines|;
    Listing(|lines|, page, if end < |lines| then Some(end + 1) else None)
  }

  lemma NumberedHead(lines: seq<string>, first: nat)
    ensures Numbered([], first) == []
    ensures lines != [] ==> Numbered(lines, first) == [NumberedLine(first, lines[0])] + Numbered(lines[1..], first + 1)
  {}

  lemma {:induction false} NumberedConcat(a: seq<string>, b: seq<string>, first: nat)
    ensures Numbered(a + b, first) == Numbered(a, first) + Numbered(b, first + |a|)
  {
    hide Numbered, NumberedLine;
    NumberedHead(a, first);
    if a == [] {
      assert a + b == b;
    } else {
      NumberedHead(a + b, first);
      assert (a + b)[1..] == a[1..] + b;
      NumberedConcat(a[1..], b, first + 1);
    }
  }

  lemma NumberedSnoc(lines: seq<string>, line: string, first: nat)
    ensures Numbered(lines + [line], first) == Numbered(lines, first) + [NumberedLine(first + |lines|, line)]
  {
    hide Numbered, NumberedLine;
    NumberedConcat(lines, [line], first);
    NumberedHead([line], first + |lines|);
    NumberedHead([], first + |lines| + 1);
    assert [line][1..] == [];
  }

  lemma PageSnoc(lines: seq<string>, line: string, offset: nat, limit: nat)
    requires offset >= 1
    ensures var n := |lines| + 1;
            Page(lines + [line], offset, limit) ==
              Page(lines, offset, limit) + (if offset <= n < offset + limit then [NumberedLine(n, line)] else [])
  {
    hide Numbered, NumberedLine;
    var n, all := |lines| + 1, lines + [line];
    var from := if offset - 1 <= |lines| then offset - 1 else |lines|;
    if offset <= n < offset + limit {
      assert all[from..n] == lines[from..] + [line];
      assert lines[from..|lines|] == lines[from..];
      NumberedSnoc(lines[from..], line, from + 1);
    } else if n < offset {
      assert Page(lines, offset, limit) == Numbered([], |lines| + 1);
      NumberedHead([], |lines| + 1);
      assert all[..n] == all;
      assert Page(all, offset, limit)
        == Numbered(all[if offset - 1 <= n then offset - 1 else n..n], if offset - 1 <= n then offset else n + 1);
      NumberedHead([], n + 1);
    } else {
      assert all[from..from + limit] == lines[from..from + limit];
    }
  }

  // ---- What is shown ------------------------------------------------------------------------

  /** Numbers of lines and characters, and what is shown when none are asked for. */
  lemma PageInNumbers(offset: Option<nat>, limit: Option<nat>)
    ensures FirstWanted(offset) == if offset.Some? && offset.value > 1 then offset.value else 1
    ensures HowMany(limit) == if limit.None? then 400 else if limit.value < 2000 then limit.value else 2000
  {}

  /** A line of up to 300 characters is shown whole, a longer one cut there with an ellipsis behind it. */
  lemma LineIsShown(line: string)
    requires '\n' !in line && '\r' !in line
    ensures |line| <= 300 ==> ShortLine(line) == line
    ensures |line| > 300 ==> ShortLine(line) == line[..300] + [0x2026 as char]
  {
    var shown := if |line| <= 300 then line else line[..300];
    assert forall i | 0 <= i < |shown| :: shown[i] == line[i];
    assert Blanked(shown) == shown;
  }

  /** A stray carriage return is shown as a space. */
  lemma StrayBreaksAreBlank(a: string, b: string)
    requires '\n' !in a + b && '\r' !in a + b && |a| + |b| < 300
    ensures ShortLine(a + "\r" + b) == a + " " + b
  {
    assert forall i | 0 <= i < |a| :: (a + b)[i] == a[i];
    assert forall i | 0 <= i < |b| :: (a + b)[|a| + i] == b[i];
    assert Blanked(a + "\r" + b) == a + " " + b;
  }

  /** Each shown line: its number, a colon and a space, and the line. */
  lemma PageLine(lines: seq<string>, offset: nat, limit: nat, k: nat)
    requires offset >= 1 && k < limit && offset - 1 + k < |lines|
    ensures k < |Page(lines, offset, limit)|
    ensures Page(lines, offset, limit)[k]
         == Decimal.Numeral(offset + k) + ": " + ShortLine(lines[offset - 1 + k])
  {
    hide ShortLine;
    var from := offset - 1;
    var to := if from + limit <= |lines| then from + limit else |lines|;
    NumberedAt(lines[from..to], from + 1, k);
  }

  lemma {:induction false} NumberedAt(lines: seq<string>, first: nat, k: nat)
    requires k < |lines|
    ensures Numbered(lines, first)[k] == Decimal.Numeral(first + k) + ": " + ShortLine(lines[k])
    decreases |lines|
  {
    hide ShortLine;
    if k > 0 {
      NumberedAt(lines[1..], first + 1, k - 1);
    }
  }

  method ReadFile(reader: BufReader, offset: Option<nat>, limit: Option<nat>) returns (r: Result<Listing>)
    requires reader.Valid()
    modifies reader
    ensures r.Ok? <==> IsTextFile(old(reader.Rest()))
    ensures r.Ok? ==>
              r.value == ListingOf(TextLines(FromUtf8(old(reader.Rest())).text), FirstWanted(offset), HowMany(limit))
  {
    hide FromUtf8, TextLines, Page, ShortLine, FirstLineText, AfterFirstLine, Joined, Next, IndexOf;
    ghost var b := reader.Rest();
    var from, count := FirstWanted(offset), HowMany(limit);
    var chunk := reader.FillBuf();
    if 0 in chunk {
      return Err("cannot read binary file");
    }
    var lines: seq<string>, total := [], 0;
    ghost var before: seq<string> := [];
    NoLines();
    DecodeNothing(Valid(""));
    EmptyPage(from, count);
    while true
      invariant reader.Valid()
      invariant IsTextFile(b) <==> IsTextFile(reader.Rest())
      invariant IsTextFile(b) ==> TextLines(FromUtf8(b).text) == before + TextLines(FromUtf8(reader.Rest()).text)
      invariant total == |before| && lines == Page(before, from, count)
      decreases |reader.Rest()|
    {
      ghost var rest := reader.Rest();
      var line := ReadDisplayLine(reader);
      if line.Err? {
        FileFromLines(rest);
        return Err(line.error);
      }
      if line.value.None? {
        assert before + [] == before;
        break;
      }
      FileFromLines(rest);
      RestShrinks(rest);
      PageSnoc(before, FirstLineText(rest), from, count);
      total := total + 1;
      if total >= from && total - from < count {
        lines := lines + [Decimal.Numeral(total) + ": " + line.value.value];
      }
      before := before + [FirstLineText(rest)];
    }
    var end: nat := if from + |lines| - 1 <= total then from + |lines| - 1 else total;
    r := Ok(Listing(total, lines, if end < total then Some(end + 1) else None));
  }

  lemma EmptyPage(offset: nat, limit: nat)
    requires offset >= 1
    ensures Page([], offset, limit) == []
  {}

  lemma RestShrinks(b: seq<Byte>)
    requires b != []
    ensures |AfterFirstLine(b)| < |b|
  {}

  // ---- Paging -------------------------------------------------------------------------------

  /** All pages from `offset` on, following the offset each page names. */
  ghost function Pages(lines: seq<string>, offset: nat, limit: nat): seq<string>
    requires 1 <= offset <= |lines| + 1 && limit > 0
    decreases |lines| + 1 - offset
  {
    var listing := ListingOf(lines, offset, limit);
    PageAdvances(lines, offset, limit);
    match listing.next
    case None => listing.lines
    case Some(next) => listing.lines + Pages(lines, next, limit)
  }

  lemma PageAdvances(lines: seq<string>, offset: nat, limit: nat)
    requires 1 <= offset <= |lines| + 1
    ensures var r := ListingOf(lines, offset, limit);
            var to := if offset - 1 + limit <= |lines| then offset - 1 + limit else |lines|;
            && r.lines == Numbered(lines[offset - 1..to], offset)
            && r.next == if to < |lines| then Some(to + 1) else None
  {}

  lemma PagesStep(lines: seq<string>, offset: nat, limit: nat)
    requires 1 <= offset <= |lines| + 1 && limit > 0
    ensures var to := offset - 1 + limit;
            Pages(lines, offset, limit) ==
              if to < |lines| then Numbered(lines[offset - 1..to], offset) + Pages(lines, to + 1, limit)
              else Numbered(lines[offset - 1..|lines|], offset)
  {
    hide Numbered, ListingOf;
    PageAdvances(lines, offset, limit);
  }

  /** Following the named offsets shows every line from the start exactly once, in order. */
  lemma {:induction false} PagingShowsEveryLine(lines: seq<string>, offset: nat, limit: nat)
    requires 1 <= offset <= |lines| + 1 && limit > 0
    ensures Pages(lines, offset, limit) == Numbered(lines[offset - 1..], offset)
    decreases |lines| + 1 - offset
  {
    hide Numbered, Pages;
    PagesStep(lines, offset, limit);
    var to := offset - 1 + limit;
    if to < |lines| {
      PagingShowsEveryLine(lines, to + 1, limit);
      NumberedConcat(lines[offset - 1..to], lines[to..], offset);
      assert lines[offset - 1..to] + lines[to..] == lines[offset - 1..];
    } else {
      assert lines[offset - 1..|lines|] == lines[offset - 1..];
    }
  }

  /** A page that names a next offset makes progress exactly when the limit is positive. */
  lemma PagingProgress(lines: seq<string>, offset: nat, limit: nat)
    requires 1 <= offset <= |lines|
    ensures ListingOf(lines, offset, limit).next == Some(offset) <==> limit == 0
    ensures ListingOf(lines, offset, limit).next == None <==> offset + limit > |lines|
  {
    PageAdvances(lines, offset, limit);
  }
}
