/**
 Strings as the program sees them: sequences of Unicode scalar values whose length in
 bytes is the length of their UTF-8 encoding.
 */
module Text {

  /** Unicode White_Space, which is what `char::is_whitespace` tests. */
  predicate IsWhitespace(c: char) {
    || 0x9 as char <= c <= 0xD as char
    || c == ' '
    || c == 0x85 as char
    || c == 0xA0 as char
    || c == 0x1680 as char
    || 0x2000 as char <= c <= 0x200A as char
    || c == 0x2028 as char
    || c == 0x2029 as char
    || c == 0x202F as char
    || c == 0x205F as char
    || c == 0x3000 as char
  }

  lemma WhitespaceFacts()
    ensures IsWhitespace(' ') && IsWhitespace('\n') && IsWhitespace('\r')
    ensures !IsWhitespace('"') && !IsWhitespace('\'') && !IsWhitespace('\\')
    ensures forall c | '!' <= c <= '~' :: !IsWhitespace(c)
  {}

  /** The 25 characters with the White_Space property of Unicode. */
  lemma WhitespaceTable(c: char)
    ensures IsWhitespace(c) <==>
              c as int in {
                9, 10, 11, 12, 13, 32, 133, 160, 5760, 8192, 8193, 8194, 8195, 8196, 8197, 8198, 8199, 8200, 8201, 8202,
                8232, 8233, 8239, 8287, 12288}
  {}

  /** Bytes taken by one character in UTF-8. */
  function CharSize(c: char): (n: nat)
    ensures 1 <= n <= 4
  {
    if c < 0x80 as char then 1
    else if c < 0x800 as char then 2
    else if c < 0x10000 as char then 3
    else 4
  }

  /** Bytes taken by a string: `str::len`. */
  function Size(s: string): (n: nat)
    ensures |s| <= n
    ensures n == 0 <==> s == ""
  {
    if s == "" then 0 else CharSize(s[0]) + Size(s[1..])
  }

  lemma {:induction false} SizeConcat(a: string, b: string)
    ensures Size(a + b) == Size(a) + Size(b)
  {
    if a == "" {
      assert a + b == b;
    } else {
      assert (a + b)[1..] == a[1..] + b;
      SizeConcat(a[1..], b);
    }
  }

  /** Concatenation of a list of strings. */
  function Concat(parts: seq<string>): string {
    if parts == [] then "" else parts[0] + Concat(parts[1..])
  }

  lemma {:induction false} ConcatAppend(a: seq<string>, b: seq<string>)
    ensures Concat(a + b) == Concat(a) + Concat(b)
  {
    if a == [] {
      assert a + b == b;
    } else {
      assert (a + b)[1..] == a[1..] + b;
      ConcatAppend(a[1..], b);
    }
  }

  lemma ConcatSnoc(a: seq<string>, s: string)
    ensures Concat(a + [s]) == Concat(a) + s
  {
    ConcatAppend(a, [s]);
    assert Concat([s]) == s + Concat([]);
  }

  predicate Contains(s: string, part: string) { exists i | 0 <= i <= |s| :: part <= s[i..] }

  // ---- Lines --------------------------------------------------------------------------------

  /** Index of the first element equal to `x`, or the length. */
  function IndexOf<T(==)>(s: seq<T>, x: T): (k: nat)
    ensures k <= |s|
    ensures x !in s[..k]
    ensures k < |s| ==> s[k] == x
  {
    if s == [] || s[0] == x then 0
    else
      var k := IndexOf(s[1..], x);
      assert s[..k + 1] == [s[0]] + s[1..][..k];
      k + 1
  }

  function DropCr(line: string): string {
    if line != "" && line[|line| - 1] == '\r' then line[..|line| - 1] else line
  }

  /** Lines of a text: split at LF, one CR before an LF dropped, no empty last line. */
  function TextLines(t: string): seq<string>
    decreases |t|
  {
    if t == "" then []
    else
      var k := IndexOf(t, '\n');
      if k == |t| then [t] else [DropCr(t[..k])] + TextLines(t[k + 1..])
  }

  lemma {:induction false} IndexOfSplit<T>(a: seq<T>, x: T, b: seq<T>)
    requires x !in a
    ensures IndexOf(a + [x] + b, x) == |a|
  {
    var s := a + [x] + b;
    if a == [] {
      assert s[0] == x;
    } else {
      assert s[0] == a[0] && s[1..] == a[1..] + [x] + b;
      IndexOfSplit(a[1..], x, b);
    }
  }

  lemma {:induction false} IndexOfAbsent<T>(s: seq<T>, x: T)
    requires x !in s
    ensures IndexOf(s, x) == |s|
  {
    if s != [] {
      assert s[0] in s;
      IndexOfAbsent(s[1..], x);
    }
  }

  lemma FirstLine(a: string, b: string)
    requires '\n' !in a
    ensures TextLines(a + "\n" + b) == [DropCr(a)] + TextLines(b)
  {
    var t := a + "\n" + b;
    IndexOfSplit(a, '\n', b);
    assert t[..|a|] == a && t[|a| + 1..] == b;
  }

  lemma OneLine(t: string)
    requires '\n' !in t && t != ""
    ensures TextLines(t) == [t]
  {
    IndexOfAbsent(t, '\n');
  }

  /** The first line starts as the text does. */
  lemma FirstLineStarts(text: string, start: string)
    requires start != "" && start <= text && '\n' !in start && '\r' !in start
    ensures TextLines(text) != [] && start <= TextLines(text)[0]
  {
    var k := IndexOf(text, '\n');
    assert forall i | 0 <= i < |start| :: text[i] == start[i];
    assert k < |text| ==> k >= |start| && text[..k][|start| - 1] == start[|start| - 1];
  }

  /** Text after a line break does not touch the lines before it. */
  lemma {:induction false} LinesJoin(a: string, b: string)
    ensures TextLines(a + "\n" + b) == TextLines(a + "\n") + TextLines(b)
    decreases |a|
  {
    hide TextLines, DropCr;
    var k := IndexOf(a, '\n');
    NoLines();
    if k == |a| {
      assert a[..k] == a;
      FirstLine(a, b);
      FirstLine(a, "");
      assert a + "\n" + "" == a + "\n";
    } else {
      var head, tail := a[..k], a[k + 1..];
      assert a == head + "\n" + tail;
      FirstLine(head, tail + "\n" + b);
      FirstLine(head, tail + "\n");
      assert a + "\n" + b == head + "\n" + (tail + "\n" + b);
      assert a + "\n" == head + "\n" + (tail + "\n");
      LinesJoin(tail, b);
      assert [DropCr(head)] + (TextLines(tail + "\n") + TextLines(b))
        == [DropCr(head)] + TextLines(tail + "\n") + TextLines(b);
    }
  }

  lemma NoLines()
    ensures TextLines("") == []
  {}

  /** Lines written one after the other, each with its line break. */
  function Written(lines: seq<string>, lineBreak: string): string {
    if lines == [] then "" else lines[0] + lineBreak + Written(lines[1..], lineBreak)
  }

  /** Lines are read back, whichever line break is used, and a last line without one as well. */
  lemma {:induction false} LinesReadBack(lines: seq<string>, lineBreak: string, last: string)
    requires lineBreak == "\n" || lineBreak == "\r\n"
    requires forall l | l in lines :: '\n' !in l && (l == "" || l[|l| - 1] != '\r')
    requires '\n' !in last
    ensures TextLines(Written(lines, lineBreak) + last) == lines + (if last == "" then [] else [last])
  {
    hide TextLines;
    if lines == [] {
      assert Written(lines, lineBreak) + last == last;
      LastLine(last);
    } else {
      hide Written;
      var rest := Written(lines[1..], lineBreak) + last;
      LinesReadBack(lines[1..], lineBreak, last);
      assert lines[0] in lines;
      LineWithBreak(lines[0], lineBreak, rest);
      WrittenStep(lines, lineBreak, last);
    }
  }

  lemma LastLine(last: string)
    requires '\n' !in last
    ensures TextLines(last) == if last == "" then [] else [last]
  {
    hide TextLines;
    NoLines();
    if last != "" {
      OneLine(last);
    }
  }

  lemma WrittenStep(lines: seq<string>, lineBreak: string, last: string)
    requires lines != []
    ensures Written(lines, lineBreak) + last == lines[0] + lineBreak + (Written(lines[1..], lineBreak) + last)
  {
    assert lines[0] + lineBreak + Written(lines[1..], lineBreak) + last
        == lines[0] + lineBreak + (Written(lines[1..], lineBreak) + last);
  }

  lemma LineWithBreak(l: string, lineBreak: string, rest: string)
    requires lineBreak == "\n" || lineBreak == "\r\n"
    requires '\n' !in l && (l == "" || l[|l| - 1] != '\r')
    ensures TextLines(l + lineBreak + rest) == [l] + TextLines(rest)
  {
    hide TextLines;
    if lineBreak == "\n" {
      FirstLine(l, rest);
    } else {
      assert l + "\r\n" + rest == (l + "\r") + "\n" + rest;
      FirstLine(l + "\r", rest);
    }
  }

  /** Trimming takes whitespace away at both ends, and nothing else. */
  lemma TrimIs(s: string, a: string, t: string, b: string)
    requires s == a + t + b && AllWhitespace(a) && AllWhitespace(b)
    requires t == "" || (!IsWhitespace(t[0]) && !IsWhitespace(t[|t| - 1]))
    ensures Trim(s) == t
  {
    hide IsWhitespace;
    StartIs(a, t + b);
    assert a + t + b == a + (t + b);
    if t == "" {
      assert t + b == b;
      StartIs(b, "");
      assert b + "" == b;
      assert TrimStart("") == "" && TrimEnd("") == "";
    } else {
      assert TrimStart(t + b) == t + b;
      EndIs(t, b);
    }
  }

  lemma {:induction false} StartIs(a: string, rest: string)
    requires AllWhitespace(a)
    ensures TrimStart(a + rest) == TrimStart(rest)
  {
    hide IsWhitespace;
    if a == "" {
      assert a + rest == rest;
    } else {
      assert (a + rest)[1..] == a[1..] + rest;
      StartIs(a[1..], rest);
    }
  }

  lemma {:induction false} EndIs(t: string, b: string)
    requires AllWhitespace(b) && t != "" && !IsWhitespace(t[|t| - 1])
    ensures TrimEnd(t + b) == t
    decreases |b|
  {
    hide IsWhitespace;
    if b == "" {
      assert t + b == t;
    } else {
      assert (t + b)[..|t + b| - 1] == t + b[..|b| - 1];
      EndIs(t, b[..|b| - 1]);
    }
  }

  // ---- Trimming and case --------------------------------------------------------------------

  function TrimStart(s: string): string {
    if s != "" && IsWhitespace(s[0]) then TrimStart(s[1..]) else s
  }

  function TrimEnd(s: string): string {
    if s != "" && IsWhitespace(s[|s| - 1]) then TrimEnd(s[..|s| - 1]) else s
  }

  function Trim(s: string): string { TrimEnd(TrimStart(s)) }

  /** Nothing but whitespace: the trimmed text is empty. */
  predicate IsBlank(s: string) { Trim(s) == "" }

  lemma TrimmedAlready(s: string)
    requires s == "" || (!IsWhitespace(s[0]) && !IsWhitespace(s[|s| - 1]))
    ensures Trim(s) == s
  {}

  lemma TrimEndOfBlank(s: string)
    requires s != "" && IsWhitespace(s[|s| - 1])
    ensures TrimEnd(s) == TrimEnd(s[..|s| - 1])
  {}

  /** A whitespace character at the end is trimmed like the rest. */
  lemma {:induction false} TrimDropsLast(s: string)
    requires s != "" && IsWhitespace(s[|s| - 1])
    ensures Trim(s) == Trim(s[..|s| - 1])
  {
    hide IsWhitespace;
    if IsWhitespace(s[0]) && |s| > 1 {
      TrimDropsLast(s[1..]);
      assert s[1..][..|s| - 2] == s[..|s| - 1][1..];
    } else if |s| == 1 {
      assert s[1..] == "" && s[..0] == "";
    } else {
      TrimEndOfBlank(s);
    }
  }

  /** A trimmed text neither starts nor ends with whitespace. */
  lemma TrimmedEnds(s: string)
    ensures Trim(s) == "" || (!IsWhitespace(Trim(s)[0]) && !IsWhitespace(Trim(s)[|Trim(s)| - 1]))
  {
    hide IsWhitespace;
    StartIsPlain(s);
    EndIsPlain(TrimStart(s));
  }

  lemma {:induction false} StartIsPlain(s: string)
    ensures TrimStart(s) == "" || !IsWhitespace(TrimStart(s)[0])
  {
    hide IsWhitespace;
    if s != "" {
      StartIsPlain(s[1..]);
    }
  }

  lemma {:induction false} EndIsPlain(s: string)
    ensures TrimEnd(s) <= s && (TrimEnd(s) == "" || !IsWhitespace(TrimEnd(s)[|TrimEnd(s)| - 1]))
  {
    hide IsWhitespace;
    if s != "" {
      EndIsPlain(s[..|s| - 1]);
    }
  }

  predicate AllWhitespace(s: string) { forall i | 0 <= i < |s| :: IsWhitespace(s[i]) }

  /** What is left when all whitespace at the end is gone. */
  ghost predicate IsWithoutEnd(s: string, kept: string) {
    kept <= s && AllWhitespace(s[|kept|..]) && (kept == "" || !IsWhitespace(kept[|kept| - 1]))
  }

  lemma {:induction false} TrimEndIs(s: string)
    ensures IsWithoutEnd(s, TrimEnd(s))
  {
    hide IsWhitespace;
    if s != "" && IsWhitespace(s[|s| - 1]) {
      var init := s[..|s| - 1];
      TrimEndIs(init);
      var kept := TrimEnd(init);
      forall i | 0 <= i < |s| - |kept| ensures IsWhitespace(s[|kept|..][i]) {
        assert i < |s| - |kept| - 1 ==> s[|kept|..][i] == init[|kept|..][i];
      }
    }
  }

  lemma OneWithoutEnd(s: string, a: string, b: string)
    requires IsWithoutEnd(s, a) && IsWithoutEnd(s, b)
    ensures a == b
  {
    hide IsWhitespace;
    if |a| < |b| {
      LongerEndsInSpace(s, a, b);
    } else if |b| < |a| {
      LongerEndsInSpace(s, b, a);
    }
  }

  lemma LongerEndsInSpace(s: string, kept: string, longer: string)
    requires IsWithoutEnd(s, kept) && longer <= s && |kept| < |longer|
    ensures IsWhitespace(longer[|longer| - 1])
  {
    hide IsWhitespace;
    assert s[|kept|..][|longer| - 1 - |kept|] == longer[|longer| - 1];
  }

  function ToLower(s: string): (r: string)
    ensures |r| == |s|
  {
    seq(|s|, i requires 0 <= i < |s| => if 'A' <= s[i] <= 'Z' then (s[i] as int + 32) as char else s[i])
  }

  /** Two characters are equal, or one is the capital of the other among `A` to `Z`. */
  predicate SameLetter(c: char, d: char) {
    || c == d
    || (0x41 as char <= c <= 0x5A as char && d as int == c as int + 0x20)
    || (0x41 as char <= d <= 0x5A as char && c as int == d as int + 0x20)
  }

  /** The texts differ at most in the case of ASCII letters. */
  predicate SameButCase(s: string, t: string) {
    |s| == |t| && forall i | 0 <= i < |s| :: SameLetter(s[i], t[i])
  }

  lemma LowerIgnoresCase(s: string, t: string)
    ensures ToLower(s) == ToLower(t) <==> SameButCase(s, t)
  {
    var a, b := ToLower(s), ToLower(t);
    if |s| == |t| {
      forall i | 0 <= i < |s| ensures a[i] == b[i] <==> SameLetter(s[i], t[i]) {
        SameLowerLetter(s[i], t[i]);
      }
      if SameButCase(s, t) {
        assert a == b;
      }
    }
  }

  lemma SameLowerLetter(c: char, d: char)
    ensures ToLower([c])[0] == ToLower([d])[0] <==> SameLetter(c, d)
  {}

  /** Lower case is reached: nothing stays a capital, and nothing but capitals is changed. */
  lemma LowerIsLower(s: string)
    ensures SameButCase(s, ToLower(s))
    ensures forall i | 0 <= i < |s| :: !(0x41 as char <= ToLower(s)[i] <= 0x5A as char)
    ensures (forall i | 0 <= i < |s| :: !(0x41 as char <= s[i] <= 0x5A as char)) ==> ToLower(s) == s
  {}
}
