/** Shell-style words: the splitter for command lines and the quoting that it undoes. */
module Words {
  import opened Text
  import opened Wrappers

  datatype Quote = NoQuote | Single | Double

  /** State of the splitter between characters. */
  datatype Scanner = Scanner(out: seq<string>, cur: string, inWord: bool, quote: Quote)
  {
    function Push(c: char): Scanner { this.(cur := cur + [c], inWord := true) }

    function EndWord(): Scanner {
      if inWord then Scanner(out + [cur], "", false, quote) else this
    }
  }

  const IDLE := Scanner([], "", false, NoQuote)

  /** Characters taken together: an escape pair, or one character. */
  function TakenAt(s: string, quote: Quote): (n: nat)
    requires s != ""
    ensures 1 <= n <= 2 && n <= |s|
  {
    if s[0] != '\\' || |s| == 1 then 1
    else match quote
      case NoQuote => if s[1] == '"' || s[1] == '\'' then 2 else 1
      case Single => 1
      case Double => if s[1] == '"' || s[1] == '\\' then 2 else 1
  }

  function Advance(st: Scanner, s: string): Scanner
    requires s != ""
  {
    if TakenAt(s, st.quote) == 2 then st.Push(s[1]).(inWord := st.inWord || st.quote.NoQuote?)
    else
      var c := s[0];
      match st.quote
      case Single => if c == '\'' then st.(quote := NoQuote) else st.(cur := st.cur + [c])
      case Double => if c == '"' then st.(quote := NoQuote) else st.(cur := st.cur + [c])
      case NoQuote =>
        if IsWhitespace(c) then st.EndWord()
        else if c == '"' then st.(quote := Double, inWord := true)
        else if c == '\'' then st.(quote := Single, inWord := true)
        else st.Push(c)
  }

  function Scan(st: Scanner, s: string): Scanner
    decreases |s|
  {
    if s == "" then st else Scan(Advance(st, s), s[TakenAt(s, st.quote)..])
  }

  lemma ScanStep(st: Scanner, s: string)
    requires s != ""
    ensures Scan(st, s) == Scan(Advance(st, s), s[TakenAt(s, st.quote)..])
  {}

  /** The words of a line; an unclosed quote ends with the line. */
  function SplitArgs(s: string): seq<string> {
    Scan(IDLE, s).EndWord().out
  }

  // ---- Quoting ------------------------------------------------------------------------------

  function Replace(s: string, c: char, to: string): string {
    if s == "" then "" else (if s[0] == c then to else [s[0]]) + Replace(s[1..], c, to)
  }

  predicate NeedsQuotes(w: string) {
    w == "" || exists i | 0 <= i < |w| :: IsWhitespace(w[i]) || w[i] == '"' || w[i] == '\''
  }

  function QuoteWord(w: string): string {
    if !NeedsQuotes(w) then w
    else "\"" + Replace(Replace(w, '\\', "\\\\"), '"', "\\\"") + "\""
  }

  /** The words as one line, separated by single spaces. */
  function Line(words: seq<string>): string {
    if words == [] then ""
    else if |words| == 1 then QuoteWord(words[0])
    else QuoteWord(words[0]) + " " + Line(words[1..])
  }

  /** One escaped character inside double quotes. */
  function Escaped(c: char): string {
    if c == '\\' then "\\\\" else if c == '"' then "\\\"" else [c]
  }

  function Escape(w: string): string {
    if w == "" then "" else Escaped(w[0]) + Escape(w[1..])
  }

  lemma {:induction false} ReplaceConcat(a: string, b: string, c: char, to: string)
    ensures Replace(a + b, c, to) == Replace(a, c, to) + Replace(b, c, to)
  {
    if a == "" {
      assert a + b == b;
    } else {
      assert (a + b)[1..] == a[1..] + b;
      ReplaceConcat(a[1..], b, c, to);
    }
  }

  /** Escaping backslashes first and quotes second escapes each character once. */
  lemma {:induction false} ReplacingTwiceEscapes(w: string)
    ensures Replace(Replace(w, '\\', "\\\\"), '"', "\\\"") == Escape(w)
  {
    if w != "" {
      ReplacingTwiceEscapes(w[1..]);
      var first := if w[0] == '\\' then "\\\\" else [w[0]];
      ReplaceConcat(first, Replace(w[1..], '\\', "\\\\"), '"', "\\\"");
      ReplaceOne(first);
    }
  }

  lemma ReplaceOne(s: string)
    requires s == "\\\\" || |s| == 1
    ensures Replace(s, '"', "\\\"") == if s == "\\\\" then s else if s[0] == '"' then "\\\"" else s
  {
    if |s| == 1 {
      assert s[1..] == "";
    } else {
      assert s[1..] == "\\" && s[1..][1..] == "";
    }
  }

  // ---- Reading back -------------------------------------------------------------------------

  /** Inside double quotes an escaped text is taken as the text itself. */
  lemma {:induction false} ScanEscaped(st: Scanner, w: string, rest: string)
    requires st.quote.Double?
    ensures Scan(st, Escape(w) + "\"" + rest) == Scan(st.(cur := st.cur + w, quote := NoQuote), rest)
    decreases |w|
  {
    hide Scan;
    if w == "" {
      ClosingQuote(st, rest);
      assert Escape(w) + "\"" + rest == "\"" + rest && st.cur + w == st.cur;
    } else {
      var tail := Escape(w[1..]) + "\"" + rest;
      assert Escape(w) + "\"" + rest == Escaped(w[0]) + tail;
      AdvanceEscaped(st, w[0], tail);
      ScanEscaped(st.(cur := st.cur + [w[0]]), w[1..], rest);
      assert st.cur + [w[0]] + w[1..] == st.cur + w;
    }
  }

  lemma ClosingQuote(st: Scanner, rest: string)
    requires st.quote.Double?
    ensures Scan(st, "\"" + rest) == Scan(st.(quote := NoQuote), rest)
  {
    var s := "\"" + rest;
    assert s[0] == '"' && s[1..] == rest;
  }

  lemma AdvanceEscaped(st: Scanner, c: char, tail: string)
    requires st.quote.Double?
    ensures Scan(st, Escaped(c) + tail) == Scan(st.(cur := st.cur + [c]), tail)
  {
    hide Scan;
    var s := Escaped(c) + tail;
    var n := |Escaped(c)|;
    assert s[..n] == Escaped(c) && s[n..] == tail;
    ScanStep(st, s);
    assert TakenAt(s, Double) == n;
  }

  predicate IsBare(w: string) {
    forall i | 0 <= i < |w| :: !IsWhitespace(w[i]) && w[i] != '"' && w[i] != '\''
  }

  lemma AdvanceBare(st: Scanner, w: string, rest: string)
    requires st.quote.NoQuote? && w != "" && IsBare(w)
    requires rest == "" || rest[0] == ' '
    ensures Scan(st, w + rest) == Scan(st.Push(w[0]), w[1..] + rest)
    ensures IsBare(w[1..])
  {
    hide IsWhitespace, Scan;
    var s := w + rest;
    ScanStep(st, s);
    assert s[0] == w[0] && s[1..] == w[1..] + rest;
    assert |s| > 1 ==> s[1] == if |w| > 1 then w[1] else rest[0];
  }

  /** Plain characters are taken one by one, also after a backslash. */
  lemma {:induction false} ScanBare(st: Scanner, w: string, rest: string)
    requires st.quote.NoQuote? && st.inWord && IsBare(w)
    requires rest == "" || rest[0] == ' '
    ensures Scan(st, w + rest) == Scan(st.(cur := st.cur + w), rest)
    decreases |w|
  {
    hide IsWhitespace, Scan;
    if w == "" {
      assert w + rest == rest && st.cur + w == st.cur;
    } else {
      AdvanceBare(st, w, rest);
      ScanBare(st.Push(w[0]), w[1..], rest);
      assert st.cur + [w[0]] + w[1..] == st.cur + w;
    }
  }

  lemma ScanBareWord(out: seq<string>, w: string, rest: string)
    requires w != "" && IsBare(w)
    requires rest == "" || rest[0] == ' '
    ensures Scan(Scanner(out, "", false, NoQuote), w + rest) == Scan(Scanner(out, w, true, NoQuote), rest)
  {
    hide IsBare, Scan;
    var st := Scanner(out, "", false, NoQuote);
    AdvanceBare(st, w, rest);
    ScanBare(st.Push(w[0]), w[1..], rest);
    assert "" + [w[0]] + w[1..] == w;
  }

  lemma ScanQuotedWord(st: Scanner, w: string, rest: string)
    requires st == Scanner(st.out, "", false, NoQuote)
    ensures Scan(st, "\"" + Escape(w) + "\"" + rest) == Scan(Scanner(st.out, w, true, NoQuote), rest)
  {
    hide Scan, Escape;
    var tail := Escape(w) + "\"" + rest;
    var s := "\"" + Escape(w) + "\"" + rest;
    assert s == ['"'] + tail;
    assert s[0] == '"' && s[1..] == tail;
    ScanStep(st, s);
    ScanEscaped(st.(quote := Double, inWord := true), w, rest);
    assert "" + w == w;
  }

  /** One quoted word at the start of a line. */
  lemma ScanWord(st: Scanner, w: string, rest: string)
    requires st == Scanner(st.out, "", false, NoQuote)
    requires rest == "" || rest[0] == ' '
    ensures Scan(st, QuoteWord(w) + rest) == Scan(Scanner(st.out, w, true, NoQuote), rest)
  {
    hide IsWhitespace, Replace, Scan, Escape;
    if NeedsQuotes(w) {
      ReplacingTwiceEscapes(w);
      ScanQuotedWord(st, w, rest);
    } else {
      ScanBareWord(st.out, w, rest);
    }
  }

  lemma ScanSpace(st: Scanner, rest: string)
    requires st.quote.NoQuote?
    ensures Scan(st, " " + rest) == Scan(st.EndWord(), rest)
  {
    ScanStep(st, " " + rest);
    assert (" " + rest)[1..] == rest;
  }

  lemma ScanNothing(st: Scanner)
    ensures Scan(st, "") == st
  {}

  lemma {:induction false} ScanLine(out: seq<string>, words: seq<string>)
    ensures Scan(Scanner(out, "", false, NoQuote), Line(words)).EndWord() == Scanner(out + words, "", false, NoQuote)
    decreases |words|
  {
    hide QuoteWord, Scan;
    var st := Scanner(out, "", false, NoQuote);
    ScanNothing(st);
    if words == [] {
      assert out + words == out;
    } else if |words| == 1 {
      ScanWord(st, words[0], "");
      ScanNothing(Scanner(out, words[0], true, NoQuote));
      assert QuoteWord(words[0]) + "" == QuoteWord(words[0]);
      assert [words[0]] == words;
    } else {
      var rest := " " + Line(words[1..]);
      ScanWord(st, words[0], rest);
      ScanSpace(Scanner(out, words[0], true, NoQuote), Line(words[1..]));
      assert Line(words) == QuoteWord(words[0]) + rest;
      ScanLine(out + [words[0]], words[1..]);
      assert out + [words[0]] + words[1..] == out + words;
    }
  }

  /** Splitting the line of quoted words gives back the words, whatever they contain. */
  lemma SplitOfLine(words: seq<string>)
    ensures SplitArgs(Line(words)) == words
  {
    ScanLine([], words);
    assert [] + words == words;
  }

  // ---- What other ways of writing a word mean -----------------------------------------------

  /** No whitespace, quote or backslash. */
  predicate IsSimple(s: string) {
    forall i | 0 <= i < |s| :: !IsWhitespace(s[i]) && s[i] != '"' && s[i] != '\'' && s[i] != '\\'
  }

  lemma {:induction false} ScanSimple(st: Scanner, s: string, rest: string)
    requires IsSimple(s) && st.quote.NoQuote?
    ensures Scan(st, s + rest) == Scan(Scanner(st.out, st.cur + s, st.inWord || s != "", NoQuote), rest)
    decreases |s|
  {
    hide Scan, IsWhitespace;
    if s == "" {
      assert s + rest == rest && st.cur + s == st.cur;
    } else {
      ScanStep(st, s + rest);
      assert (s + rest)[1..] == s[1..] + rest;
      assert st.cur + [s[0]] + s[1..] == st.cur + s;
      ScanSimple(st.Push(s[0]), s[1..], rest);
    }
  }

  lemma {:induction false} ScanSingle(st: Scanner, s: string, rest: string)
    requires st.quote.Single? && '\'' !in s
    ensures Scan(st, s + rest) == Scan(st.(cur := st.cur + s), rest)
    decreases |s|
  {
    hide Scan;
    if s == "" {
      assert s + rest == rest && st.cur + s == st.cur;
    } else {
      ScanStep(st, s + rest);
      assert (s + rest)[1..] == s[1..] + rest;
      assert st.cur + [s[0]] + s[1..] == st.cur + s;
      ScanSingle(st.(cur := st.cur + [s[0]]), s[1..], rest);
    }
  }

  lemma {:induction false} ScanDouble(st: Scanner, s: string, rest: string)
    requires st.quote.Double? && '"' !in s && '\\' !in s
    ensures Scan(st, s + rest) == Scan(st.(cur := st.cur + s), rest)
    decreases |s|
  {
    hide Scan;
    if s == "" {
      assert s + rest == rest && st.cur + s == st.cur;
    } else {
      ScanStep(st, s + rest);
      assert (s + rest)[1..] == s[1..] + rest;
      assert st.cur + [s[0]] + s[1..] == st.cur + s;
      ScanDouble(st.(cur := st.cur + [s[0]]), s[1..], rest);
    }
  }

  /** The end of the line ends the word. */
  lemma ScanEnd(cur: string, inWord: bool, quote: Quote)
    ensures Scan(Scanner([], cur, inWord, quote), "").EndWord().out == if inWord then [cur] else []
  {}

  lemma ScanOne(st: Scanner, c: char, rest: string)
    requires c != '\\' || rest == ""
    ensures Scan(st, [c] + rest) == Scan(Advance(st, [c]), rest)
  {
    hide Scan;
    ScanStep(st, [c] + rest);
    assert ([c] + rest)[1..] == rest;
  }

  /** Between single quotes every character stands for itself; quoted and bare parts make one word. */
  lemma SingleQuoted(a: string, w: string, b: string)
    requires IsSimple(a) && IsSimple(b) && '\'' !in w
    ensures SplitArgs(a + "'" + w + "'" + b) == [a + w + b]
    ensures SplitArgs(a + "'" + w) == [a + w]
  {
    hide Scan, IsSimple, Advance;
    assert a + "'" + w + "'" + b == a + ("'" + (w + ("'" + b)));
    assert a + "'" + w == a + ("'" + (w + ""));
    ScanSimple(IDLE, a, "'" + (w + ("'" + b)));
    ScanSimple(IDLE, a, "'" + (w + ""));
    var st := Scanner([], a, a != "", NoQuote);
    assert "" + a == a && b + "" == b;
    QuotesToggle(st);
    var inside := Scanner([], a, true, Single);
    ScanOne(st, '\'', w + ("'" + b));
    ScanOne(st, '\'', w + "");
    ScanSingle(inside, w, "'" + b);
    ScanSingle(inside, w, "");
    QuotesToggle(Scanner([], a + w, true, Single));
    ScanOne(Scanner([], a + w, true, Single), '\'', b);
    ScanSimple(Scanner([], a + w, true, NoQuote), b, "");
    ScanEnd(a + w + b, true, NoQuote);
    ScanEnd(a + w, true, Single);
  }

  lemma QuotesToggle(st: Scanner)
    ensures st.quote.NoQuote? ==> Advance(st, "'") == st.(quote := Single, inWord := true)
    ensures st.quote.NoQuote? ==> Advance(st, "\"") == st.(quote := Double, inWord := true)
    ensures st.quote.Single? ==> Advance(st, "'") == st.(quote := NoQuote)
    ensures st.quote.Double? ==> Advance(st, "\"") == st.(quote := NoQuote)
  {
    hide IsWhitespace;
    WhitespaceFacts();
  }

  /** Between double quotes a backslash hides a double quote or a backslash, and else stands for itself. */
  lemma DoubleQuoted(a: string, v: string, c: char, w: string, b: string)
    requires IsSimple(a) && IsSimple(b)
    requires '"' !in v && '\\' !in v && '"' !in w && '\\' !in w
    ensures SplitArgs(a + "\"" + v + "\"" + b) == [a + v + b] && SplitArgs(a + "\"" + v) == [a + v]
    ensures SplitArgs(a + "\"" + v + ['\\', c] + w + "\"" + b)
         == [a + v + (if c == '"' || c == '\\' then [c] else ['\\', c]) + w + b]
  {
    hide Scan, IsSimple, Advance;
    var hidden := if c == '"' || c == '\\' then [c] else ['\\', c];
    DoubleOpens(a, v + ("\"" + b));
    DoubleOpens(a, v + "");
    DoubleOpens(a, v + (['\\', c] + (w + ("\"" + b))));
    assert a + "\"" + v + "\"" + b == a + "\"" + (v + ("\"" + b)) && a + "\"" + v == a + "\"" + (v + "");
    assert a + "\"" + v + ['\\', c] + w + "\"" + b == a + "\"" + (v + (['\\', c] + (w + ("\"" + b))));
    var inside := Scanner([], a, true, Double);
    ScanDouble(inside, v, "\"" + b);
    ScanDouble(inside, v, "");
    ScanDouble(inside, v, ['\\', c] + (w + ("\"" + b)));
    DoubleCloses(a + v, b);
    ScanEnd(a + v, true, Double);
    BackslashInDouble(Scanner([], a + v, true, Double), c, w + ("\"" + b));
    ScanDouble(Scanner([], a + v + hidden, true, Double), w, "\"" + b);
    DoubleCloses(a + v + hidden + w, b);
  }

  lemma DoubleOpens(a: string, rest: string)
    requires IsSimple(a)
    ensures Scan(IDLE, a + "\"" + rest) == Scan(Scanner([], a, true, Double), rest)
  {
    hide Scan, Advance;
    assert a + "\"" + rest == a + ("\"" + rest);
    ScanSimple(IDLE, a, "\"" + rest);
    assert "" + a == a;
    QuotesToggle(Scanner([], a, a != "", NoQuote));
    ScanOne(Scanner([], a, a != "", NoQuote), '"', rest);
  }

  lemma DoubleCloses(cur: string, b: string)
    requires IsSimple(b)
    ensures Scan(Scanner([], cur, true, Double), "\"" + b).EndWord().out == [cur + b]
  {
    hide Scan, Advance;
    QuotesToggle(Scanner([], cur, true, Double));
    ScanOne(Scanner([], cur, true, Double), '"', b);
    assert b + "" == b;
    ScanSimple(Scanner([], cur, true, NoQuote), b, "");
    ScanEnd(cur + b, true, NoQuote);
  }

  lemma BackslashInDouble(st: Scanner, c: char, rest: string)
    requires st.quote.Double? && st.inWord && rest != "" && rest[0] != '\\'
    ensures Scan(st, ['\\', c] + rest)
         == Scan(st.(cur := st.cur + (if c == '"' || c == '\\' then [c] else ['\\', c])), rest)
  {
    hide Scan;
    var s := ['\\', c] + rest;
    ScanStep(st, s);
    if c == '"' || c == '\\' {
      assert s[2..] == rest;
    } else {
      assert s[1..] == [c] + rest;
      ScanStep(st.(cur := st.cur + ['\\']), [c] + rest);
      assert ([c] + rest)[1..] == rest;
      assert st.cur + ['\\'] + [c] == st.cur + ['\\', c];
    }
  }

  /** Outside quotes a backslash hides a quote of either kind, and else stands for itself. */
  lemma BackslashOutside(a: string, c: char, b: string)
    requires IsSimple(a) && IsSimple(b) && !IsWhitespace(c)
    ensures SplitArgs(a + ['\\', c] + b) == [a + (if c == '"' || c == '\'' then [c] else ['\\', c]) + b]
  {
    hide Scan, IsWhitespace;
    assert a + ['\\', c] + b == a + (['\\', c] + b);
    ScanSimple(IDLE, a, ['\\', c] + b);
    assert "" + a == a && b + "" == b;
    var st, s := Scanner([], a, a != "", NoQuote), ['\\', c] + b;
    WhitespaceFacts();
    ScanStep(st, s);
    if c == '"' || c == '\'' {
      assert s[2..] == b;
      ScanSimple(Scanner([], a + [c], true, NoQuote), b, "");
      ScanEnd(a + [c] + b, true, NoQuote);
    } else {
      assert s[1..] == [c] + b;
      var next := Scanner([], a + ['\\'], true, NoQuote);
      ScanStep(next, [c] + b);
      assert ([c] + b)[1..] == b;
      assert a + ['\\'] + [c] == a + ['\\', c];
      ScanSimple(Scanner([], a + ['\\', c], true, NoQuote), b, "");
      ScanEnd(a + ['\\', c] + b, true, NoQuote);
    }
  }

  lemma {:induction false} ScanSpaces(st: Scanner, s: string, rest: string)
    requires st.quote.NoQuote? && AllWhitespace(s)
    ensures Scan(st, s + rest) ==
              Scan(if s == "" then st else st.EndWord().(cur := if st.inWord then "" else st.cur), rest)
    decreases |s|
  {
    hide Scan, IsWhitespace;
    WhitespaceFacts();
    if s == "" {
      assert s + rest == rest;
    } else {
      ScanStep(st, s + rest);
      assert (s + rest)[1..] == s[1..] + rest;
      ScanSpaces(st.EndWord(), s[1..], rest);
    }
  }

  /** Any whitespace separates words, and none is left of it. */
  lemma SpaceSeparates(start: string, a: string, between: string, b: string, end: string)
    requires AllWhitespace(start) && AllWhitespace(between) && AllWhitespace(end)
    requires IsSimple(a) && IsSimple(b) && a != "" && b != "" && between != ""
    ensures SplitArgs(start + a + between + b + end) == [a, b]
  {
    hide Scan, IsSimple, AllWhitespace;
    assert start + a + between + b + end == start + (a + (between + (b + (end + ""))));
    ScanSpaces(IDLE, start, a + (between + (b + (end + ""))));
    ScanSimple(IDLE, a, between + (b + (end + "")));
    assert "" + a == a && "" + b == b;
    ScanSpaces(Scanner([], a, true, NoQuote), between, b + (end + ""));
    ScanSimple(Scanner([a], "", false, NoQuote), b, end + "");
    ScanSpaces(Scanner([a], b, true, NoQuote), end, "");
    ScanNothing(Scanner([a], b, true, NoQuote));
    ScanNothing(Scanner([a, b], "", false, NoQuote));
    assert [] + [a] == [a] && [a] + [b] == [a, b];
  }

  // ---- Shape of the line --------------------------------------------------------------------

  lemma {:induction false} EscapeAddsOnlyBackslashes(w: string, c: char)
    requires c !in w && c != '\\'
    ensures c !in Escape(w)
  {
    if w != "" {
      EscapeAddsOnlyBackslashes(w[1..], c);
    }
  }

  /** A character outside all words, other than quote, backslash and space, is not in the line. */
  lemma {:induction false} LineAddsOnlySyntax(words: seq<string>, c: char)
    requires forall w | w in words :: c !in w
    requires c != '\\' && c != '"' && c != ' '
    ensures c !in Line(words)
  {
    hide Replace, NeedsQuotes;
    if words != [] {
      assert words[0] in words;
      ReplacingTwiceEscapes(words[0]);
      EscapeAddsOnlyBackslashes(words[0], c);
      assert forall w | w in words[1..] :: w in words;
      LineAddsOnlySyntax(words[1..], c);
    }
  }

  /** A quoted word begins and ends with a character that trimming keeps. */
  lemma QuotedWordIsTrimmed(w: string)
    ensures var q := QuoteWord(w); q != "" && !IsWhitespace(q[0]) && !IsWhitespace(q[|q| - 1])
  {
    hide Replace;
  }

  lemma {:induction false} LineIsTrimmed(words: seq<string>)
    requires words != []
    ensures var l := Line(words); l != "" && !IsWhitespace(l[0]) && !IsWhitespace(l[|l| - 1])
  {
    hide QuoteWord, IsWhitespace;
    QuotedWordIsTrimmed(words[0]);
    if |words| > 1 {
      LineIsTrimmed(words[1..]);
    }
  }

  // ---- The program's splitter ---------------------------------------------------------------

  method SplitArgsLoop(s: string) returns (out: seq<string>)
    ensures out == SplitArgs(s)
  {
    hide IsWhitespace, Scan;
    WhitespaceFacts();
    out := [];
    var cur, inWord, quote, i := "", false, NoQuote, 0;
    assert s[0..] == s;
    while i < |s|
      invariant i <= |s|
      invariant Scan(Scanner(out, cur, inWord, quote), s[i..]) == Scan(IDLE, s)
    {
      var c := s[i];
      var peek := if i + 1 < |s| then Some(s[i + 1]) else None;
      ghost var rest := s[i..];
      assert rest[0] == c && rest[1..] == s[i + 1..];
      assert peek.Some? ==> rest[1] == peek.value && rest[2..] == s[i + 2..];
      ghost var st := Scanner(out, cur, inWord, quote);
      ScanStep(st, rest);
      i := i + 1;
      match quote {
      case Single =>
        if c == '\'' { quote := NoQuote; } else { cur := cur + [c]; }
      case Double =>
        if c == '"' {
          quote := NoQuote;
        } else if c == '\\' && (peek == Some('"') || peek == Some('\\')) {
          cur := cur + [peek.value];
          i := i + 1;
        } else {
          cur := cur + [c];
        }
      case NoQuote =>
        if IsWhitespace(c) {
          if inWord {
            out := out + [cur];
            cur, inWord := "", false;
          }
        } else if c == '"' || c == '\'' {
          quote := if c == '"' then Double else Single;
          inWord := true;
        } else if c == '\\' && (peek == Some('"') || peek == Some('\'')) {
          cur := cur + [peek.value];
          i := i + 1;
          inWord := true;
        } else {
          cur := cur + [c];
          inWord := true;
        }
      }
      assert Scanner(out, cur, inWord, quote) == Advance(st, rest);
      assert s[i..] == rest[TakenAt(rest, st.quote)..];
    }
    assert s[i..] == "";
    ScanNothing(Scanner(out, cur, inWord, quote));
    if inWord {
      out := out + [cur];
    }
  }
}
