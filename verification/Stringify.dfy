/**
 The canonical JSON text that wire messages are signed over, and a decoder showing that the
 text determines the value.
 */
module Stringify {
  import opened Wrappers
  import opened Json
  import opened Decimal

  // ---- Strings ------------------------------------------------------------------------------

  const BACKSPACE := 0x08 as char
  const FORM_FEED := 0x0C as char

  function HexDigit(n: nat): (c: char)
    requires n < 16
  {
    if n < 10 then ('0' as int + n) as char else ('a' as int + (n - 10)) as char
  }

  /** One character of a JSON string (section 7 of RFC 8259): short escapes, \u00xx, or itself. */
  function EscapeChar(c: char): string {
    if c == '"' then "\\\""
    else if c == '\\' then "\\\\"
    else if c == BACKSPACE then "\\b"
    else if c == FORM_FEED then "\\f"
    else if c == '\n' then "\\n"
    else if c == '\r' then "\\r"
    else if c == '\t' then "\\t"
    else if c < ' ' then "\\u00" + [HexDigit(c as int / 16), HexDigit(c as int % 16)]
    else [c]
  }

  function EscapeAll(s: string): string {
    if s == "" then "" else EscapeChar(s[0]) + EscapeAll(s[1..])
  }

  function StringText(s: string): string { "\"" + EscapeAll(s) + "\"" }

  // ---- Values -------------------------------------------------------------------------------

  function FormatNumber(n: int): (s: string)
    ensures s != ""
  {
    if n < 0 then "-" + Numeral(-n) else Numeral(n)
  }

  /** Parts separated by commas. */
  function Commas(parts: seq<string>): string {
    if parts == [] then ""
    else if |parts| == 1 then parts[0]
    else parts[0] + "," + Commas(parts[1..])
  }

  function MemberText(key: string, value: string): string { StringText(key) + ":" + value }

  /** Key-sorted, whitespace-free JSON text. */
  function StableStringify(v: Json): string
    decreases v, 1, 0
  {
    match v
    case Null => "null"
    case Bool(b) => if b then "true" else "false"
    case Num(n) => FormatNumber(n)
    case Str(s) => StringText(s)
    case Arr(items) => "[" + Commas(ItemTexts(items, v)) + "]"
    case Obj(entries) =>
      SameMembers(entries, SortByKey(entries));
      "{" + Commas(MemberTexts(SortByKey(entries), v)) + "}"
  }

  function ItemTexts(items: seq<Json>, ghost parent: Json): (r: seq<string>)
    requires parent.Arr? && forall x | x in items :: x in parent.items
    ensures |r| == |items|
    ensures forall i | 0 <= i < |items| :: items[i] in parent.items && r[i] == StableStringify(items[i])
    decreases parent, 0, |items|
  {
    if items == [] then []
    else
      assert items[0] in parent.items;
      [StableStringify(items[0])] + ItemTexts(items[1..], parent)
  }

  function MemberTexts(entries: seq<Entry>, ghost parent: Json): (r: seq<string>)
    requires parent.Obj? && forall e | e in entries :: e in parent.entries
    ensures |r| == |entries|
    ensures forall i | 0 <= i < |entries| ::
              entries[i] in parent.entries && r[i] == MemberText(entries[i].key, StableStringify(entries[i].value))
    decreases parent, 0, |entries|
  {
    if entries == [] then []
    else
      assert entries[0] in parent.entries;
      [MemberText(entries[0].key, StableStringify(entries[0].value))] + MemberTexts(entries[1..], parent)
  }

  /** The text depends on the canonical form only. */
  lemma {:induction false} TextOfCanon(v: Json)
    requires WellFormed(v)
    ensures StableStringify(v) == StableStringify(Canon(v))
  {
    match v
    case Arr(items) =>
      var c := Canon(v);
      var a, b := ItemTexts(items, v), ItemTexts(c.items, c);
      forall i | 0 <= i < |items| ensures a[i] == b[i] {
        TextOfCanon(items[i]);
      }
      assert a == b;
    case Obj(entries) =>
      TextOfCanonObject(v);
    case _ =>
  }

  lemma ObjectText(v: Json)
    requires v.Obj?
    ensures forall e | e in SortByKey(v.entries) :: e in v.entries
    ensures StableStringify(v) == "{" + Commas(MemberTexts(SortByKey(v.entries), v)) + "}"
    ensures v.entries != [] ==> SortByKey(v.entries) != []
  {
    SameMembers(v.entries, SortByKey(v.entries));
  }

  lemma CanonObject(v: Json)
    requires WellFormed(v) && v.Obj?
    ensures Canon(v) == Obj(SortByKey(CanonEntries(v.entries)))
    ensures Canon(v) == Obj(CanonEntries(SortByKey(v.entries)))
    ensures SortByKey(Canon(v).entries) == Canon(v).entries
  {
    SortCommutesWithCanon(v.entries);
    SortedAlready(CanonEntries(v.entries));
  }

  lemma {:induction false} TextOfCanonObject(v: Json)
    requires WellFormed(v) && v.Obj?
    ensures StableStringify(v) == StableStringify(Canon(v))
    decreases v, 0
  {
    forall e | e in v.entries ensures StableStringify(e.value) == StableStringify(Canon(e.value)) {
      TextOfCanon(e.value);
    }
    hide StableStringify, Canon, SortByKey, MemberText, Commas, WellFormed;
    ObjectText(v);
    CanonObject(v);
    ObjectText(Canon(v));
    MemberTextsAgree(v, SortByKey(v.entries), Canon(v));
  }

  lemma MemberTextsAgree(v: Json, sorted: seq<Entry>, c: Json)
    requires v.Obj? && c.Obj? && c.entries == CanonEntries(sorted)
    requires forall e | e in sorted :: e in v.entries
    requires forall e | e in v.entries :: StableStringify(e.value) == StableStringify(Canon(e.value))
    ensures MemberTexts(sorted, v) == MemberTexts(c.entries, c)
  {
    hide StableStringify, Canon, MemberText;
    var a, b := MemberTexts(sorted, v), MemberTexts(c.entries, c);
    forall i | 0 <= i < |sorted| ensures a[i] == b[i] {
      assert sorted[i] in v.entries;
    }
  }

  // ---- A decoder ----------------------------------------------------------------------------

  /** A value read from the front of a text, and what follows it. */
  datatype Parsed<+T> = Done(value: T, rest: string) | Fail

  function HexValue(c: char): (r: Option<nat>)
    ensures r.Some? ==> r.value < 16
  {
    if '0' <= c <= '9' then Some(c as int - '0' as int)
    else if 'a' <= c <= 'f' then Some(c as int - 'a' as int + 10)
    else None
  }

  /** The character an escape at the front of `s` stands for, and its length. */
  function Unescape(s: string): (r: Option<(char, nat)>)
    ensures r.Some? ==> 2 <= r.value.1 <= |s|
  {
    if |s| < 2 || s[0] != '\\' then None
    else if s[1] == '"' || s[1] == '\\' then Some((s[1], 2))
    else if s[1] == 'b' then Some((BACKSPACE, 2))
    else if s[1] == 'f' then Some((FORM_FEED, 2))
    else if s[1] == 'n' then Some(('\n', 2))
    else if s[1] == 'r' then Some(('\r', 2))
    else if s[1] == 't' then Some(('\t', 2))
    else if |s| >= 6 && s[1] == 'u' && s[2] == '0' && s[3] == '0' && HexValue(s[4]).Some? && HexValue(s[5]).Some? then
      Some(((16 * HexValue(s[4]).value + HexValue(s[5]).value) as char, 6))
    else None
  }

  /** The rest of a string, after its opening quote. */
  function ParseChars(s: string): (r: Parsed<string>)
    ensures r.Done? ==> |r.rest| < |s|
    decreases |s|
  {
    if s == "" then Fail
    else if s[0] == '"' then Done("", s[1..])
    else if s[0] == '\\' then
      match Unescape(s)
      case None => Fail
      case Some(e) =>
        match ParseChars(s[e.1..])
        case Done(t, rest) => Done([e.0] + t, rest)
        case Fail => Fail
    else
      match ParseChars(s[1..])
      case Done(t, rest) => Done([s[0]] + t, rest)
      case Fail => Fail
  }

  function DigitCount(s: string): (n: nat)
    ensures n <= |s| && AllDigits(s[..n])
    ensures n < |s| ==> !IsDigit(s[n])
  {
    if s == "" || !IsDigit(s[0]) then 0
    else
      var n := DigitCount(s[1..]);
      assert s[..n + 1] == [s[0]] + s[1..][..n];
      n + 1
  }

  function ParseNumber(s: string): (r: Parsed<Json>)
    ensures r.Done? ==> |r.rest| < |s|
  {
    var negative := s != "" && s[0] == '-';
    var digits := if negative then s[1..] else s;
    var n := DigitCount(digits);
    if n == 0 then Fail
    else Done(Num(if negative then 0 - Value(digits[..n]) else Value(digits[..n])), digits[n..])
  }

  function ParseValue(s: string): (r: Parsed<Json>)
    ensures r.Done? ==> |r.rest| < |s|
    decreases |s|, 0
  {
    if s == "" then Fail
    else if s[0] == 'n' then if "null" <= s then Done(Null, s[4..]) else Fail
    else if s[0] == 't' then if "true" <= s then Done(Bool(true), s[4..]) else Fail
    else if s[0] == 'f' then if "false" <= s then Done(Bool(false), s[5..]) else Fail
    else if s[0] == '"' then
      match ParseChars(s[1..]) {
        case Done(t, rest) => Done(Str(t), rest)
        case Fail => Fail
      }
    else if s[0] == '[' then
      if |s| >= 2 && s[1] == ']' then Done(Arr([]), s[2..])
      else match ParseItems(s[1..]) {
        case Done(items, rest) => Done(Arr(items), rest)
        case Fail => Fail
      }
    else if s[0] == '{' then
      if |s| >= 2 && s[1] == '}' then Done(Obj([]), s[2..])
      else match ParseMembers(s[1..]) {
        case Done(entries, rest) => Done(Obj(entries), rest)
        case Fail => Fail
      }
    else ParseNumber(s)
  }

  /** One or more array items and the closing bracket. */
  function ParseItems(s: string): (r: Parsed<seq<Json>>)
    ensures r.Done? ==> |r.rest| < |s|
    decreases |s|, 1
  {
    match ParseValue(s)
    case Fail => Fail
    case Done(v, rest) =>
      if rest == "" then Fail
      else if rest[0] == ']' then Done([v], rest[1..])
      else if rest[0] != ',' then Fail
      else
        match ParseItems(rest[1..])
        case Done(items, tail) => Done([v] + items, tail)
        case Fail => Fail
  }

  /** One object member. */
  function ParseMember(s: string): (r: Parsed<Entry>)
    ensures r.Done? ==> |r.rest| < |s|
    decreases |s|, 1
  {
    if s == "" || s[0] != '"' then Fail
    else match ParseChars(s[1..])
      case Fail => Fail
      case Done(key, rest) =>
        if rest == "" || rest[0] != ':' then Fail
        else match ParseValue(rest[1..])
          case Done(v, tail) => Done(Entry(key, v), tail)
          case Fail => Fail
  }

  /** One or more object members and the closing brace. */
  function ParseMembers(s: string): (r: Parsed<seq<Entry>>)
    ensures r.Done? ==> |r.rest| < |s|
    decreases |s|, 2
  {
    match ParseMember(s)
    case Fail => Fail
    case Done(e, rest) =>
      if rest == "" then Fail
      else if rest[0] == '}' then Done([e], rest[1..])
      else if rest[0] != ',' then Fail
      else
        match ParseMembers(rest[1..])
        case Done(entries, tail) => Done([e] + entries, tail)
        case Fail => Fail
  }

  // ---- Decoding undoes printing -------------------------------------------------------------

  lemma UnescapeOfEscape(c: char, rest: string)
    ensures var s := EscapeChar(c) + rest;
            if EscapeChar(c)[0] == '\\' then Unescape(s) == Some((c, |EscapeChar(c)|))
            else EscapeChar(c) == [c] && c != '"'
    ensures (EscapeChar(c) + rest)[|EscapeChar(c)|..] == rest
  {
    var e := EscapeChar(c);
    var s := e + rest;
    assert forall i | 0 <= i < |e| :: s[i] == e[i];
  }

  lemma {:induction false} CharsDecode(t: string, rest: string)
    ensures ParseChars(EscapeAll(t) + "\"" + rest) == Done(t, rest)
  {
    hide EscapeChar, Unescape;
    var s := EscapeAll(t) + "\"" + rest;
    if t == "" {
      assert s[0] == '"' && s[1..] == rest;
    } else {
      var tail := EscapeAll(t[1..]) + "\"" + rest;
      assert s == EscapeChar(t[0]) + tail;
      UnescapeOfEscape(t[0], tail);
      CharsDecode(t[1..], rest);
      EscapeNotEmpty(t[0]);
      assert s[0] == EscapeChar(t[0])[0];
      assert s[|EscapeChar(t[0])|..] == tail;
      assert t == [t[0]] + t[1..];
    }
  }

  lemma EscapeNotEmpty(c: char)
    ensures |EscapeChar(c)| >= 1
  {}

  lemma StringDecodes(t: string, rest: string)
    ensures StringText(t) != "" && (StringText(t) + rest)[0] == '"'
    ensures ParseChars((StringText(t) + rest)[1..]) == Done(t, rest)
  {
    hide EscapeAll, ParseChars;
    CharsDecode(t, rest);
    assert (StringText(t) + rest)[1..] == EscapeAll(t) + "\"" + rest;
  }

  /** What may follow a number without being read as part of it. */
  predicate EndsNumber(rest: string) { rest == "" || !IsDigit(rest[0]) }

  lemma {:induction false} DigitsEnd(digits: string, rest: string)
    requires AllDigits(digits) && EndsNumber(rest)
    ensures DigitCount(digits + rest) == |digits|
  {
    if digits == "" {
      assert digits + rest == rest;
    } else {
      assert (digits + rest)[1..] == digits[1..] + rest;
      DigitsEnd(digits[1..], rest);
    }
  }

  lemma NumberDecodes(n: int, rest: string)
    requires EndsNumber(rest)
    ensures ParseNumber(FormatNumber(n) + rest) == Done(Num(n), rest)
    ensures FormatNumber(n)[0] == '-' || IsDigit(FormatNumber(n)[0])
  {
    hide Numeral, Value, DigitCount;
    var m := if n < 0 then -n else n;
    var digits := Numeral(m);
    ValueOfNumeral(m);
    DigitsEnd(digits, rest);
    var s := FormatNumber(n) + rest;
    if n < 0 {
      assert s[0] == '-' && s[1..] == digits + rest;
    } else {
      assert s == digits + rest && s[0] == digits[0];
    }
    assert (digits + rest)[..|digits|] == digits && (digits + rest)[|digits|..] == rest;
  }

  /** The first character tells what kind of value follows, and is no closing bracket. */
  lemma FirstCharacter(v: Json)
    ensures var s := StableStringify(v);
            && s != ""
            && (match v
                case Null => s == "null"
                case Bool(b) => s == if b then "true" else "false"
                case Num(_) => s[0] == '-' || IsDigit(s[0])
                case Str(_) => s[0] == '"'
                case Arr(_) => s[0] == '['
                case Obj(_) => s[0] == '{')
            && s[0] != ']' && s[0] != '}'
  {
    if v.Num? {
      NumberDecodes(v.n, "");
    }
  }

  lemma {:induction false} ValueDecodes(v: Json, rest: string)
    requires WellFormed(v) && EndsNumber(rest)
    ensures ParseValue(StableStringify(v) + rest) == Done(Canon(v), rest)
    decreases v, 3
  {
    match v
    case Null => NullDecodes(rest);
    case Bool(b) => BoolDecodes(b, rest);
    case Num(n) => NumberValueDecodes(n, rest);
    case Str(t) => StringValueDecodes(t, rest);
    case Arr(items) =>
      hide ParseValue, StableStringify, Canon, WellFormed;
      if items == [] {
        EmptyDecodes(rest);
      } else {
        ArrayDecodes(v, rest);
      }
    case Obj(entries) =>
      hide ParseValue, StableStringify, Canon, WellFormed;
      if entries == [] {
        EmptyDecodes(rest);
      } else {
        ObjectDecodes(v, rest);
      }
  }

  lemma NullDecodes(rest: string)
    ensures ParseValue("null" + rest) == Done(Null, rest)
  {
    assert ("null" + rest)[4..] == rest;
  }

  lemma BoolDecodes(b: bool, rest: string)
    ensures ParseValue((if b then "true" else "false") + rest) == Done(Bool(b), rest)
  {
    if b {
      assert ("true" + rest)[4..] == rest;
    } else {
      assert ("false" + rest)[5..] == rest;
    }
  }

  lemma EmptyDecodes(rest: string)
    ensures ParseValue(StableStringify(Arr([])) + rest) == Done(Canon(Arr([])), rest)
    ensures ParseValue(StableStringify(Obj([])) + rest) == Done(Canon(Obj([])), rest)
  {
    assert ("[" + "" + "]" + rest)[2..] == rest;
    assert ("{" + "" + "}" + rest)[2..] == rest;
  }

  lemma NumberValueDecodes(n: int, rest: string)
    requires EndsNumber(rest)
    ensures ParseValue(FormatNumber(n) + rest) == Done(Num(n), rest)
  {
    hide FormatNumber, ParseNumber;
    NumberDecodes(n, rest);
    var s := FormatNumber(n) + rest;
    assert s[0] == FormatNumber(n)[0];
  }

  lemma StringValueDecodes(t: string, rest: string)
    ensures ParseValue(StringText(t) + rest) == Done(Str(t), rest)
  {
    hide StringText, ParseChars;
    StringDecodes(t, rest);
  }

  lemma {:induction false} ArrayDecodes(v: Json, rest: string)
    requires WellFormed(v) && v.Arr? && v.items != []
    ensures ParseValue(StableStringify(v) + rest) == Done(Canon(v), rest)
    decreases v, 2
  {
    var tail := Commas(ItemTexts(v.items, v)) + "]" + rest;
    ItemsDecode(v, v.items, rest);
    FirstCharacter(v.items[0]);
    assert StableStringify(v) + rest == "[" + tail;
    OpensArray(tail);
  }

  lemma OpensArray(tail: string)
    requires tail != "" && tail[0] != ']'
    ensures ParseValue("[" + tail) ==
              match ParseItems(tail)
              case Done(items, rest) => Done(Arr(items), rest)
              case Fail => Fail
  {
    hide ParseItems;
    assert ("[" + tail)[1..] == tail;
  }

  lemma LastItem(s: string, v: Json, rest: string)
    requires ParseValue(s) == Done(v, "]" + rest)
    ensures ParseItems(s) == Done([v], rest)
  {
    hide ParseValue;
    assert ("]" + rest)[1..] == rest;
  }

  lemma MoreItems(s: string, v: Json, tail: string, items: seq<Json>, rest: string)
    requires ParseValue(s) == Done(v, "," + tail) && ParseItems(tail) == Done(items, rest)
    ensures ParseItems(s) == Done([v] + items, rest)
  {
    hide ParseValue;
    assert ("," + tail)[1..] == tail;
  }

  lemma {:induction false} ItemsDecode(v: Json, items: seq<Json>, rest: string)
    requires WellFormed(v) && v.Arr? && items != [] && forall x | x in items :: x in v.items
    ensures ParseItems(Commas(ItemTexts(items, v)) + "]" + rest) == Done(CanonItems(items), rest)
    ensures Commas(ItemTexts(items, v)) != "" && Commas(ItemTexts(items, v))[0] == StableStringify(items[0])[0]
    decreases v, 1, |items|
  {
    hide StableStringify, Canon, ParseValue, ParseItems;
    var texts := ItemTexts(items, v);
    var first := StableStringify(items[0]);
    assert items[0] in v.items;
    FirstCharacter(items[0]);
    if |items| == 1 {
      ValueDecodes(items[0], "]" + rest);
      LastItem(first + ("]" + rest), Canon(items[0]), rest);
      assert Commas(texts) + "]" + rest == first + ("]" + rest);
      assert CanonItems(items) == [Canon(items[0])];
    } else {
      var tail := Commas(ItemTexts(items[1..], v)) + "]" + rest;
      ItemsDecode(v, items[1..], rest);
      ValueDecodes(items[0], "," + tail);
      MoreItems(first + ("," + tail), Canon(items[0]), tail, CanonItems(items[1..]), rest);
      assert texts[1..] == ItemTexts(items[1..], v);
      assert Commas(texts) + "]" + rest == first + ("," + tail);
    }
  }

  lemma {:induction false} ObjectDecodes(v: Json, rest: string)
    requires WellFormed(v) && v.Obj? && v.entries != []
    ensures ParseValue(StableStringify(v) + rest) == Done(Canon(v), rest)
    decreases v, 2
  {
    hide StableStringify, Canon, SortByKey, ParseValue, MemberTexts, ParseMembers, WellFormed, Commas, CanonEntries;
    var sorted := SortByKey(v.entries);
    ObjectText(v);
    CanonObject(v);
    MembersDecode(v, sorted, rest);
    var tail := Commas(MemberTexts(sorted, v)) + "}" + rest;
    Braced(Commas(MemberTexts(sorted, v)), rest);
    OpensObject(tail);
  }

  lemma Braced(text: string, rest: string)
    ensures "{" + text + "}" + rest == "{" + (text + "}" + rest)
  {}

  lemma OpensObject(tail: string)
    requires tail != "" && tail[0] == '"'
    ensures ParseValue("{" + tail) ==
              match ParseMembers(tail)
              case Done(entries, rest) => Done(Obj(entries), rest)
              case Fail => Fail
  {
    hide ParseMembers;
    assert ("{" + tail)[1..] == tail;
  }

  lemma LastMember(s: string, e: Entry, rest: string)
    requires ParseMember(s) == Done(e, "}" + rest)
    ensures ParseMembers(s) == Done([e], rest)
  {
    hide ParseMember;
    assert ("}" + rest)[1..] == rest;
  }

  lemma MoreMembers(s: string, e: Entry, tail: string, entries: seq<Entry>, rest: string)
    requires ParseMember(s) == Done(e, "," + tail) && ParseMembers(tail) == Done(entries, rest)
    ensures ParseMembers(s) == Done([e] + entries, rest)
  {
    hide ParseMember;
    assert ("," + tail)[1..] == tail;
  }

  lemma {:induction false} MembersDecode(v: Json, entries: seq<Entry>, rest: string)
    requires WellFormed(v) && v.Obj? && entries != [] && forall e | e in entries :: e in v.entries
    ensures ParseMembers(Commas(MemberTexts(entries, v)) + "}" + rest) == Done(CanonEntries(entries), rest)
    ensures Commas(MemberTexts(entries, v)) != "" && Commas(MemberTexts(entries, v))[0] == '"'
    decreases v, 1, |entries|
  {
    hide StableStringify, Canon, ParseMembers, ParseMember, MemberText;
    var texts := MemberTexts(entries, v);
    var e := entries[0];
    var c := Entry(e.key, Canon(e.value));
    var first := MemberText(e.key, StableStringify(e.value));
    assert e in v.entries;
    MemberStartsWithQuote(e.key, StableStringify(e.value));
    if |entries| == 1 {
      MemberDecodes(v, e, "}" + rest);
      LastMember(first + ("}" + rest), c, rest);
      assert Commas(texts) + "}" + rest == first + ("}" + rest);
      assert CanonEntries(entries) == [c];
    } else {
      var tail := Commas(MemberTexts(entries[1..], v)) + "}" + rest;
      MembersDecode(v, entries[1..], rest);
      MemberDecodes(v, e, "," + tail);
      MoreMembers(first + ("," + tail), c, tail, CanonEntries(entries[1..]), rest);
      assert texts[1..] == MemberTexts(entries[1..], v);
      assert Commas(texts) + "}" + rest == first + ("," + tail);
    }
  }

  lemma MemberStartsWithQuote(key: string, value: string)
    ensures MemberText(key, value) != "" && MemberText(key, value)[0] == '"'
  {}

  lemma {:induction false} MemberDecodes(v: Json, e: Entry, rest: string)
    requires WellFormed(v) && v.Obj? && e in v.entries && EndsNumber(rest)
    ensures ParseMember(MemberText(e.key, StableStringify(e.value)) + rest) == Done(Entry(e.key, Canon(e.value)), rest)
    decreases v, 0
  {
    hide StableStringify, Canon, ParseValue, StringText, ParseChars;
    var tail := StableStringify(e.value) + rest;
    ValueDecodes(e.value, rest);
    StringDecodes(e.key, ":" + tail);
    assert MemberText(e.key, StableStringify(e.value)) + rest == StringText(e.key) + (":" + tail);
    assert (":" + tail)[1..] == tail;
  }

  // ---- The text determines the value --------------------------------------------------------

  /** Reading a canonical text gives back the value, with members in key order. */
  lemma StringifyDecodes(v: Json)
    requires WellFormed(v)
    ensures ParseValue(StableStringify(v)) == Done(Canon(v), "")
  {
    hide StableStringify, ParseValue;
    ValueDecodes(v, "");
    assert StableStringify(v) + "" == StableStringify(v);
  }

  /** Two values have one text exactly when they are the same value, whatever the insertion order. */
  lemma SameTextExactlyWhenSame(v: Json, w: Json)
    requires WellFormed(v) && WellFormed(w)
    ensures StableStringify(v) == StableStringify(w) <==> Same(v, w)
  {
    hide StableStringify, ParseValue, Same, Canon;
    if StableStringify(v) == StableStringify(w) {
      StringifyDecodes(v);
      StringifyDecodes(w);
      CanonSame(v, w);
    }
    if Same(v, w) {
      SameCanon(v, w);
      TextOfCanon(v);
      TextOfCanon(w);
    }
  }

  // ---- This printer and decoder as a JSON library -------------------------------------------

  predicate IsJsonSpace(s: string) {
    forall i | 0 <= i < |s| :: s[i] in [' ', '\n', '\r', '\t']
  }

  /** One value, then nothing but whitespace. */
  function Decode(s: string): Option<Json> {
    match ParseValue(s)
    case Done(v, rest) => if IsJsonSpace(rest) then Some(v) else None
    case Fail => None
  }

  lemma {:induction false} EscapedHasNoBreak(t: string)
    ensures NoLineBreak(EscapeAll(t))
  {
    if t != "" {
      EscapedHasNoBreak(t[1..]);
      EscapeCharHasNoBreak(t[0]);
    }
  }

  lemma EscapeCharHasNoBreak(c: char)
    ensures NoLineBreak(EscapeChar(c))
  {}

  lemma {:induction false} CommasHaveNoBreak(parts: seq<string>)
    requires forall p | p in parts :: NoLineBreak(p)
    ensures NoLineBreak(Commas(parts))
  {
    if parts != [] {
      assert parts[0] in parts && forall p | p in parts[1..] :: p in parts;
      CommasHaveNoBreak(parts[1..]);
    }
  }

  lemma DigitsHaveNoBreak(n: int)
    ensures NoLineBreak(FormatNumber(n))
  {}

  lemma {:induction false} TextHasNoBreak(v: Json)
    ensures NoLineBreak(StableStringify(v))
    decreases v, 1
  {
    match v
    case Num(n) => DigitsHaveNoBreak(n);
    case Str(t) => EscapedHasNoBreak(t);
    case Arr(items) =>
      forall i | 0 <= i < |items| ensures NoLineBreak(ItemTexts(items, v)[i]) {
        TextHasNoBreak(items[i]);
      }
      CommasHaveNoBreak(ItemTexts(items, v));
    case Obj(entries) => ObjectHasNoBreak(v);
    case _ =>
  }

  lemma {:induction false} ObjectHasNoBreak(v: Json)
    requires v.Obj?
    ensures NoLineBreak(StableStringify(v))
    decreases v, 0
  {
    hide SortByKey, StableStringify, Commas, EscapeAll;
    ObjectText(v);
    var sorted := SortByKey(v.entries);
    var texts := MemberTexts(sorted, v);
    forall i | 0 <= i < |sorted| ensures NoLineBreak(texts[i]) {
      assert sorted[i] in v.entries;
      TextHasNoBreak(sorted[i].value);
      EscapedHasNoBreak(sorted[i].key);
    }
    CommasHaveNoBreak(texts);
  }

  lemma ObjectBraces(v: Json)
    requires v.Obj?
    ensures var s := StableStringify(v); s != "" && s[0] == '{' && s[|s| - 1] == '}'
  {}

  lemma OwnReadsBack(v: Json, ws: string)
    requires WellFormed(v) && (ws == "" || ws == "\n")
    ensures ReadsBack(JsonLib(StableStringify, Decode), v, ws)
  {
    hide StableStringify, ParseValue, Canon, Same, WellFormed;
    ValueDecodes(v, ws);
    CanonIsSame(v);
  }

  // ---- The text itself ----------------------------------------------------------------------

  /** What stands between the quotes for one character (section 7 of RFC 8259, in its shortest form). */
  lemma CharacterText(c: char)
    ensures StringText([c]) == "\"" + EscapeAll([c]) + "\""
    ensures var n := c as int;
            EscapeAll([c]) ==
              if n == 0x22 then "\\\"" else if n == 0x5C then "\\\\"
              else if n == 0x08 then "\\b" else if n == 0x09 then "\\t" else if n == 0x0A then "\\n"
              else if n == 0x0C then "\\f" else if n == 0x0D then "\\r"
              else if n < 0x20 then "\\u00" + ["0123456789abcdef"[n / 16], "0123456789abcdef"[n % 16]]
              else [c]
  {
    hide HexDigit;
    assert [c][1..] == "" && EscapeAll([c]) == EscapeChar(c) + "" == EscapeChar(c);
    if c < ' ' {
      HexText(c as int / 16);
      HexText(c as int % 16);
    }
  }

  lemma HexText(n: nat)
    requires n < 16
    ensures HexDigit(n) == "0123456789abcdef"[n]
  {}

  /** Characters are written one after the other. */
  lemma {:induction false} StringIsByCharacter(a: string, b: string)
    ensures EscapeAll(a + b) == EscapeAll(a) + EscapeAll(b)
  {
    hide EscapeChar;
    if a == "" {
      assert a + b == b;
    } else {
      assert (a + b)[1..] == a[1..] + b;
      StringIsByCharacter(a[1..], b);
    }
  }

  /** Leaves, and lists of up to two parts. */
  lemma ValueText(b: bool, n: nat, x: Json, y: Json)
    ensures StableStringify(Null) == "null" && StableStringify(Bool(b)) == if b then "true" else "false"
    ensures StableStringify(Num(n)) == Numeral(n) && (n > 0 ==> StableStringify(Num(0 - n)) == "-" + Numeral(n))
    ensures StableStringify(Arr([])) == "[]" && StableStringify(Obj([])) == "{}"
    ensures StableStringify(Arr([x])) == "[" + StableStringify(x) + "]"
    ensures StableStringify(Arr([x, y])) == "[" + StableStringify(x) + "," + StableStringify(y) + "]"
  {
    hide Numeral;
    EmptyText();
    ListText(x, y);
  }

  lemma EmptyText()
    ensures StableStringify(Arr([])) == "[]" && StableStringify(Obj([])) == "{}"
  {
    assert "[" + "" + "]" == "[]" && "{" + "" + "}" == "{}";
  }

  lemma ListText(x: Json, y: Json)
    ensures StableStringify(Arr([x])) == "[" + StableStringify(x) + "]"
    ensures StableStringify(Arr([x, y])) == "[" + StableStringify(x) + "," + StableStringify(y) + "]"
  {
    hide StableStringify;
    ItemsText([x]);
    ItemsText([x, y]);
    var one, two := ItemTexts([x], Arr([x])), ItemTexts([x, y], Arr([x, y]));
    assert one == [StableStringify(x)] && two == [StableStringify(x), StableStringify(y)];
    assert two[1..] == [StableStringify(y)];
    assert "[" + (StableStringify(x) + "," + StableStringify(y)) + "]"
        == "[" + StableStringify(x) + "," + StableStringify(y) + "]";
  }

  lemma ItemsText(items: seq<Json>)
    ensures StableStringify(Arr(items)) == "[" + Commas(ItemTexts(items, Arr(items))) + "]"
  {}

  /**
   Members are written in the order of their keys, character by character, wherever they stood: the
   key as a string, a colon, and the value.
   */
  lemma MembersAreOrdered(p: string, x: char, a: string, y: char, b: string, v: Json, w: Json)
    requires x < y
    ensures var first, second := Entry(p + [x] + a, v), Entry(p + [y] + b, w);
            var text := "{" + StringText(first.key) + ":" + StableStringify(v) + ","
              + StringText(second.key) + ":" + StableStringify(w) + "}";
            StableStringify(Obj([first, second])) == text && StableStringify(Obj([second, first])) == text
  {
    hide StableStringify, StringText, SortByKey, Less;
    var first, second := Entry(p + [x] + a, v), Entry(p + [y] + b, w);
    LessIsByCharacter(p, x, a, y, b);
    SortedPair(first, second);
    PairText(Obj([first, second]), first, second);
    PairText(Obj([second, first]), first, second);
  }

  lemma SortedPair(first: Entry, second: Entry)
    requires Less(first.key, second.key) && !Less(second.key, first.key)
    ensures SortByKey([first, second]) == [first, second] && SortByKey([second, first]) == [first, second]
  {
    hide Less;
    assert [first, second][1..] == [second] && [second, first][1..] == [first];
    assert [first][1..] == [] && [second][1..] == [];
    assert SortByKey([second]) == [second] && SortByKey([first]) == [first];
  }

  lemma PairText(v: Json, first: Entry, second: Entry)
    requires v.Obj? && SortByKey(v.entries) == [first, second]
    ensures StableStringify(v) == "{" + StringText(first.key) + ":" + StableStringify(first.value) + ","
              + StringText(second.key) + ":" + StableStringify(second.value) + "}"
  {
    hide StableStringify, StringText, SortByKey;
    ObjectText(v);
    var texts := MemberTexts([first, second], v);
    var m := MemberText(first.key, StableStringify(first.value));
    var n := MemberText(second.key, StableStringify(second.value));
    assert texts == [m, n] && texts[1..] == [n];
    assert Commas(texts) == m + "," + n;
    assert "{" + (m + "," + n) + "}" == "{" + m + "," + n + "}";
  }

  lemma OwnPrintsWell(v: Json)
    requires WellFormed(v)
    ensures PrintsWell(JsonLib(StableStringify, Decode), v)
  {
    hide StableStringify, Decode, WellFormed, ReadsBack;
    TextHasNoBreak(v);
    if v.Obj? {
      ObjectBraces(v);
    }
    forall ws: string | ws == "" || ws == "\n" ensures ReadsBack(JsonLib(StableStringify, Decode), v, ws) {
      OwnReadsBack(v, ws);
    }
  }

  lemma OwnRejectsComments()
    ensures RejectsComments(JsonLib(StableStringify, Decode))
  {}

  /** The canonical printer with its decoder meets every assumption made of the JSON library. */
  lemma OwnLibraryIsLawful()
    ensures Lawful(JsonLib(StableStringify, Decode))
  {
    hide StableStringify, Decode, WellFormed, PrintsWell, RejectsComments;
    OwnRejectsComments();
    forall v: Json | WellFormed(v) ensures PrintsWell(JsonLib(StableStringify, Decode), v) {
      OwnPrintsWell(v);
    }
  }
}
