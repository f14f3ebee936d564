/**
 Bounded capture of a stream: the first half and the last half of the byte budget are kept
 and the number of bytes dropped in between is counted.
 */
module Capture {
  import opened Text
  import Decimal

  const STREAM_BYTES: nat := 1024 * 1024
  const HALF: nat := STREAM_BYTES / 2

  // ---- Byte offsets into text ---------------------------------------------------------------

  /** `str::is_char_boundary`. */
  predicate IsBoundary(s: string, offset: nat) {
    offset == 0 || (s != "" && CharSize(s[0]) <= offset && IsBoundary(s[1..], offset - CharSize(s[0])))
  }

  /** Number of characters before a byte offset that is a boundary. */
  function CharsBefore(s: string, offset: nat): (k: nat)
    requires IsBoundary(s, offset)
    ensures k <= |s| && Size(s[..k]) == offset
  {
    if offset == 0 then 0
    else
      var k := CharsBefore(s[1..], offset - CharSize(s[0]));
      assert s[..k + 1][1..] == s[1..][..k];
      k + 1
  }

  lemma {:induction false} BoundaryAt(s: string, k: nat)
    requires k <= |s|
    ensures IsBoundary(s, Size(s[..k])) && CharsBefore(s, Size(s[..k])) == k
  {
    if k > 0 {
      BoundaryAt(s[1..], k - 1);
      assert s[..k][1..] == s[1..][..k - 1];
    }
  }

  lemma SizeOfParts(s: string, k: nat)
    requires k <= |s|
    ensures Size(s[..k]) + Size(s[k..]) == Size(s)
  {
    assert s[..k] + s[k..] == s;
    SizeConcat(s[..k], s[k..]);
  }

  lemma SizeGrows(s: string, j: nat, k: nat)
    requires j < k <= |s|
    ensures Size(s[..j]) < Size(s[..k])
    ensures Size(s[k..]) < Size(s[j..])
  {
    SizeOfParts(s[..k], j);
    assert s[..k][..j] == s[..j];
    SizeOfParts(s, j);
    SizeOfParts(s, k);
  }

  // ---- Longest prefix and suffix within a budget --------------------------------------------

  /** `s[..k]` is the longest prefix of at most `max` bytes. */
  ghost predicate IsFittingPrefix(s: string, max: nat, k: nat) {
    k <= |s| && Size(s[..k]) <= max && (k < |s| ==> Size(s[..k + 1]) > max)
  }

  /** `s[k..]` is the longest suffix of at most `max` bytes. */
  ghost predicate IsFittingSuffix(s: string, max: nat, k: nat) {
    k <= |s| && Size(s[k..]) <= max && (k > 0 ==> Size(s[k - 1..]) > max)
  }

  function Fit(s: string, max: nat): (k: nat)
    ensures k <= |s| && IsFittingPrefix(s, max, k)
  {
    if s == "" || CharSize(s[0]) > max then
      assert s != "" ==> s[..1][0] == s[0];
      0
    else
      var k := Fit(s[1..], max - CharSize(s[0]));
      assert s[..k + 1][1..] == s[1..][..k];
      assert k + 1 < |s| ==> s[..k + 2][1..] == s[1..][..k + 1];
      k + 1
  }

  /** Characters dropped from the front so that what remains fits. */
  function Drop(s: string, max: nat): (k: nat)
    ensures k <= |s| && IsFittingSuffix(s, max, k)
  {
    if Size(s) <= max then 0
    else
      var k := Drop(s[1..], max);
      assert s[k + 1..] == s[1..][k..];
      assert k > 0 ==> s[k..] == s[1..][k - 1..];
      k + 1
  }

  lemma FittingPrefixUnique(s: string, max: nat, j: nat, k: nat)
    requires IsFittingPrefix(s, max, j) && IsFittingPrefix(s, max, k)
    ensures j == k
  {
    if j + 1 < k { SizeGrows(s, j + 1, k); }
    if k + 1 < j { SizeGrows(s, k + 1, j); }
  }

  lemma FittingSuffixUnique(s: string, max: nat, j: nat, k: nat)
    requires IsFittingSuffix(s, max, j) && IsFittingSuffix(s, max, k)
    ensures j == k
  {
    if j < k - 1 { SizeGrows(s, j, k - 1); }
    if k < j - 1 { SizeGrows(s, k, j - 1); }
  }

  // ---- The capture as a function of everything appended -------------------------------------

  function HeadOf(all: string): string { all[..Fit(all, HALF)] }

  function Overflow(all: string): string { all[Fit(all, HALF)..] }

  function TailOf(all: string): string { Overflow(all)[Drop(Overflow(all), HALF)..] }

  function DroppedOf(all: string): string { Overflow(all)[..Drop(Overflow(all), HALF)] }

  function OmittedOf(all: string): nat { Size(DroppedOf(all)) }

  function TextOf(all: string): string {
    if OmittedOf(all) == 0 then HeadOf(all) + TailOf(all)
    else HeadOf(all) + Notice(OmittedOf(all)) + TailOf(all)
  }

  function Notice(omitted: nat): string {
    "\n... [" + Decimal.Numeral(omitted) + " bytes truncated] ...\n"
  }

  /** Nothing is invented, reordered or lost without being counted. */
  lemma CaptureConserves(all: string)
    ensures HeadOf(all) + DroppedOf(all) + TailOf(all) == all
    ensures Size(HeadOf(all)) + OmittedOf(all) + Size(TailOf(all)) == Size(all)
    ensures Size(HeadOf(all)) <= HALF && Size(TailOf(all)) <= HALF
    ensures OmittedOf(all) == 0 ==> TextOf(all) == all
  {
    hide Size, Fit, Drop, Notice;
    SizeOfParts(all, Fit(all, HALF));
    SizeOfParts(Overflow(all), Drop(Overflow(all), HALF));
  }

  lemma SizeOfOne(c: char)
    ensures Size([c]) == CharSize(c)
  {
    assert [c][1..] == "";
  }

  /**
   Text is omitted only beyond the budget: never at or below half of it, always above all of it,
   and otherwise only when characters straddling the cut waste at most three bytes.
   */
  lemma OmissionThreshold(all: string)
    ensures Size(all) <= HALF ==> TextOf(all) == all && OmittedOf(all) == 0
    ensures Size(all) > STREAM_BYTES ==> OmittedOf(all) > 0
    ensures OmittedOf(all) > 0 ==> Size(all) > STREAM_BYTES - 3
  {
    hide Size, Fit, Drop, IsFittingPrefix, IsFittingSuffix;
    CaptureConserves(all);
    HeadIsNearlyFull(all);
    TailIsFull(all);
    hide TextOf, OmittedOf, HeadOf, TailOf, Overflow;
  }

  /** The head leaves at most three bytes of its half unused once anything overflows. */
  lemma HeadIsNearlyFull(all: string)
    ensures Overflow(all) == "" ==> HeadOf(all) == all
    ensures Overflow(all) != "" ==> Size(HeadOf(all)) > HALF - 4
    ensures Overflow(all) != "" ==> Size(all) > HALF
  {
    var k := Fit(all, HALF);
    if k < |all| {
      assert Size(all[..k + 1]) > HALF;
      hide Size, Fit, Drop, IsFittingPrefix, IsFittingSuffix;
      assert all[..k + 1] == all[..k] + [all[k]];
      SizeConcat(all[..k], [all[k]]);
      SizeOfOne(all[k]);
      SizeOfParts(all, k + 1);
    } else {
      assert all[..|all|] == all;
    }
  }

  lemma TailIsFull(all: string)
    ensures OmittedOf(all) > 0 <==> Size(Overflow(all)) > HALF
    ensures Size(HeadOf(all)) + Size(Overflow(all)) == Size(all)
  {
    var over := Overflow(all);
    SizeOfParts(all, Fit(all, HALF));
    SizeOfParts(over, Drop(over, HALF));
    if Drop(over, HALF) > 0 {
      SizeGrows(over, 0, Drop(over, HALF));
    }
    assert over[0..] == over;
  }

  /** Once something has spilled, the tail is never empty again. */
  lemma SpillIsVisible(all: string)
    ensures (TailOf(all) == "" && OmittedOf(all) == 0) <==> Overflow(all) == ""
  {
    var over := Overflow(all);
    if over != "" {
      assert over[|over| - 1..] == [over[|over| - 1]];
      SizeOfOne(over[|over| - 1]);
    }
  }

  // ---- What a reader of the captured text sees ----------------------------------------------

  /**
   A split of the input in three: the first part is as long as fits into 512 KiB, the last one is as
   long as fits into another 512 KiB, and something is left between them.
   */
  ghost predicate IsSplit(h: string, d: string, t: string) {
    && d != ""
    && Size(h) <= 524_288 < Size(h + [d[0]])
    && Size(t) <= 524_288 < Size([d[|d| - 1]] + t)
  }

  /** With a middle left out the text is the first part, one line that counts the bytes left out, and the last part. */
  lemma SplitIsShown(h: string, d: string, t: string)
    requires IsSplit(h, d, t)
    ensures TextOf(h + d + t) == h + "\n... [" + Decimal.Numeral(Size(d)) + " bytes truncated] ...\n" + t
  {
    hide Size, HeadOf, TailOf, DroppedOf, Notice;
    PartsOfSplit(h, d, t);
    SizeIsPositive(d);
    NoticeText(Size(d));
    assert OmittedOf(h + d + t) == Size(d);
  }

  lemma SizeIsPositive(s: string)
    ensures Size(s) == 0 <==> s == ""
  {}

  lemma NoticeText(n: nat)
    ensures Notice(n) == "\n... [" + Decimal.Numeral(n) + " bytes truncated] ...\n"
  {}

  lemma PartsOfSplit(h: string, d: string, t: string)
    requires IsSplit(h, d, t)
    ensures HeadOf(h + d + t) == h && DroppedOf(h + d + t) == d && TailOf(h + d + t) == t
  {
    hide Size, Fit, Drop;
    var all, over := h + d + t, d + t;
    assert all == h + over && over[0] == d[0];
    FitsBefore(h, over);
    assert all[..|h|] == h && all[|h|..] == over;
    FitsBehind(d, t);
    assert over[..|d|] == d && over[|d|..] == t;
  }

  lemma FitsBefore(h: string, rest: string)
    requires rest != "" && Size(h) <= HALF < Size(h + [rest[0]])
    ensures Fit(h + rest, HALF) == |h|
  {
    var all := h + rest;
    assert all[..|h|] == h && all[..|h| + 1] == h + [rest[0]];
    hide Size, Fit;
    FittingPrefixUnique(all, HALF, Fit(all, HALF), |h|);
  }

  lemma FitsBehind(d: string, t: string)
    requires d != "" && Size(t) <= HALF < Size([d[|d| - 1]] + t)
    ensures Drop(d + t, HALF) == |d|
  {
    var all := d + t;
    assert all[|d|..] == t && all[|d| - 1..] == [d[|d| - 1]] + t;
    hide Size, Drop;
    FittingSuffixUnique(all, HALF, Drop(all, HALF), |d|);
  }

  /** Every input either is shown whole, or has such a split. */
  lemma WholeOrSplit(all: string)
    ensures if DroppedOf(all) == "" then TextOf(all) == all
            else HeadOf(all) + DroppedOf(all) + TailOf(all) == all && IsSplit(HeadOf(all), DroppedOf(all), TailOf(all))
    ensures Size(all) > STREAM_BYTES ==> DroppedOf(all) != ""
  {
    CaptureConserves(all);
    OmissionThreshold(all);
    SizeIsPositive(DroppedOf(all));
    if DroppedOf(all) != "" {
      PartsAreSplit(all);
    }
    hide Size, HeadOf, TailOf, DroppedOf, Notice, IsSplit;
  }

  lemma PartsAreSplit(all: string)
    requires DroppedOf(all) != ""
    ensures IsSplit(HeadOf(all), DroppedOf(all), TailOf(all))
  {
    hide Size, Fit, Drop;
    var over, d := Overflow(all), DroppedOf(all);
    var k, n := Fit(all, HALF), Drop(over, HALF);
    assert all[..k + 1] == HeadOf(all) + [d[0]];
    assert over[n - 1..] == [d[|d| - 1]] + TailOf(all);
  }

  /** The text shows these bytes: whole, or with the middle of a split counted instead of shown. */
  ghost predicate Shows(text: string, all: string) {
    && (text == all || exists h, d, t :: all == h + d + t && IsSplit(h, d, t))
    && (forall h, d, t | IsSplit(h, d, t) ::
          all == h + d + t ==>
            text == h + "\n... [" + Decimal.Numeral(Size(d)) + " bytes truncated] ...\n" + t)
  }

  lemma TextShows(all: string)
    ensures Shows(TextOf(all), all)
  {
    hide TextOf, HeadOf, TailOf, DroppedOf, IsSplit, Size;
    WholeOrSplit(all);
    forall h, d, t | IsSplit(h, d, t) && all == h + d + t
      ensures TextOf(all) == h + "\n... [" + Decimal.Numeral(Size(d)) + " bytes truncated] ...\n" + t
    {
      SplitIsShown(h, d, t);
    }
  }

  lemma FitOfConcat(a: string, b: string, max: nat)
    requires Size(a) <= max
    ensures Fit(a + b, max) == |a| + Fit(b, max - Size(a))
  {
    hide Size, Fit, CharSize;
    var s, k := a + b, Fit(b, max - Size(a));
    assert s[..|a| + k] == a + b[..k];
    SizeConcat(a, b[..k]);
    if k < |b| {
      assert s[..|a| + k + 1] == a + b[..k + 1];
      SizeConcat(a, b[..k + 1]);
    }
    FittingPrefixUnique(s, max, Fit(s, max), |a| + k);
  }

  lemma FitIsSettled(a: string, b: string, max: nat)
    requires Fit(a, max) < |a|
    ensures Fit(a + b, max) == Fit(a, max)
  {
    var k := Fit(a, max);
    assert (a + b)[..k] == a[..k] && (a + b)[..k + 1] == a[..k + 1];
    FittingPrefixUnique(a + b, max, Fit(a + b, max), k);
  }

  /** Dropping early and dropping late leave the same suffix. */
  lemma DropInTwoSteps(a: string, b: string, max: nat)
    ensures var kept := a[Drop(a, max)..] + b;
            Drop(a + b, max) == Drop(a, max) + Drop(kept, max)
  {
    var d := Drop(a, max);
    var kept := a[d..] + b;
    var e := Drop(kept, max);
    var s := a + b;
    assert IsFittingSuffix(a, max, d) && IsFittingSuffix(kept, max, e);
    SuffixOfConcat(a, b, max, d, e);
    hide Size, Drop, IsFittingSuffix;
    FittingSuffixUnique(s, max, Drop(s, max), d + e);
  }

  lemma SuffixOfConcat(a: string, b: string, max: nat, d: nat, e: nat)
    requires IsFittingSuffix(a, max, d) && IsFittingSuffix(a[d..] + b, max, e)
    ensures IsFittingSuffix(a + b, max, d + e)
  {
    hide Size;
    var kept := a[d..] + b;
    var s := a + b;
    assert s[d + e..] == kept[e..];
    if e > 0 {
      assert s[d + e - 1..] == kept[e - 1..];
    } else if d > 0 {
      assert s[d - 1..] == a[d - 1..] + b;
      SizeConcat(a[d - 1..], b);
    }
  }

  // ---- The operations of the program --------------------------------------------------------

  method Tail(text: string, bytes: nat) returns (r: string)
    ensures r == text[Drop(text, bytes)..]
  {
    hide Drop, Size;
    var start: nat := if Size(text) >= bytes then Size(text) - bytes else 0;
    ghost var first := start;
    assert text[..|text|] == text;
    BoundaryAt(text, |text|);
    while !IsBoundary(text, start)
      invariant first <= start <= Size(text)
      invariant forall i :: first <= i < start ==> !IsBoundary(text, i)
      decreases Size(text) - start
    {
      start := start + 1;
    }
    var k := CharsBefore(text, start);
    r := text[k..];
    SizeOfParts(text, k);
    if k > 0 {
      BoundaryAt(text, k - 1);
      SizeGrows(text, k - 1, k);
      SizeOfParts(text, k - 1);
    }
    FittingSuffixUnique(text, bytes, k, Drop(text, bytes));
  }

  /** Appends to a log and cuts it from the front; returns the new log and the bytes removed. */
  method AppendTail(log: string, text: string, max: nat) returns (rest: string, removed: nat)
    ensures rest == (log + text)[Drop(log + text, max)..]
    ensures removed == Size((log + text)[..Drop(log + text, max)])
  {
    var whole := log + text;
    rest := Tail(whole, max);
    SizeOfParts(whole, Drop(whole, max));
    removed := Size(whole) - Size(rest);
  }

  class Capture {
    var head: string
    var tail: string
    var omitted: nat
    /** Everything appended so far. */
    ghost var all: string

    ghost predicate Valid()
      reads this
    {
      head == HeadOf(all) && tail == TailOf(all) && omitted == OmittedOf(all)
    }

    constructor ()
      ensures Valid() && all == ""
    {
      head, tail, omitted, all := "", "", 0, "";
    }

    method Append(text: string)
      requires Valid()
      modifies this
      ensures Valid() && all == old(all) + text
    {
      hide Size, Fit, Drop, IsFittingPrefix, IsFittingSuffix;
      ghost var before := all;
      SpillIsVisible(before);
      CaptureConserves(before);
      var end: nat := 0;
      if tail == "" && omitted == 0 {
        var room: nat := HALF - Size(head);
        end := if room <= Size(text) then room else Size(text);
      }
      var k := FloorBoundary(text, end);
      AppendToCapture(before, text, k);
      head := head + text[..k];
      var rest, removed := AppendTail(tail, text[k..], HALF);
      tail := rest;
      omitted := omitted + removed;
      all := all + text;
    }

    method Text() returns (r: string)
      requires Valid()
      ensures r == TextOf(all) && Shows(r, all)
    {
      TextShows(all);
      if omitted == 0 {
        r := head + tail;
      } else {
        r := head + Notice(omitted) + tail;
      }
    }
  }

  /** The loop that moves a byte offset down to a character boundary, as a character count. */
  method FloorBoundary(text: string, limit: nat) returns (k: nat)
    requires limit <= Size(text)
    ensures k == Fit(text, limit)
  {
    var end: nat := limit;
    while !IsBoundary(text, end)
      invariant end <= limit
      invariant forall i: nat :: end < i <= limit ==> !IsBoundary(text, i)
      decreases end
    {
      end := end - 1;
    }
    k := CharsBefore(text, end);
    if k < |text| {
      BoundaryAt(text, k + 1);
      SizeGrows(text, k, k + 1);
    }
    FittingPrefixUnique(text, limit, k, Fit(text, limit));
  }

  /** How much of the next text still goes to the head. */
  function Room(before: string): nat {
    if Overflow(before) == "" && Size(before) <= HALF then HALF - Size(before) else 0
  }

  lemma FitAll(text: string, max: nat)
    requires Size(text) <= max
    ensures Fit(text, max) == |text|
  {
    assert text[..|text|] == text;
    FittingPrefixUnique(text, max, |text|, Fit(text, max));
  }

  lemma NothingFits(text: string)
    ensures Fit(text, 0) == 0
  {}

  /** One append moves the head of `before` to the head of `before + text`. */
  lemma AppendToHead(before: string, text: string, k: nat)
    requires Overflow(before) == "" ==> Size(before) <= HALF
    requires k == Fit(text, if Room(before) <= Size(text) then Room(before) else Size(text))
    ensures HeadOf(before + text) == HeadOf(before) + text[..k]
    ensures Overflow(before + text) == Overflow(before) + text[k..]
  {
    hide Size, Fit, Drop, IsFittingPrefix, IsFittingSuffix;
    var all := before + text;
    if Overflow(before) == "" {
      if Room(before) > Size(text) {
        FitAll(text, Room(before));
        FitAll(text, Size(text));
      }
      FitOfConcat(before, text, HALF);
      assert Fit(before, HALF) == |before|;
      assert Fit(all, HALF) == |before| + k;
    } else {
      FitIsSettled(before, text, HALF);
      NothingFits(text);
    }
  }

  /** One append moves the capture of `before` to the capture of `before + text`. */
  lemma {:induction false} AppendToCapture(before: string, text: string, k: nat)
    requires Overflow(before) == "" ==> Size(before) <= HALF
    requires k == Fit(text, if Room(before) <= Size(text) then Room(before) else Size(text))
    ensures HeadOf(before + text) == HeadOf(before) + text[..k]
    ensures var kept := TailOf(before) + text[k..];
            && TailOf(before + text) == kept[Drop(kept, HALF)..]
            && OmittedOf(before + text) == OmittedOf(before) + Size(kept[..Drop(kept, HALF)])
  {
    hide Size, Fit, Drop, IsFittingPrefix, IsFittingSuffix;
    AppendToHead(before, text, k);
    var over, more := Overflow(before), text[k..];
    DropInTwoSteps(over, more, HALF);
    var d := Drop(over, HALF);
    var kept := over[d..] + more;
    var e := Drop(kept, HALF);
    assert (over + more)[d + e..] == kept[e..];
    assert (over + more)[..d + e] == over[..d] + kept[..e];
    SizeConcat(over[..d], kept[..e]);
  }
}
