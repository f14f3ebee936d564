/** Splitting a URL at its first `://`. */
module Urls {
  /** Everything through the first `://`, or nothing. */
  function Head(s: string): string {
    if !HasScheme(s) then ""
    else if "://" <= s then "://"
    else assert HasScheme(s[1..]) by { SchemeInRest(s); } [s[0]] + Head(s[1..])
  }

  predicate SchemeAt(s: string, k: nat) { k + 3 <= |s| && s[k] == ':' && s[k + 1] == '/' && s[k + 2] == '/' }

  predicate HasScheme(s: string) { exists k | 0 <= k < |s| :: SchemeAt(s, k) }

  lemma SchemeAtStart(s: string)
    ensures SchemeAt(s, 0) <==> "://" <= s
  {}

  lemma SchemeInRest(s: string)
    requires HasScheme(s) && !("://" <= s)
    ensures HasScheme(s[1..])
  {
    var k :| 0 <= k < |s| && SchemeAt(s, k);
    SchemeAtStart(s);
    assert SchemeAt(s[1..], k - 1);
  }

  lemma {:induction false} HeadIsPrefix(s: string)
    ensures Head(s) <= s
  {
    if HasScheme(s) && !("://" <= s) {
      SchemeInRest(s);
      HeadIsPrefix(s[1..]);
    }
  }

  function Rest(s: string): string {
    HeadIsPrefix(s);
    s[|Head(s)|..]
  }

  function SchemeOf(s: string): string {
    if |Head(s)| >= 3 then Head(s)[..|Head(s)| - 3] else ""
  }

  /** The head ends at the first place where `://` stands. */
  lemma {:induction false} HeadIs(s: string, k: nat)
    requires SchemeAt(s, k) && forall j | 0 <= j < k :: !SchemeAt(s, j)
    ensures HasScheme(s) && Head(s) == s[..k + 3]
  {
    hide SchemeAt;
    FitsScheme(s, k);
    SchemeAtStart(s);
    if k == 0 {
      assert s[..3] == "://";
    } else {
      SchemeShift(s);
      HeadIs(s[1..], k - 1);
      assert [s[0]] + s[1..][..k + 2] == s[..k + 3];
    }
  }

  lemma FitsScheme(s: string, k: nat)
    requires SchemeAt(s, k)
    ensures k + 3 <= |s|
  {}

  lemma SchemeShift(s: string)
    requires s != ""
    ensures forall j: nat :: SchemeAt(s[1..], j) <==> SchemeAt(s, j + 1)
  {}

  lemma {:induction false} FirstScheme(s: string) returns (k: nat)
    requires HasScheme(s)
    ensures SchemeAt(s, k) && forall j | 0 <= j < k :: !SchemeAt(s, j)
  {
    hide SchemeAt;
    SchemeAtStart(s);
    if "://" <= s {
      k := 0;
    } else {
      SchemeInRest(s);
      SchemeShift(s);
      var i := FirstScheme(s[1..]);
      k := i + 1;
      forall j | 0 <= j < k ensures !SchemeAt(s, j) {
        assert j > 0 ==> !SchemeAt(s[1..], j - 1);
      }
    }
  }

  lemma HeadKept(s: string, t: string)
    requires HasScheme(s)
    ensures HasScheme(Head(s) + t) && Head(Head(s) + t) == Head(s)
  {
    var k := FirstScheme(s);
    HeadIs(s, k);
    var u := Head(s) + t;
    assert forall j | 0 <= j < k + 3 :: u[j] == s[j];
    forall j | 0 <= j < k ensures !SchemeAt(u, j) {
      assert !SchemeAt(s, j);
    }
    HeadIs(u, k);
  }

  lemma {:induction false} HeadHasColon(s: string)
    requires HasScheme(s)
    ensures |Head(s)| >= 3 && Head(s)[|Head(s)| - 3..] == "://"
    ensures !("://" <= s) ==> |Head(s)| >= 4
  {
    if !("://" <= s) {
      SchemeInRest(s);
      HeadHasColon(s[1..]);
    }
  }

  lemma {:induction false} HeadOfCons(c: char, s: string)
    requires c != ':'
    ensures HasScheme([c] + s) == HasScheme(s)
    ensures Head([c] + s) == if HasScheme(s) then [c] + Head(s) else ""
  {
    var u := [c] + s;
    assert u[1..] == s;
    assert !("://" <= u) by { assert u[0] != "://"[0]; }
    if HasScheme(u) {
      SchemeInRest(u);
    }
    if HasScheme(s) {
      var k :| 0 <= k < |s| && SchemeAt(s, k);
      assert SchemeAt(u, k + 1);
    }
  }

  lemma NoHead(s: string)
    requires !HasScheme(s)
    ensures Head(s) == "" && Rest(s) == s
  {}

  lemma {:induction false} HeadSnoc(s: string, c: char)
    requires c != '/'
    ensures HasScheme(s + [c]) == HasScheme(s) && Head(s + [c]) == Head(s)
  {
    var u := s + [c];
    if HasScheme(s) {
      var k :| 0 <= k < |s| && SchemeAt(s, k);
      assert SchemeAt(u, k);
      if "://" <= s {
        assert u[..3] == s[..3];
      } else {
        SchemeInRest(s);
        assert u[1..] == s[1..] + [c];
        HeadSnoc(s[1..], c);
        assert |s| >= 3 && u[..3] == s[..3];
      }
    } else if HasScheme(u) {
      var k :| 0 <= k < |u| && SchemeAt(u, k);
      assert u[k + 2] == '/';
      assert SchemeAt(s, k);
    }
  }

  /** A scheme without colons is split off again. */
  lemma SplitJoined(scheme: string, rest: string)
    requires ':' !in scheme
    ensures var s := scheme + "://" + rest; HasScheme(s) && SchemeOf(s) == scheme && Rest(s) == rest
  {
    hide Head;
    var s := scheme + "://" + rest;
    var k := |scheme|;
    assert SchemeAt(s, k);
    forall j | 0 <= j < k ensures !SchemeAt(s, j) {
      assert s[j] == scheme[j];
    }
    HeadIs(s, k);
    assert s[..k + 3] == scheme + "://";
  }
}
