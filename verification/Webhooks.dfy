/** Webhook secrets: hidden when the configuration is shown, restored when it comes back. */
module Webhooks {
  import opened Wrappers
  import opened Text
  import opened Urls

  const MASK := "***"

  // ---- Parts of a URL -----------------------------------------------------------------------

  predicate EndsAuthority(c: char) { c == '/' || c == '?' || c == '#' }

  function Authority(r: string): string {
    if r == "" || EndsAuthority(r[0]) then "" else [r[0]] + Authority(r[1..])
  }

  function Tail(r: string): string {
    if r == "" || EndsAuthority(r[0]) then r else Tail(r[1..])
  }

  /** What follows the last `@`. */
  function Host(authority: string): string {
    if '@' in authority then Host(authority[1..]) else authority
  }

  /** The path, with any query or fragment hidden. */
  function HideQuery(tail: string): string {
    if tail == "" then "" else if tail[0] == '?' || tail[0] == '#' then "?***" else [tail[0]] + HideQuery(tail[1..])
  }

  function HideUser(authority: string): string {
    if '@' in authority then "***@" + Host(authority) else authority
  }

  function HideRest(r: string): string { HideUser(Authority(r)) + HideQuery(Tail(r)) }

  /** The URL with its user information and query hidden. */
  function MaskUrl(url: string): string { Head(url) + HideRest(Rest(url)) }

  function Origin(url: string): string { ToLower(SchemeOf(url)) + "://" + ToLower(Host(Authority(Rest(url)))) }

  /** `scheme://host:port` in lower case. */
  function UrlOrigin(url: string): string { Origin(Trim(url)) }

  // ---- Masking is idempotent ----------------------------------------------------------------

  predicate IsAuthority(a: string) { forall i | 0 <= i < |a| :: !EndsAuthority(a[i]) }

  lemma {:induction false} SplitRest(r: string)
    ensures Authority(r) + Tail(r) == r && IsAuthority(Authority(r))
    ensures Tail(r) == "" || EndsAuthority(Tail(r)[0])
  {
    if r != "" && !EndsAuthority(r[0]) {
      SplitRest(r[1..]);
    }
  }

  lemma {:induction false} JoinRest(a: string, t: string)
    requires IsAuthority(a) && (t == "" || EndsAuthority(t[0]))
    ensures Authority(a + t) == a && Tail(a + t) == t
  {
    if a == "" {
      assert a + t == t;
    } else {
      assert (a + t)[1..] == a[1..] + t;
      JoinRest(a[1..], t);
    }
  }

  lemma {:induction false} HostShape(a: string)
    ensures '@' !in Host(a) && |Host(a)| <= |a| && Host(a) == a[|a| - |Host(a)|..]
  {
    if '@' in a {
      HostShape(a[1..]);
    }
  }

  lemma {:induction false} HostAfter(prefix: string, h: string)
    requires '@' !in h
    ensures Host(prefix + "@" + h) == h
    decreases |prefix|
  {
    var a := prefix + "@" + h;
    assert a[|prefix|] == '@';
    if prefix == "" {
      assert a[1..] == h;
    } else {
      assert a[1..] == prefix[1..] + "@" + h;
      HostAfter(prefix[1..], h);
    }
  }

  lemma HideUserFacts(a: string)
    requires IsAuthority(a)
    ensures IsAuthority(HideUser(a)) && Host(HideUser(a)) == Host(a) && HideUser(HideUser(a)) == HideUser(a)
  {
    if '@' in a {
      HostShape(a);
      HostAfter("***", Host(a));
      assert "***@" + Host(a) == "***" + "@" + Host(a);
      assert HideUser(a)[3] == '@';
    }
  }

  lemma {:induction false} HideQueryTwice(t: string)
    ensures HideQuery(HideQuery(t)) == HideQuery(t)
    ensures t != "" && EndsAuthority(t[0]) ==> HideQuery(t) != "" && EndsAuthority(HideQuery(t)[0])
  {
    if t != "" && t[0] != '?' && t[0] != '#' {
      HideQueryTwice(t[1..]);
    }
  }

  lemma HideRestFacts(r: string)
    ensures Authority(HideRest(r)) == HideUser(Authority(r))
    ensures HideRest(HideRest(r)) == HideRest(r)
    ensures Host(Authority(HideRest(r))) == Host(Authority(r))
  {
    hide Host, HideUser, HideQuery, Authority, Tail;
    SplitRest(r);
    HideUserFacts(Authority(r));
    HideQueryTwice(Tail(r));
    assert Tail(r) == "" ==> HideQuery(Tail(r)) == "" by { HideNothing(); }
    JoinRest(HideUser(Authority(r)), HideQuery(Tail(r)));
  }

  lemma HideNothing()
    ensures HideQuery("") == ""
  {}

  lemma {:induction false} HideQueryShape(t: string) returns (p: string)
    ensures p <= t && (HideQuery(t) == p || HideQuery(t) == p + "?***")
  {
    if t == "" {
      p := "";
    } else if t[0] == '?' || t[0] == '#' {
      p := "";
    } else {
      var q := HideQueryShape(t[1..]);
      p := [t[0]] + q;
    }
  }

  lemma NoSchemeInside(x: string, y: string, z: string, s: string, from: nat)
    requires x == "" || x == "***@"
    requires z == "" || z == "?***"
    requires from + |y| <= |s| && y == s[from..from + |y|] && !HasScheme(s)
    ensures !HasScheme(x + y + z)
  {
    var t := x + y + z;
    if HasScheme(t) {
      var k :| 0 <= k < |t| && SchemeAt(t, k);
      assert t[k] == ':' && t[k + 1] == '/' && t[k + 2] == '/';
      assert k >= |x| && k + 2 < |x| + |y|;
      var i := k - |x|;
      assert y[i] == ':' && y[i + 1] == '/' && y[i + 2] == '/';
      assert SchemeAt(s, from + i);
    }
  }

  lemma UserShape(a: string) returns (x: string, host: string)
    ensures HideUser(a) == x + host && (x == "" || x == "***@")
    ensures |host| <= |a| && host == a[|a| - |host|..]
  {
    HostShape(a);
    x := if '@' in a then "***@" else "";
    host := if '@' in a then Host(a) else a;
  }

  /** The hidden form is a piece of the text, with masks around it. */
  lemma HideRestShape(s: string) returns (x: string, y: string, z: string, from: nat)
    ensures HideRest(s) == x + y + z
    ensures (x == "" || x == "***@") && (z == "" || z == "?***")
    ensures from + |y| <= |s| && y == s[from..from + |y|]
  {
    hide HideQuery, HideUser, Authority, Tail, Host;
    var a, t := Authority(s), Tail(s);
    SplitRest(s);
    var host;
    x, host := UserShape(a);
    var p := HideQueryShape(t);
    z := if HideQuery(t) == p then "" else "?***";
    assert HideQuery(t) == p + z;
    y := host + p;
    from := |a| - |host|;
    PieceOf(s, a, t, host, p);
    assert (x + host) + (p + z) == x + y + z;
  }

  lemma PieceOf(s: string, a: string, t: string, host: string, p: string)
    requires s == a + t && |host| <= |a| && host == a[|a| - |host|..] && p <= t
    ensures var from := |a| - |host|; from + |host + p| <= |s| && host + p == s[from..from + |host + p|]
  {
    var from := |a| - |host|;
    assert p == t[..|p|];
    assert s[from..|a|] == host && s[|a|..|a| + |p|] == p;
  }

  lemma MaskAddsNoScheme(s: string)
    requires !HasScheme(s)
    ensures !HasScheme(MaskUrl(s)) && Rest(MaskUrl(s)) == MaskUrl(s) == HideRest(s) && Rest(s) == s
  {
    hide HideRest, HasScheme, Rest, Head;
    NoHead(s);
    var x, y, z, from := HideRestShape(s);
    NoSchemeInside(x, y, z, s, from);
    assert "" + HideRest(s) == HideRest(s);
    NoHead(MaskUrl(s));
  }

  /** The masked URL keeps its scheme, and hides exactly what it hides again. */
  lemma MaskSplits(s: string)
    ensures Head(MaskUrl(s)) == Head(s) && Rest(MaskUrl(s)) == HideRest(Rest(s))
  {
    hide HideRest;
    if HasScheme(s) {
      HeadKept(s, HideRest(Rest(s)));
    } else {
      MaskAddsNoScheme(s);
    }
  }

  /** Masking twice is masking once, so a masked URL is recognised. */
  lemma MaskUrlIsIdempotent(url: string)
    ensures MaskUrl(MaskUrl(url)) == MaskUrl(url)
  {
    hide HideRest, Rest, Head;
    MaskSplits(url);
    HideRestFacts(Rest(url));
  }

  lemma MaskKeepsUntrimmedOrigin(url: string)
    ensures Origin(MaskUrl(url)) == Origin(url)
  {
    hide HideRest, Rest, Head, Host, Authority;
    MaskSplits(url);
    HideRestFacts(Rest(url));
  }

  // ---- Masking commutes with trimming -------------------------------------------------------

  lemma AuthorityCons(c: char, r: string)
    requires !EndsAuthority(c)
    ensures Authority([c] + r) == [c] + Authority(r) && Tail([c] + r) == Tail(r)
  {
    assert ([c] + r)[1..] == r;
  }

  lemma HostCons(c: char, a: string)
    requires c != '@'
    ensures ('@' in [c] + a <==> '@' in a) && Host([c] + a) == if '@' in a then Host(a) else [c] + a
  {
    assert ([c] + a)[1..] == a;
    assert '@' in [c] + a <==> '@' in a;
  }

  lemma HideUserCons(c: char, a: string)
    requires c != '@'
    ensures HideUser([c] + a) == if '@' in a then HideUser(a) else [c] + HideUser(a)
  {
    hide Host;
    HostCons(c, a);
  }

  lemma HideRestParts(r: string, a: string, q: string)
    requires HideUser(Authority(r)) == a && HideQuery(Tail(r)) == q
    ensures HideRest(r) == a + q
  {}

  lemma HideRestOfCons(c: char, r: string)
    requires !EndsAuthority(c) && c != '@'
    ensures HideRest([c] + r) == HideRest(r) || HideRest([c] + r) == [c] + HideRest(r)
  {
    hide HideUser, Authority, Tail, HideQuery, HideRest;
    AuthorityCons(c, r);
    HideUserCons(c, Authority(r));
    var a, q := HideUser(Authority(r)), HideQuery(Tail(r));
    HideRestParts(r, a, q);
    HideRestParts([c] + r, if '@' in Authority(r) then a else [c] + a, q);
    assert [c] + a + q == [c] + (a + q);
  }

  lemma MaskOfCons(c: char, s: string)
    requires IsWhitespace(c)
    ensures MaskUrl([c] + s) == MaskUrl(s) || MaskUrl([c] + s) == [c] + MaskUrl(s)
  {
    hide HideRest, Head, IsWhitespace, HasScheme;
    WhitespaceFacts();
    HeadOfCons(c, s);
    HeadIsPrefix(s);
    if HasScheme(s) {
      assert ([c] + s)[|Head(s)| + 1..] == s[|Head(s)|..];
    } else {
      NoHead(s);
      HideRestOfCons(c, s);
      assert s[0..] == s;
    }
  }

  lemma TrimStartStep(c: char, s: string)
    requires IsWhitespace(c)
    ensures TrimStart([c] + s) == TrimStart(s)
  {
    assert ([c] + s)[1..] == s;
  }

  /** A text that starts without whitespace is masked to one that does. */
  lemma MaskStartsPlain(s: string)
    requires s != "" && !IsWhitespace(s[0])
    ensures MaskUrl(s) == "" || !IsWhitespace(MaskUrl(s)[0])
  {
    hide IsWhitespace, HasScheme;
    WhitespaceFacts();
    HeadIsPrefix(s);
    if Head(s) == "" {
      HideRestStarts(s);
    } else {
      assert MaskUrl(s)[0] == s[0];
    }
  }

  lemma HideRestStarts(r: string)
    requires r != "" && !IsWhitespace(r[0])
    ensures HideRest(r) == "" || !IsWhitespace(HideRest(r)[0])
  {
    hide IsWhitespace;
    WhitespaceFacts();
  }

  lemma {:induction false} AuthoritySnoc(r: string, c: char)
    requires !EndsAuthority(c)
    ensures Tail(r) == "" ==> Authority(r + [c]) == Authority(r) + [c] && Tail(r + [c]) == ""
    ensures Tail(r) != "" ==> Authority(r + [c]) == Authority(r) && Tail(r + [c]) == Tail(r) + [c]
  {
    if r == "" {
      assert r + [c] == [c] && [c][1..] == "";
    } else {
      assert (r + [c])[1..] == r[1..] + [c];
      if !EndsAuthority(r[0]) {
        AuthoritySnoc(r[1..], c);
      }
    }
  }

  lemma {:induction false} HideQuerySnoc(t: string, c: char)
    requires c != '?' && c != '#'
    ensures HideQuery(t + [c]) == HideQuery(t) || HideQuery(t + [c]) == HideQuery(t) + [c]
  {
    if t == "" {
      assert t + [c] == [c] && [c][1..] == "";
      assert HideQuery([c]) == [c] + HideQuery("");
    } else {
      assert (t + [c])[1..] == t[1..] + [c];
      HideQuerySnoc(t[1..], c);
    }
  }

  lemma {:induction false} HostSnoc(a: string, c: char)
    requires c != '@'
    ensures ('@' in a + [c] <==> '@' in a) && Host(a + [c]) == Host(a) + [c]
  {
    assert '@' in a + [c] <==> '@' in a;
    if '@' in a {
      assert (a + [c])[1..] == a[1..] + [c];
      HostSnoc(a[1..], c);
    }
  }

  lemma HideRestSnoc(r: string, c: char)
    requires !EndsAuthority(c) && c != '@'
    ensures HideRest(r + [c]) == HideRest(r) || HideRest(r + [c]) == HideRest(r) + [c]
  {
    hide Host, Authority, Tail, HideQuery;
    AuthoritySnoc(r, c);
    HostSnoc(Authority(r), c);
    HideQuerySnoc(Tail(r), c);
    HideNothing();
  }

  lemma MaskOfSnoc(s: string, c: char)
    requires IsWhitespace(c)
    ensures MaskUrl(s + [c]) == MaskUrl(s) || MaskUrl(s + [c]) == MaskUrl(s) + [c]
  {
    hide HideRest, Head, IsWhitespace, HasScheme;
    WhitespaceFacts();
    HeadSnoc(s, c);
    HeadIsPrefix(s);
    assert Rest(s + [c]) == Rest(s) + [c];
    HideRestSnoc(Rest(s), c);
  }

  lemma {:induction false} OriginOfPadded(s: string, t: string, a: string, b: string)
    requires s == a + t + b && (forall i | 0 <= i < |a| :: IsWhitespace(a[i]))
               && (forall i | 0 <= i < |b| :: IsWhitespace(b[i]))
    ensures Trim(MaskUrl(s)) == Trim(MaskUrl(t))
    decreases |a| + |b|
  {
    hide IsWhitespace, MaskUrl;
    if a != "" {
      var rest := a[1..] + t + b;
      assert s == [a[0]] + rest;
      MaskOfCons(a[0], rest);
      TrimStartStep(a[0], MaskUrl(rest));
      OriginOfPadded(rest, t, a[1..], b);
    } else if b != "" {
      var n := |b| - 1;
      var rest := a + t + b[..n];
      assert s == rest + [b[n]];
      MaskOfSnoc(rest, b[n]);
      TrimSnoc(MaskUrl(rest), b[n]);
      OriginOfPadded(rest, t, a, b[..n]);
    } else {
      assert s == t;
    }
  }

  lemma TrimSnoc(s: string, c: char)
    requires IsWhitespace(c)
    ensures Trim(s + [c]) == Trim(s)
  {
    hide IsWhitespace, Trim;
    TrimDropsLast(s + [c]);
    assert (s + [c])[..|s|] == s;
  }

  /** Whitespace around a text is what trimming removes. */
  lemma {:induction false} TrimRemoves(s: string) returns (a: string, b: string)
    ensures s == a + Trim(s) + b
    ensures (forall i | 0 <= i < |a| :: IsWhitespace(a[i])) && (forall i | 0 <= i < |b| :: IsWhitespace(b[i]))
    decreases |s|
  {
    hide IsWhitespace, TrimEnd;
    if s != "" && IsWhitespace(s[0]) {
      var a0;
      a0, b := TrimRemoves(s[1..]);
      a := [s[0]] + a0;
      assert s == [s[0]] + s[1..];
    } else {
      a := "";
      b := EndRemoves(s);
      assert TrimStart(s) == s;
    }
  }

  lemma {:induction false} EndRemoves(s: string) returns (b: string)
    ensures s == TrimEnd(s) + b && forall i | 0 <= i < |b| :: IsWhitespace(b[i])
  {
    hide IsWhitespace;
    if s != "" && IsWhitespace(s[|s| - 1]) {
      var c := EndRemoves(s[..|s| - 1]);
      b := c + [s[|s| - 1]];
    } else {
      b := "";
    }
  }

  lemma {:induction false} HideQueryEnd(t: string)
    requires t != ""
    ensures var h := HideQuery(t); h != "" && (h[|h| - 1] == t[|t| - 1] || h[|h| - 1] == '*')
  {
    if |t| > 1 && t[0] != '?' && t[0] != '#' {
      HideQueryEnd(t[1..]);
    } else if |t| == 1 {
      assert t[1..] == "";
    }
  }

  lemma HideRestEnd(r: string)
    requires r != ""
    ensures var h := HideRest(r); h != "" && (h[|h| - 1] == r[|r| - 1] || h[|h| - 1] == '*' || h[|h| - 1] == '@')
  {
    hide Host, Authority, Tail, HideQuery;
    SplitRest(r);
    HostShape(Authority(r));
    HideNothing();
    if Tail(r) != "" {
      HideQueryEnd(Tail(r));
    }
  }

  /** A text without whitespace at its ends is masked to one without. */
  lemma MaskIsTrimmed(s: string)
    requires s == "" || (!IsWhitespace(s[0]) && !IsWhitespace(s[|s| - 1]))
    ensures Trim(MaskUrl(s)) == MaskUrl(s)
  {
    hide IsWhitespace, HideRest, Head, Trim;
    WhitespaceFacts();
    HeadIsPrefix(s);
    HideNoRest();
    if s != "" {
      MaskStartsPlain(s);
      if Rest(s) != "" {
        HideRestEnd(Rest(s));
      }
    }
    var m := MaskUrl(s);
    TrimmedAlready(m);
  }

  lemma HideNoRest()
    ensures HideRest("") == ""
  {}

  /** Masking keeps the origin, so a masked URL still shows where the secrets belong. */
  lemma MaskKeepsOrigin(url: string)
    ensures UrlOrigin(MaskUrl(url)) == UrlOrigin(url)
  {
    hide IsWhitespace, MaskUrl, Trim, Origin;
    var t := Trim(url);
    var a, b := TrimRemoves(url);
    OriginOfPadded(url, t, a, b);
    TrimmedEnds(url);
    MaskIsTrimmed(t);
    MaskKeepsUntrimmedOrigin(t);
  }

  // ---- Sinks as they are stored and as they are sent ----------------------------------------

  datatype StoredHeader = StoredHeader(name: string, value: string)

  datatype StoredSink = StoredWebhook(url: string, headers: seq<StoredHeader>) | StoredOther(text: string)

  datatype StoredPipeline = StoredPipeline(id: string, sinks: seq<StoredSink>)

  /** JSON of a header, where a client may leave members out. */
  datatype Header = Header(name: Option<string>, value: Option<string>)

  datatype Sink = Webhook(url: Option<string>, headers: Option<seq<Header>>) | OtherSink(text: string)

  datatype Pipeline = Pipeline(id: Option<string>, sinks: Option<seq<Sink>>)

  function ShowHeader(h: StoredHeader): Header { Header(Some(h.name), Some(h.value)) }

  function ShowSink(s: StoredSink): Sink {
    match s
    case StoredWebhook(url, headers) => Webhook(Some(url), Some(ShowHeaders(headers)))
    case StoredOther(text) => OtherSink(text)
  }

  function ShowHeaders(headers: seq<StoredHeader>): (r: seq<Header>)
    ensures |r| == |headers|
  {
    seq(|headers|, i requires 0 <= i < |headers| => ShowHeader(headers[i]))
  }

  function ShowSinks(sinks: seq<StoredSink>): (r: seq<Sink>)
    ensures |r| == |sinks|
  {
    seq(|sinks|, i requires 0 <= i < |sinks| => ShowSink(sinks[i]))
  }

  function ShowPipeline(p: StoredPipeline): Pipeline { Pipeline(Some(p.id), Some(ShowSinks(p.sinks))) }

  /** The configuration as JSON, before masking. */
  function Show(ps: seq<StoredPipeline>): (r: seq<Pipeline>)
    ensures |r| == |ps|
  {
    seq(|ps|, i requires 0 <= i < |ps| => ShowPipeline(ps[i]))
  }

  // ---- Masking ------------------------------------------------------------------------------

  function MaskHeader(h: Header): Header {
    if h.value.Some? && h.value.value != "" then h.(value := Some(MASK)) else h
  }

  function MaskHeaders(headers: seq<Header>): (r: seq<Header>)
    ensures |r| == |headers|
  {
    seq(|headers|, i requires 0 <= i < |headers| => MaskHeader(headers[i]))
  }

  function MaskSink(s: Sink): Sink {
    match s
    case OtherSink(_) => s
    case Webhook(url, headers) =>
      Webhook(if url.Some? then Some(MaskUrl(url.value)) else None,
              if headers.Some? then Some(MaskHeaders(headers.value)) else None)
  }

  function MaskSinks(sinks: seq<Sink>): (r: seq<Sink>)
    ensures |r| == |sinks|
  {
    seq(|sinks|, i requires 0 <= i < |sinks| => MaskSink(sinks[i]))
  }

  function MaskPipeline(p: Pipeline): Pipeline {
    if p.sinks.Some? then p.(sinks := Some(MaskSinks(p.sinks.value))) else p
  }

  function MaskAll(ps: seq<Pipeline>): (r: seq<Pipeline>)
    ensures |r| == |ps|
  {
    seq(|ps|, i requires 0 <= i < |ps| => MaskPipeline(ps[i]))
  }

  // ---- Restoring ----------------------------------------------------------------------------

  function FindHeader(headers: seq<StoredHeader>, name: string): (r: Option<StoredHeader>)
    ensures r.Some? ==> r.value in headers && r.value.name == name
  {
    if headers == [] then None else if headers[0].name == name then Some(headers[0]) else FindHeader(headers[1..], name)
  }

  function FindPipeline(ps: seq<StoredPipeline>, id: string): (r: Option<StoredPipeline>)
    ensures r.Some? ==> r.value in ps && r.value.id == id
  {
    if ps == [] then None else if ps[0].id == id then Some(ps[0]) else FindPipeline(ps[1..], id)
  }

  /** The stored webhook that a submitted sink stands for. */
  function Current(pipeline: Option<StoredPipeline>, index: nat): (r: Option<StoredSink>)
    ensures r.Some? ==> r.value.StoredWebhook?
  {
    if pipeline.Some? && index < |pipeline.value.sinks| && pipeline.value.sinks[index].StoredWebhook?
    then Some(pipeline.value.sinks[index]) else None
  }

  function RestoreUrl(current: Option<StoredSink>, url: Option<string>): Result<Option<string>>
    requires current.Some? ==> current.value.StoredWebhook?
  {
    if url.None? then Ok(None)
    else if current.Some? && url.value == MaskUrl(current.value.url) then Ok(Some(current.value.url))
    else if Contains(url.value, "?***") || Contains(url.value, "***@") then
      Err("masked webhook url has nothing to restore it from")
    else Ok(url)
  }

  /** The sink still points to the origin that the secrets belong to. */
  predicate SameOrigin(current: Option<StoredSink>, url: Option<string>)
    requires current.Some? ==> current.value.StoredWebhook?
  {
    current.Some? && (url.Some? ==> UrlOrigin(url.value) == UrlOrigin(current.value.url))
  }

  function RestoreHeader(current: Option<StoredSink>, same: bool, h: Header): Result<Header>
    requires current.Some? ==> current.value.StoredWebhook?
  {
    if h.value != Some(MASK) then Ok(h)
    else if !same then Err("webhook url changed to a different host; re-enter its masked header values")
    else
      match if current.Some? then FindHeader(current.value.headers, h.name.GetOr("")) else None
      case None => Err("masked header has nothing to restore it from")
      case Some(known) => Ok(h.(value := Some(known.value)))
  }

  function RestoreHeaders(current: Option<StoredSink>, same: bool, headers: seq<Header>): (r: Result<seq<Header>>)
    requires current.Some? ==> current.value.StoredWebhook?
    ensures r.Ok? ==> |r.value| == |headers|
  {
    if headers == [] then Ok([])
    else
      match RestoreHeader(current, same, headers[0])
      case Err(e) => Err(e)
      case Ok(h) =>
        match RestoreHeaders(current, same, headers[1..])
        case Err(e) => Err(e)
        case Ok(rest) => Ok([h] + rest)
  }

  function RestoreSink(current: Option<StoredSink>, s: Sink): Result<Sink>
    requires current.Some? ==> current.value.StoredWebhook?
  {
    match s
    case OtherSink(_) => Ok(s)
    case Webhook(submitted, headers) =>
      match RestoreUrl(current, submitted)
      case Err(e) => Err(e)
      case Ok(url) =>
        if headers.None? then Ok(Webhook(url, None))
        else
          match RestoreHeaders(current, SameOrigin(current, url), headers.value)
          case Err(e) => Err(e)
          case Ok(hs) => Ok(Webhook(url, Some(hs)))
  }

  function RestoreSinks(pipeline: Option<StoredPipeline>, sinks: seq<Sink>, index: nat): Result<seq<Sink>>
    decreases |sinks|
  {
    if sinks == [] then Ok([])
    else
      match RestoreSink(Current(pipeline, index), sinks[0])
      case Err(e) => Err(e)
      case Ok(s) =>
        match RestoreSinks(pipeline, sinks[1..], index + 1)
        case Err(e) => Err(e)
        case Ok(rest) => Ok([s] + rest)
  }

  function RestorePipeline(stored: seq<StoredPipeline>, p: Pipeline): Result<Pipeline> {
    if p.sinks.None? then Ok(p)
    else
      match RestoreSinks(FindPipeline(stored, p.id.GetOr("")), p.sinks.value, 0)
      case Err(e) => Err(e)
      case Ok(sinks) => Ok(p.(sinks := Some(sinks)))
  }

  /** Submitted pipelines with masks replaced by the stored secrets, or the first error. */
  function Restore(stored: seq<StoredPipeline>, ps: seq<Pipeline>): Result<seq<Pipeline>> {
    if ps == [] then Ok([])
    else
      match RestorePipeline(stored, ps[0])
      case Err(e) => Err(e)
      case Ok(p) =>
        match Restore(stored, ps[1..])
        case Err(e) => Err(e)
        case Ok(rest) => Ok([p] + rest)
  }

  // ---- When a masked configuration is accepted, and when it comes back ----------------------

  predicate SameMask(current: Option<StoredSink>, url: string)
    requires current.Some? ==> current.value.StoredWebhook?
  {
    current.Some? && MaskUrl(url) == MaskUrl(current.value.url)
  }

  predicate LooksMasked(url: string) { Contains(url, "?***") || Contains(url, "***@") }

  /** What the program looks up for a masked webhook of this URL is known. */
  predicate SinkIsAccepted(current: Option<StoredSink>, s: StoredSink)
    requires current.Some? ==> current.value.StoredWebhook?
  {
    s.StoredWebhook? ==>
      && (SameMask(current, s.url) || !LooksMasked(MaskUrl(s.url)))
      && forall h | h in s.headers :: HeaderIsAccepted(current, s.url, h)
  }

  predicate HeaderIsAccepted(current: Option<StoredSink>, url: string, h: StoredHeader)
    requires current.Some? ==> current.value.StoredWebhook?
  {
    h.value != "" ==> SameOrigin(current, Some(url)) && FindHeader(current.value.headers, h.name).Some?
  }

  /** What the program looks up for a masked webhook is what the mask stands for. */
  predicate SinkComesBack(current: Option<StoredSink>, s: StoredSink)
    requires current.Some? ==> current.value.StoredWebhook?
  {
    s.StoredWebhook? ==>
      && (if SameMask(current, s.url) then s.url == current.value.url
          else MaskUrl(s.url) == s.url && !LooksMasked(s.url))
      && forall h | h in s.headers :: HeaderComesBack(current, s.url, h)
  }

  predicate HeaderComesBack(current: Option<StoredSink>, url: string, h: StoredHeader)
    requires current.Some? ==> current.value.StoredWebhook?
  {
    h.value != "" ==> SameOrigin(current, Some(url)) && Findable(current.value.headers, h)
  }

  /** A hidden header value is found again: it is that of the first header of its name. */
  predicate Findable(all: seq<StoredHeader>, h: StoredHeader) {
    h.value != "" ==> FindHeader(all, h.name).Some? && FindHeader(all, h.name).value.value == h.value
  }

  /** Every sink of a pipeline against the one that stands in its place in the first pipeline of that id. */
  predicate PipelineIsAccepted(stored: seq<StoredPipeline>, p: StoredPipeline) {
    forall k | 0 <= k < |p.sinks| :: SinkIsAccepted(Current(FindPipeline(stored, p.id), k), p.sinks[k])
  }

  predicate PipelineComesBack(stored: seq<StoredPipeline>, p: StoredPipeline) {
    forall k | 0 <= k < |p.sinks| :: SinkComesBack(Current(FindPipeline(stored, p.id), k), p.sinks[k])
  }

  lemma RestoreOneHeader(current: Option<StoredSink>, url: string, h: StoredHeader)
    requires current.Some? ==> current.value.StoredWebhook?
    ensures var r := RestoreHeader(current, SameOrigin(current, Some(url)), MaskHeader(ShowHeader(h)));
            && (r.Ok? <==> HeaderIsAccepted(current, url, h))
            && (r == Ok(ShowHeader(h)) <==> HeaderComesBack(current, url, h))
  {
    hide UrlOrigin;
  }

  lemma {:induction false} RestoreMaskedHeaders(current: Option<StoredSink>, url: string, headers: seq<StoredHeader>)
    requires current.Some? ==> current.value.StoredWebhook?
    ensures var r := RestoreHeaders(current, SameOrigin(current, Some(url)), MaskHeaders(ShowHeaders(headers)));
            && (r.Ok? <==> forall h | h in headers :: HeaderIsAccepted(current, url, h))
            && (r == Ok(ShowHeaders(headers)) <==> forall h | h in headers :: HeaderComesBack(current, url, h))
  {
    hide FindHeader, SameOrigin, RestoreHeader, HeaderIsAccepted, HeaderComesBack;
    if headers != [] {
      var masked := MaskHeaders(ShowHeaders(headers));
      var same := SameOrigin(current, Some(url));
      assert masked[0] == MaskHeader(ShowHeader(headers[0])) && masked[1..] == MaskHeaders(ShowHeaders(headers[1..]));
      RestoreOneHeader(current, url, headers[0]);
      RestoreMaskedHeaders(current, url, headers[1..]);
      assert ShowHeaders(headers) == [ShowHeader(headers[0])] + ShowHeaders(headers[1..]);
      Paired(RestoreHeader(current, same, masked[0]), RestoreHeaders(current, same, masked[1..]),
             ShowHeader(headers[0]), ShowHeaders(headers[1..]));
      assert forall h :: h in headers <==> h == headers[0] || h in headers[1..];
    }
  }

  function Both<T>(one: Result<T>, rest: Result<seq<T>>): Result<seq<T>> {
    match one
    case Err(e) => Err(e)
    case Ok(x) =>
      match rest
      case Err(e) => Err(e)
      case Ok(xs) => Ok([x] + xs)
  }

  lemma Paired<T>(one: Result<T>, rest: Result<seq<T>>, x: T, xs: seq<T>)
    ensures Both(one, rest).Ok? <==> one.Ok? && rest.Ok?
    ensures Both(one, rest) == Ok([x] + xs) <==> one == Ok(x) && rest == Ok(xs)
  {
    if one.Ok? && rest.Ok? {
      assert ([one.value] + rest.value)[0] == one.value && ([one.value] + rest.value)[1..] == rest.value;
      assert ([x] + xs)[0] == x && ([x] + xs)[1..] == xs;
    }
  }

  lemma RestoreMaskedSink(current: Option<StoredSink>, s: StoredSink)
    requires current.Some? ==> current.value.StoredWebhook?
    ensures var r := RestoreSink(current, MaskSink(ShowSink(s)));
            && (r.Ok? <==> SinkIsAccepted(current, s))
            && (r == Ok(ShowSink(s)) <==> SinkComesBack(current, s))
  {
    hide MaskUrl, UrlOrigin, RestoreHeaders, HeaderIsAccepted, HeaderComesBack, Contains;
    if s.StoredWebhook? {
      RestoreMaskedHeaders(current, s.url, s.headers);
      MaskKeepsOrigin(s.url);
      if SameMask(current, s.url) {
        MaskKeepsOrigin(current.value.url);
      }
    }
  }

  lemma {:induction false} RestoreMaskedSinks(p: Option<StoredPipeline>, sinks: seq<StoredSink>, from: nat)
    requires from <= |sinks|
    ensures var r := RestoreSinks(p, MaskSinks(ShowSinks(sinks[from..])), from);
            && (r.Ok? <==> forall k | from <= k < |sinks| :: SinkIsAccepted(Current(p, k), sinks[k]))
            && (r == Ok(ShowSinks(sinks[from..])) <==>
                forall k | from <= k < |sinks| :: SinkComesBack(Current(p, k), sinks[k]))
    decreases |sinks| - from
  {
    hide RestoreSink, MaskSink, ShowSink, SinkIsAccepted, SinkComesBack, Current;
    if from < |sinks| {
      var rest := sinks[from + 1..];
      assert sinks[from..] == [sinks[from]] + rest;
      var masked := MaskSinks(ShowSinks(sinks[from..]));
      assert masked[0] == MaskSink(ShowSink(sinks[from])) && masked[1..] == MaskSinks(ShowSinks(rest));
      RestoreMaskedSink(Current(p, from), sinks[from]);
      RestoreMaskedSinks(p, sinks, from + 1);
      assert ShowSinks(sinks[from..]) == [ShowSink(sinks[from])] + ShowSinks(rest);
      Paired(RestoreSink(Current(p, from), masked[0]), RestoreSinks(p, masked[1..], from + 1),
             ShowSink(sinks[from]), ShowSinks(rest));
    }
  }

  lemma RestoreMaskedPipeline(stored: seq<StoredPipeline>, p: StoredPipeline)
    ensures var r := RestorePipeline(stored, MaskPipeline(ShowPipeline(p)));
            && (r.Ok? <==> PipelineIsAccepted(stored, p))
            && (r == Ok(ShowPipeline(p)) <==> PipelineComesBack(stored, p))
  {
    hide RestoreSinks, MaskSinks, ShowSinks, FindPipeline, SinkIsAccepted, SinkComesBack, Current;
    assert p.sinks[0..] == p.sinks;
    RestoreMaskedSinks(FindPipeline(stored, p.id), p.sinks, 0);
  }

  lemma {:induction false} RestoreMaskedPipelines(stored: seq<StoredPipeline>, ps: seq<StoredPipeline>)
    ensures var r := Restore(stored, MaskAll(Show(ps)));
            && (r.Ok? <==> forall p | p in ps :: PipelineIsAccepted(stored, p))
            && (r == Ok(Show(ps)) <==> forall p | p in ps :: PipelineComesBack(stored, p))
  {
    hide RestorePipeline, MaskPipeline, ShowPipeline, PipelineIsAccepted, PipelineComesBack;
    if ps != [] {
      var masked := MaskAll(Show(ps));
      assert masked[0] == MaskPipeline(ShowPipeline(ps[0])) && masked[1..] == MaskAll(Show(ps[1..]));
      RestoreMaskedPipeline(stored, ps[0]);
      RestoreMaskedPipelines(stored, ps[1..]);
      assert Show(ps) == [ShowPipeline(ps[0])] + Show(ps[1..]);
      Paired(RestorePipeline(stored, masked[0]), Restore(stored, masked[1..]), ShowPipeline(ps[0]), Show(ps[1..]));
      assert forall p :: p in ps <==> p == ps[0] || p in ps[1..];
    }
  }

  /**
   Any configuration, shown masked and sent back unchanged: it is accepted exactly when everything
   hidden can be looked up, and becomes what it was exactly when what is looked up for each sink,
   at its place in the first pipeline of its id, is what was hidden.
   */
  lemma MaskThenRestore(stored: seq<StoredPipeline>)
    ensures var r := Restore(stored, MaskAll(Show(stored)));
            && (r.Ok? <==> forall p | p in stored :: PipelineIsAccepted(stored, p))
            && (r == Ok(Show(stored)) <==> forall p | p in stored :: PipelineComesBack(stored, p))
  {
    hide Restore, PipelineIsAccepted, PipelineComesBack;
    RestoreMaskedPipelines(stored, stored);
  }

  // ---- Distinct pipeline ids ----------------------------------------------------------------

  predicate RestorableSink(s: StoredSink) {
    s.StoredWebhook? ==> forall h | h in s.headers :: Findable(s.headers, h)
  }

  predicate RestorablePipeline(p: StoredPipeline) { forall s | s in p.sinks :: RestorableSink(s) }

  predicate DistinctPipelineIds(ps: seq<StoredPipeline>) { forall i, j | 0 <= i < j < |ps| :: ps[i].id != ps[j].id }

  lemma {:induction false} HeaderIsFound(all: seq<StoredHeader>, h: StoredHeader)
    requires h in all
    ensures FindHeader(all, h.name).Some?
  {
    if all[0] != h {
      HeaderIsFound(all[1..], h);
    }
  }

  lemma {:induction false} PipelineIsFound(ps: seq<StoredPipeline>, i: nat)
    requires i < |ps| && DistinctPipelineIds(ps)
    ensures FindPipeline(ps, ps[i].id) == Some(ps[i])
  {
    if i > 0 {
      assert ps[0].id != ps[i].id;
      PipelineIsFound(ps[1..], i - 1);
    }
  }

  /** A sink against itself. */
  lemma OwnSink(p: StoredPipeline, k: nat)
    requires k < |p.sinks|
    ensures SinkIsAccepted(Current(Some(p), k), p.sinks[k])
    ensures SinkComesBack(Current(Some(p), k), p.sinks[k]) <==> RestorableSink(p.sinks[k])
  {
    hide MaskUrl, UrlOrigin, FindHeader, LooksMasked;
    var s := p.sinks[k];
    if s.StoredWebhook? {
      forall h | h in s.headers ensures HeaderIsAccepted(Some(s), s.url, h) {
        HeaderIsFound(s.headers, h);
      }
    }
  }

  /**
   With distinct pipeline ids a masked configuration is always accepted, and becomes what it was
   exactly when every non-empty header value is that of the first header of its name.
   */
  lemma DistinctIdsRestore(stored: seq<StoredPipeline>)
    requires DistinctPipelineIds(stored)
    ensures var r := Restore(stored, MaskAll(Show(stored)));
            r.Ok? && (r == Ok(Show(stored)) <==> forall p | p in stored :: RestorablePipeline(p))
  {
    hide Restore, DistinctPipelineIds, SinkIsAccepted, SinkComesBack, RestorableSink, FindPipeline, Current;
    MaskThenRestore(stored);
    forall p | p in stored
      ensures PipelineIsAccepted(stored, p) && (PipelineComesBack(stored, p) <==> RestorablePipeline(p))
    {
      var i :| 0 <= i < |stored| && stored[i] == p;
      PipelineIsFound(stored, i);
      forall k | 0 <= k < |p.sinks|
        ensures SinkIsAccepted(Current(Some(p), k), p.sinks[k])
        ensures SinkComesBack(Current(Some(p), k), p.sinks[k]) <==> RestorableSink(p.sinks[k])
      {
        OwnSink(p, k);
      }
      assert forall s :: s in p.sinks <==> exists k :: 0 <= k < |p.sinks| && p.sinks[k] == s;
    }
  }

  function Short(c: char): StoredPipeline { StoredPipeline("a", [StoredWebhook(['h', '/', '?', c], [])]) }

  const SHORT_MASKED := Pipeline(Some("a"), Some([Webhook(Some("h/?***"), Some([]))]))

  lemma ShortIsMasked(c: char)
    requires c !in [':', '/', '?', '#', '@']
    ensures MaskPipeline(ShowPipeline(Short(c))) == SHORT_MASKED
  {
    hide MaskUrl;
    MaskOfShort(c);
    assert MaskHeaders(ShowHeaders([])) == [];
    assert MaskSink(ShowSink(Short(c).sinks[0])) == Webhook(Some("h/?***"), Some([]));
    assert MaskSinks(ShowSinks(Short(c).sinks)) == [Webhook(Some("h/?***"), Some([]))];
  }

  lemma ShortIsRestored(stored: seq<StoredPipeline>)
    requires stored != [] && stored[0] == Short('x')
    ensures RestorePipeline(stored, SHORT_MASKED) == Ok(ShowPipeline(Short('x')))
  {
    hide MaskUrl, UrlOrigin, Contains;
    MaskOfShort('x');
    var masked := SHORT_MASKED.sinks.value;
    var first := Short('x');
    assert ShowHeaders([]) == [];
    assert RestoreSink(Current(Some(first), 0), masked[0]) == Ok(ShowSink(first.sinks[0]));
    assert masked[1..] == [] && [ShowSink(first.sinks[0])] + [] == [ShowSink(first.sinks[0])];
    assert RestoreSinks(Some(first), masked, 0) == Ok([ShowSink(first.sinks[0])]);
    assert ShowSinks(first.sinks) == [ShowSink(first.sinks[0])];
  }

  /** With one id used twice, the second pipeline comes back with the first one's secret. */
  lemma SharedIdExample()
    ensures RestorablePipeline(Short('x')) && RestorablePipeline(Short('y')) && Short('x') != Short('y')
    ensures var stored := [Short('x'), Short('y')];
            Restore(stored, MaskAll(Show(stored))) == Ok(Show([Short('x'), Short('x')]))
  {
    hide RestorePipeline, MaskPipeline, ShowPipeline;
    ShortIsMasked('x');
    ShortIsMasked('y');
    var stored := [Short('x'), Short('y')];
    ShortIsRestored(stored);
    assert MaskAll(Show(stored)) == [SHORT_MASKED, SHORT_MASKED];
    assert [SHORT_MASKED, SHORT_MASKED][1..] == [SHORT_MASKED] && [SHORT_MASKED][1..] == [];
    var shown := ShowPipeline(Short('x'));
    assert [shown] + [] == [shown];
    assert Restore(stored, [SHORT_MASKED]) == Ok([shown]);
    assert Short('x').sinks[0].url[3] != Short('y').sinks[0].url[3];
    assert [shown] + [shown] == Show([Short('x'), Short('x')]);
  }

  lemma MaskOfShort(c: char)
    requires c !in [':', '/', '?', '#', '@']
    ensures MaskUrl(['h', '/', '?', c]) == "h/?***"
  {
    var url := ['h', '/', '?', c];
    assert forall k | 0 <= k < 4 :: !SchemeAt(url, k);
    assert !HasScheme(url) && Head(url) == "" && Rest(url) == url;
    assert url == "h" + ['/', '?', c];
    JoinRest("h", ['/', '?', c]);
    assert ['/', '?', c][1..] == ['?', c];
    assert HideQuery(['?', c]) == "?***";
    assert HideQuery(['/', '?', c]) == ['/'] + "?***";
    assert HideUser("h") == "h";
  }

  /** Distinct header names are enough. */
  lemma {:induction false} DistinctNamesAreFindable(all: seq<StoredHeader>, h: StoredHeader)
    requires forall i, j | 0 <= i < j < |all| :: all[i].name != all[j].name
    requires h in all
    ensures Findable(all, h)
  {
    if all[0] == h {
    } else {
      DistinctNamesAreFindable(all[1..], h);
      var k :| 0 <= k < |all[1..]| && all[1..][k] == h;
      assert all[0].name != all[k + 1].name;
    }
  }

  // ---- Secrets stay with their origin -------------------------------------------------------

  lemma {:induction false} RestoredHeader(current: Option<StoredSink>, same: bool, headers: seq<Header>, k: nat)
    requires current.Some? ==> current.value.StoredWebhook?
    requires RestoreHeaders(current, same, headers).Ok? && k < |headers|
    ensures RestoreHeader(current, same, headers[k]) == Ok(RestoreHeaders(current, same, headers).value[k])
  {
    hide RestoreHeader;
    if k > 0 {
      RestoredHeader(current, same, headers[1..], k - 1);
    }
  }

  /**
   A submitted mask is replaced by the stored value only while the sink's URL keeps the origin of
   the stored one; every other header is taken as submitted, and so is a URL that is not the mask.
   */
  lemma SecretsStayWithTheirOrigin(current: Option<StoredSink>, s: Sink, k: nat)
    requires current.Some? ==> current.value.StoredWebhook?
    requires s.Webhook? && s.headers.Some? && k < |s.headers.value|
    requires RestoreSink(current, s).Ok?
    ensures var r := RestoreSink(current, s).value;
            && r.Webhook? && r.headers.Some? && |r.headers.value| == |s.headers.value|
            && (r.url == s.url || (current.Some? && r.url == Some(current.value.url)
               && s.url == Some(MaskUrl(current.value.url))))
            && (if s.headers.value[k].value != Some(MASK) then r.headers.value[k] == s.headers.value[k]
                else
                  && current.Some? && (r.url.Some? ==> UrlOrigin(r.url.value) == UrlOrigin(current.value.url))
                  && FindHeader(current.value.headers, s.headers.value[k].name.GetOr("")).Some?
                  && r.headers.value[k].value
                     == Some(FindHeader(current.value.headers, s.headers.value[k].name.GetOr("")).value.value))
  {
    hide MaskUrl, UrlOrigin, RestoreHeaders, FindHeader;
    var r := RestoreSink(current, s).value;
    RestoredHeader(current, SameOrigin(current, r.url), s.headers.value, k);
  }

  // ---- Masks in literal text ----------------------------------------------------------------

  /** None of the characters that end an authority. */
  predicate InAuthority(a: string) { forall i | 0 <= i < |a| :: a[i] != '/' && a[i] != '?' && a[i] != '#' }

  /** Nothing, or a path that begins with a slash; no query or fragment. */
  predicate IsPath(p: string) {
    (p == "" || p[0] == '/') && forall i | 0 <= i < |p| :: p[i] != '?' && p[i] != '#'
  }

  lemma {:induction false} PathIsShown(p: string, mark: char, q: string)
    requires forall i | 0 <= i < |p| :: p[i] != '?' && p[i] != '#'
    ensures HideQuery(p) == p
    ensures mark == '?' || mark == '#' ==> HideQuery(p + ([mark] + q)) == p + "?***"
  {
    if p == "" {
      assert p + ([mark] + q) == [mark] + q && "" + "?***" == "?***";
    } else {
      assert (p + ([mark] + q))[1..] == p[1..] + ([mark] + q);
      PathIsShown(p[1..], mark, q);
      assert [p[0]] + p[1..] == p && [p[0]] + (p[1..] + "?***") == p + "?***";
    }
  }

  lemma UserIsHidden(user: string, host: string)
    requires '@' !in host
    ensures HideUser(user + "@" + host) == "***@" + host && HideUser(host) == host
    ensures Host(user + "@" + host) == host && Host(host) == host
  {
    HostAfter(user, host);
    assert (user + "@" + host)[|user|] == '@';
  }

  lemma RestIsHidden(a: string, path: string, mark: char, q: string)
    requires InAuthority(a) && IsPath(path)
    ensures HideRest(a + path) == HideUser(a) + path && Authority(a + path) == a
    ensures mark == '?' || mark == '#' ==>
              && HideRest(a + (path + ([mark] + q))) == HideUser(a) + (path + "?***")
              && Authority(a + (path + ([mark] + q))) == a
  {
    hide HideUser, Authority, Tail, HideQuery;
    PathIsShown(path, mark, q);
    JoinRest(a, path);
    if mark == '?' || mark == '#' {
      JoinRest(a, path + ([mark] + q));
    }
  }

  /** Of a web URL, user information and query are shown as three asterisks, and nothing else changes. */
  lemma WebUrlsAreMasked(scheme: string, user: string, host: string, path: string, mark: char, query: string)
    requires ':' !in scheme && InAuthority(user) && InAuthority(host) && '@' !in host && IsPath(path)
    requires mark == '?' || mark == '#'
    ensures MaskUrl(scheme + "://" + (host + path)) == scheme + "://" + (host + path)
    ensures MaskUrl(scheme + "://" + (user + "@" + host + path)) == scheme + "://" + ("***@" + host + path)
    ensures MaskUrl(scheme + "://" + (host + (path + ([mark] + query)))) == scheme + "://" + (host + (path + "?***"))
    ensures MaskUrl(scheme + "://" + (user + "@" + host + (path + ([mark] + query))))
         == scheme + "://" + ("***@" + host + (path + "?***"))
  {
    hide HideRest, HideUser, InAuthority, IsPath, Rest, Head, MaskUrl;
    UserIsHidden(user, host);
    AuthorityOf(user, host);
    RestIsHidden(host, path, mark, query);
    RestIsHidden(user + "@" + host, path, mark, query);
    MaskJoined(scheme, host + path);
    MaskJoined(scheme, user + "@" + host + path);
    MaskJoined(scheme, host + (path + ([mark] + query)));
    MaskJoined(scheme, user + "@" + host + (path + ([mark] + query)));
  }

  lemma AuthorityOf(user: string, host: string)
    requires InAuthority(user) && InAuthority(host)
    ensures InAuthority(user + "@" + host)
  {}

  lemma MaskJoined(scheme: string, rest: string)
    requires ':' !in scheme
    ensures MaskUrl(scheme + "://" + rest) == scheme + "://" + HideRest(rest)
  {
    hide HideRest, Head, HasScheme;
    SplitJoined(scheme, rest);
    HeadIsPrefix(scheme + "://" + rest);
    var s := scheme + "://" + rest;
    assert |Head(s)| == |scheme| + 3;
    assert Head(s) == s[..|scheme| + 3] == scheme + "://";
  }

  /** The origin of a web URL is its scheme and its host in lower case. */
  lemma WebOrigins(scheme: string, user: string, host: string, path: string, mark: char, query: string)
    requires ':' !in scheme && InAuthority(user) && InAuthority(host) && '@' !in host && IsPath(path)
    requires mark == '?' || mark == '#'
    ensures var a := scheme + "://" + (user + "@" + host + (path + ([mark] + query)));
            var b := scheme + "://" + (host + path);
            && (Trim(a) == a ==> UrlOrigin(a) == ToLower(scheme) + "://" + ToLower(host))
            && (Trim(b) == b ==> UrlOrigin(b) == ToLower(scheme) + "://" + ToLower(host))
  {
    hide HideRest, HideUser, InAuthority, IsPath, Rest, Head, HasScheme, SchemeOf, Host, Authority, Trim, ToLower;
    UserIsHidden(user, host);
    AuthorityOf(user, host);
    RestIsHidden(host, path, mark, query);
    RestIsHidden(user + "@" + host, path, mark, query);
    SplitJoined(scheme, host + path);
    SplitJoined(scheme, user + "@" + host + (path + ([mark] + query)));
  }

  /** Without a scheme the text is user information, host and path at once, and its origin has none either. */
  lemma SchemelessUrls(user: string, host: string, path: string, mark: char, query: string)
    requires InAuthority(user) && InAuthority(host) && '@' !in host && IsPath(path) && (mark == '?' || mark == '#')
    ensures var url := user + "@" + host + (path + ([mark] + query));
            !HasScheme(url) ==>
              && MaskUrl(url) == "***@" + host + (path + "?***")
              && (Trim(url) == url ==> UrlOrigin(url) == "://" + ToLower(host))
    ensures !HasScheme(host + path) ==>
              && MaskUrl(host + path) == host + path
              && (Trim(host + path) == host + path ==> UrlOrigin(host + path) == "://" + ToLower(host))
  {
    hide HideRest, HideUser, InAuthority, IsPath, Rest, Head, HasScheme, Host, Authority, Trim;
    UserIsHidden(user, host);
    AuthorityOf(user, host);
    RestIsHidden(host, path, mark, query);
    RestIsHidden(user + "@" + host, path, mark, query);
    NothingAhead(host + path);
    NothingAhead(user + "@" + host + (path + ([mark] + query)));
    assert ToLower("") + "://" + ToLower(host) == "://" + ToLower(host);
  }

  lemma NothingAhead(url: string)
    ensures !HasScheme(url) ==> MaskUrl(url) == HideRest(url) && Rest(url) == url && SchemeOf(url) == ""
  {
    hide HasScheme, HideRest;
    if !HasScheme(url) {
      NoHead(url);
      assert "" + HideRest(url) == HideRest(url);
    }
  }

  /** A header that has a value is shown as three asterisks, and one that has none as it is. */
  lemma HeadersAreMasked(h: Header)
    ensures MaskHeader(h).name == h.name
    ensures MaskHeader(h).value == if h.value.None? || h.value == Some("") then h.value else Some("***")
  {}

  /** A masked header of a submitted sink is found: the URL keeps its origin, and the name is stored. */
  predicate HeaderIsKnown(current: Option<StoredSink>, url: Option<string>, h: Header)
    requires current.Some? ==> current.value.StoredWebhook?
  {
    && current.Some? && (url.Some? ==> UrlOrigin(url.value) == UrlOrigin(current.value.url))
    && exists k | k in current.value.headers :: k.name == h.name.GetOr("")
  }

  lemma {:induction false} NamesAreFound(headers: seq<StoredHeader>, name: string)
    ensures FindHeader(headers, name).Some? <==> exists k | k in headers :: k.name == name
  {
    if headers != [] {
      NamesAreFound(headers[1..], name);
      assert forall k :: k in headers <==> k == headers[0] || k in headers[1..];
    }
  }

  lemma {:induction false} HeadersAreAccepted(current: Option<StoredSink>, url: Option<string>, headers: seq<Header>)
    requires current.Some? ==> current.value.StoredWebhook?
    ensures RestoreHeaders(current, SameOrigin(current, url), headers).Ok? <==>
              forall h | h in headers && h.value == Some("***") :: HeaderIsKnown(current, url, h)
  {
    hide UrlOrigin, HeaderIsKnown, RestoreHeader, SameOrigin;
    if headers != [] {
      OneHeaderIsAccepted(current, url, headers[0]);
      HeadersAreAccepted(current, url, headers[1..]);
      assert forall h :: h in headers <==> h == headers[0] || h in headers[1..];
    }
  }

  lemma OneHeaderIsAccepted(current: Option<StoredSink>, url: Option<string>, h: Header)
    requires current.Some? ==> current.value.StoredWebhook?
    ensures RestoreHeader(current, SameOrigin(current, url), h).Ok? <==>
              (h.value == Some("***") ==> HeaderIsKnown(current, url, h))
  {
    hide UrlOrigin, FindHeader;
    if current.Some? {
      NamesAreFound(current.value.headers, h.name.GetOr(""));
    }
  }

  /**
   A submitted sink is accepted exactly when its URL is the stored one's mask or looks like no mask, and
   each of its masked headers is known.
   */
  lemma SinksAreAccepted(current: Option<StoredSink>, url: Option<string>, headers: seq<Header>)
    requires current.Some? ==> current.value.StoredWebhook?
    ensures var masked := current.Some? && url == Some(MaskUrl(current.value.url));
            var restored := if masked then Some(current.value.url) else url;
            RestoreSink(current, Webhook(url, Some(headers))).Ok? <==>
              && (masked || url.None? || (!Contains(url.value, "?***") && !Contains(url.value, "***@")))
              && forall h | h in headers && h.value == Some("***") :: HeaderIsKnown(current, restored, h)
  {
    hide MaskUrl, UrlOrigin, HeaderIsKnown, RestoreHeaders, SameOrigin, Contains;
    var masked := current.Some? && url == Some(MaskUrl(current.value.url));
    HeadersAreAccepted(current, if masked then Some(current.value.url) else url, headers);
  }

  // ---- The program's loops ------------------------------------------------------------------

  /** Masks the sinks of all pipelines in place. */
  method MaskWebhookSecrets(shown: seq<Pipeline>) returns (value: seq<Pipeline>)
    ensures value == MaskAll(shown)
  {
    hide MaskSinks;
    value := shown;
    for i := 0 to |shown|
      invariant |value| == |shown|
      invariant forall k | 0 <= k < i :: value[k] == MaskPipeline(shown[k])
      invariant forall k | i <= k < |shown| :: value[k] == shown[k]
    {
      if value[i].sinks.Some? {
        var sinks := MaskSinkList(value[i].sinks.value);
        value := value[i := value[i].(sinks := Some(sinks))];
      }
    }
  }

  method MaskSinkList(sinks: seq<Sink>) returns (masked: seq<Sink>)
    ensures masked == MaskSinks(sinks)
  {
    hide MaskUrl;
    masked := sinks;
    for i := 0 to |sinks|
      invariant |masked| == |sinks|
      invariant forall k | 0 <= k < i :: masked[k] == MaskSink(sinks[k])
      invariant forall k | i <= k < |sinks| :: masked[k] == sinks[k]
    {
      if masked[i].Webhook? {
        var s := masked[i];
        if s.url.Some? {
          s := s.(url := Some(MaskUrl(s.url.value)));
        }
        if s.headers.Some? {
          var headers := s.headers.value;
          for j := 0 to |headers|
            invariant |headers| == |s.headers.value|
            invariant forall k | 0 <= k < j :: headers[k] == MaskHeader(s.headers.value[k])
            invariant forall k | j <= k < |headers| :: headers[k] == s.headers.value[k]
          {
            if headers[j].value.Some? && headers[j].value.value != "" {
              headers := headers[j := headers[j].(value := Some(MASK))];
            }
          }
          assert headers == MaskHeaders(s.headers.value);
          s := s.(headers := Some(headers));
        }
        masked := masked[i := s];
      }
    }
  }

  /** Puts the stored secrets back, or reports the first mask that has none. */
  method SubstituteMaskedSecrets(stored: seq<StoredPipeline>, submitted: seq<Pipeline>)
    returns (r: Result<seq<Pipeline>>)
    ensures r == Restore(stored, submitted)
  {
    hide RestorePipeline, RestoreSinks, FindPipeline;
    var done: seq<Pipeline> := [];
    assert submitted[0..] == submitted;
    PrefixedEnds([], Restore(stored, submitted));
    for i := 0 to |submitted|
      invariant |done| == i
      invariant Restore(stored, submitted) == Prefixed(done, Restore(stored, submitted[i..]))
    {
      var p := submitted[i];
      assert submitted[i..][0] == p && submitted[i..][1..] == submitted[i + 1..];
      var one := RestorePipeline(stored, p);
      PrefixedOnce(done, one, Restore(stored, submitted[i + 1..]));
      if p.sinks.Some? {
        var sinks := SubstituteSinks(FindPipeline(stored, p.id.GetOr("")), p.sinks.value);
        SameRestore(stored, p, sinks);
        if sinks.Err? {
          return Err(sinks.error);
        }
        p := p.(sinks := Some(sinks.value));
      } else {
        NoSinks(stored, p);
      }
      done := done + [p];
    }
    assert submitted[|submitted|..] == [];
    PrefixedEnds(done, Restore(stored, []));
    r := Ok(done);
  }

  function Prefixed<T>(done: seq<T>, rest: Result<seq<T>>): Result<seq<T>> {
    match rest
    case Ok(more) => Ok(done + more)
    case Err(e) => Err(e)
  }

  lemma PrefixedEnds<T>(done: seq<T>, rest: Result<seq<T>>)
    ensures Prefixed([], rest) == rest && Prefixed(done, Ok([])) == Ok(done)
  {
    assert done + [] == done;
    if rest.Ok? {
      assert [] + rest.value == rest.value;
    }
  }

  lemma PrefixedOnce<T>(done: seq<T>, one: Result<T>, rest: Result<seq<T>>)
    ensures one.Ok? && rest.Ok? ==> Prefixed(done, Ok([one.value] + rest.value)) == Prefixed(done + [one.value], rest)
  {
    if one.Ok? && rest.Ok? {
      assert done + ([one.value] + rest.value) == done + [one.value] + rest.value;
    }
  }

  lemma SameRestore(stored: seq<StoredPipeline>, p: Pipeline, sinks: Result<seq<Sink>>)
    requires p.sinks.Some? && sinks == RestoreSinks(FindPipeline(stored, p.id.GetOr("")), p.sinks.value, 0)
    ensures RestorePipeline(stored, p) == if sinks.Ok? then Ok(p.(sinks := Some(sinks.value))) else Err(sinks.error)
  {}

  lemma NoSinks(stored: seq<StoredPipeline>, p: Pipeline)
    requires p.sinks.None?
    ensures RestorePipeline(stored, p) == Ok(p)
  {}

  method SubstituteSinks(pipeline: Option<StoredPipeline>, sinks: seq<Sink>) returns (r: Result<seq<Sink>>)
    ensures r == RestoreSinks(pipeline, sinks, 0)
  {
    hide RestoreSink;
    var done: seq<Sink> := [];
    assert sinks[0..] == sinks;
    PrefixedEnds([], RestoreSinks(pipeline, sinks, 0));
    for index := 0 to |sinks|
      invariant |done| == index
      invariant RestoreSinks(pipeline, sinks, 0) == Prefixed(done, RestoreSinks(pipeline, sinks[index..], index))
    {
      assert sinks[index..][0] == sinks[index] && sinks[index..][1..] == sinks[index + 1..];
      var one := SubstituteSink(Current(pipeline, index), sinks[index]);
      PrefixedOnce(done, one, RestoreSinks(pipeline, sinks[index + 1..], index + 1));
      if one.Err? {
        return Err(one.error);
      }
      done := done + [one.value];
    }
    assert sinks[|sinks|..] == [];
    PrefixedEnds(done, RestoreSinks(pipeline, [], |sinks|));
    r := Ok(done);
  }

  method SubstituteSink(current: Option<StoredSink>, s: Sink) returns (r: Result<Sink>)
    requires current.Some? ==> current.value.StoredWebhook?
    ensures r == RestoreSink(current, s)
  {
    hide MaskUrl, UrlOrigin, Contains, FindHeader, RestoreHeader;
    if !s.Webhook? {
      return Ok(s);
    }
    var url := s.url;
    if url.Some? {
      if current.Some? && url.value == MaskUrl(current.value.url) {
        url := Some(current.value.url);
      } else if Contains(url.value, "?***") || Contains(url.value, "***@") {
        return Err("masked webhook url has nothing to restore it from");
      }
    }
    var same := SameOrigin(current, url);
    if s.headers.None? {
      return Ok(s.(url := url));
    }
    var headers := s.headers.value;
    var done: seq<Header> := [];
    assert headers[0..] == headers;
    PrefixedEnds([], RestoreHeaders(current, same, headers));
    for j := 0 to |headers|
      invariant |done| == j
      invariant RestoreHeaders(current, same, headers) == Prefixed(done, RestoreHeaders(current, same, headers[j..]))
    {
      assert headers[j..][0] == headers[j] && headers[j..][1..] == headers[j + 1..];
      var one := RestoreHeader(current, same, headers[j]);
      PrefixedOnce(done, one, RestoreHeaders(current, same, headers[j + 1..]));
      if one.Err? {
        return Err(one.error);
      }
      done := done + [one.value];
    }
    assert headers[|headers|..] == [];
    PrefixedEnds(done, RestoreHeaders(current, same, []));
    r := Ok(Webhook(url, Some(done)));
  }
}
