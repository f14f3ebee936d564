/** Browser origins in their serialized form, as allowed origins are compared. */
module Origins {
  import opened Wrappers
  import opened Text
  import opened Decimal
  import opened Urls

  /** An accepted origin; the port is there only if it is not the default. */
  datatype Parts = Parts(secure: bool, host: string, port: Option<nat>)

  function DefaultPort(secure: bool): nat { if secure then 443 else 80 }

  function SchemeText(secure: bool): string { if secure then "https" else "http" }

  function PortText(port: Option<nat>): string { if port.Some? then ":" + Numeral(port.value) else "" }

  function Serialized(p: Parts): string { SchemeText(p.secure) + "://" + (p.host + PortText(p.port)) }

  function StripSlash(s: string): string { if s != "" && s[|s| - 1] == '/' then s[..|s| - 1] else s }

  predicate IsAllowed(c: char) {
    'a' <= c <= 'z' || 'A' <= c <= 'Z' || '0' <= c <= '9' || c == '-' || c == '.' || c == ':' || c == '[' || c == ']'
  }

  predicate AllAllowed(s: string) { forall i | 0 <= i < |s| :: IsAllowed(s[i]) }

  /** Host and port text; an address in brackets may contain colons. */
  function SplitHost(a: string): Option<(string, Option<string>)>
    requires a != ""
  {
    if a[0] == '[' then
      var k := IndexOf(a[1..], ']');
      if k == |a| - 1 then None
      else
        var addr, after := a[1..][..k], a[1..][k + 1..];
        if addr == "" || '[' in addr then None
        else if after == "" then Some(("[" + addr + "]", None))
        else if after[0] == ':' then Some(("[" + addr + "]", Some(after[1..])))
        else None
    else
      var k := IndexOf(a, ':');
      var host := a[..k];
      if host == "" || '[' in host || ']' in host then None
      else Some((host, if k < |a| then Some(a[k + 1..]) else None))
  }

  /** A port within 16 bits, dropped if it is the default. */
  function ReadPort(text: Option<string>, secure: bool): Option<Option<nat>> {
    match text
    case None => Some(None)
    case Some(p) =>
      if p == "" || !AllDigits(p) || Value(p) > 65535 then None
      else Some(if Value(p) == DefaultPort(secure) then None else Some(Value(p)))
  }

  function ReadAuthority(secure: bool, authority: string): Option<Parts> {
    if authority == "" || !AllAllowed(authority) then None
    else
      match SplitHost(ToLower(authority))
      case None => None
      case Some((host, text)) =>
        match ReadPort(text, secure)
        case None => None
        case Some(port) => Some(Parts(secure, host, port))
  }

  function ReadTrimmed(v: string): Option<Parts> {
    if !HasScheme(v) then None
    else
      var scheme := ToLower(SchemeOf(v));
      if scheme == "http" then ReadAuthority(false, Rest(v))
      else if scheme == "https" then ReadAuthority(true, Rest(v))
      else None
  }

  function ReadOrigin(value: string): Option<Parts> { ReadTrimmed(StripSlash(Trim(value))) }

  function NormalizeOrigin(value: string): Option<string> {
    match ReadOrigin(value)
    case None => None
    case Some(p) => Some(Serialized(p))
  }

  // ---- Accepted origins are canonical -------------------------------------------------------

  predicate IsHost(h: string) {
    && h != "" && AllAllowed(h) && ToLower(h) == h
    && (if h[0] == '[' then |h| > 2 && h[|h| - 1] == ']' && '[' !in h[1..|h| - 1] && ']' !in h[1..|h| - 1]
        else ':' !in h && '[' !in h && ']' !in h)
  }

  predicate Canonical(p: Parts) {
    IsHost(p.host) && (p.port.Some? ==> p.port.value <= 65535 && p.port.value != DefaultPort(p.secure))
  }

  lemma LowerFacts(s: string)
    ensures ToLower(ToLower(s)) == ToLower(s)
    ensures AllAllowed(ToLower(s)) <==> AllAllowed(s)
  {
    assert forall i | 0 <= i < |s| :: IsAllowed(ToLower(s)[i]) <==> IsAllowed(s[i]);
  }

  lemma HostIsGood(a: string)
    requires a != "" && AllAllowed(a) && ToLower(a) == a
    ensures SplitHost(a).Some? ==> IsHost(SplitHost(a).value.0)
  {
    hide IsAllowed;
    if SplitHost(a).Some? {
      var h := SplitHost(a).value.0;
      if a[0] == '[' {
        var k := IndexOf(a[1..], ']');
        assert h == a[..k + 2];
        assert h[1..|h| - 1] == a[1..][..k];
      } else {
        var k := IndexOf(a, ':');
        assert h == a[..k];
      }
      PrefixIsGood(a, |h|);
    }
  }

  lemma PrefixIsGood(a: string, n: nat)
    requires n <= |a| && AllAllowed(a) && ToLower(a) == a
    ensures AllAllowed(a[..n]) && ToLower(a[..n]) == a[..n]
  {
    hide IsAllowed;
    assert forall i | 0 <= i < n :: ToLower(a[..n])[i] == ToLower(a)[i];
  }

  lemma AcceptedIsCanonical(value: string)
    requires ReadOrigin(value).Some?
    ensures Canonical(ReadOrigin(value).value)
  {
    hide Trim, HasScheme, SchemeOf, Rest, IsHost, SplitHost, AllAllowed;
    var a := Rest(StripSlash(Trim(value)));
    LowerFacts(a);
    HostIsGood(ToLower(a));
  }

  /** A host followed by a port, or by nothing, is split there. */
  lemma SplitAfterHost(h: string, port: string)
    requires IsHost(h)
    ensures SplitHost(h) == Some((h, None)) && SplitHost(h + ":" + port) == Some((h, Some(port)))
  {
    hide IsAllowed;
    if h[0] == '[' {
      SplitAfterAddress(h[1..|h| - 1], port);
      assert "[" + h[1..|h| - 1] + "]" == h;
    } else {
      var full := h + ":" + port;
      IndexOfAbsent(h, ':');
      IndexOfSplit(h, ':', port);
      assert h[..|h|] == h && full[..|h|] == h && full[|h| + 1..] == port;
    }
  }

  lemma SplitAfterAddress(addr: string, port: string)
    requires addr != "" && '[' !in addr && ']' !in addr
    ensures var h := "[" + addr + "]";
            SplitHost(h) == Some((h, None)) && SplitHost(h + ":" + port) == Some((h, Some(port)))
  {
    hide IsAllowed;
    var h := "[" + addr + "]";
    var full := h + ":" + port;
    assert h[1..] == addr + "]" + "" && full[1..] == addr + "]" + (":" + port);
    IndexOfSplit(addr, ']', "");
    IndexOfSplit(addr, ']', ":" + port);
    assert full[1..][..|addr|] == addr && full[1..][|addr| + 1..] == ":" + port;
    assert h[1..] == addr + "]";
    assert h[1..][..|addr|] == addr && h[1..][|addr| + 1..] == "";
    assert (":" + port)[1..] == port;
    assert h[0] == '[' && full[0] == '[';
  }

  lemma DigitsAreAllowed(s: string)
    requires AllDigits(s)
    ensures AllAllowed(s) && ToLower(s) == s
  {}

  lemma AuthorityWithPort(h: string, port: string)
    requires IsHost(h) && AllDigits(port)
    ensures var a := h + ":" + port; a != "" && AllAllowed(a) && ToLower(a) == a
  {
    hide IsAllowed, AllDigits;
    DigitsAreAllowed(port);
    var a := h + ":" + port;
    assert IsAllowed(':') by { ColonIsAllowed(); }
    assert AllAllowed(a);
    forall i | 0 <= i < |a| ensures ToLower(a)[i] == a[i] {
      if i < |h| {
        assert ToLower(h)[i] == h[i];
      } else if i > |h| {
        assert ToLower(port)[i - |h| - 1] == port[i - |h| - 1];
      }
    }
  }

  lemma ColonIsAllowed()
    ensures IsAllowed(':')
  {}

  /** Reading a host with a port, however the port is written. */
  lemma ReadHostAndPort(secure: bool, h: string, port: string)
    requires IsHost(h) && AllDigits(port) && port != ""
    ensures ReadAuthority(secure, h + ":" + port) ==
              if Value(port) > 65535 then None
              else Some(Parts(secure, h, if Value(port) == DefaultPort(secure) then None else Some(Value(port))))
    ensures ReadAuthority(secure, h) == Some(Parts(secure, h, None))
  {
    hide AllAllowed, SplitHost, AllDigits, Value, ToLower;
    AuthorityWithPort(h, port);
    SplitAfterHost(h, port);
  }

  // ---- Reading a whole origin ---------------------------------------------------------------

  lemma LastOfHost(h: string)
    requires IsHost(h)
    ensures IsAllowed(h[|h| - 1])
  {}

  lemma AllowedIsPlain(c: char)
    requires IsAllowed(c)
    ensures !IsWhitespace(c) && c != '/'
  {}

  lemma SchemeTextFacts(secure: bool)
    ensures var s := SchemeText(secure);
            && ':' !in s && s != "" && !IsWhitespace(s[0]) && ToLower(s) == s
            && (s == "https" <==> secure) && (s == "http" <==> !secure)
  {}

  /** An origin written with this scheme and authority is read as such. */
  lemma ReadWritten(secure: bool, authority: string)
    requires authority != "" && IsAllowed(authority[|authority| - 1])
    ensures ReadOrigin(SchemeText(secure) + "://" + authority) == ReadAuthority(secure, authority)
  {
    hide ReadAuthority, IsWhitespace, IsAllowed, HasScheme, SchemeOf, Rest, Trim, ToLower, SchemeText;
    SchemeTextFacts(secure);
    AllowedIsPlain(authority[|authority| - 1]);
    var s := SchemeText(secure) + "://" + authority;
    assert s[0] == SchemeText(secure)[0] && s[|s| - 1] == authority[|authority| - 1];
    TrimmedAlready(s);
    SplitJoined(SchemeText(secure), authority);
  }

  lemma LastDigit(s: string)
    requires AllDigits(s) && s != ""
    ensures IsAllowed(s[|s| - 1])
  {}

  /** A canonical origin is read as itself. */
  lemma CanonicalReadsBack(p: Parts)
    requires Canonical(p)
    ensures ReadOrigin(Serialized(p)) == Some(p)
  {
    hide ReadAuthority, IsHost, IsAllowed, ReadOrigin, Numeral, SchemeText, Value, AllDigits;
    var n := p.port.GetOr(0);
    LastOfHost(p.host);
    ReadHostAndPort(p.secure, p.host, Numeral(n));
    ValueOfNumeral(n);
    LastDigit(Numeral(n));
    if p.port.Some? {
      assert p.host + PortText(p.port) == p.host + ":" + Numeral(n);
      ReadWritten(p.secure, p.host + ":" + Numeral(n));
    } else {
      assert p.host + PortText(p.port) == p.host;
      HostNotEmpty(p.host);
      ReadWritten(p.secure, p.host);
    }
  }

  lemma HostNotEmpty(h: string)
    requires IsHost(h)
    ensures h != ""
  {}

  /** Normalizing an accepted origin again changes nothing. */
  lemma NormalizingIsIdempotent(value: string)
    requires NormalizeOrigin(value).Some?
    ensures NormalizeOrigin(NormalizeOrigin(value).value) == NormalizeOrigin(value)
  {
    hide ReadOrigin, Serialized, Canonical;
    AcceptedIsCanonical(value);
    CanonicalReadsBack(ReadOrigin(value).value);
  }

  // ---- Different spellings of a port --------------------------------------------------------

  predicate Zeros(z: string) { forall i | 0 <= i < |z| :: z[i] == '0' }

  lemma {:induction false} ZerosDoNotCount(z: string, s: string)
    requires Zeros(z) && AllDigits(s)
    ensures AllDigits(z + s) && Value(z + s) == Value(s)
  {
    if z == "" {
      assert z + s == s;
    } else {
      ZerosDoNotCount(z[1..], s);
      LeadingZero(z[1..] + s);
      assert z + s == "0" + (z[1..] + s);
    }
  }

  /** Leading zeros in a port do not count, the default port is dropped, too large ones are refused. */
  lemma PortIsRead(secure: bool, host: string, zeros: string, n: nat)
    requires IsHost(host) && Zeros(zeros)
    ensures NormalizeOrigin(SchemeText(secure) + "://" + (host + ":" + (zeros + Numeral(n)))) ==
              if n > 65535 then None
              else if n == DefaultPort(secure) then Some(Serialized(Parts(secure, host, None)))
              else Some(Serialized(Parts(secure, host, Some(n))))
  {
    hide ReadAuthority, IsHost, IsAllowed, ReadOrigin, Numeral, SchemeText, Value, AllDigits, Zeros, Serialized;
    ZerosDoNotCount(zeros, Numeral(n));
    ValueOfNumeral(n);
    ReadHostAndPort(secure, host, zeros + Numeral(n));
    LastDigit(zeros + Numeral(n));
    ReadWritten(secure, host + ":" + (zeros + Numeral(n)));
  }

  // ---- Case ---------------------------------------------------------------------------------

  lemma LowerSlices(s: string, i: nat, j: nat)
    requires i <= j <= |s|
    ensures ToLower(s)[i..j] == ToLower(s[i..j])
  {
    assert forall k | 0 <= k < j - i :: s[i..j][k] == s[i + k];
  }

  lemma LowerKeepsWhitespace(s: string, i: nat)
    requires i < |s|
    ensures IsWhitespace(ToLower(s)[i]) <==> IsWhitespace(s[i])
  {}

  lemma {:induction false} LowerTrimStart(s: string)
    ensures TrimStart(ToLower(s)) == ToLower(TrimStart(s))
  {
    hide IsWhitespace, ToLower;
    if s != "" {
      LowerKeepsWhitespace(s, 0);
      LowerSlices(s, 1, |s|);
      assert ToLower(s)[1..] == ToLower(s)[1..|s|] && s[1..] == s[1..|s|];
      LowerTrimStart(s[1..]);
    }
  }

  lemma {:induction false} LowerTrimEnd(s: string)
    ensures TrimEnd(ToLower(s)) == ToLower(TrimEnd(s))
  {
    hide IsWhitespace, ToLower;
    if s != "" {
      LowerKeepsWhitespace(s, |s| - 1);
      LowerSlices(s, 0, |s| - 1);
      assert ToLower(s)[..|s| - 1] == ToLower(s)[0..|s| - 1] && s[..|s| - 1] == s[0..|s| - 1];
      LowerTrimEnd(s[..|s| - 1]);
    }
  }

  lemma LowerStripSlash(s: string)
    ensures StripSlash(ToLower(s)) == ToLower(StripSlash(s))
  {
    if s != "" {
      LowerSlices(s, 0, |s| - 1);
      assert ToLower(s)[..|s| - 1] == ToLower(s)[0..|s| - 1] && s[..|s| - 1] == s[0..|s| - 1];
    }
  }

  lemma LowerKeepsScheme(s: string, k: nat)
    ensures SchemeAt(ToLower(s), k) <==> SchemeAt(s, k)
  {}

  lemma LowerSplits(s: string)
    ensures HasScheme(ToLower(s)) <==> HasScheme(s)
    ensures HasScheme(s) ==> SchemeOf(ToLower(s)) == ToLower(SchemeOf(s)) && Rest(ToLower(s)) == ToLower(Rest(s))
  {
    hide ToLower, SchemeAt, Head;
    var l := ToLower(s);
    forall k: nat ensures SchemeAt(l, k) <==> SchemeAt(s, k) {
      LowerKeepsScheme(s, k);
    }
    if HasScheme(s) {
      var k := FirstScheme(s);
      HeadIs(s, k);
      HeadIs(l, k);
      FitsScheme(s, k);
      LowerSlices(s, 0, k);
      LowerSlices(s, k + 3, |s|);
      assert l[..k + 3][..k] == l[0..k] && s[..k + 3][..k] == s[0..k];
      assert l[k + 3..] == l[k + 3..|s|] && s[k + 3..] == s[k + 3..|s|];
    }
  }

  lemma LowerAuthority(secure: bool, a: string)
    ensures ReadAuthority(secure, ToLower(a)) == ReadAuthority(secure, a)
  {
    hide AllAllowed, SplitHost, ReadPort;
    LowerFacts(a);
  }

  lemma LowerReads(value: string)
    ensures ReadOrigin(ToLower(value)) == ReadOrigin(value)
  {
    hide ToLower, ReadAuthority, HasScheme, SchemeOf, Rest, StripSlash;
    LowerTrimStart(value);
    LowerTrimEnd(TrimStart(value));
    LowerStripSlash(Trim(value));
    var v := StripSlash(Trim(value));
    LowerSplits(v);
    LowerFacts(SchemeOf(v));
    LowerAuthority(false, Rest(v));
    LowerAuthority(true, Rest(v));
  }

  /** Upper and lower case do not matter. */
  lemma CaseDoesNotMatter(a: string, b: string)
    requires ToLower(a) == ToLower(b)
    ensures NormalizeOrigin(a) == NormalizeOrigin(b)
  {
    hide ToLower, ReadOrigin;
    LowerReads(a);
    LowerReads(b);
  }

  // ---- Space around, and a slash behind -----------------------------------------------------

  lemma {:induction false} PaddingIsTrimmed(a: string, t: string, b: string)
    requires (forall i | 0 <= i < |a| :: IsWhitespace(a[i])) && (forall i | 0 <= i < |b| :: IsWhitespace(b[i]))
    ensures Trim(a + t + b) == Trim(t)
    decreases |a| + |b|
  {
    hide IsWhitespace, TrimEnd;
    if a != "" {
      PaddingIsTrimmed(a[1..], t, b);
      assert (a + t + b)[1..] == a[1..] + t + b;
    } else if b != "" {
      var n := |b| - 1;
      PaddingIsTrimmed(a, t, b[..n]);
      TrimDropsLast(a + t + b);
      assert (a + t + b)[..|a + t + b| - 1] == a + t + b[..n];
    } else {
      assert a + t + b == t;
    }
  }

  /** Surrounding whitespace does not matter. */
  lemma SpaceDoesNotMatter(a: string, t: string, b: string)
    requires (forall i | 0 <= i < |a| :: IsWhitespace(a[i])) && (forall i | 0 <= i < |b| :: IsWhitespace(b[i]))
    ensures NormalizeOrigin(a + t + b) == NormalizeOrigin(t)
  {
    hide ReadTrimmed, StripSlash, Trim;
    PaddingIsTrimmed(a, t, b);
  }

  /** The last character of an accepted text belongs to its authority. */
  lemma LastIsAllowed(v: string)
    requires ReadTrimmed(v).Some?
    ensures v != "" && IsAllowed(v[|v| - 1])
  {
    hide ReadPort, SplitHost, IsAllowed, Head, SchemeOf, HasScheme;
    HeadIsPrefix(v);
    var a := Rest(v);
    assert a != "" && AllAllowed(a);
    assert v[|v| - 1] == a[|a| - 1];
  }

  lemma TrimBeforeSlash(v: string)
    ensures Trim(v + "/") == TrimStart(v) + "/"
  {
    hide IsWhitespace, TrimStart, TrimEnd;
    StartBeforeSlash(v);
    var s := TrimStart(v) + "/";
    EndAtSlash(s);
  }

  lemma {:induction false} StartBeforeSlash(v: string)
    ensures TrimStart(v + "/") == TrimStart(v) + "/"
  {
    hide IsWhitespace;
    WhitespaceFacts();
    if v == "" {
      assert v + "/" == "/";
      assert TrimStart("/") == "/";
    } else {
      assert (v + "/")[1..] == v[1..] + "/";
      StartBeforeSlash(v[1..]);
    }
  }

  lemma EndAtSlash(s: string)
    requires s != "" && s[|s| - 1] == '/'
    ensures TrimEnd(s) == s
  {
    WhitespaceFacts();
  }

  /**
   One slash behind a text does not matter, exactly when the text is refused or ends neither in a
   slash nor in whitespace: a refused text stays refused.
   */
  lemma SlashDoesNotMatter(value: string)
    ensures NormalizeOrigin(value + "/") == NormalizeOrigin(value) <==>
              NormalizeOrigin(value).None? ||
              (value != "" && value[|value| - 1] != '/' && !IsWhitespace(value[|value| - 1]))
  {
    hide IsWhitespace, TrimStart, ReadTrimmed, IsAllowed, Serialized;
    TrimNothing();
    TrimBeforeSlash(value);
    NothingIsNoOrigin();
    var t := TrimStart(value);
    assert StripSlash(t + "/") == t;
    assert ReadOrigin(value + "/") == ReadTrimmed(t);
    StartEnds(value);
    if ReadTrimmed(t).Some? {
      LastIsAllowed(t);
      AllowedIsPlain(t[|t| - 1]);
    }
    if value != "" && !IsWhitespace(value[|value| - 1]) && value[|value| - 1] != '/' {
      EndIsPlainAlready(t);
    }
  }

  lemma TrimNothing()
    ensures Trim("") == ""
  {}

  lemma NothingIsNoOrigin()
    ensures ReadTrimmed("") == None
  {}

  lemma EndIsPlainAlready(t: string)
    requires t == "" || !IsWhitespace(t[|t| - 1])
    ensures TrimEnd(t) == t
  {}

  lemma {:induction false} StartEnds(s: string)
    ensures TrimStart(s) != "" ==> s != "" && TrimStart(s)[|TrimStart(s)| - 1] == s[|s| - 1]
  {
    hide IsWhitespace;
    if s != "" {
      StartEnds(s[1..]);
    }
  }

  // ---- Which origins are accepted -----------------------------------------------------------

  /** A letter of either case, a digit, or one of `-.:[]`. */
  predicate OriginCharacter(c: char) {
    || 0x41 as char <= c <= 0x5A as char || 0x61 as char <= c <= 0x7A as char || 0x30 as char <= c <= 0x39 as char
    || c == 0x2D as char || c == 0x2E as char || c == 0x3A as char || c == 0x5B as char || c == 0x5D as char
  }

  /** The name of a host: lower-case letters, digits, hyphens and dots. */
  predicate HostName(h: string) {
    && h != ""
    && forall i | 0 <= i < |h| ::
         OriginCharacter(h[i]) && h[i] != ':' && h[i] != '[' && h[i] != ']' && !('A' <= h[i] <= 'Z')
  }

  lemma HostNameIsHost(h: string)
    requires HostName(h)
    ensures IsHost(h)
  {
    LowerIsLower(h);
  }

  /** A host name is accepted under either scheme; a port is kept unless it is 80 or 443 or beyond 65535. */
  lemma HostsAreAccepted(h: string, n: nat)
    requires HostName(h)
    ensures NormalizeOrigin("http://" + h) == Some("http://" + h)
    ensures NormalizeOrigin("https://" + h) == Some("https://" + h)
    ensures NormalizeOrigin("http://" + h + ":" + Numeral(n)) ==
              if n > 65535 then None
              else if n == 80 then Some("http://" + h)
              else Some("http://" + h + ":" + Numeral(n))
    ensures NormalizeOrigin("https://" + h + ":" + Numeral(n)) ==
              if n > 65535 then None
              else if n == 443 then Some("https://" + h)
              else Some("https://" + h + ":" + Numeral(n))
  {
    hide NormalizeOrigin, IsHost, HostName, Numeral;
    HostNameIsHost(h);
    OneHost(false, h, n);
    OneHost(true, h, n);
    SchemesInText(h);
    assert "http://" + h + ":" + Numeral(n) == "http://" + (h + ":" + Numeral(n));
    assert "https://" + h + ":" + Numeral(n) == "https://" + (h + ":" + Numeral(n));
    SchemesInText(h + ":" + Numeral(n));
  }

  lemma SchemesInText(rest: string)
    ensures SchemeText(false) + "://" + rest == "http://" + rest && SchemeText(true) + "://" + rest == "https://" + rest
  {}

  lemma OneHost(secure: bool, h: string, n: nat)
    requires IsHost(h)
    ensures NormalizeOrigin(SchemeText(secure) + "://" + h) == Some(SchemeText(secure) + "://" + h)
    ensures NormalizeOrigin(SchemeText(secure) + "://" + (h + ":" + Numeral(n))) ==
              if n > 65535 then None
              else if n == (if secure then 443 else 80) then Some(SchemeText(secure) + "://" + h)
              else Some(SchemeText(secure) + "://" + (h + ":" + Numeral(n)))
  {
    hide ReadOrigin, IsHost, Numeral, SchemeText;
    CanonicalReadsBack(Parts(secure, h, None));
    assert h + "" == h && "" + Numeral(n) == Numeral(n);
    PortIsRead(secure, h, "", n);
    assert h + (":" + Numeral(n)) == h + ":" + Numeral(n);
  }

  /** What is accepted consists of such characters, behind one of the two schemes. */
  lemma NothingElseIsAccepted(value: string)
    requires NormalizeOrigin(value).Some?
    ensures var v := StripSlash(Trim(value));
            var a := Rest(v);
            && HasScheme(v) && a != "" && (forall i | 0 <= i < |a| :: OriginCharacter(a[i]))
            && (SameButCase(SchemeOf(v), "http") || SameButCase(SchemeOf(v), "https"))
  {
    hide Trim, StripSlash, HasScheme, SchemeOf, Rest, ToLower, SameButCase, SplitHost, ReadPort;
    var v := StripSlash(Trim(value));
    SchemesAreLower();
    LowerIgnoresCase(SchemeOf(v), "http");
    LowerIgnoresCase(SchemeOf(v), "https");
  }

  lemma SchemesAreLower()
    ensures ToLower("http") == "http" && ToLower("https") == "https"
  {}
}
