/** Printing a URI part and parsing it recovers the part, with the exact
    condition where the parser is stricter than RFC 3986. */
module UriProof {
  import opened Strings
  import opened Uri

  predicate NoDoubleSlash(s: string) {
    forall i :: 0 <= i < |s| ==> !PairAt(s, '/', '/', i)
  }

  const PATH_AND_QUERY := Flags(false, false, true, true)

  /** An origin-form target: an absolute path, and a query with its question mark. */
  predicate IsOrigin(path: string, query: string) {
    && path != "" && path[0] == '/' && IsPath(path)
    && (query != "" ==> query[0] == '?' && All(query, IsQueryChar))
  }

  lemma OriginMarks(path: string, query: string)
    requires IsOrigin(path, query)
    ensures var t := path + query;
            && FindChar(t, '/', 0) == Some(0)
            && FindChar(t, '?', 0) == (if query == "" then None else Some(|path|))
            && t[..|path|] == path && t[|path|..] == query
  {
    var t := path + query;
    assert t[0] == '/';
    forall i | 0 <= i < |path| ensures t[i] != '?' {
      assert t[i] == path[i];
    }
    if query == "" {
      FindCharNot(t, '?', 0);
    } else {
      assert t[|path|] == '?';
      FindCharIs(t, '?', 0, |path|);
    }
  }

  /** A target without "//" is cut into exactly its path and its query. */
  lemma OriginRecovered(u: UriV, path: string, query: string)
    requires IsOrigin(path, query) && NoDoubleSlash(path + query) && !u.hasErr && u.fault == NoFault
    ensures Parsed(u, path + query, PATH_AND_QUERY)
            == (if query == "" then u.(path := path) else u.(path := path, query := query))
  {
    var t := path + query;
    OriginMarks(path, query);
    assert FindPair(t, '/', '/', 0) == None;
    assert t[0..|path|] == path;
    assert query == "" ==> t[0..] == path;
  }

  /** With "//" in the query the parser takes the path to start after it: it finds
      none, or one that starts behind the end it was given. */
  lemma OriginLost(u: UriV, path: string, query: string)
    requires IsOrigin(path, query) && !NoDoubleSlash(path + query) && u.fault == NoFault
    ensures var r := Parsed(u, path + query, PATH_AND_QUERY);
            r.fault == Wild || r.path == u.path
  {
    var t := path + query;
    OriginMarks(path, query);
    var i :| 0 <= i < |t| && PairAt(t, '/', '/', i);
    assert FindPair(t, '/', '/', 0).Some?;
    var a := FindPair(t, '/', '/', 0).value;
    forall j | 0 <= j < |path| ensures !PairAt(t, '/', '/', j) {
      assert t[j] == path[j];
      assert j + 1 < |path| ==> t[j + 1] == path[j + 1] && !PairAt(path, '/', '/', j);
      assert j + 1 == |path| && j + 1 < |t| ==> t[j + 1] == query[0];
    }
  }

  /** The origin-form round trip holds if and only if "//" occurs nowhere in the
      target, although RFC 3986 section 3.4 allows it in a query. */
  lemma OriginRoundTrip(u: UriV, path: string, query: string)
    requires IsOrigin(path, query) && !u.hasErr && u.fault == NoFault && u.path == "" && u.query == ""
    ensures NoDoubleSlash(path + query)
            <==> Parsed(u, path + query, PATH_AND_QUERY) == u.(path := path, query := query)
  {
    hide Parsed;
    if NoDoubleSlash(path + query) {
      OriginRecovered(u, path, query);
    } else {
      OriginLost(u, path, query);
    }
  }

  // -------------------------------------------------------------- authority

  /** RFC 3986 section 3.2.2. */
  datatype Host = RegName(name: string) | Ipv6(text: string) | Future(version: string, address: string)

  predicate IsUserinfo(s: string) {
    All(s, c => IsUnreserved(c) || IsSubDelimiter(c) || c == ':')
  }

  predicate IsHost(h: Host) {
    match h
    case RegName(n) => n != "" && All(n, IsRegNameChar)
    case Ipv6(t) => t != "" && ToLower(t[0]) != 'v' && '@' !in t && ']' !in t
    case Future(v, a) => v != "" && All(v, IsHex) && a != "" && All(a, IsFutureChar)
  }

  /** A port of at most 2^31 - 1; leading zeros and the empty port are allowed. */
  predicate IsPort(s: string) {
    All(s, IsDigit) && DecVal(s) <= INT_MAX
  }

  function PrintHost(h: Host): string {
    match h
    case RegName(n) => n
    case Ipv6(t) => "[" + t + "]"
    case Future(v, a) => "[v" + v + "." + a + "]"
  }

  function PrintUserinfo(userinfo: Option<string>): string {
    match userinfo case Some(s) => s + "@" case None => ""
  }

  function PrintPort(port: Option<string>): string {
    match port case Some(s) => ":" + s case None => ""
  }

  function PrintAuthority(userinfo: Option<string>, h: Host, port: Option<string>): string {
    PrintUserinfo(userinfo) + PrintHost(h) + PrintPort(port)
  }

  predicate IsAuthority(userinfo: Option<string>, h: Host, port: Option<string>) {
    && (userinfo.Some? ==> IsUserinfo(userinfo.value))
    && IsHost(h)
    && (port.Some? ==> IsPort(port.value))
  }

  function UserinfoSet(u: UriV, userinfo: Option<string>): UriV {
    match userinfo case Some(s) => u.(userinfo := s) case None => u
  }

  function HostSet(u: UriV, h: Host): UriV {
    match h
    case RegName(n) => u.(ipv4 := n, regName := n)
    case Ipv6(t) => u.(ipv6 := t)
    case Future(v, a) => u.(futureVersion := v, ipvfuture := a)
  }

  function PortSet(u: UriV, port: Option<string>): UriV {
    match port
    case Some(s) => if s == "" || !All(s, IsDigit) then u.(port := NO_PORT) else u.(port := DecVal(s))
    case None => u.(port := NO_PORT)
  }

  lemma FutureRecovered(u: UriV, v: string, a: string)
    requires IsHost(Future(v, a)) && !u.hasErr
    ensures WithIpvfuture(u, "v" + v + "." + a) == HostSet(u, Future(v, a))
  {
    var s := "v" + v + "." + a;
    var dot := 1 + |v|;
    assert s[0] == 'v' && s[dot] == '.';
    forall i | 0 <= i < dot ensures s[i] != '.' {
      assert i > 0 ==> s[i] == v[i - 1];
    }
    FindCharIs(s, '.', 0, dot);
    assert s[1..dot] == v && s[dot + 1..] == a;
  }

  lemma HostRecovered(u: UriV, h: Host)
    requires IsHost(h) && !u.hasErr
    ensures WithHost(u, PrintHost(h)) == HostSet(u, h)
  {
    var s := PrintHost(h);
    match h
    case RegName(n) =>
      assert IsRegNameChar(n[0]);
    case Ipv6(t) =>
      assert s[1] == t[0] && s[1..|s| - 1] == t;
    case Future(v, a) =>
      assert s[1] == 'v' && s[1..|s| - 1] == "v" + v + "." + a;
      hide WithIpvfuture;
      FutureRecovered(u, v, a);
  }

  lemma PortRecovered(u: UriV, s: string)
    requires IsPort(s) && !u.hasErr
    ensures WithPort(u, s) == PortSet(u, Some(s))
  {
    if s != "" {
      StoiDigits(s);
    }
  }

  /** The characters a printed host can and cannot hold. */
  lemma HostChars(h: Host)
    requires IsHost(h)
    ensures var s := PrintHost(h);
            && s != "" && '@' !in s
            && (h.RegName? ==> ':' !in s && ']' !in s)
            && (!h.RegName? ==> s[|s| - 1] == ']' && forall i :: 0 <= i < |s| - 1 ==> s[i] != ']')
  {
    var s := PrintHost(h);
    match h
    case RegName(n) =>
      forall i | 0 <= i < |s| ensures s[i] != '@' && s[i] != ':' && s[i] != ']' {
        assert IsRegNameChar(n[i]);
      }
    case Ipv6(t) =>
      forall i | 0 < i < |s| - 1 ensures s[i] != '@' && s[i] != ']' {
        assert s[i] == t[i - 1] && t[i - 1] in t;
      }
    case Future(v, a) =>
      forall i | 0 < i < |s| - 1 ensures s[i] != '@' && s[i] != ']' {
        assert 1 < i < |v| + 2 ==> s[i] == v[i - 2] && IsHex(v[i - 2]);
        assert i > |v| + 2 ==> s[i] == a[i - |v| - 3] && IsFutureChar(a[i - |v| - 3]);
      }
  }

  lemma UserinfoChars(userinfo: Option<string>)
    requires userinfo.Some? ==> IsUserinfo(userinfo.value)
    ensures var s := PrintUserinfo(userinfo);
            && ']' !in s
            && (userinfo.None? ==> s == "")
            && (userinfo.Some? ==> |s| == |userinfo.value| + 1 && s[|s| - 1] == '@')
            && forall i :: 0 <= i < |s| - 1 ==> s[i] != '@' && userinfo.Some? && s[i] == userinfo.value[i]
  {
    if userinfo.Some? {
      var v := userinfo.value;
      forall i | 0 <= i < |v| ensures v[i] != ']' && v[i] != '@' {
        assert IsUnreserved(v[i]) || IsSubDelimiter(v[i]) || v[i] == ':';
      }
    }
  }

  lemma PortChars(port: Option<string>)
    requires port.Some? ==> IsPort(port.value)
    ensures var s := PrintPort(port);
            '@' !in s && ']' !in s && (s != "" ==> s[0] == ':') && (s == "" <==> port.None?)
  {
    if port.Some? {
      forall i | 0 <= i < |port.value| ensures port.value[i] != '@' && port.value[i] != ']' {
        assert IsDigit(port.value[i]);
      }
    }
  }

  /** Whether the colon that starts the port is looked for from behind the
      userinfo on. */
  predicate ColonSafe(userinfo: Option<string>, h: Host) {
    h.RegName? && userinfo.Some? ==> ':' !in userinfo.value
  }

  lemma AuthorityMarks(userinfo: Option<string>, h: Host, port: Option<string>)
    requires IsAuthority(userinfo, h, port)
    ensures var s := PrintAuthority(userinfo, h, port);
            var i, j := |PrintUserinfo(userinfo)|, |PrintUserinfo(userinfo)| + |PrintHost(h)|;
            && FindChar(s, '@', 0) == (if userinfo.Some? then Some(i - 1) else None)
            && s[i..j] == PrintHost(h) && s[i..] == PrintHost(h) + PrintPort(port)
            && (ColonSafe(userinfo, h) ==> PortStart(s) == if port.Some? then Some(j) else None)
            && (!ColonSafe(userinfo, h) ==> PortStart(s).Some? && PortStart(s).value < i)
  {
    hide PrintUserinfo, PrintHost, PrintPort, IsHost, IsUserinfo, IsPort, PortStart, FindChar;
    var a, b, c := PrintUserinfo(userinfo), PrintHost(h), PrintPort(port);
    var s := PrintAuthority(userinfo, h, port);
    UserinfoChars(userinfo);
    HostChars(h);
    PortChars(port);
    MarksOf(s, a, b, c, userinfo.Some?, h.RegName?);
    ColonFree(userinfo, a);
    if !ColonSafe(userinfo, h) {
      var k :| 0 <= k < |userinfo.value| && userinfo.value[k] == ':';
      PortTooEarly(s, a, b + c, k);
    }
  }

  lemma ColonFree(userinfo: Option<string>, a: string)
    requires userinfo.None? ==> a == ""
    requires userinfo.Some? ==> |a| == |userinfo.value| + 1 && a[|a| - 1] == '@'
    requires userinfo.Some? ==> forall i :: 0 <= i < |a| - 1 ==> a[i] == userinfo.value[i]
    ensures ':' in a <==> userinfo.Some? && ':' in userinfo.value
  {
    if userinfo.Some? && ':' in userinfo.value {
      var k :| 0 <= k < |userinfo.value| && userinfo.value[k] == ':';
      assert a[k] == ':';
    }
  }

  /** A colon in the userinfo is the first one from the start of s. */
  lemma PortTooEarly(s: string, a: string, rest: string, k: nat)
    requires s == a + rest && k < |a| && a[k] == ':' && FindChar(s, ']', 0) == None
    ensures PortStart(s).Some? && PortStart(s).value < |a|
  {
    assert s[k] == ':';
  }

  lemma PartsOf(s: string, a: string, b: string, c: string)
    requires s == a + b + c
    ensures |s| == |a| + |b| + |c| && s[|a|..|a| + |b|] == b && s[|a|..] == b + c
    ensures forall k :: 0 <= k < |a| ==> s[k] == a[k]
    ensures forall k :: |a| <= k < |a| + |b| ==> s[k] == b[k - |a|]
    ensures forall k :: |a| + |b| <= k < |s| ==> s[k] == c[k - |a| - |b|]
  {
  }

  /** The first x is the one at the end of a, or there is none. */
  lemma MarkAtEndOf(s: string, a: string, rest: string, x: char)
    requires s == a + rest && x !in rest
    requires forall i :: 0 <= i < |a| - 1 ==> a[i] != x
    ensures FindChar(s, x, 0) == if a != "" && a[|a| - 1] == x then Some(|a| - 1) else None
  {
    forall i | 0 <= i < |s|
      ensures s[i] == if i < |a| then a[i] else rest[i - |a|]
    {
    }
    if a != "" && a[|a| - 1] == x {
      FindCharIs(s, x, 0, |a| - 1);
    } else {
      FindCharNot(s, x, 0);
    }
  }

  /** What the parts of an authority may hold: '@' ends the userinfo and occurs nowhere
      else, ']' ends a bracketed host, and ':' starts the port. */
  predicate Parts(a: string, b: string, c: string, hasUserinfo: bool, plain: bool) {
    && b != "" && ']' !in a && (forall i :: 0 <= i < |a| - 1 ==> a[i] != '@')
    && (if hasUserinfo then a != "" && a[|a| - 1] == '@' else a == "")
    && '@' !in b && '@' !in c && ']' !in c && (c != "" ==> c[0] == ':')
    && (if plain then ':' !in b && ']' !in b else b[|b| - 1] == ']' && forall i :: 0 <= i < |b| - 1 ==> b[i] != ']')
  }

  lemma AtMark(s: string, a: string, b: string, c: string, hasUserinfo: bool, plain: bool)
    requires s == a + b + c && Parts(a, b, c, hasUserinfo, plain)
    ensures FindChar(s, '@', 0) == if hasUserinfo then Some(|a| - 1) else None
  {
    hide FindChar;
    assert s == a + (b + c);
    MarkAtEndOf(s, a, b + c, '@');
  }

  lemma BracketMark(s: string, a: string, b: string, c: string, hasUserinfo: bool, plain: bool)
    requires s == a + b + c && Parts(a, b, c, hasUserinfo, plain)
    ensures FindChar(s, ']', 0) == if plain then None else Some(|a| + |b| - 1)
  {
    hide FindChar;
    forall i | 0 <= i < |a + b| - 1
      ensures (a + b)[i] != ']'
    {
      assert (a + b)[i] == if i < |a| then a[i] else b[i - |a|];
    }
    MarkAtEndOf(s, a + b, c, ']');
  }

  lemma ColonMark(s: string, a: string, b: string, c: string, hasUserinfo: bool, plain: bool)
    requires s == a + b + c && Parts(a, b, c, hasUserinfo, plain) && (!plain || ':' !in a)
    requires FindChar(s, ']', 0) == if plain then None else Some(|a| + |b| - 1)
    ensures PortStart(s) == if c != "" then Some(|a| + |b|) else None
  {
    hide FindChar;
    PortMark(s, a + b, c, if plain then 0 else |a| + |b| - 1);
  }

  lemma {:induction false} MarksOf(s: string, a: string, b: string, c: string, hasUserinfo: bool, plain: bool)
    requires s == a + b + c && Parts(a, b, c, hasUserinfo, plain)
    ensures FindChar(s, '@', 0) == if hasUserinfo then Some(|a| - 1) else None
    ensures s[|a|..|a| + |b|] == b && s[|a|..] == b + c
    ensures FindChar(s, ']', 0) == if plain then None else Some(|a| + |b| - 1)
    ensures !plain || ':' !in a ==> PortStart(s) == if c != "" then Some(|a| + |b|) else None
  {
    hide FindChar, Parts, PortStart;
    PartsOf(s, a, b, c);
    AtMark(s, a, b, c, hasUserinfo, plain);
    BracketMark(s, a, b, c, hasUserinfo, plain);
    if !plain || ':' !in a {
      ColonMark(s, a, b, c, hasUserinfo, plain);
    }
  }

  /** Nothing from `from` on but the first character of c is a colon. */
  lemma PortMark(s: string, ab: string, c: string, from: nat)
    requires s == ab + c && from < |ab| && (c != "" ==> c[0] == ':')
    requires forall i :: from <= i < |ab| ==> ab[i] != ':'
    ensures FindChar(s, ':', from) == if c != "" then Some(|ab|) else None
  {
    forall i | from <= i < |ab|
      ensures s[i] != ':'
    {
      assert s[i] == ab[i];
    }
    if c != "" {
      FindCharIs(s, ':', from, |ab|);
    } else {
      FindCharNot(s, ':', from);
    }
  }

  function AuthoritySet(u: UriV, userinfo: Option<string>, h: Host, port: Option<string>): UriV {
    PortSet(HostSet(UserinfoSet(u, userinfo), h), port)
  }

  /** parse_authority where its marks are known. */
  lemma AuthorityCut(u: UriV, s: string, u1: UriV, i: nat, end: nat, port: Option<nat>)
    requires i <= end <= |s| && (port.Some? ==> end == port.value < |s|) && (port.None? ==> end == |s|)
    requires FindChar(s, '@', 0) == if i == 0 then None else Some(i - 1)
    requires PortStart(s) == port && u1 == if i == 0 then u else WithUserinfo(u, s[..i - 1])
    ensures WithAuthority(u, s) == var u2 := WithHost(u1, s[i..end]);
              match port case None => u2.(port := NO_PORT) case Some(p) => WithPort(u2, s[p + 1..])
  {
    hide WithHost, WithPort, PortStart, FindChar;
    assert s[i..|s|] == s[i..];
  }

  lemma AuthorityParts(userinfo: Option<string>, h: Host, port: Option<string>)
    ensures var s := PrintAuthority(userinfo, h, port);
            var i, j := |PrintUserinfo(userinfo)|, |PrintUserinfo(userinfo)| + |PrintHost(h)|;
            && i <= j <= |s|
            && (match userinfo case Some(v) => i > 0 && s[..i - 1] == v case None => i == 0)
            && (match port case Some(v) => j < |s| && s[j + 1..] == v case None => j == |s|)
  {
    hide PrintHost;
    var b := PrintHost(h);
    var s, c := PrintAuthority(userinfo, h, port), PrintPort(port);
    PartsOf(s, PrintUserinfo(userinfo), b, c);
    if userinfo.Some? {
      assert s[..|userinfo.value|] == userinfo.value;
    }
  }

  lemma UserinfoKept(u: UriV, userinfo: Option<string>, s: string, i: nat)
    requires !u.hasErr && i <= |s|
    requires match userinfo case Some(v) => i > 0 && s[..i - 1] == v case None => i == 0
    ensures UserinfoSet(u, userinfo) == if i == 0 then u else WithUserinfo(u, s[..i - 1])
    ensures !UserinfoSet(u, userinfo).hasErr
  {
  }

  lemma AuthorityRecovered(u: UriV, userinfo: Option<string>, h: Host, port: Option<string>)
    requires IsAuthority(userinfo, h, port) && ColonSafe(userinfo, h) && !u.hasErr
    ensures WithAuthority(u, PrintAuthority(userinfo, h, port)) == AuthoritySet(u, userinfo, h, port)
  {
    hide WithAuthority, PortStart, FindChar, WithHost, WithPort, IsHost, IsPort, IsUserinfo, HostSet, PortSet;
    hide ColonSafe;
    hide PrintHost, PrintUserinfo, PrintPort, PrintAuthority, UserinfoSet, WithUserinfo;
    var s := PrintAuthority(userinfo, h, port);
    var i, j := |PrintUserinfo(userinfo)|, |PrintUserinfo(userinfo)| + |PrintHost(h)|;
    AuthorityMarks(userinfo, h, port);
    AuthorityParts(userinfo, h, port);
    UserinfoKept(u, userinfo, s, i);
    var u1 := UserinfoSet(u, userinfo);
    HostRecovered(u1, h);
    HostSetKeeps(u1, h);
    AuthorityCut(u, s, u1, i, j, if port.Some? then Some(j) else None);
    if port.Some? {
      PortRecovered(HostSet(u1, h), port.value);
    } else {
      NoPortSet(HostSet(u1, h));
    }
  }

  lemma HostSetKeeps(u: UriV, h: Host)
    ensures HostSet(u, h).hasErr == u.hasErr && HostSet(u, h).fault == u.fault
  {
  }

  lemma NoPortSet(u: UriV)
    ensures PortSet(u, None) == u.(port := NO_PORT)
  {
  }

  /** Every component of a printed authority comes back with no error if and only
      if the userinfo is colon-free or the host is in brackets. RFC 3986 section
      3.2.1 allows the colon; the parser takes it for the port's. */
  lemma {:induction false} AuthorityRoundTrip(u: UriV, userinfo: Option<string>, h: Host, port: Option<string>)
    requires IsAuthority(userinfo, h, port) && !u.hasErr && u.fault == NoFault
    ensures ColonSafe(userinfo, h)
            <==> WithAuthority(u, PrintAuthority(userinfo, h, port)) == AuthoritySet(u, userinfo, h, port)
  {
    if ColonSafe(userinfo, h) {
      hide *;
      AuthorityRecovered(u, userinfo, h, port);
    } else {
      AuthorityMarks(userinfo, h, port);
      hide WithHost, WithPort, PrintHost, PrintPort;
      assert WithAuthority(u, PrintAuthority(userinfo, h, port)).fault == Wild;
    }
  }
}
