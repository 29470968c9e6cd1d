/** What the URI parsers refuse, on the characters of the text (RFC 3986 appendix A),
    and where a refusal is lost: every parser overwrites the error flag, so that the
    last one to write it decides. */
module UriRefusals {
  import opened Strings
  import opened Uri
  import opened UriProof

  const UPPER := "ABCDEFGHIJKLMNOPQRSTUVWXYZ"
  const LOWER := "abcdefghijklmnopqrstuvwxyz"
  const LETTERS := UPPER + LOWER
  const DIGITS := "0123456789"
  const UNRESERVED := LETTERS + DIGITS + "-._~"
  const SUB_DELIMS := "!$&'()*+,;="
  const PCHARS := UNRESERVED + SUB_DELIMS + ":@"

  predicate Only(s: string, chars: string) {
    forall i :: 0 <= i < |s| ==> s[i] in chars
  }

  lemma Uppers(c: char)
    ensures IsUpper(c) <==> c in UPPER
  {
    if IsUpper(c) {
      assert UPPER[c as int - 'A' as int] == c;
    }
  }

  lemma Lowers(c: char)
    ensures 'a' <= c <= 'z' <==> c in LOWER
  {
    if 'a' <= c <= 'z' {
      assert LOWER[c as int - 'a' as int] == c;
    }
  }

  lemma Letters(c: char)
    ensures IsAlpha(c) <==> c in LETTERS
  {
    hide UPPER, LOWER, IsUpper;
    Uppers(c);
    Lowers(c);
  }

  lemma Digits(c: char)
    ensures IsDigit(c) <==> c in DIGITS
  {
    if IsDigit(c) {
      assert DIGITS[c as int - '0' as int] == c;
    }
  }

  lemma Delims(c: char)
    ensures IsSubDelimiter(c) <==> c in SUB_DELIMS
  {
  }

  lemma Pchars(c: char)
    ensures IsUnreserved(c) <==> c in UNRESERVED
    ensures IsRegNameChar(c) <==> c in UNRESERVED + SUB_DELIMS
    ensures IsPchar(c) <==> c in PCHARS
    ensures IsQueryChar(c) <==> c in PCHARS + "/?"
    ensures IsSchemeChar(c) <==> c in LETTERS + DIGITS + "+-."
  {
    hide IsAlpha, IsDigit, IsSubDelimiter, LETTERS, DIGITS, SUB_DELIMS;
    Letters(c);
    Digits(c);
    Delims(c);
  }

  /** A path is accepted, and then stored, exactly if it consists of pchars and slashes
      and no two slashes are together. */
  lemma PathTaken(u: UriV, s: string)
    requires !u.hasErr
    ensures var r := WithPath(u, s);
            if Only(s, PCHARS + "/") && (forall i :: 0 <= i < |s| - 1 ==> s[i] != '/' || s[i + 1] != '/')
            then r == u.(path := s) else r == u.(hasErr := true)
  {
    hide IsPchar, PCHARS;
    forall c: char
      ensures IsPchar(c) <==> c in PCHARS
    {
      Pchars(c);
    }
    if !(forall i :: 0 <= i < |s| - 1 ==> s[i] != '/' || s[i + 1] != '/') {
      var i :| 0 <= i < |s| - 1 && s[i] == '/' && s[i + 1] == '/';
      assert PairAt(s, '/', '/', i);
    }
  }

  /** So is a query, which is stored anyway. */
  lemma QueryTaken(u: UriV, s: string)
    ensures WithQuery(u, s) == u.(hasErr := !Only(s, PCHARS + "/?"), query := s)
  {
    hide IsQueryChar, PCHARS;
    forall c: char
      ensures IsQueryChar(c) <==> c in PCHARS + "/?"
    {
      Pchars(c);
    }
  }

  lemma SchemeTaken(u: UriV, s: string)
    ensures WithScheme(u, s).hasErr <==> !(s != "" && s[0] in LETTERS && Only(s, LETTERS + DIGITS + "+-."))
    ensures s != "" && s[0] in LETTERS ==> WithScheme(u, s).scheme == s
  {
    hide IsSchemeChar, IsAlpha, LETTERS, DIGITS;
    forall c: char
      ensures (IsSchemeChar(c) <==> c in LETTERS + DIGITS + "+-.") && (IsAlpha(c) <==> c in LETTERS)
    {
      Pchars(c);
      Letters(c);
    }
  }

  lemma PortTaken(u: UriV, s: string)
    ensures WithPort(u, s).hasErr <==> !Only(s, DIGITS)
  {
    hide IsDigit, DIGITS, Stoi;
    forall c: char
      ensures IsDigit(c) <==> c in DIGITS
    {
      Digits(c);
    }
  }

  /** A host without brackets: accepted exactly if it is a registered name, stored as
      soon as it is not empty. */
  lemma NameTaken(u: UriV, s: string)
    requires s == "" || s[0] != '['
    ensures WithHost(u, s) == if s == "" then u.(hasErr := true)
                              else u.(hasErr := !Only(s, UNRESERVED + SUB_DELIMS), ipv4 := s, regName := s)
  {
    hide IsRegNameChar, UNRESERVED, SUB_DELIMS;
    forall c: char
      ensures IsRegNameChar(c) <==> c in UNRESERVED + SUB_DELIMS
    {
      Pchars(c);
    }
  }

  const HEX := DIGITS + "ABCDEFabcdef"

  lemma Hexes(c: char)
    ensures IsHex(c) <==> c in HEX
  {
    hide DIGITS, IsDigit;
    Digits(c);
  }

  lemma FutureChars(c: char)
    ensures IsFutureChar(c) <==> c in UNRESERVED + SUB_DELIMS + ":"
  {
    hide IsRegNameChar, UNRESERVED, SUB_DELIMS;
    Pchars(c);
  }

  /** The text of an IPvFuture host around its first dot. */
  lemma FutureTaken(u: UriV, v: string, a: string)
    requires '.' !in v
    ensures WithIpvfuture(u, "v" + v + "." + a).hasErr
            <==> !(v != "" && Only(v, HEX) && a != "" && Only(a, UNRESERVED + SUB_DELIMS + ":"))
  {
    hide IsHex, IsFutureChar, HEX, UNRESERVED, SUB_DELIMS, FindChar;
    var s := "v" + v + "." + a;
    var dot := 1 + |v|;
    assert s[dot] == '.' && forall i :: 0 < i < dot ==> s[i] == v[i - 1];
    FindCharIs(s, '.', 0, dot);
    assert s[1..dot] == v && s[dot + 1..] == a;
    forall c: char
      ensures (IsHex(c) <==> c in HEX) && (IsFutureChar(c) <==> c in UNRESERVED + SUB_DELIMS + ":")
    {
      Hexes(c);
      FutureChars(c);
    }
  }

  /** In brackets anything passes that does not start like an IPvFuture; an upper-case V
      never does. */
  lemma BracketTaken(u: UriV, t: string)
    ensures var r := WithHost(u, "[" + t + "]");
            && (t == "" || (t[0] != 'v' && t[0] != 'V') ==> r == u.(ipv6 := t))
            && (t != "" && t[0] == 'V' ==> r == u.(hasErr := true))
            && (t != "" && t[0] == 'v' ==> r == WithIpvfuture(u, t))
  {
    hide WithIpvfuture;
    var s := "[" + t + "]";
    assert s[1..|s| - 1] == t;
    if t != "" && t[0] == 'V' {
      UpperFails(u, t);
    }
  }

  lemma UpperFails(u: UriV, t: string)
    requires t != "" && t[0] == 'V'
    ensures WithIpvfuture(u, t) == u.(hasErr := true)
  {
  }

  // ---------------------------------------------------------- whole authorities

  /** A host name and a port behind a colon: the port's verdict is the authority's,
      whatever the name. */
  lemma PortDecides(u: UriV, name: string, port: string)
    requires name != "" && '@' !in name && ':' !in name && ']' !in name && name[0] != '['
    requires '@' !in port && ']' !in port
    ensures var r := WithAuthority(u, name + ":" + port);
            && r.ipv4 == r.regName == name && r.scheme == u.scheme
            && (r.hasErr <==> !Only(port, DIGITS))
  {
    hide Only, FindChar, WithPort, UNRESERVED;
    var s := name + ":" + port;
    forall i | 0 <= i < |s|
      ensures s[i] != '@' && s[i] != ']' && (i < |name| ==> s[i] != ':')
    {
      assert s[i] == if i < |name| then name[i] else if i == |name| then ':' else port[i - |name| - 1];
    }
    FindCharNot(s, '@', 0);
    FindCharNot(s, ']', 0);
    FindCharIs(s, ':', 0, |name|);
    assert s[0..|name|] == name && s[|name| + 1..] == port;
    NameTaken(u, name);
    PortTaken(WithHost(u, name), port);
    PortKeepsHost(WithHost(u, name), port);
  }

  predicate SameNames(u: UriV, r: UriV) {
    r.scheme == u.scheme && r.ipv4 == u.ipv4 && r.regName == u.regName
  }

  lemma PortKeepsHost(u: UriV, s: string)
    ensures SameNames(u, WithPort(u, s))
  {
    hide Stoi;
  }

  /** Without a port it is the name's. */
  lemma NameDecides(u: UriV, name: string)
    requires name != "" && '@' !in name && ':' !in name && ']' !in name && name[0] != '['
    ensures WithAuthority(u, name)
            == u.(hasErr := !Only(name, UNRESERVED + SUB_DELIMS), ipv4 := name, regName := name, port := NO_PORT)
  {
    hide Only, FindChar, UNRESERVED, SUB_DELIMS;
    FindCharNot(name, '@', 0);
    FindCharNot(name, ']', 0);
    FindCharNot(name, ':', 0);
    assert name[0..] == name;
    NameTaken(u, name);
  }

  // -------------------------------------------------------- origin-form targets

  /** The path and the query, with its question mark, of an origin-form target. */
  function PathOf(t: string): string {
    match FindChar(t, '?', 0) case Some(q) => t[..q] case None => t
  }

  function QueryOf(t: string): string {
    match FindChar(t, '?', 0) case Some(q) => t[q..] case None => ""
  }

  predicate IsOriginTarget(t: string) {
    t != "" && t[0] == '/' && NoDoubleSlash(t)
  }

  /** The verdict on such a target: its query's if it has one, else its path's. */
  predicate IsTaken(t: string) {
    if '?' in t then Only(QueryOf(t), PCHARS + "/?") else Only(t, PCHARS + "/")
  }

  /** A path with any other character is refused exactly if no query follows it; if one
      does, the path is dropped and the target passes. */
  lemma OriginTaken(u: UriV, t: string)
    requires IsOriginTarget(t) && !u.hasErr && u.fault == NoFault
    ensures var r := Parsed(u, t, PATH_AND_QUERY);
            && r == u.(hasErr := !IsTaken(t), path := r.path, query := r.query)
            && r.path == (if Only(PathOf(t), PCHARS + "/") then PathOf(t) else u.path)
            && r.query == (if '?' in t then QueryOf(t) else u.query)
  {
    hide WithPath, WithQuery, FindChar, FindPair, Only, PCHARS;
    assert FindPair(t, '/', '/', 0) == None;
    FindCharIs(t, '/', 0, 0);
    var path := PathOf(t);
    forall i | 0 <= i < |path| - 1
      ensures path[i] != '/' || path[i + 1] != '/'
    {
      assert !PairAt(t, '/', '/', i) && path[i] == t[i] && path[i + 1] == t[i + 1];
    }
    PathTaken(u, path);
    QueryTaken(WithPath(u, path), QueryOf(t));
    assert t[0..] == t;
    if '?' in t {
      assert t[0..|path|] == path;
    }
  }

  lemma BadPathPasses()
    ensures IsOriginTarget("/a<b?x") && IsTaken("/a<b?x") && !Only(PathOf("/a<b?x"), PCHARS + "/")
  {
    var t := "/a<b?x";
    FindCharIs(t, '?', 0, 4);
    assert t[4..] == "?x" && t[..4] == "/a<b" && "/a<b"[2] == '<';
    assert "?x"[0] in "/?";
    NotPchar();
  }

  lemma NotPchar()
    ensures '<' !in PCHARS + "/" && 'x' in PCHARS
  {
    Pchars('<');
    Pchars('x');
  }

  // -------------------------------------------------- what a range can do wrong

  /** An error in front of a userinfo is forgotten. */
  lemma UserinfoClears(u: UriV, s: string)
    requires '@' in s
    ensures WithAuthority(u, s) == WithAuthority(u.(hasErr := false), s)
  {
    hide WithHost, WithPort, PortStart;
    if FindChar(s, '@', 0).None? {
      assert false;
    }
  }

  /** An origin-form target with "//" in its query: where another slash follows, the path
      ends before it starts; else it is passed over, and the query alone is read. */
  lemma OriginHidden(u: UriV, path: string, query: string, a: nat)
    requires IsOrigin(path, query) && FindPair(path + query, '/', '/', 0) == Some(a) && !u.hasErr && u.fault == NoFault
    ensures var t, r := path + query, Parsed(u, path + query, PATH_AND_QUERY);
            if '/' in t[a + 2..] then r.fault == Wild else r == u.(query := query)
  {
    hide FindChar, FindPair, WithPath, PathStart;
    var t := path + query;
    OriginMarks(path, query);
    PairBehindPath(path, query, a);
    HiddenStart(t, a);
    assert query != "";
  }

  lemma NoPairInPath(path: string, query: string, i: nat)
    requires IsOrigin(path, query) && i < |path|
    ensures !PairAt(path + query, '/', '/', i)
  {
    var t := path + query;
    assert t[i] == path[i];
    assert i + 1 < |path| ==> t[i + 1] == path[i + 1] && !PairAt(path, '/', '/', i);
    assert i + 1 == |path| && i + 1 < |t| ==> t[i + 1] == query[0];
  }

  lemma PairBehindPath(path: string, query: string, a: nat)
    requires IsOrigin(path, query) && PairAt(path + query, '/', '/', a)
    ensures a > |path| && query != ""
  {
    forall i | 0 <= i < |path|
      ensures !PairAt(path + query, '/', '/', i)
    {
      NoPairInPath(path, query, i);
    }
    assert (path + query)[a] == query[a - |path|];
  }

  /** Behind the first two slashes the path starts at the next one. */
  lemma HiddenStart(t: string, a: nat)
    requires FindPair(t, '/', '/', 0) == Some(a)
    ensures '/' in t[a + 2..] <==> PathStart(t).Some?
    ensures PathStart(t).Some? ==> PathStart(t).value >= a + 2
  {
    hide FindPair;
    if '/' in t[a + 2..] {
      var i :| 0 <= i < |t[a + 2..]| && t[a + 2..][i] == '/';
      assert t[a + 2 + i] == '/';
    }
    if PathStart(t).Some? {
      assert t[a + 2..][PathStart(t).value - a - 2] == '/';
    }
  }

  /** A question mark in front of two slashes that no other follows: then the authority
      ends before it starts. */
  lemma AuthorityReversed(u: UriV, x: string, y: string, z: string)
    requires '?' !in x && '/' !in x && '/' !in y && '/' !in z && u.fault == NoFault
    ensures Parsed(u, x + "?" + y + "//" + z, Flags(true, true, false, false)).fault == Wild
  {
    hide FindChar, FindPair, SchemeStep, PathStart;
    var v := x + "?" + y + "//" + z;
    var q, a := |x|, |x| + 1 + |y|;
    assert v[q] == '?' && v[a] == '/' && v[a + 1] == '/';
    assert forall i :: 0 <= i < q ==> v[i] == x[i];
    assert forall i :: q < i < a ==> v[i] == y[i - q - 1];
    FindCharIs(v, '?', 0, q);
    assert PairAt(v, '/', '/', a);
    FindPairIs(v, a);
    HiddenStart(v, a);
    assert v[a + 2..] == z;
    SchemeFault(u, v);
  }

  lemma SchemeFault(u: UriV, s: string)
    ensures SchemeStep(u, s, true).fault == u.fault
  {
  }

  // ------------------------------------------------------ absolute-form targets

  function AbsoluteText(scheme: string, host: string, port: string, rest: string): string {
    scheme + "://" + (host + ":" + port) + rest
  }

  /** A scheme, a host name and a port, and a path with what follows it. */
  predicate IsAbsolute(scheme: string, host: string, port: string, rest: string) {
    && '/' !in scheme && ':' !in scheme && '?' !in scheme
    && (forall i :: 0 <= i < |host| ==> host[i] !in "@:]/?")
    && (forall i :: 0 <= i < |port| ==> port[i] !in "@:]/?")
    && (rest == "" || rest[0] == '/')
  }

  lemma AbsoluteMarks(scheme: string, host: string, port: string, rest: string)
    requires IsAbsolute(scheme, host, port, rest)
    ensures var t := AbsoluteText(scheme, host, port, rest);
            var a, e := |scheme| + 1, |t| - |rest|;
            && a + 2 <= e <= |t| && AuthorityStart(t) == a && AuthorityEnd(t) == e
            && t[a..e] == "//" + host + ":" + port
  {
    hide FindPair, FindChar;
    var t := AbsoluteText(scheme, host, port, rest);
    var a, e := |scheme| + 1, |t| - |rest|;
    var hp := host + ":" + port;
    assert forall i :: 0 <= i < |scheme| ==> t[i] == scheme[i];
    assert t[a - 1] == ':' && t[a] == '/' && t[a + 1] == '/';
    assert forall i :: a + 2 <= i < e ==> t[i] == hp[i - a - 2];
    assert forall i :: 0 <= i < |hp| ==> hp[i] == if i < |host| then host[i] else if i == |host| then ':' else port[i - |host| - 1];
    assert PairAt(t, '/', '/', a);
    FindPairIs(t, a);
    if rest == "" {
      FindCharNot(t, '/', a + 2);
      FindCharNot(t, '?', 0);
    } else {
      assert t[e] == rest[0];
      FindCharIs(t, '/', a + 2, e);
    }
    assert t[a..e] == "//" + hp;
    assert "//" + hp == "//" + host + ":" + port;
  }

  lemma FindPairIs(t: string, a: nat)
    requires PairAt(t, '/', '/', a) && forall i :: 0 <= i < a ==> !PairAt(t, '/', '/', i)
    ensures FindPair(t, '/', '/', 0) == Some(a)
  {
  }

  lemma StepsKeepNames(u: UriV, t: string, path: bool, query: bool)
    ensures SameNames(u, PathStep(u, t, path)) && SameNames(u, QueryStep(u, t, query))
  {
    hide FindChar, PathStart, IsPath, All;
  }

  lemma AbsoluteScheme(u: UriV, scheme: string, host: string, port: string, rest: string)
    requires IsAbsolute(scheme, host, port, rest) && scheme != "" && scheme[0] in LETTERS
    ensures SchemeStep(u, AbsoluteText(scheme, host, port, rest), true).scheme == scheme
  {
    hide LETTERS, FindSchemeMark, WithScheme;
    var t := AbsoluteText(scheme, host, port, rest);
    assert forall i :: 0 <= i < |scheme| ==> t[i] == scheme[i];
    assert SchemeMarkAt(t, |scheme|) && t[..|scheme|] == scheme;
    assert FindSchemeMark(t, 0).value == |scheme|;
    SchemeTaken(u, scheme);
  }

  /** The scheme is read, but the authority of such a target keeps its two slashes, so
      that its host is none of the names a server has. */
  lemma AbsoluteRead(u: UriV, scheme: string, host: string, port: string, rest: string)
    requires IsAbsolute(scheme, host, port, rest)
    ensures var r := Parsed(u, AbsoluteText(scheme, host, port, rest), Flags(true, true, true, true));
            r.fault == NoFault ==>
              && r.ipv4 == r.regName == "//" + host
              && (scheme != "" && scheme[0] in LETTERS ==> r.scheme == scheme)
  {
    hide SchemeStep, WithAuthority, PathStep, QueryStep, AuthorityStart, AuthorityEnd, AbsoluteText, LETTERS;
    var t := AbsoluteText(scheme, host, port, rest);
    AbsoluteMarks(scheme, host, port, rest);
    var u1 := SchemeStep(u, t, true);
    var u2 := AuthorityStep(u1, t, true);
    if scheme != "" && scheme[0] in LETTERS {
      AbsoluteScheme(u, scheme, host, port, rest);
    }
    PortDecides(u1, "//" + host, port);
    StepsKeepNames(u2, t, true, true);
    StepsKeepNames(PathStep(u2, t, true), t, true, true);
  }
}
