/** Whom a request is for: what is routed was sent to this server, and a request whose
    host field says otherwise is misdirected, over any run of calls. */
module Addressed {
  import opened Strings
  import opened Uri
  import opened UriProof
  import opened UriRefusals
  import opened Message
  import opened Headers
  import opened HeadersProof
  import opened Chunked
  import opened Content
  import opened Receive
  import opened RequestLines
  import opened BlankCuts
  import opened FramedRuns
  import Arrivals
  import Keywords
  import Lists

  /** The URI is for this server: its port, and one of its names. */
  predicate IsHere(u: UriV, config: Config) {
    u.port == config.listeningPort && (u.ipv4 == config.listeningIp || u.regName == config.listeningRegName)
  }

  /** What else a request must have: a host field, no foreign scheme, no userinfo. */
  predicate IsPlainTarget(r: ReqV, config: Config) {
    && HOST in r.fields && r.fields[HOST] != ""
    && (r.uri.scheme == "" || r.uri.scheme == config.defaultScheme) && r.uri.userinfo == ""
  }

  // ------------------------------------------------------- what the body leaves

  /** The parts of a request that say whom it is for, and the error that says it is for
      another, which no decoder finds. */
  predicate SameAddress(p: ReqV, r: ReqV) {
    && r.uri == p.uri && r.targetForm == p.targetForm
    && HOST in p.fields && HOST in r.fields && r.fields[HOST] == p.fields[HOST]
    && (r.err == MisdirectedRequest ==> p.err == MisdirectedRequest)
  }

  /** And no decoder finds another error than a bad request. */
  predicate OnlyBad(p: ReqV, r: ReqV) {
    SameAddress(p, r) && (r.err == p.err || r.err == BadRequest)
  }

  lemma FieldLineKeepsAddress(r: ReqV, line: string)
    requires HOST in r.fields
    ensures OnlyBad(r, WithFieldLine(r, line))
  {
    hide FindChar, Lowercase, FirstNotSpace, WithHostField;
  }

  lemma {:induction false} TrailersKeepAddress(r: ReqV, raw: string, i: nat)
    requires HOST in r.fields
    ensures OnlyBad(r, TrailerLoop(r, raw, i).0)
    decreases |raw| - i
  {
    hide WithFieldLine, FindCrlf;
    if i < |raw| && FindCrlf(raw, i).Some? && FindCrlf(raw, i).value != i {
      var e := FindCrlf(raw, i).value;
      FieldLineKeepsAddress(r, raw[i..e]);
      TrailersKeepAddress(WithFieldLine(r, raw[i..e]), raw, e + 2);
    }
  }

  lemma DecodedKeepsAddress(r: ReqV, raw: string)
    requires HOST in r.fields
    ensures OnlyBad(r, ChunkDecoded(r, raw).0)
  {
    hide Chunks, TrailerLoop;
    var s := BeforeTrailers(r, raw);
    TrailersKeepAddress(s, raw, (s.chunkedContentLen + 1) % U32);
  }

  lemma {:induction false} TransferKeepsAddress(r: ReqV, encs: seq<nat>, raw: string)
    requires HOST in r.fields
    ensures OnlyBad(r, TransferDecoded(r, encs, raw).0)
    decreases |encs|
  {
    hide ChunkDecoded;
    if encs != [] {
      DecodedKeepsAddress(r, raw);
      TransferKeepsAddress(r, encs[1..], raw);
      TransferKeepsAddress(ChunkDecoded(r, raw).0, encs[1..], raw);
    }
  }

  lemma {:induction false} FinishedKeepsAddress(r: ReqV, encs: seq<nat>)
    requires HOST in r.fields
    ensures OnlyBad(r, Finished(r, encs))
    decreases |encs|
  {
    hide ChunkDecoded, Appends;
    if encs != [] {
      DecodedKeepsAddress(r, r.content);
      FinishedKeepsAddress(r, encs[1..]);
      FinishedKeepsAddress(ChunkDecoded(r, r.content).0, encs[1..]);
    }
  }

  lemma BodyKeepsAddress(p: ReqV, raw: string)
    requires HOST in p.fields
    ensures SameAddress(p, WithBody(p, raw))
  {
    hide TransferDecoded, Finished, BadFraming;
    var t := TransferDecoded(p, p.transferEncodings, raw).0;
    TransferKeepsAddress(p, p.transferEncodings, raw);
    FinishedKeepsAddress(t, t.contentEncodings);
    FinishedKeepsAddress(p, p.contentEncodings);
    if p.contentLen <= |raw| {
      FinishedKeepsAddress(p.(content := raw[..p.contentLen]), p.contentEncodings);
    }
  }

  lemma LengthKeepsAddress(r: ReqV)
    requires HOST in r.fields
    ensures SameAddress(r, WithContentLen(r))
  {
    hide Stoi;
  }

  lemma TypeKeepsAddress(r: ReqV)
    requires HOST in r.fields
    ensures SameAddress(r, WithContentType(r))
  {
    hide Keywords.KeywordVal, MediaTypeText, MediaSubtypeText;
  }

  lemma ListsKeepAddress(r: ReqV)
    requires HOST in r.fields
    ensures SameAddress(r, WithLists(r))
  {
    hide Lists.Values, Lists.Tokens;
  }

  /** The checks decide: misdirected exactly if the URI is not this server's, and a bad
      request if the rest is not as it must be. */
  lemma CheckedDecides(r: ReqV, config: Config)
    requires !Dead(r)
    ensures var p := Checked(r, config);
            && (p.err == MisdirectedRequest <==> !IsHere(r.uri, config))
            && (IsHere(r.uri, config) && !IsPlainTarget(r, config) ==> p.err == BadRequest)
            && (IsHere(r.uri, config) && IsPlainTarget(r, config) ==> SameAddress(r, p))
            && !(p.HasErr() && p.Faulted() && p.err == MisdirectedRequest)
  {
    hide WithLists, WithContentLen, WithContentType;
    var r1 := HostAdded(r);
    ListsKeepAddress(r1);
    LengthKeepsAddress(WithLists(r1));
    TypeKeepsAddress(WithContentLen(WithLists(r1)));
  }

  /** parse_content on a request whose headers are in. */
  lemma ContentDecides(r: ReqV, raw: string, config: Config)
    requires !Dead(r)
    ensures var s := WithContent(r, raw, config);
            && (s.err == MisdirectedRequest <==> !IsHere(r.uri, config))
            && (!IsHere(r.uri, config) ==> !s.Faulted())
            && (IsHere(r.uri, config) && !IsPlainTarget(r, config) ==> s.err == BadRequest && !s.Faulted())
            && (IsHere(r.uri, config) && IsPlainTarget(r, config) ==> SameAddress(r, s))
  {
    hide Checked, WithBody, IsHere, IsPlainTarget;
    var p := Checked(r, config);
    CheckedDecides(r, config);
    if IsHere(r.uri, config) && IsPlainTarget(r, config) {
      BodyKeepsAddress(p, raw);
    } else {
      RefusedPlainly(r, config);
    }
  }

  lemma RefusedPlainly(r: ReqV, config: Config)
    requires !Dead(r) && !(IsHere(r.uri, config) && IsPlainTarget(r, config))
    ensures Checked(r, config).HasErr() && !Checked(r, config).Faulted()
  {
    hide WithLists, WithContentLen, WithContentType;
  }

  // ------------------------------------------------------ what the headers leave

  /** The parts of an authority are the same. */
  predicate SameAuthority(u: UriV, r: UriV) {
    && r.userinfo == u.userinfo && r.port == u.port && r.ipv4 == u.ipv4 && r.regName == u.regName
    && r.ipv6 == u.ipv6 && r.ipvfuture == u.ipvfuture && r.futureVersion == u.futureVersion
  }

  /** u is the URI the request line left. A host field is read into it if the target held
      no authority of its own; it cannot change one. */
  predicate HostRead(r: ReqV, form: TargetForm, u: UriV) {
    && r.targetForm == form
    && match form
       case Origin | Asterik => r.uri == if HOST in r.fields then Parsed(u, r.fields[HOST], HOST_FLAGS) else u
       case Authority => SameAuthority(u, r.uri)
       case Absolute => r.uri == u
  }

  lemma SchemeKeepsAuthority(u: UriV, v: string)
    ensures SameAuthority(u, SchemeStep(u, v, true))
  {
    hide FindSchemeMark, All;
  }

  lemma PathKeepsAuthority(u: UriV, v: string)
    ensures SameAuthority(u, PathStep(u, v, true))
  {
    hide FindChar, PathStart, IsPath;
  }

  lemma QueryKeepsAuthority(u: UriV, v: string)
    ensures SameAuthority(u, QueryStep(u, v, true))
  {
    hide FindChar, All;
  }

  lemma NoAuthorityRead(u: UriV, v: string)
    ensures SameAuthority(u, Parsed(u, v, NOT_AUTHORITY_FLAGS))
  {
    hide SchemeStep, PathStep, QueryStep, AuthorityStep;
    var u1 := SchemeStep(u, v, true);
    SchemeKeepsAuthority(u, v);
    StepIsOff(u1, v);
    PathKeepsAuthority(u1, v);
    QueryKeepsAuthority(PathStep(u1, v, true), v);
  }

  /** The host field of r has been stored and is about to be parsed. */
  lemma HostFieldReads(r: ReqV, u: UriV)
    requires HOST in r.fields && (if r.targetForm == Authority then SameAuthority(u, r.uri) else r.uri == u)
    ensures HostRead(WithHostField(r, r.fields[HOST]), r.targetForm, u)
  {
    hide Parsed;
    NoAuthorityRead(r.uri, r.fields[HOST]);
  }

  lemma FieldLineReads(r: ReqV, line: string, u: UriV)
    requires HostRead(r, r.targetForm, u) && !Dead(WithFieldLine(r, line))
    ensures HostRead(WithFieldLine(r, line), r.targetForm, u) && WithFieldLine(r, line).targetForm == r.targetForm
  {
    hide Parsed, FindChar, Lowercase, Span, WithHostField;
    var i := FindChar(line, ':', 0).value;
    var name, start := Lowercase(line[..i]), FirstNotSpace(line, i + 1);
    var r1 := r.(fields := r.fields[name := line[start..]]);
    if name == HOST && HOST !in r.fields {
      HostFieldReads(r1, u);
    }
  }

  lemma {:induction false} LoopReads(r: ReqV, raw: string, i: nat, done: nat, u: UriV)
    requires HostRead(r, r.targetForm, u)
    ensures var s := FieldLoop(r, raw, i, done).0; !Dead(s) ==> HostRead(s, r.targetForm, u)
    decreases |raw| - i
  {
    hide WithFieldLine, FindCrlf, HostRead;
    if FindCrlf(raw, i).Some? && FindCrlf(raw, i).value != i {
      var e := FindCrlf(raw, i).value;
      var s := WithFieldLine(r, raw[i..e]);
      FieldLoopTurn(s, raw, e + 2, done);
      if !Dead(s) {
        FieldLineReads(r, raw[i..e], u);
        LoopReads(s, raw, e + 2, done, u);
      }
    } else {
      SameHost(r, u);
    }
  }

  lemma SameHost(r: ReqV, u: UriV)
    requires HostRead(r, r.targetForm, u)
    ensures HostRead(r.(parseState := ParseState.Content), r.targetForm, u)
  {
  }

  /** A line leaves no fields. */
  lemma LineReadsNoHost(r: ReqV, line: string)
    requires r.fields == map[]
    ensures var s := WithReqLine(r, line); HostRead(s, s.targetForm, s.uri)
  {
    hide HostRead, WithReqLine;
    LineKeepsFields(r, line);
    NoHost(WithReqLine(r, line));
  }

  lemma NoHost(r: ReqV)
    requires HOST !in r.fields
    ensures HostRead(r, r.targetForm, r.uri)
  {
  }

  lemma LineKeepsFields(r: ReqV, line: string)
    ensures WithReqLine(r, line).fields == r.fields
  {
    hide FindChar, Keywords.KeywordVal, WithTarget, WithVersion;
    forall q: ReqV, t
      ensures WithTarget(q, t).fields == WithVersion(q, t).fields == q.fields
    {
      TargetKeepsFields(q, t);
      VersionKeepsFields(q, t);
    }
  }

  lemma TargetKeepsFields(r: ReqV, t: string)
    ensures WithTarget(r, t).fields == r.fields
  {
    hide FindChar, Parsed;
  }

  lemma VersionKeepsFields(r: ReqV, v: string)
    ensures WithVersion(r, v).fields == r.fields
  {
    hide Stoi;
  }

  /** The request has come as far from the fresh request q. */
  predicate ReadFrom(q: ReqV, r: ReqV, full: string) {
    var s := WithReqLine(q, LineOf(full));
    !Dead(s) && !Dead(r) && r.parseState != StartLine && HostRead(r, s.targetForm, s.uri)
  }

  lemma SameLine(full: string, n: nat)
    requires n <= |full| && FindCrlf(full[..n], 0).Some?
    ensures LineOf(full[..n]) == LineOf(full) && FindCrlf(full, 0) == FindCrlf(full[..n], 0)
  {
    hide FindCrlf;
    FindCrlfPrefix(full, n, 0);
    assert full[..n][..FindCrlf(full, 0).value] == full[..FindCrlf(full, 0).value];
  }

  lemma HeaderReadsHost(q: ReqV, c: ConnV, full: string, n: nat)
    requires n <= |full| && IsFresh(q) && (c.req == q || ReadFrom(q, c.req, full))
    requires !Dead(HeaderStep(c, full[..n]).req)
    ensures ReadFrom(q, HeaderStep(c, full[..n]).req, full)
  {
    hide FieldLoop, WithReqLine, FindCrlf, HostRead, LineOf;
    var raw := full[..n];
    if c.req.parseState == StartLine {
      var e := FindCrlf(raw, 0).value;
      SameLine(full, n);
      LineIs(raw, e);
      var s := WithReqLine(q, raw[..e]);
      FieldLoopTurn(s, raw, e + 2, c.parsedTo);
      LineReadsNoHost(q, raw[..e]);
      LoopReads(s, raw, e + 2, c.parsedTo, s.uri);
      LineEnds(q, raw[..e]);
      LoopKeepsMethod(s, raw, e + 2, c.parsedTo);
    } else {
      var u := WithReqLine(q, LineOf(full)).uri;
      FormIs(c.req, WithReqLine(q, LineOf(full)).targetForm, u);
      LoopReads(c.req, raw, c.parsedTo, c.parsedTo, u);
      LoopKeepsMethod(c.req, raw, c.parsedTo, c.parsedTo);
    }
  }

  lemma FormIs(r: ReqV, form: TargetForm, u: UriV)
    requires HostRead(r, form, u)
    ensures r.targetForm == form
  {
  }

  lemma LineIs(raw: string, e: nat)
    requires FindCrlf(raw, 0) == Some(e)
    ensures LineOf(raw) == raw[..e]
  {
  }

  lemma LineEnds(r: ReqV, line: string)
    ensures !Dead(WithReqLine(r, line)) ==> WithReqLine(r, line).parseState != StartLine
  {
    hide FindChar, Keywords.KeywordVal, WithTarget, WithVersion;
  }

  lemma AddressStays(q: ReqV, p: ReqV, r: ReqV, full: string)
    requires ReadFrom(q, p, full) && SameAddress(p, r) && !Dead(r) && r.parseState != StartLine
    ensures ReadFrom(q, r, full)
  {
    hide WithReqLine, LineOf, Parsed;
  }

  /** A call that asks for more, or routes. */
  lemma CallReadsHost(q: ReqV, c: ConnV, full: string, n: nat, config: Config)
    requires n <= |full| && IsFresh(q) && (c.req == q || ReadFrom(q, c.req, full))
    requires var v := Received(c, full[..n], config).1; v == NeedMore || v == Route
    ensures ReadFrom(q, HeaderStep(c, full[..n]).req, full) && ReadFrom(q, Received(c, full[..n], config).0.req, full)
    ensures Received(c, full[..n], config).1 == Route ==>
              var r := Received(c, full[..n], config).0.req; IsHere(r.uri, config) && IsPlainTarget(r, config)
  {
    hide HeaderStep, WithContent, ReadFrom, IsHere, IsPlainTarget;
    HeaderReadsHost(q, c, full, n);
    var c1 := HeaderStep(c, full[..n]);
    if !c1.req.IsParsingHeaders() && c1.parsedTo <= n {
      var body := full[..n][c1.parsedTo..];
      var s := WithContent(c1.req, body, config);
      ReadIsAlive(q, c1.req, full);
      ContentDecides(c1.req, body, config);
      ContentKeepsClosed(c1.req, body, config);
      AddressStays(q, c1.req, s, full);
      StillHere(c1.req, s, config);
    }
  }

  lemma ReadIsAlive(q: ReqV, r: ReqV, full: string)
    requires ReadFrom(q, r, full)
    ensures !Dead(r)
  {
  }

  lemma StillHere(p: ReqV, r: ReqV, config: Config)
    requires SameAddress(p, r) && IsHere(p.uri, config) && IsPlainTarget(p, config)
    ensures IsHere(r.uri, config) && IsPlainTarget(r, config)
  {
  }

  lemma {:induction false} ReachedHost(q: ReqV, c: ConnV, full: string, cuts: seq<nat>, config: Config)
    requires IsFresh(q) && (c.req == q || ReadFrom(q, c.req, full)) && forall i :: 0 <= i < |cuts| ==> cuts[i] <= |full|
    requires AllNeedMore(Arrivals.Feed(c, full, cuts, config).1)
    ensures var d := Arrivals.Feed(c, full, cuts, config).0; d.req == q || ReadFrom(q, d.req, full)
    decreases |cuts|
  {
    hide Received, ReadFrom;
    if cuts != [] {
      var (c1, v) := Received(c, full[..cuts[0]], config);
      AllOf(v, Arrivals.Feed(c1, full, cuts[1..], config).1);
      CallReadsHost(q, c, full, cuts[0], config);
      ReachedHost(q, c1, full, cuts[1..], config);
    }
  }

  // ------------------------------------------------------------ the host's text

  /** What may follow the authority in a host field. */
  predicate IsIgnored(rest: string) {
    rest == "" || (rest[0] == '?' && '/' !in rest) || (rest[0] == '/' && NoDoubleSlash(rest))
  }

  /** A host field is an authority up to its first slash or question mark, and what
      follows is not looked at. */
  lemma HostTextRead(u: UriV, a: string, rest: string)
    requires '/' !in a && '?' !in a && IsIgnored(rest) && u.fault == NoFault
    ensures Parsed(u, a + rest, HOST_FLAGS) == WithAuthority(u.(scheme := ""), a)
  {
    hide WithAuthority, WithScheme, FindPair, FindChar, FindSchemeMark, PathStart, AuthorityEnd, AuthorityStart;
    HostTextMarks(a, rest);
    assert (a + rest)[0..|a|] == a;
  }

  lemma HostTextMarks(a: string, rest: string)
    requires '/' !in a && '?' !in a && IsIgnored(rest)
    ensures var v := a + rest;
            FindSchemeMark(v, 0) == None && AuthorityStart(v) == 0 && AuthorityEnd(v) == |a|
  {
    hide FindPair, FindChar, FindSchemeMark;
    var v := a + rest;
    forall i | 0 <= i < |a|
      ensures v[i] != '/' && v[i] != '?'
    {
      assert v[i] == a[i] && a[i] in a;
    }
    NoPair(a, rest);
    NoMark(v);
    if rest == "" {
      FindCharNot(v, '/', 0);
      FindCharNot(v, '?', 0);
    } else if rest[0] == '?' {
      assert v[|a|] == '?';
      forall i | |a| <= i < |v|
        ensures v[i] != '/'
      {
        assert v[i] == rest[i - |a|];
      }
      FindCharNot(v, '/', 0);
      FindCharIs(v, '?', 0, |a|);
    } else {
      assert v[|a|] == '/';
      FindCharIs(v, '/', 0, |a|);
    }
  }

  lemma NoPair(a: string, rest: string)
    requires '/' !in a && IsIgnored(rest)
    ensures FindPair(a + rest, '/', '/', 0) == None
  {
    hide FindPair;
    var v := a + rest;
    forall i | 0 <= i < |v|
      ensures !PairAt(v, '/', '/', i)
    {
      if i < |a| {
        assert v[i] == a[i] && a[i] in a;
      } else {
        assert v[i] == rest[i - |a|] && (i + 1 < |v| ==> v[i + 1] == rest[i + 1 - |a|]);
        assert rest[0] == '/' ==> !PairAt(rest, '/', '/', i - |a|);
      }
    }
  }

  lemma NoMark(v: string)
    requires FindPair(v, '/', '/', 0) == None
    ensures FindSchemeMark(v, 0) == None
  {
    hide FindPair;
    assert forall i :: SchemeMarkAt(v, i) ==> PairAt(v, '/', '/', i + 1);
  }

  /** Whatever it holds, it leaves the path and the query alone. */
  lemma HostKeepsPath(u: UriV, v: string)
    ensures var r := Parsed(u, v, HOST_FLAGS); r.path == u.path && r.query == u.query
  {
    hide WithAuthority, WithScheme, FindPair, FindChar, FindSchemeMark;
    forall w: UriV, s
      ensures WithAuthority(w, s).path == w.path && WithAuthority(w, s).query == w.query
      ensures WithScheme(w, s).path == w.path && WithScheme(w, s).query == w.query
    {
      AuthorityKeepsPath(w, s);
      SchemeKeepsPath(w, s);
    }
  }

  lemma SchemeKeepsPath(u: UriV, s: string)
    ensures WithScheme(u, s).path == u.path && WithScheme(u, s).query == u.query
  {
  }

  predicate SamePath(u: UriV, r: UriV) {
    r.path == u.path && r.query == u.query
  }

  lemma HostPartKeepsPath(u: UriV, s: string)
    ensures SamePath(u, WithHost(u, s))
  {
    hide FindChar, All;
  }

  lemma PortKeepsPath(u: UriV, s: string)
    ensures SamePath(u, WithPort(u, s))
  {
    hide Stoi, All;
  }

  lemma AuthorityKeepsPath(u: UriV, s: string)
    ensures SamePath(u, WithAuthority(u, s))
  {
    hide FindChar, WithHost, WithPort;
    forall w: UriV, t
      ensures SamePath(w, WithHost(w, t)) && SamePath(w, WithPort(w, t))
    {
      HostPartKeepsPath(w, t);
      PortKeepsPath(w, t);
    }
  }

  function PortNumber(port: Option<string>): int
    requires port.Some? ==> IsPort(port.value)
  {
    match port
    case Some(s) => if s == "" then NO_PORT else DecVal(s)
    case None => NO_PORT
  }

  /** A host and a port that name this server; a host in brackets leaves the names of u. */
  predicate IsNamed(u: UriV, h: Host, port: Option<string>, config: Config)
    requires port.Some? ==> IsPort(port.value)
  {
    && PortNumber(port) == config.listeningPort
    && match h
       case RegName(n) => n == config.listeningIp || n == config.listeningRegName
       case _ => u.ipv4 == config.listeningIp || u.regName == config.listeningRegName
  }

  lemma AuthorityHere(u: UriV, userinfo: Option<string>, h: Host, port: Option<string>, config: Config)
    requires IsAuthority(userinfo, h, port)
    ensures var r := AuthoritySet(u, userinfo, h, port);
            && (IsHere(r, config) <==> IsNamed(u, h, port, config))
            && r.userinfo == (match userinfo case Some(s) => s case None => u.userinfo)
  {
    hide DecVal;
  }

  lemma AuthorityText(userinfo: Option<string>, h: Host, port: Option<string>)
    requires IsAuthority(userinfo, h, port) && (h.Ipv6? ==> '/' !in h.text && '?' !in h.text)
    ensures var s := PrintAuthority(userinfo, h, port); s != "" && '/' !in s && '?' !in s
  {
    hide PrintUserinfo, PrintPort;
    HostText(h);
    UserinfoText(userinfo);
    PortText(port);
  }

  lemma HostText(h: Host)
    requires IsHost(h) && (h.Ipv6? ==> '/' !in h.text && '?' !in h.text)
    ensures var s := PrintHost(h); s != "" && '/' !in s && '?' !in s
  {
    var s := PrintHost(h);
    match h
    case RegName(n) =>
      assert forall i :: 0 <= i < |n| ==> IsRegNameChar(n[i]);
    case Ipv6(t) =>
    case Future(v, a) =>
      assert forall i :: 0 <= i < |v| ==> IsHex(v[i]);
      assert forall i :: 0 <= i < |a| ==> IsFutureChar(a[i]);
  }

  lemma UserinfoText(userinfo: Option<string>)
    requires userinfo.Some? ==> IsUserinfo(userinfo.value)
    ensures var s := PrintUserinfo(userinfo); '/' !in s && '?' !in s
  {
    if userinfo.Some? {
      var v := userinfo.value;
      assert forall i :: 0 <= i < |v| ==> IsUnreserved(v[i]) || IsSubDelimiter(v[i]) || v[i] == ':';
    }
  }

  lemma PortText(port: Option<string>)
    requires port.Some? ==> IsPort(port.value)
    ensures var s := PrintPort(port); '/' !in s && '?' !in s
  {
    if port.Some? {
      assert forall i :: 0 <= i < |port.value| ==> IsDigit(port.value[i]);
    }
  }

  // -------------------------------------------------------------- the theorems

  /** The URI a line leaves whose target has no authority of its own. */
  lemma LineUri(q: ReqV, line: string)
    requires IsFresh(q) && !Dead(WithReqLine(q, line))
    ensures var s := WithReqLine(q, line);
            s.targetForm == Origin || s.targetForm == Asterik ==>
              s.uri == q.uri.(asterik := s.uri.asterik, path := s.uri.path, query := s.uri.query)
  {
    hide FindChar, Keywords.KeywordVal, WithTarget, WithVersion;
    forall r: ReqV, t | r.uri == q.uri && !Dead(WithTarget(r, t))
      ensures TargetUriIs(q, WithTarget(r, t))
    {
      TargetUri(q, r, t);
    }
    forall r: ReqV, v
      ensures VersionKeeps(r, WithVersion(r, v))
    {
      VersionUri(r, v);
    }
  }

  predicate TargetUriIs(q: ReqV, s: ReqV) {
    s.targetForm == Origin || s.targetForm == Asterik ==>
      s.uri == q.uri.(asterik := s.uri.asterik, path := s.uri.path, query := s.uri.query)
  }

  predicate VersionKeeps(r: ReqV, s: ReqV) {
    s.uri == r.uri && s.targetForm == r.targetForm && (Dead(r) ==> Dead(s))
  }

  lemma TargetUri(q: ReqV, r: ReqV, t: string)
    requires IsFresh(q) && r.uri == q.uri && !Dead(WithTarget(r, t))
    ensures TargetUriIs(q, WithTarget(r, t))
  {
    hide FindChar, Parsed;
    OriginUri(r.uri, t);
  }

  lemma OriginUri(u: UriV, t: string)
    requires u.fault == NoFault && !u.hasErr
    ensures var s := Parsed(u, t, ORIGIN_FLAGS);
            s.fault != NoFault || s == u.(hasErr := s.hasErr, path := s.path, query := s.query)
  {
    hide FindChar, SchemeStep, AuthorityStep, PathStart;
    StepIsOff(u, t);
  }

  lemma VersionUri(r: ReqV, v: string)
    ensures VersionKeeps(r, WithVersion(r, v))
  {
    hide Stoi;
  }

  /** The headers are in and call for the body to be looked at. */
  predicate HeadersIn(c: ConnV, raw: string) {
    var d := HeaderStep(c, raw);
    !Dead(d.req) && !d.req.IsParsingHeaders() && d.parsedTo <= |raw|
  }

  lemma HostIsRead(q: ReqV, r: ReqV, full: string, userinfo: Option<string>, h: Host, port: Option<string>)
    requires IsFresh(q) && ReadFrom(q, r, full) && (r.targetForm == Origin || r.targetForm == Asterik)
    requires IsAuthority(userinfo, h, port) && ColonSafe(userinfo, h) && (h.Ipv6? ==> '/' !in h.text && '?' !in h.text)
    requires HOST in r.fields && r.fields[HOST] == PrintAuthority(userinfo, h, port)
    ensures exists u: UriV :: r.uri == AuthoritySet(u, userinfo, h, port) && u.scheme == "" && u.userinfo == ""
              && u.ipv4 == q.uri.ipv4 && u.regName == q.uri.regName
  {
    hide WithReqLine, LineOf, Parsed, PrintAuthority, AuthoritySet, IsAuthority, ColonSafe, WithAuthority;
    var s := WithReqLine(q, LineOf(full));
    LineUri(q, LineOf(full));
    AuthorityText(userinfo, h, port);
    HostTextRead(s.uri, r.fields[HOST], "");
    assert r.fields[HOST] + "" == r.fields[HOST];
    AuthorityRecovered(s.uri.(scheme := ""), userinfo, h, port);
  }

  /** The call that finds the headers in, with this authority in the URI. */
  lemma NamedDecides(c: ConnV, raw: string, config: Config, u: UriV, userinfo: Option<string>, h: Host, port: Option<string>)
    requires HeadersIn(c, raw) && IsAuthority(userinfo, h, port) && u.userinfo == ""
    requires SameAuthority(AuthoritySet(u, userinfo, h, port), HeaderStep(c, raw).req.uri)
    ensures var (d, v) := Received(c, raw, config);
            && (v == Reject && d.req.err == MisdirectedRequest <==> !IsNamed(u, h, port, config))
            && (IsNamed(u, h, port, config) && userinfo.Some? && userinfo.value != "" ==>
                  v == Reject && d.req.err == BadRequest)
  {
    hide HeaderStep, WithContent, IsHost, IsUserinfo, IsPort, IsNamed, AuthoritySet;
    var c1 := HeaderStep(c, raw);
    AuthorityHere(u, userinfo, h, port, config);
    ContentDecides(c1.req, raw[c1.parsedTo..], config);
  }

  /** Over any calls that lead there: when the headers of a request without an authority
      in its target are in, and its host field is a printed authority, the request is
      answered as misdirected exactly if the port or the name is not the server's, and
      then as a bad request if there is a userinfo. */
  lemma MisdirectedExactlyWhen(q: ReqV, full: string, cuts: seq<nat>, n: nat, config: Config,
                               userinfo: Option<string>, h: Host, port: Option<string>)
    requires IsFresh(q) && n <= |full| && forall i :: 0 <= i < |cuts| ==> cuts[i] <= |full|
    requires IsAuthority(userinfo, h, port) && ColonSafe(userinfo, h) && (h.Ipv6? ==> '/' !in h.text && '?' !in h.text)
    requires var (c, vs) := Arrivals.Feed(ConnV(0, q), full, cuts, config);
             var r := HeaderStep(c, full[..n]).req;
             && AllNeedMore(vs) && HeadersIn(c, full[..n]) && (r.targetForm == Origin || r.targetForm == Asterik)
             && HOST in r.fields && r.fields[HOST] == PrintAuthority(userinfo, h, port)
    ensures var (d, v) := Received(Arrivals.Feed(ConnV(0, q), full, cuts, config).0, full[..n], config);
            && (v == Reject && d.req.err == MisdirectedRequest <==> !IsNamed(q.uri, h, port, config))
            && (IsNamed(q.uri, h, port, config) && userinfo.Some? && userinfo.value != "" ==>
                  v == Reject && d.req.err == BadRequest)
  {
    hide HeaderStep, Received, ReadFrom, IsHost, IsUserinfo, IsPort, ColonSafe, PrintAuthority, IsNamed, AuthoritySet, Arrivals.Feed;
    var c := Arrivals.Feed(ConnV(0, q), full, cuts, config).0;
    var c1 := HeaderStep(c, full[..n]);
    ReachedHost(q, ConnV(0, q), full, cuts, config);
    HeaderReadsHost(q, c, full, n);
    HostIsRead(q, c1.req, full, userinfo, h, port);
    var u: UriV :| c1.req.uri == AuthoritySet(u, userinfo, h, port) && u.scheme == "" && u.userinfo == ""
              && u.ipv4 == q.uri.ipv4 && u.regName == q.uri.regName;
    NamedSame(u, q.uri, h, port, config);
    NamedDecides(c, full[..n], config, u, userinfo, h, port);
  }

  /** The authority of a target that is nothing but one. */
  lemma TargetAuthority(q: ReqV, line: string, m: string, t: string, v: string,
                        userinfo: Option<string>, h: Host, port: Option<string>)
    requires IsFresh(q) && IsCut(line, m, t, v) && !Dead(WithReqLine(q, line))
    requires IsAuthority(userinfo, h, port) && ColonSafe(userinfo, h) && (h.Ipv6? ==> '/' !in h.text && '?' !in h.text)
    requires t == PrintAuthority(userinfo, h, port) && t[0] != '*'
    ensures var s := WithReqLine(q, line);
            s.targetForm == Authority && s.uri == AuthoritySet(q.uri, userinfo, h, port)
  {
    hide Keywords.KeywordVal, Parsed, WithVersion, FindChar, IsCut, IsAuthority, ColonSafe, AuthoritySet, PrintAuthority;
    AuthorityText(userinfo, h, port);
    FindCharNot(t, '/', 0);
    CutRead(q, line, m, t, v);
    AuthorityTarget(q.uri, t);
    AuthorityRecovered(q.uri, userinfo, h, port);
    VersionUri(WithTarget(q.(method_ := Keywords.KeywordVal(m)), t), v);
  }

  lemma AuthorityTarget(u: UriV, t: string)
    requires '/' !in t && '?' !in t && u.fault == NoFault
    ensures Parsed(u, t, AUTHORITY_FLAGS) == WithAuthority(u, t)
  {
    hide WithAuthority, FindPair, FindChar, FindSchemeMark;
    FindCharNot(t, '/', 0);
    FindCharNot(t, '?', 0);
    assert FindPair(t, '/', '/', 0) == None;
    assert t[0..|t|] == t;
  }

  /** The same where the target itself is the authority: it decides, whatever the host
      field says. */
  lemma AuthorityDecides(q: ReqV, full: string, cuts: seq<nat>, n: nat, config: Config, m: string, t: string, ver: string,
                         userinfo: Option<string>, h: Host, port: Option<string>)
    requires IsFresh(q) && n <= |full| && forall i :: 0 <= i < |cuts| ==> cuts[i] <= |full|
    requires IsAuthority(userinfo, h, port) && ColonSafe(userinfo, h) && (h.Ipv6? ==> '/' !in h.text && '?' !in h.text)
    requires IsCut(LineOf(full), m, t, ver) && t == PrintAuthority(userinfo, h, port) && t[0] != '*'
    requires var (c, vs) := Arrivals.Feed(ConnV(0, q), full, cuts, config);
             AllNeedMore(vs) && HeadersIn(c, full[..n])
    ensures var (d, v) := Received(Arrivals.Feed(ConnV(0, q), full, cuts, config).0, full[..n], config);
            && (v == Reject && d.req.err == MisdirectedRequest <==> !IsNamed(q.uri, h, port, config))
            && (IsNamed(q.uri, h, port, config) && userinfo.Some? && userinfo.value != "" ==>
                  v == Reject && d.req.err == BadRequest)
  {
    hide HeaderStep, Received, IsHost, IsUserinfo, IsPort, ColonSafe, PrintAuthority, IsNamed, AuthoritySet, Arrivals.Feed;
    hide WithReqLine, LineOf, IsCut;
    var c := Arrivals.Feed(ConnV(0, q), full, cuts, config).0;
    ReachedHost(q, ConnV(0, q), full, cuts, config);
    HeaderReadsHost(q, c, full, n);
    TargetAuthority(q, LineOf(full), m, t, ver, userinfo, h, port);
    NamedDecides(c, full[..n], config, q.uri, userinfo, h, port);
  }

  /** A target in absolute form never is: where no name of the server starts with two
      slashes, no run routes it. */
  lemma AbsoluteIsNotRouted(q: ReqV, full: string, cuts: seq<nat>, n: nat, config: Config, m: string, t: string, ver: string,
                            scheme: string, host: string, port: string, rest: string)
    requires IsFresh(q) && n <= |full| && forall i :: 0 <= i < |cuts| ==> cuts[i] <= |full|
    requires IsAbsolute(scheme, host, port, rest) && scheme != "" && scheme[0] != '*'
    requires IsCut(LineOf(full), m, t, ver) && t == AbsoluteText(scheme, host, port, rest)
    requires !("//" <= config.listeningIp) && !("//" <= config.listeningRegName)
    requires AllNeedMore(Arrivals.Feed(ConnV(0, q), full, cuts, config).1)
    ensures Received(Arrivals.Feed(ConnV(0, q), full, cuts, config).0, full[..n], config).1 != Route
  {
    hide Received, Arrivals.Feed, WithReqLine, LineOf, IsCut, AbsoluteText, IsAbsolute;
    var c := Arrivals.Feed(ConnV(0, q), full, cuts, config).0;
    if Received(c, full[..n], config).1 == Route {
      ReachedHost(q, ConnV(0, q), full, cuts, config);
      CallReadsHost(q, c, full, n, config);
      AbsoluteLine(q, LineOf(full), m, t, ver, scheme, host, port, rest);
    }
  }

  lemma AbsoluteLine(q: ReqV, line: string, m: string, t: string, v: string,
                     scheme: string, host: string, port: string, rest: string)
    requires IsFresh(q) && IsCut(line, m, t, v) && !Dead(WithReqLine(q, line))
    requires IsAbsolute(scheme, host, port, rest) && scheme != "" && scheme[0] != '*'
    requires t == AbsoluteText(scheme, host, port, rest)
    ensures var s := WithReqLine(q, line);
            s.targetForm == Absolute && s.uri.ipv4 == s.uri.regName && "//" <= s.uri.ipv4
  {
    hide Keywords.KeywordVal, Parsed, WithVersion, FindChar, IsCut;
    assert t[0] == scheme[0] && t[|scheme| + 1] == '/';
    assert FindChar(t, '/', 0).Some?;
    CutRead(q, line, m, t, v);
    AbsoluteRead(q.uri, scheme, host, port, rest);
    VersionUri(WithTarget(q.(method_ := Keywords.KeywordVal(m)), t), v);
  }

  lemma NamedSame(u: UriV, w: UriV, h: Host, port: Option<string>, config: Config)
    requires (port.Some? ==> IsPort(port.value)) && u.ipv4 == w.ipv4 && u.regName == w.regName
    ensures IsNamed(u, h, port, config) == IsNamed(w, h, port, config)
  {
  }

  /** What any run of calls hands to the router: its request line has a known method and
      version 1.1, it is for this server, and the path and query of a target in origin
      form without "//" are those of the line, but for a path that a query let pass. */
  lemma RoutedAsSent(q: ReqV, full: string, cuts: seq<nat>, n: nat, config: Config) returns (m: string, t: string, v: string)
    requires IsFresh(q) && n <= |full| && forall i :: 0 <= i < |cuts| ==> cuts[i] <= |full|
    requires var (c, vs) := Arrivals.Feed(ConnV(0, q), full, cuts, config);
             AllNeedMore(vs) && Received(c, full[..n], config).1 == Route
    ensures FindCrlf(full, 0).Some? && GoodCut(LineOf(full), m, t, v)
    ensures var r := Received(Arrivals.Feed(ConnV(0, q), full, cuts, config).0, full[..n], config).0.req;
            && r.uri.port == config.listeningPort
            && (r.uri.ipv4 == config.listeningIp || r.uri.regName == config.listeningRegName)
            && IsPlainTarget(r, config)
            && (IsOriginTarget(t) ==>
                  && r.uri.path == (if Only(PathOf(t), PCHARS + "/") then PathOf(t) else "")
                  && r.uri.query == QueryOf(t))
  {
    hide Received, ReadFrom, Arrivals.Feed, GoodCut, PCHARS, LineOf, WithReqLine;
    var c := Arrivals.Feed(ConnV(0, q), full, cuts, config).0;
    var r := Received(c, full[..n], config).0.req;
    ReachedHost(q, ConnV(0, q), full, cuts, config);
    CallReadsHost(q, c, full, n, config);
    ReadHasLine(q, r, full);
    m, t, v :| GoodCut(LineOf(full), m, t, v);
    if IsOriginTarget(t) {
      PathIsRead(q, r, full, m, t, v);
    }
  }

  lemma ReadHasLine(q: ReqV, r: ReqV, full: string)
    requires IsFresh(q) && ReadFrom(q, r, full)
    ensures FindCrlf(full, 0).Some? && GoodLine(LineOf(full))
  {
    hide GoodLine, FindCrlf, HostRead, WithReqLine;
    EmptyLine(q);
    LineIsGood(q, LineOf(full));
  }

  lemma EmptyLine(q: ReqV)
    ensures Dead(WithReqLine(q, ""))
  {
    FindCharNot("", ' ', 0);
  }

  lemma PathIsRead(q: ReqV, r: ReqV, full: string, m: string, t: string, v: string)
    requires IsFresh(q) && ReadFrom(q, r, full) && GoodCut(LineOf(full), m, t, v) && IsOriginTarget(t)
    ensures r.uri.path == (if Only(PathOf(t), PCHARS + "/") then PathOf(t) else "") && r.uri.query == QueryOf(t)
  {
    hide WithReqLine, LineOf, Parsed, IsOriginTarget, IsTaken, Only, PCHARS, IsCut, Keywords.KeywordVal;
    var s := WithReqLine(q, LineOf(full));
    LineTaken(q, LineOf(full), m, t, v);
    OriginTaken(q.uri, t);
    if HOST in r.fields {
      HostKeepsPath(s.uri, r.fields[HOST]);
    }
  }
}
