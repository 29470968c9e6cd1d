/** The URI record and its parsers (RFC 3986 without percent-encoding). Every
    parser is given the range of the text it reads. A parser overwrites hasErr,
    it does not accumulate it. */
module Uri {
  import opened Strings

  const NO_PORT := -1

  datatype UriV = UriV(hasErr: bool, fault: Fault, asterik: bool, scheme: string, userinfo: string,
                       futureVersion: string, ipv4: string, ipv6: string, ipvfuture: string,
                       regName: string, port: int, path: string, query: string)

  /** flag_scheme, flag_authority, flag_path, flag_query. */
  datatype Flags = Flags(scheme: bool, authority: bool, path: bool, query: bool)

  // ------------------------------------------------------------ characters

  predicate IsUnreserved(c: char) {
    IsAlpha(c) || IsDigit(c) || c == '-' || c == '.' || c == '_' || c == '~'
  }

  predicate IsSubDelimiter(c: char) {
    || c == '!' || c == '$' || c == '&' || c == '\'' || c == '(' || c == ')'
    || c == '*' || c == '+' || c == ',' || c == ';' || c == '='
  }

  predicate IsPchar(c: char) {
    IsUnreserved(c) || IsSubDelimiter(c) || c == ':' || c == '@'
  }

  predicate IsSchemeChar(c: char) {
    c == '+' || c == '-' || c == '.' || IsDigit(c) || IsAlpha(c)
  }

  predicate IsRegNameChar(c: char) { IsUnreserved(c) || IsSubDelimiter(c) }

  predicate IsFutureChar(c: char) { IsRegNameChar(c) || c == ':' }

  predicate IsQueryChar(c: char) { IsPchar(c) || c == '/' || c == '?' }

  /** What a path must be: pchars and slashes, no two slashes together. */
  predicate IsPath(s: string) {
    && (forall i :: 0 <= i < |s| ==> IsPchar(s[i]) || s[i] == '/')
    && (forall i :: 0 <= i < |s| ==> !PairAt(s, '/', '/', i))
  }

  // --------------------------------------------------------- specification

  /** The test in parse_userinfo ends in `|| ':'`, which holds of every character. */
  function WithUserinfo(u: UriV, s: string): UriV {
    u.(hasErr := false, userinfo := s)
  }

  function WithScheme(u: UriV, s: string): (r: UriV)
    ensures r.fault == u.fault
  {
    if s == "" || !IsAlpha(s[0]) then u.(hasErr := true)
    else u.(hasErr := !All(s, IsSchemeChar), scheme := s)
  }

  function WithPort(u: UriV, s: string): UriV {
    var u1 := u.(hasErr := !All(s, IsDigit));
    if s == "" then u1.(port := NO_PORT)
    else match Stoi(s)
         case Some(p) => u1.(port := p)
         case None => u1.(fault := Throws)
  }

  function WithIpvfuture(u: UriV, s: string): UriV {
    if s == "" || s[0] != 'v' then u.(hasErr := true)
    else match FindChar(s, '.', 0)
         case None => u.(hasErr := true)
         case Some(dot) =>
           var version, address := s[1..dot], s[dot + 1..];
           if version == "" then u.(hasErr := true)
           else
             var pass := All(version, IsHex) && All(address, IsFutureChar);
             var u1 := u.(futureVersion := version, hasErr := !pass);
             if address == "" then u1.(hasErr := true) else u1.(ipvfuture := address)
  }

  function WithHost(u: UriV, s: string): UriV {
    if s == "" then u.(hasErr := true)
    else if s[0] == '[' then
      if s[|s| - 1] != ']' then u.(hasErr := true)
      else if ToLower(s[1]) == 'v' then WithIpvfuture(u, s[1..|s| - 1])
      else u.(ipv6 := s[1..|s| - 1])
    else u.(hasErr := !All(s, IsRegNameChar), ipv4 := s, regName := s)
  }

  function HostStart(s: string): (i: nat)
    ensures i <= |s|
  {
    match FindChar(s, '@', 0)
    case Some(e) => e + 1
    case None => 0
  }

  function PortStart(s: string): (p: Option<nat>)
    ensures p.Some? ==> p.value < |s|
  {
    FindChar(s, ':', match FindChar(s, ']', 0) case Some(e) => e case None => 0)
  }

  /** A colon before the host makes the host a range that ends before it starts. */
  function WithAuthority(u: UriV, s: string): UriV {
    var u1 := match FindChar(s, '@', 0)
              case Some(e) => WithUserinfo(u, s[..e])
              case None => u;
    match PortStart(s)
    case None => WithHost(u1, s[HostStart(s)..]).(port := NO_PORT)
    case Some(p) =>
      if p < HostStart(s) then u1.(fault := Wild)
      else WithPort(WithHost(u1, s[HostStart(s)..p]), s[p + 1..])
  }

  function WithPath(u: UriV, s: string): (r: UriV)
    ensures r.fault == u.fault
  {
    if IsPath(s) then u.(path := s) else u.(hasErr := true)
  }

  function WithQuery(u: UriV, s: string): UriV {
    u.(hasErr := !All(s, IsQueryChar), query := s)
  }

  predicate SchemeMarkAt(s: string, i: int) {
    0 <= i && i + 2 < |s| && s[i] == ':' && s[i + 1] == '/' && s[i + 2] == '/'
  }

  function FindSchemeMark(s: string, from: nat): (r: Option<nat>)
    ensures r.Some? ==> from <= r.value && SchemeMarkAt(s, r.value)
    ensures forall i :: from <= i < (if r.Some? then r.value else |s|) ==> !SchemeMarkAt(s, i)
    decreases |s| - from
  {
    if from >= |s| then None
    else if SchemeMarkAt(s, from) then Some(from)
    else FindSchemeMark(s, from + 1)
  }

  function AuthorityStart(s: string): nat {
    match FindPair(s, '/', '/', 0) case Some(a) => a case None => 0
  }

  function PathStart(s: string): (p: Option<nat>)
    ensures p.Some? ==> p.value < |s|
  {
    match FindPair(s, '/', '/', 0)
    case Some(a) => FindChar(s, '/', a + 2)
    case None => FindChar(s, '/', 0)
  }

  function AuthorityEnd(s: string): (e: nat)
    ensures e <= |s|
  {
    if PathStart(s).Some? then PathStart(s).value
    else match FindChar(s, '?', 0) case Some(q) => q case None => |s|
  }

  function SchemeStep(u: UriV, s: string, on: bool): UriV {
    if !on then u
    else match FindSchemeMark(s, 0)
         case Some(e) => WithScheme(u, s[..e])
         case None => u.(scheme := "")
  }

  function AuthorityStep(u: UriV, s: string, on: bool): UriV {
    if !on then u
    else if AuthorityEnd(s) < AuthorityStart(s) then u.(fault := Wild)
    else WithAuthority(u, s[AuthorityStart(s)..AuthorityEnd(s)])
  }

  function PathStep(u: UriV, s: string, on: bool): UriV {
    if !on || PathStart(s).None? then u
    else match FindChar(s, '?', 0)
         case None => WithPath(u, s[PathStart(s).value..])
         case Some(q) =>
           if q < PathStart(s).value then u.(fault := Wild)
           else WithPath(u, s[PathStart(s).value..q])
  }

  function QueryStep(u: UriV, s: string, on: bool): UriV {
    match FindChar(s, '?', 0)
    case Some(q) => if on then WithQuery(u, s[q..]) else u
    case None => u
  }

  function Parsed(u: UriV, s: string, flags: Flags): UriV {
    var u1 := SchemeStep(u, s, flags.scheme);
    var u2 := AuthorityStep(u1, s, flags.authority);
    if u2.fault != NoFault then u2
    else
      var u3 := PathStep(u2, s, flags.path);
      if u3.fault != NoFault then u3 else QueryStep(u3, s, flags.query)
  }

  lemma StepIsOff(u: UriV, s: string)
    ensures SchemeStep(u, s, false) == AuthorityStep(u, s, false) == u
  {
  }

  lemma NoPathStep(u: UriV, s: string, on: bool)
    requires !on || PathStart(s).None?
    ensures PathStep(u, s, on) == u
  {
  }

  lemma AuthorityStepIs(u: UriV, s: string, from: nat, end: nat)
    requires from == AuthorityStart(s) && end == AuthorityEnd(s)
    ensures AuthorityStep(u, s, true) == if end < from then u.(fault := Wild) else WithAuthority(u, s[from..end])
  {
  }

  lemma PathStepIs(u: UriV, s: string, from: nat, end: nat)
    requires PathStart(s) == Some(from) && end == (match FindChar(s, '?', 0) case Some(q) => q case None => |s|)
    ensures PathStep(u, s, true) == if end < from then u.(fault := Wild) else WithPath(u, s[from..end])
  {
    assert s[from..|s|] == s[from..];
  }

  // ---------------------------------------------------------------- record

  class Uri {
    var hasErr: bool
    var fault: Fault
    var asterik: bool
    var scheme: string
    var userinfo: string
    var futureVersion: string
    var ipv4: string
    var ipv6: string
    var ipvfuture: string
    var regName: string
    var port: int
    var path: string
    var query: string

    /** The numbers and flags the C++ constructor leaves unset are given. */
    constructor (asterik: bool, port: int)
      ensures View() == UriV(false, NoFault, asterik, "", "", "", "", "", "", "", port, "", "")
    {
      hasErr, fault, this.asterik, this.port := false, NoFault, asterik, port;
      scheme, userinfo, futureVersion, ipv4, ipv6, ipvfuture, regName := "", "", "", "", "", "", "";
      path, query := "", "";
    }

    function View(): UriV
      reads this
    {
      UriV(hasErr, fault, asterik, scheme, userinfo, futureVersion, ipv4, ipv6, ipvfuture, regName, port, path, query)
    }

    method ParseUri(raw: string, flags: Flags)
      requires fault == NoFault
      modifies this
      ensures View() == Parsed(old(View()), raw, flags)
    {
      hide WithScheme, WithAuthority, AuthorityStep, PathStep, QueryStep, FindChar, FindPair, FindSchemeMark;
      StepIsOff(View(), raw);
      var authStart := FindPair(raw, '/', '/', 0);
      var queryStart := FindChar(raw, '?', 0);
      if flags.scheme {
        var schemeEnd := FindSchemeMark(raw, 0);
        if schemeEnd.Some? {
          ParseScheme(raw[..schemeEnd.value]);
        } else {
          scheme := "";
        }
      }
      ghost var u1 := View();
      StepIsOff(u1, raw);
      var authFrom := 0;
      var pathStart;
      if authStart.None? {
        pathStart := FindChar(raw, '/', 0);
      } else {
        authFrom := authStart.value;
        pathStart := FindChar(raw, '/', authStart.value + 2);
      }
      if flags.authority {
        var end := if pathStart.Some? then pathStart.value
                   else if queryStart.Some? then queryStart.value else |raw|;
        AuthorityStepIs(u1, raw, authFrom, end);
        if end < authFrom {
          fault := Wild;
          return;
        }
        ParseAuthority(raw[authFrom..end]);
        if fault != NoFault {
          return;
        }
      }
      ParsePathAndQuery(raw, flags, pathStart, queryStart);
    }

    /** The second half of ParseUri. */
    method ParsePathAndQuery(raw: string, flags: Flags, pathStart: Option<nat>, queryStart: Option<nat>)
      requires fault == NoFault && pathStart == PathStart(raw) && queryStart == FindChar(raw, '?', 0)
      modifies this
      ensures var u := PathStep(old(View()), raw, flags.path);
              View() == if u.fault != NoFault then u else QueryStep(u, raw, flags.query)
    {
      hide WithPath, WithQuery, PathStep, FindChar;
      ghost var u2 := View();
      if flags.path && pathStart.Some? {
        var end := if queryStart.Some? then queryStart.value else |raw|;
        PathStepIs(u2, raw, pathStart.value, end);
        if end < pathStart.value {
          fault := Wild;
          return;
        }
        ParsePath(raw[pathStart.value..end]);
      } else {
        NoPathStep(u2, raw, flags.path);
      }
      if flags.query && queryStart.Some? {
        ParseQuery(raw[queryStart.value..]);
      }
    }

    method ParseScheme(s: string)
      modifies this
      ensures View() == WithScheme(old(View()), s)
    {
      if s == "" || !IsAlpha(s[0]) {
        hasErr := true;
        return;
      }
      var pass := ParsePattern(s, IsSchemeChar);
      hasErr, scheme := !pass, s;
    }

    method ParseAuthority(s: string)
      modifies this
      ensures View() == WithAuthority(old(View()), s)
    {
      hide WithUserinfo, WithHost, WithPort;
      var userinfoEnd := FindChar(s, '@', 0);
      var hostStart := 0;
      if userinfoEnd.Some? {
        ParseUserinfo(s[..userinfoEnd.value]);
        hostStart := userinfoEnd.value + 1;
      }
      var literalEnd := FindChar(s, ']', 0);
      var portStart := FindChar(s, ':', if literalEnd.Some? then literalEnd.value else 0);
      if portStart.None? {
        ParseHost(s[hostStart..]);
        port := NO_PORT;
      } else if portStart.value < hostStart {
        fault := Wild;
      } else {
        ParseHost(s[hostStart..portStart.value]);
        ParsePort(s[portStart.value + 1..]);
      }
    }

    method ParseUserinfo(s: string)
      modifies this
      ensures View() == WithUserinfo(old(View()), s)
    {
      var pass := ParsePattern(s, c => IsUnreserved(c) || IsSubDelimiter(c) || ':' != 0 as char);
      hasErr, userinfo := !pass, s;
    }

    method ParseHost(s: string)
      modifies this
      ensures View() == WithHost(old(View()), s)
    {
      if s == "" {
        hasErr := true;
        return;
      }
      if s[0] == '[' {
        if s[|s| - 1] != ']' {
          hasErr := true;
          return;
        }
        if ToLower(s[1]) == 'v' {
          ParseIpvfuture(s[1..|s| - 1]);
        } else {
          ipv6 := s[1..|s| - 1];
        }
      } else {
        var pass := ParsePattern(s, IsRegNameChar);
        hasErr, ipv4, regName := !pass, s, s;
      }
    }

    method ParseIpvfuture(s: string)
      modifies this
      ensures View() == WithIpvfuture(old(View()), s)
    {
      if s == "" || s[0] != 'v' {
        hasErr := true;
        return;
      }
      var dot := FindChar(s, '.', 0);
      if dot.None? {
        hasErr := true;
        return;
      }
      var version := s[1..dot.value];
      var pass := ParsePattern(version, IsHex);
      if version == "" {
        hasErr := true;
        return;
      }
      futureVersion := version;
      var address := s[dot.value + 1..];
      if pass {
        pass := ParsePattern(address, IsFutureChar);
      }
      hasErr := !pass;
      if address == "" {
        hasErr := true;
        return;
      }
      ipvfuture := address;
    }

    method ParsePort(s: string)
      modifies this
      ensures View() == WithPort(old(View()), s)
    {
      var pass := ParsePattern(s, IsDigit);
      hasErr := !pass;
      if s == "" {
        port := NO_PORT;
      } else {
        match Stoi(s)
        case Some(p) => port := p;
        case None => fault := Throws;
      }
    }

    /** The two nested loops over the segments accept exactly the paths. */
    method ParsePath(s: string)
      modifies this
      ensures View() == WithPath(old(View()), s)
    {
      var it := 0;
      while it != |s| && IsPchar(s[it])
        invariant 0 <= it <= |s|
        invariant forall k :: 0 <= k < it ==> IsPchar(s[k])
        decreases |s| - it
      {
        it := it + 1;
      }
      while it != |s|
        invariant 0 <= it <= |s|
        invariant forall k :: 0 <= k < it ==> IsPchar(s[k]) || s[k] == '/'
        invariant forall k :: k + 1 < it ==> !PairAt(s, '/', '/', k)
        invariant 0 < it < |s| ==> s[it - 1] != '/'
        invariant it < |s| ==> !IsPchar(s[it])
        invariant View() == old(View())
        decreases |s| - it
      {
        if s[it] != '/' {
          hasErr := true;
          return;
        }
        it := it + 1;
        var segExists := false;
        while it != |s| && s[it] != '/'
          invariant 0 < it <= |s|
          invariant forall k :: 0 <= k < it ==> IsPchar(s[k]) || s[k] == '/'
          invariant forall k :: k + 1 < it ==> !PairAt(s, '/', '/', k)
          invariant segExists <==> s[it - 1] != '/'
          invariant View() == old(View())
          decreases |s| - it
        {
          if !IsPchar(s[it]) {
            assert !IsPath(s);
            hasErr := true;
            return;
          }
          segExists := true;
          it := it + 1;
        }
        if !segExists && it != |s| {
          assert PairAt(s, '/', '/', it - 1);
          hasErr := true;
          return;
        }
      }
      path := s;
    }

    method ParseQuery(s: string)
      modifies this
      ensures View() == WithQuery(old(View()), s)
    {
      var pass := ParsePattern(s, IsQueryChar);
      hasErr, query := !pass, s;
    }
  }
}
