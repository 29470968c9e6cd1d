/** parse_headers and what it calls: the request line and the field section, read
    from a buffer that may still be growing. */
module Headers {
  import opened Strings
  import opened Keywords
  import opened Uri
  import opened Message

  const ORIGIN_FLAGS := Flags(false, false, true, true)
  const ALL_FLAGS := Flags(true, true, true, true)
  const AUTHORITY_FLAGS := Flags(false, true, false, false)
  const HOST_FLAGS := Flags(true, true, false, false)
  const NOT_AUTHORITY_FLAGS := Flags(true, false, true, true)

  const VERSION_LEN := 8

  // ---------------------------------------------------------- specification

  function UriChecked(r: ReqV): ReqV {
    if r.uri.fault == NoFault && r.uri.hasErr then r.(err := BadRequest) else r
  }

  /** at(0) throws on an empty target. */
  function WithTarget(r: ReqV, t: string): ReqV {
    if t == "" then r.(fault := Throws)
    else if t[0] == '*' then
      if |t| > 1 then r.(targetForm := Asterik, uri := r.uri.(asterik := false), err := BadRequest)
      else UriChecked(r.(targetForm := Asterik, uri := r.uri.(asterik := true)))
    else if t[0] == '/' then UriChecked(r.(targetForm := Origin, uri := Parsed(r.uri, t, ORIGIN_FLAGS)))
    else if FindChar(t, '/', 0).Some? then UriChecked(r.(targetForm := Absolute, uri := Parsed(r.uri, t, ALL_FLAGS)))
    else UriChecked(r.(targetForm := Authority, uri := Parsed(r.uri, t, AUTHORITY_FLAGS)))
  }

  function WithVersion(r: ReqV, v: string): ReqV {
    if |v| != VERSION_LEN then r.(err := BadRequest)
    else match (Stoi(v[5..6]), Stoi(v[7..8]))
         case (None, _) => r.(fault := Throws)
         case (Some(a), None) => r.(major := a, fault := Throws)
         case (Some(a), Some(b)) =>
           if a != 1 || b != 1 then r.(major := a, minor := b, err := BadRequest)
           else r.(major := a, minor := b)
  }

  function WithReqLine(r: ReqV, line: string): ReqV {
    match FindChar(line, ' ', 0)
    case None => r.(err := BadRequest)
    case Some(methodEnd) =>
      var r1 := r.(method_ := KeywordVal(line[..methodEnd]));
      if r1.method_ == 0 then r1.(err := NotImplemented)
      else match FindChar(line, ' ', methodEnd + 1)
           case None => r1.(err := BadRequest)
           case Some(targetEnd) =>
             var r2 := WithTarget(r1, line[methodEnd + 1..targetEnd]);
             if r2.Faulted() then r2
             else if targetEnd + 1 >= |line| then r2.(err := BadRequest)
             else
               var r3 := WithVersion(r2, line[targetEnd + 1..]);
               if r3.Faulted() then r3 else r3.(parseState := Headers)
  }

  /** The authority flags of the host field depend on what the target supplied. */
  function WithHostField(r: ReqV, v: string): ReqV {
    UriChecked(match r.targetForm
               case Origin | Asterik => r.(uri := Parsed(r.uri, v, HOST_FLAGS))
               case Authority => r.(uri := Parsed(r.uri, v, NOT_AUTHORITY_FLAGS))
               case Absolute => r)
  }

  function FirstNotSpace(s: string, from: nat): nat
    requires from <= |s|
  {
    Span(s, c => c == ' ', from)
  }

  function WithFieldLine(r: ReqV, line: string): ReqV {
    match FindChar(line, ':', 0)
    case None => r.(err := BadRequest)
    case Some(nameEnd) =>
      var name := Lowercase(line[..nameEnd]);
      var valueStart := FirstNotSpace(line, nameEnd + 1);
      if name in r.fields || valueStart == |line| then r.(err := BadRequest)
      else
        var value := line[valueStart..];
        var r1 := r.(fields := r.fields[name := value]);
        if name == HOST then WithHostField(r1, value) else r1
  }

  /** The loop over the field lines from lineStart on; `done` is the index to
      report if it is left otherwise than by running out of lines. */
  function FieldLoop(r: ReqV, raw: string, lineStart: nat, done: nat): (ReqV, nat)
    decreases |raw| - lineStart
  {
    if r.parseState != Headers || r.HasErr() || r.Faulted() then (r, done)
    else match FindCrlf(raw, lineStart)
         case None => (r, lineStart)
         case Some(e) =>
           if e == lineStart then
             (r.(parseState := Content), if lineStart + 2 < |raw| then lineStart + 2 else lineStart)
           else FieldLoop(WithFieldLine(r, raw[lineStart..e]), raw, e + 2, done)
  }

  /** One turn of the loop. */
  lemma FieldLoopTurn(r: ReqV, raw: string, i: nat, done: nat)
    ensures r.parseState != Headers || r.HasErr() || r.Faulted() ==> FieldLoop(r, raw, i, done) == (r, done)
    ensures r.parseState == Headers && !r.HasErr() && !r.Faulted() ==>
              match FindCrlf(raw, i)
              case None => FieldLoop(r, raw, i, done) == (r, i)
              case Some(e) =>
                if e == i then
                  FieldLoop(r, raw, i, done) == (r.(parseState := Content), if i + 2 < |raw| then i + 2 else i)
                else FieldLoop(r, raw, i, done) == FieldLoop(WithFieldLine(r, raw[i..e]), raw, e + 2, done)
  {
    hide WithFieldLine, FindCrlf;
  }

  /** parse_headers: the request after it, and the index parsing is to go on from. */
  function WithHeaders(r: ReqV, raw: string, start: nat): (ReqV, nat) {
    if r.parseState == StartLine then
      match FindCrlf(raw, 0)
      case None => (r.(err := BadRequest), start)
      case Some(e) => FieldLoop(WithReqLine(r, raw[..e]), raw, e + 2, start)
    else FieldLoop(r, raw, start, start)
  }

  // ---------------------------------------------------------------- parsers

  method ParseReqTarget(t: string, req: Request)
    requires !req.View().Faulted()
    modifies req, req.uri
    ensures req.View() == WithTarget(old(req.View()), t)
  {
    hide Parsed;
    if t == "" {
      req.fault := Throws;
      return;
    }
    if t[0] == '*' {
      req.targetForm := Asterik;
      if |t| > 1 {
        req.uri.asterik := false;
        req.err := BadRequest;
        return;
      }
      req.uri.asterik := true;
    } else if t[0] == '/' {
      req.targetForm := Origin;
      req.uri.ParseUri(t, ORIGIN_FLAGS);
    } else if FindChar(t, '/', 0).Some? {
      req.targetForm := Absolute;
      req.uri.ParseUri(t, ALL_FLAGS);
    } else {
      req.targetForm := Authority;
      req.uri.ParseUri(t, AUTHORITY_FLAGS);
    }
    if req.uri.fault == NoFault && req.uri.hasErr {
      req.err := BadRequest;
    }
  }

  method ParseVersion(v: string, req: Request)
    requires !req.View().Faulted()
    modifies req
    ensures req.View() == WithVersion(old(req.View()), v)
  {
    hide Stoi;
    if |v| != VERSION_LEN {
      req.err := BadRequest;
      return;
    }
    var major := Stoi(v[5..6]);
    if major.None? {
      req.fault := Throws;
      return;
    }
    req.major := major.value;
    var minor := Stoi(v[7..8]);
    if minor.None? {
      req.fault := Throws;
      return;
    }
    req.minor := minor.value;
    if req.major != 1 || req.minor != 1 {
      req.err := BadRequest;
    }
  }

  method ParseReqLine(line: string, req: Request)
    requires !req.View().Faulted()
    modifies req, req.uri
    ensures req.View() == WithReqLine(old(req.View()), line)
  {
    hide WithTarget, WithVersion, KeywordVal;
    var methodEnd := FindChar(line, ' ', 0);
    if methodEnd.None? {
      req.err := BadRequest;
      return;
    }
    req.method_ := KeywordVal(line[..methodEnd.value]);
    if req.method_ == 0 {
      req.err := NotImplemented;
      return;
    }
    var targetEnd := FindChar(line, ' ', methodEnd.value + 1);
    if targetEnd.None? {
      req.err := BadRequest;
      return;
    }
    ParseReqTarget(line[methodEnd.value + 1..targetEnd.value], req);
    if req.View().Faulted() {
      return;
    }
    if targetEnd.value + 1 >= |line| {
      req.err := BadRequest;
      return;
    }
    ParseVersion(line[targetEnd.value + 1..], req);
    if req.View().Faulted() {
      return;
    }
    req.parseState := Headers;
  }

  method ParseHost(v: string, req: Request)
    requires !req.View().Faulted()
    modifies req, req.uri
    ensures req.View() == WithHostField(old(req.View()), v)
  {
    hide Parsed;
    match req.targetForm {
      case Origin | Asterik => req.uri.ParseUri(v, HOST_FLAGS);
      case Authority => req.uri.ParseUri(v, NOT_AUTHORITY_FLAGS);
      case Absolute =>
    }
    if req.uri.fault == NoFault && req.uri.hasErr {
      req.err := BadRequest;
    }
  }

  method ParseFieldLine(line: string, req: Request)
    requires !req.View().Faulted()
    modifies req, req.uri
    ensures req.View() == WithFieldLine(old(req.View()), line)
  {
    hide WithHostField;
    var nameEnd := FindChar(line, ':', 0);
    if nameEnd.None? {
      req.err := BadRequest;
      return;
    }
    var name := Lowercase(line[..nameEnd.value]);
    if name in req.fields {
      req.err := BadRequest;
      return;
    }
    var valueStart := FirstNotSpace(line, nameEnd.value + 1);
    if valueStart == |line| {
      req.err := BadRequest;
      return;
    }
    var value := line[valueStart..];
    req.fields := req.fields[name := value];
    if name == HOST {
      ParseHost(value, req);
    }
  }

  /** The loop of ParseHeaders. */
  method ReadFieldLines(raw: string, req: Request, firstLine: nat, start: nat) returns (parsedTo: nat)
    requires !req.View().Faulted()
    modifies req, req.uri
    ensures (req.View(), parsedTo) == FieldLoop(old(req.View()), raw, firstLine, start)
  {
    hide WithFieldLine, FindCrlf, FieldLoop;
    ghost var goal := FieldLoop(req.View(), raw, firstLine, start);
    var lineStart := firstLine;
    parsedTo := start;
    FieldLoopTurn(req.View(), raw, lineStart, start);
    while req.parseState == Headers && req.err == NoErr && !req.View().Faulted()
      invariant req.parseState == Headers ==> parsedTo == start && goal == FieldLoop(req.View(), raw, lineStart, start)
      invariant req.parseState != Headers ==> goal == (req.View(), parsedTo)
      decreases |raw| - lineStart, if req.parseState == Headers then 1 else 0
    {
      FieldLoopTurn(req.View(), raw, lineStart, start);
      var lineEnd := FindCrlf(raw, lineStart);
      if lineEnd.None? {
        parsedTo := lineStart;
        return;
      }
      if lineEnd.value == lineStart {
        req.parseState := Content;
        parsedTo := lineStart;
        if lineStart + 2 < |raw| {
          parsedTo := parsedTo + 2;
        }
      } else {
        FieldLineKeepsState(req.View(), raw[lineStart..lineEnd.value]);
        ParseFieldLine(raw[lineStart..lineEnd.value], req);
        lineStart := lineEnd.value + 2;
      }
    }
    FieldLoopTurn(req.View(), raw, lineStart, start);
  }

  lemma FieldLineKeepsState(r: ReqV, line: string)
    ensures WithFieldLine(r, line).parseState == r.parseState
  {
    hide FindChar, FirstNotSpace, Lowercase;
  }

  method ParseHeaders(raw: string, req: Request, start: nat) returns (parsedTo: nat)
    requires !req.View().Faulted()
    modifies req, req.uri
    ensures (req.View(), parsedTo) == WithHeaders(old(req.View()), raw, start)
  {
    hide WithReqLine, WithFieldLine, FindCrlf, FieldLoop;
    if req.parseState != StartLine {
      parsedTo := ReadFieldLines(raw, req, start, start);
      return;
    }
    var lineEnd := FindCrlf(raw, 0);
    if lineEnd.None? {
      req.err := BadRequest;
      return start;
    }
    ParseReqLine(raw[..lineEnd.value], req);
    if req.View().Faulted() {
      FieldLoopTurn(req.View(), raw, lineEnd.value + 2, start);
      return start;
    }
    parsedTo := ReadFieldLines(raw, req, lineEnd.value + 2, start);
  }
}
