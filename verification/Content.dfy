/** parse_content: the checks on a request whose headers are in, its framing, and
    the body decoders. */
module Content {
  import opened Strings
  import opened Keywords
  import opened Lists
  import opened Message
  import opened Headers
  import opened Chunked

  const DEFAULT_CONTENT_TYPE := "application/json"
  const LAST_ENCODING := 5

  // ---------------------------------------------------------- decode_chunked

  function DecOf(r: ReqV): Dec {
    Dec(r.content, r.contentLen, r.chunkedContentLen, r.parseState != ParseState.Content)
  }

  function WithDec(r: ReqV, d: Dec): ReqV {
    r.(content := d.content, contentLen := d.contentLen, chunkedContentLen := d.cursor,
       parseState := if d.ended then ChunkTrailers else r.parseState)
  }

  /** The trailer lines from i on, and whether the empty line that ends them is in. */
  function TrailerLoop(r: ReqV, raw: string, i: nat): (ReqV, bool)
    decreases |raw| - i
  {
    if i >= |raw| then (r, false)
    else match FindCrlf(raw, i)
         case None => (r, false)
         case Some(e) =>
           if e == i then (r, true)
           else
             var r1 := WithFieldLine(r, raw[i..e]);
             if r1.Faulted() then (r1, false) else TrailerLoop(r1, raw, e + 2)
  }

  /** Behind the last chunk: complete, or on to the trailers. */
  function BehindChunks(r: ReqV, raw: string): (ReqV, bool) {
    if r.chunkedContentLen == |raw| then (r, true)
    else TrailerLoop(r, raw, (r.chunkedContentLen + 1) % U32)
  }

  /** decode_chunked: the request after it, and whether the body is complete. A loop
      that is never left is an outcome of its own, and nobody sees what it writes. */
  function ChunkDecoded(r: ReqV, raw: string): (ReqV, bool) {
    if r.parseState == ParseState.Content then
      match Chunks(raw, DecOf(r))
      case Asks(d) => (WithDec(r, d), false)
      case Ends(d) => BehindChunks(WithDec(r, d), raw)
      case Endless => (r.(fault := Wild), false)
    else BehindChunks(r.(parseState := ChunkTrailers), raw)
  }

  lemma TurnsTurn(raw: string, d: Dec, limit: nat)
    ensures Turns(raw, d, limit) == match OneTurn(raw, d)
                                    case Stop => Asks(d)
                                    case Take(n, next) =>
                                      if n == 0 then Ends(next.(ended := true))
                                      else if limit == 0 then Endless
                                      else Turns(raw, next, limit - 1)
  {
    hide OneTurn;
  }

  datatype TakeEnd = More | Done | Never

  /** The loop as an outcome and the fields it leaves. */
  function LoopOf(o: TakeEnd, req: Request): Loop
    reads req
  {
    match o
    case More => Asks(Dec(req.content, req.contentLen, req.chunkedContentLen, false))
    case Done => Ends(Dec(req.content, req.contentLen, req.chunkedContentLen, true))
    case Never => Endless
  }

  /** The do-while loop of decode_chunked. `left` counts down the turns it can take
      without going on for ever; past them the request is put back as it was. */
  method TakeChunks(raw: string, req: Request) returns (o: TakeEnd)
    modifies req`content, req`contentLen, req`chunkedContentLen
    ensures LoopOf(o, req) == Chunks(raw, Dec(old(req.content), old(req.contentLen), old(req.chunkedContentLen), false))
    ensures o == Never ==> unchanged(req)
  {
    hide FindCrlf, FindChar, Turns, HexRead;
    var before := Dec(req.content, req.contentLen, req.chunkedContentLen, false);
    ghost var d, goal := before, Chunks(raw, before);
    var left: nat := |raw|;
    while true
      invariant d == Dec(req.content, req.contentLen, req.chunkedContentLen, false)
      invariant goal == Turns(raw, d, left)
      decreases left
    {
      TurnsTurn(raw, d, left);
      var sizeEnd := FindChar(raw, ' ', req.chunkedContentLen);
      var headerEnd := FindCrlf(raw, req.chunkedContentLen);
      if sizeEnd.None? {
        sizeEnd := headerEnd;
      }
      if sizeEnd.None? {
        return More;
      }
      var size := HexRead(raw[req.chunkedContentLen..sizeEnd.value]);
      var room := if headerEnd.None? then |raw| - 1 else |raw| - headerEnd.value - 2;
      if size > room {
        return More;
      }
      var dataStart := if headerEnd.None? then 1 else headerEnd.value + 2;
      var narrowed := if headerEnd.None? then U32 - 1 else headerEnd.value % U32;
      req.content := req.content + raw[dataStart..dataStart + size];
      req.chunkedContentLen := (narrowed + 2 + size + 2) % U32;
      req.contentLen := (req.contentLen + size) % U32;
      d := Dec(req.content, req.contentLen, req.chunkedContentLen, false);
      if size == 0 {
        return Done;
      }
      if left == 0 {
        req.content, req.contentLen, req.chunkedContentLen := before.content, before.contentLen, before.cursor;
        return Never;
      }
      left := left - 1;
    }
  }

  method DecodeChunked(raw: string, req: Request) returns (done: bool)
    requires !req.View().Faulted()
    modifies req, req.uri
    ensures (req.View(), done) == ChunkDecoded(old(req.View()), raw)
  {
    hide Chunks, TrailerLoop;
    if req.parseState == ParseState.Content {
      var o := TakeChunks(raw, req);
      if o == Never {
        req.fault := Wild;
      }
      if o != Done {
        return false;
      }
    }
    req.parseState := ChunkTrailers;
    if req.chunkedContentLen == |raw| {
      return true;
    }
    done := ReadTrailers(raw, req, (req.chunkedContentLen + 1) % U32);
  }

  /** The second loop of decode_chunked. */
  method ReadTrailers(raw: string, req: Request, start: nat) returns (done: bool)
    requires !req.View().Faulted()
    modifies req, req.uri
    ensures (req.View(), done) == TrailerLoop(old(req.View()), raw, start)
  {
    hide WithFieldLine, FindCrlf;
    ghost var r := req.View();
    var lineStart := start;
    while lineStart < |raw|
      invariant !req.View().Faulted()
      invariant TrailerLoop(r, raw, start) == TrailerLoop(req.View(), raw, lineStart)
    {
      var lineEnd := FindCrlf(raw, lineStart);
      if lineEnd.None? {
        return false;
      }
      if lineEnd.value == lineStart {
        return true;
      }
      ParseFieldLine(raw[lineStart..lineEnd.value], req);
      if req.View().Faulted() {
        return false;
      }
      lineStart := lineEnd.value + 2;
    }
    return false;
  }

  // ------------------------------------------------------------- field lists

  /** parse_field_list: the values up to the first unknown token, and whether that
      is all of them. */
  function FieldList(r: ReqV, name: string): (seq<nat>, bool) {
    if name in r.fields then Values(Tokens(r.fields[name], 0)) else ([], true)
  }

  method ParseFieldList(req: Request, name: string, handler: Err) returns (list: seq<nat>)
    modifies req`err
    ensures list == FieldList(old(req.View()), name).0
    ensures req.err == if FieldList(old(req.View()), name).1 then old(req.err) else handler
  {
    hide Tokens, KeywordVal;
    list := [];
    if name !in req.fields {
      return;
    }
    var parsed := ParseList(req.fields[name]);
    assert parsed[0..] == parsed && list + Values(parsed).0 == Values(parsed).0;
    for i := 0 to |parsed|
      invariant req.err == old(req.err)
      invariant Values(parsed) == (list + Values(parsed[i..]).0, Values(parsed[i..]).1)
    {
      var val := KeywordVal(parsed[i]);
      assert parsed[i..][1..] == parsed[i + 1..];
      if val == 0 {
        req.err := handler;
        return;
      }
      ghost var rest := Values(parsed[i + 1..]).0;
      assert list + ([val] + rest) == list + [val] + rest;
      list := list + [val];
    }
  }

  // ----------------------------------------------------------------- prelude

  /** parse_content_len. */
  function WithContentLen(r: ReqV): ReqV {
    if CONTENT_LENGTH !in r.fields || TRANSFER_ENCODING in r.fields then r
    else
      var v := r.fields[CONTENT_LENGTH];
      if v == "" || !All(v, IsDigit) then r.(err := BadRequest)
      else match Stoi(v)
           case Some(n) => r.(contentLen := n % U32)
           case None => r.(fault := Throws)
  }

  method ParseContentLen(req: Request)
    modifies req`err, req`fault, req`contentLen
    ensures req.View() == WithContentLen(old(req.View()))
  {
    if CONTENT_LENGTH !in req.fields || TRANSFER_ENCODING in req.fields {
      return;
    }
    var v := req.fields[CONTENT_LENGTH];
    var valid := ParsePattern(v, IsDigit);
    if v == "" || !valid {
      req.err := BadRequest;
      return;
    }
    match Stoi(v)
    case Some(n) => req.contentLen := n % U32;
    case None => req.fault := Throws;
  }

  function MediaTypeText(ct: string): string {
    match FindChar(ct, '/', 0)
    case Some(slash) => ct[..slash]
    case None => ct
  }

  /** With a parameter the subtype is read one character too far, up to and
      including the semicolon. */
  function MediaSubtypeText(ct: string): string {
    match FindChar(ct, '/', 0)
    case None => ""
    case Some(slash) =>
      match FindChar(ct, ';', slash)
      case Some(e) => ct[slash + 1..e + 1]
      case None => ct[slash + 1..]
  }

  function ContentTypeAdded(r: ReqV): ReqV {
    if CONTENT_TYPE in r.fields then r else r.(fields := r.fields[CONTENT_TYPE := DEFAULT_CONTENT_TYPE])
  }

  /** The media type of a request that has a content type. */
  function WithMediaType(r: ReqV): ReqV
    requires CONTENT_TYPE in r.fields
  {
    var ct := r.fields[CONTENT_TYPE];
    var r2 := r.(mediaType := KeywordVal(MediaTypeText(ct)));
    if r2.mediaType == 0 then r2.(err := UnsupportedMediaType)
    else
      var r3 := r2.(mediaSubtype := KeywordVal(MediaSubtypeText(ct)));
      if r3.mediaSubtype == 0 then r3.(err := UnsupportedMediaType) else r3
  }

  /** parse_content_type. */
  function WithContentType(r: ReqV): ReqV {
    WithMediaType(ContentTypeAdded(r))
  }

  method ParseContentType(req: Request)
    modifies req`fields, req`mediaType, req`mediaSubtype, req`err
    ensures req.View() == WithContentType(old(req.View()))
  {
    hide KeywordVal, MediaTypeText, MediaSubtypeText;
    if CONTENT_TYPE !in req.fields {
      req.fields := req.fields[CONTENT_TYPE := DEFAULT_CONTENT_TYPE];
    }
    ReadMediaType(req);
  }

  /** The rest of ParseContentType. */
  method ReadMediaType(req: Request)
    requires CONTENT_TYPE in req.fields
    modifies req`mediaType, req`mediaSubtype, req`err
    ensures req.View() == WithMediaType(old(req.View()))
  {
    hide KeywordVal, MediaTypeText, MediaSubtypeText;
    var mediaType, subtype := SplitMediaType(req.fields[CONTENT_TYPE]);
    req.mediaType := KeywordVal(mediaType);
    if req.mediaType == 0 {
      req.err := UnsupportedMediaType;
      return;
    }
    req.mediaSubtype := KeywordVal(subtype);
    if req.mediaSubtype == 0 {
      req.err := UnsupportedMediaType;
    }
  }

  method SplitMediaType(ct: string) returns (mediaType: string, subtype: string)
    ensures mediaType == MediaTypeText(ct) && subtype == MediaSubtypeText(ct)
  {
    var slash := FindChar(ct, '/', 0);
    mediaType := if slash.Some? then ct[..slash.value] else ct;
    subtype := "";
    if slash.Some? {
      var end := FindChar(ct, ';', slash.value);
      subtype := if end.Some? then ct[slash.value + 1..end.value + 1] else ct[slash.value + 1..];
    }
  }

  predicate Misdirected(r: ReqV, config: Config) {
    || r.uri.port != config.listeningPort
    || (r.uri.ipv4 != config.listeningIp && r.uri.regName != config.listeningRegName)
  }

  /** operator[] adds an empty host field when there is none. */
  function HostAdded(r: ReqV): ReqV {
    if HOST in r.fields then r else r.(fields := r.fields[HOST := ""])
  }

  predicate BadTarget(r: ReqV, config: Config)
    requires HOST in r.fields
  {
    r.fields[HOST] == "" || (r.uri.scheme != "" && r.uri.scheme != config.defaultScheme) || r.uri.userinfo != ""
  }

  function WithLists(r: ReqV): ReqV {
    var te := FieldList(r, TRANSFER_ENCODING);
    var ce := FieldList(r, CONTENT_ENCODING);
    r.(transferEncodings := te.0, contentEncodings := ce.0,
       err := if !ce.1 then BadRequest else if !te.1 then NotImplemented else r.err)
  }

  /** Everything parse_content does before it looks at the body. */
  function Checked(r: ReqV, config: Config): ReqV {
    if Misdirected(r, config) then r.(err := MisdirectedRequest)
    else
      var r1 := HostAdded(r);
      if BadTarget(r1, config) then r1.(err := BadRequest)
      else
        var r2 := WithContentLen(WithLists(r1));
        if r2.fault != NoFault then r2 else WithContentType(r2)
  }

  // ----------------------------------------------------------------- framing

  function Count(s: seq<nat>, x: nat): nat {
    if s == [] then 0 else (if s[0] == x then 1 else 0) + Count(s[1..], x)
  }

  /** The transfer decoders in turn, each on the raw content; the stubs decode
      nothing and an unknown code makes the decoder map throw. */
  function TransferDecoded(r: ReqV, encs: seq<nat>, raw: string): (ReqV, bool)
    decreases |encs|
  {
    if encs == [] then (r, true)
    else if encs[0] == 0 || encs[0] > LAST_ENCODING then (r.(fault := Throws), false)
    else if encs[0] == CHUNKED then
      var (r1, done) := ChunkDecoded(r, raw);
      if !done then (r1, false) else TransferDecoded(r1, encs[1..], raw)
    else TransferDecoded(r, encs[1..], raw)
  }

  /** decode_chunked on the content itself would append to the string it is reading. */
  predicate Appends(r: ReqV) {
    && r.parseState == ParseState.Content
    && OneTurn(r.content, DecOf(r)).Take? && OneTurn(r.content, DecOf(r)).size > 0
  }

  /** The content decoders are stubs too, but for chunked, which is given the content
      and whose answer is ignored. Once it has appended to the content it goes on to
      read through a view that the string may have left behind. */
  function Finished(r: ReqV, encs: seq<nat>): ReqV
    decreases |encs|
  {
    if encs == [] then r.(parseState := Complete)
    else if encs[0] == 0 || encs[0] > LAST_ENCODING then r.(fault := Throws)
    else if encs[0] == CHUNKED then
      if Appends(r) then r.(fault := Wild)
      else
        var r1 := ChunkDecoded(r, r.content).0;
        if r1.Faulted() then r1 else Finished(r1, encs[1..])
    else Finished(r, encs[1..])
  }

  /** RFC 9112 section 6.3: at most one way to know where the body ends. */
  predicate BadFraming(r: ReqV)
    requires r.transferEncodings != []
  {
    var te := r.transferEncodings;
    || CONTENT_LENGTH in r.fields
    || Count(te, CHUNKED) > 1
    || (Count(te, CHUNKED) == 1 && te[|te| - 1] != CHUNKED)
  }

  function WithBody(r: ReqV, raw: string): ReqV
  {
    if r.transferEncodings != [] then
      if BadFraming(r) then r.(err := BadRequest)
      else
        var (r1, done) := TransferDecoded(r, r.transferEncodings, raw);
        if done then Finished(r1, r1.contentEncodings) else r1
    else if CONTENT_LENGTH in r.fields then
      if r.contentLen > |raw| then r
      else Finished(r.(content := raw[..r.contentLen]), r.contentEncodings)
    else if r.method_ != GET then r.(err := LengthRequired)
    else Finished(r, r.contentEncodings)
  }

  function WithContent(r: ReqV, raw: string, config: Config): ReqV
  {
    var r1 := Checked(r, config);
    if r1.HasErr() || r1.Faulted() then r1 else WithBody(r1, raw)
  }

  method ReadLists(req: Request)
    modifies req`transferEncodings, req`contentEncodings, req`err
    ensures req.View() == WithLists(old(req.View()))
  {
    hide Values, Tokens;
    req.transferEncodings := ParseFieldList(req, TRANSFER_ENCODING, NotImplemented);
    req.contentEncodings := ParseFieldList(req, CONTENT_ENCODING, BadRequest);
  }

  method CheckRequest(req: Request, config: Config)
    requires !req.View().Faulted()
    modifies req`transferEncodings, req`contentEncodings, req`err, req`fault, req`contentLen, req`fields, req`mediaType, req`mediaSubtype
    ensures req.View() == Checked(old(req.View()), config)
  {
    hide WithLists, WithContentLen, WithContentType;
    if req.uri.port != config.listeningPort
       || (req.uri.ipv4 != config.listeningIp && req.uri.regName != config.listeningRegName) {
      req.err := MisdirectedRequest;
      return;
    }
    if HOST !in req.fields {
      req.fields := req.fields[HOST := ""];
    }
    if req.fields[HOST] == ""
       || (req.uri.scheme != "" && req.uri.scheme != config.defaultScheme)
       || req.uri.userinfo != "" {
      req.err := BadRequest;
      return;
    }
    ReadLists(req);
    ParseContentLen(req);
    if req.fault != NoFault {
      return;
    }
    ParseContentType(req);
  }

  method CountOf(s: seq<nat>, x: nat) returns (n: nat)
    ensures n == Count(s, x)
  {
    n := 0;
    assert s[0..] == s;
    for i := 0 to |s|
      invariant n + Count(s[i..], x) == Count(s, x)
    {
      assert s[i..][1..] == s[i + 1..];
      if s[i] == x {
        n := n + 1;
      }
    }
  }

  /** parse_content. The checks in front of the framing are CheckRequest. */
  method ParseContent(raw: string, req: Request, config: Config)
    requires !req.View().Faulted()
    modifies req, req.uri
    ensures req.View() == WithContent(old(req.View()), raw, config)
  {
    hide Checked, ChunkDecoded, Count, TransferDecoded, Finished;
    CheckRequest(req, config);
    if req.err != NoErr || req.View().Faulted() {
      return;
    }
    if req.transferEncodings != [] {
      if CONTENT_LENGTH in req.fields {
        req.err := BadRequest;
        return;
      }
      var chunkedCount := CountOf(req.transferEncodings, CHUNKED);
      if chunkedCount > 1
         || (chunkedCount == 1 && req.transferEncodings[|req.transferEncodings| - 1] != CHUNKED) {
        req.err := BadRequest;
        return;
      }
      var done := DecodeTransfer(raw, req);
      if !done {
        return;
      }
    } else if CONTENT_LENGTH in req.fields {
      if req.contentLen > |raw| {
        return;
      }
      req.content := raw[..req.contentLen];
    } else if req.method_ != GET {
      req.err := LengthRequired;
      return;
    }
    FinishContent(req);
  }

  /** The decoder loop over the transfer encodings. */
  method DecodeTransfer(raw: string, req: Request) returns (done: bool)
    requires !req.View().Faulted()
    modifies req, req.uri
    ensures (req.View(), done) == TransferDecoded(old(req.View()), old(req.transferEncodings), raw)
    ensures done ==> !req.View().Faulted()
  {
    hide ChunkDecoded;
    var encs := req.transferEncodings;
    assert encs[0..] == encs;
    for i := 0 to |encs|
      invariant !req.View().Faulted()
      invariant TransferDecoded(old(req.View()), encs, raw) == TransferDecoded(req.View(), encs[i..], raw)
    {
      assert encs[i..][1..] == encs[i + 1..];
      if encs[i] == 0 || encs[i] > LAST_ENCODING {
        req.fault := Throws;
        return false;
      }
      if encs[i] == CHUNKED {
        DoneIsNoFault(req.View(), raw);
        var decoded := DecodeChunked(raw, req);
        if !decoded {
          return false;
        }
      }
    }
    return true;
  }

  /** The request as the trailers find it. */
  function BeforeTrailers(r: ReqV, raw: string): ReqV {
    if r.parseState == ParseState.Content then
      match Chunks(raw, DecOf(r))
      case Ends(d) => WithDec(r, d)
      case _ => r
    else r.(parseState := ChunkTrailers)
  }

  /** A decoder that reports the body complete has not faulted. */
  lemma DoneIsNoFault(r: ReqV, raw: string)
    requires !r.Faulted()
    ensures ChunkDecoded(r, raw).1 ==> !ChunkDecoded(r, raw).0.Faulted()
  {
    hide TrailerLoop, Chunks;
    var s := BeforeTrailers(r, raw);
    TrailerDone(s, raw, (s.chunkedContentLen + 1) % U32);
  }

  lemma {:induction false} TrailerDone(r: ReqV, raw: string, i: nat)
    requires !r.Faulted()
    ensures TrailerLoop(r, raw, i).1 ==> !TrailerLoop(r, raw, i).0.Faulted()
    decreases |raw| - i
  {
    hide WithFieldLine, FindCrlf;
    if i < |raw| && FindCrlf(raw, i).Some? && FindCrlf(raw, i).value != i {
      var e := FindCrlf(raw, i).value;
      if !WithFieldLine(r, raw[i..e]).Faulted() {
        TrailerDone(WithFieldLine(r, raw[i..e]), raw, e + 2);
      }
    }
  }

  /** The decoder loop over the content encodings, and the end of the parse. */
  method FinishContent(req: Request)
    requires !req.View().Faulted()
    modifies req, req.uri
    ensures req.View() == Finished(old(req.View()), old(req.contentEncodings))
  {
    hide ChunkDecoded, OneTurn;
    var encs := req.contentEncodings;
    assert encs[0..] == encs;
    for i := 0 to |encs|
      invariant !req.View().Faulted()
      invariant Finished(old(req.View()), encs) == Finished(req.View(), encs[i..])
    {
      assert encs[i..][1..] == encs[i + 1..];
      if encs[i] == 0 || encs[i] > LAST_ENCODING {
        req.fault := Throws;
        return;
      }
      if encs[i] == CHUNKED {
        if Appends(req.View()) {
          req.fault := Wild;
          return;
        }
        var ignored := DecodeChunked(req.content, req);
        if req.View().Faulted() {
          return;
        }
      }
    }
    req.parseState := Complete;
  }
}
