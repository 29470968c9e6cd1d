/** What a routed request's fields say about its body, and what it holds: section 6.3
    of RFC 9112, kept exactly when the text of a transfer encoding, if there is one, is
    read as it is meant and ends in chunked. */
module FramedRuns {
  import opened Strings
  import opened Message
  import opened Content
  import opened Chunked
  import opened ChunkedRuns
  import opened Receive
  import opened Framing
  import opened Segmentation
  import opened Arrivals
  import opened BlankCuts
  import opened Fields
  import opened TornCuts
  import opened Codings
  import Headers
  import Keywords
  import Lists

  predicate IsLength(v: string) { v != "" && All(v, IsDigit) }

  /** The content is as much of the body as the length says. */
  predicate TakesLength(r: ReqV, v: string, body: string) {
    IsLength(v) && DecVal(v) <= |body| && r.content == body[..DecVal(v)]
  }

  /** The codings a transfer encoding names. */
  function EncodingNames(p: ReqV): seq<string>
    requires TRANSFER_ENCODING in p.fields
  {
    Names(Elements(p.fields[TRANSFER_ENCODING], 0))
  }

  predicate EndsChunked(names: seq<string>) {
    && names != [] && names[|names| - 1] == "chunked"
    && forall i :: 0 <= i < |names| - 1 ==> names[i] != "chunked"
  }

  /** The body is ps in chunks, and what earlier calls have decoded is its first m bytes. */
  predicate IsChunked(p: ReqV, ps: seq<Piece>, m: nat, body: string) {
    Fits(ps) && m <= |EncodeAll(ps)| && body == EncodeAll(ps) && DecOf(p) == StateAt(ps, m)
  }

  /** Section 6.3 on the text of the fields of p. With a transfer encoding there is no
      content length, chunked is its last coding and no other one, the codings the body
      is decoded by are those it names, and the content is the data of the chunks; the
      content is what a content length says; and it is empty without either. */
  predicate FieldsHold(p: ReqV, r: ReqV, body: string, ps: seq<Piece>, m: nat) {
    if TRANSFER_ENCODING in p.fields then
      && CONTENT_LENGTH !in p.fields && EndsChunked(EncodingNames(p))
      && NamesMatch(p.transferEncodings, EncodingNames(p))
      && (IsChunked(p, ps, m, body) ==> r.content == Data(ps))
    else if CONTENT_LENGTH in p.fields then
      TakesLength(r, p.fields[CONTENT_LENGTH], body)
    else r.content == ""
  }

  /** A transfer encoding, if there is one, hides nothing behind an empty element, names
      codings only, and ends in chunked. */
  predicate TextIsMeant(p: ReqV) {
    TRANSFER_ENCODING in p.fields ==>
      var names := EncodingNames(p);
      && Whole(Elements(p.fields[TRANSFER_ENCODING], 0))
      && (forall i :: 0 <= i < |names| ==> IsCoding(names[i]))
      && names != [] && names[|names| - 1] == "chunked"
  }

  /** The word the server takes for the last coding is one of the six it numbers 1. */
  predicate ReadsChunked(v: string) {
    var read := Lists.BeforeEmpty(Elements(v, 0));
    read != [] && Lowercase(read[|read| - 1]) in Keywords.ONES
  }

  /** How far the fields of a routed request hold, and what it holds if they do not: it
      is decoded as chunked if the last word the server reads has that number, and else
      is empty, so that a content length beside a transfer encoding holds exactly when it
      is 0. */
  predicate HoldsExactlyWhen(p: ReqV, r: ReqV, body: string, ps: seq<Piece>, m: nat) {
    && (FieldsHold(p, r, body, ps, m) <==> TextIsMeant(p))
    && (TRANSFER_ENCODING in p.fields ==>
          && (CHUNKED in p.transferEncodings && IsChunked(p, ps, m, body) ==> r.content == Data(ps))
          && (CHUNKED !in p.transferEncodings ==> r.content == "")
          && (|p.fields[TRANSFER_ENCODING]| < U32 ==>
                (CHUNKED in p.transferEncodings <==> ReadsChunked(p.fields[TRANSFER_ENCODING]))))
    && (CONTENT_LENGTH in p.fields ==>
          var v := p.fields[CONTENT_LENGTH];
          TakesLength(r, v, body) <==> TRANSFER_ENCODING !in p.fields || (IsLength(v) && DecVal(v) == 0))
    && (TRANSFER_ENCODING !in p.fields && CONTENT_LENGTH !in p.fields ==> p.method_ == GET)
  }

  // ------------------------------------------------------------ along a run

  /** What is kept from call to call: before the body nothing has been read, and a body
      is only waited for if it is chunked or has a length and nothing else. */
  predicate ReadSoFar(r: ReqV) {
    || NoBody(r)
    || (!r.IsParsingHeaders()
        && (|| CHUNKED in FieldList(r, TRANSFER_ENCODING).0
            || (TRANSFER_ENCODING !in r.fields && CONTENT_LENGTH in r.fields && r.content == "")))
  }

  lemma FreshReads(r: ReqV)
    requires IsFresh(r)
    ensures ReadSoFar(r) && r.parseState != Complete
  {
  }

  lemma HeaderReads(c: ConnV, raw: string)
    requires ReadSoFar(c.req)
    ensures ReadSoFar(HeaderStep(c, raw).req)
  {
    hide Headers.FieldLoop, Headers.WithReqLine, FindCrlf, FieldList;
    if c.req.IsParsingHeaders() {
      LoopNoBody(c.req, raw, c.parsedTo, c.parsedTo);
      if FindCrlf(raw, 0).Some? {
        var e := FindCrlf(raw, 0).value;
        ReqLineNoBody(c.req, raw[..e]);
        LoopNoBody(Headers.WithReqLine(c.req, raw[..e]), raw, e + 2, c.parsedTo);
      }
    }
  }

  /** What the checks leave of all this. */
  lemma CheckedReads(r: ReqV, config: Config)
    requires var p := Checked(r, config); !p.HasErr() && !p.Faulted()
    ensures var p := Checked(r, config);
            && p.content == r.content && p.method_ == r.method_ && p.parseState == r.parseState
            && p.transferEncodings == FieldList(r, TRANSFER_ENCODING).0 == FieldList(p, TRANSFER_ENCODING).0
            && (TRANSFER_ENCODING in p.fields <==> TRANSFER_ENCODING in r.fields)
            && (CONTENT_LENGTH in p.fields <==> CONTENT_LENGTH in r.fields)
            && LengthTaken(r, p)
  {
    hide Lists.Values, Lists.Tokens, Keywords.KeywordVal, MediaTypeText, MediaSubtypeText, Stoi, DecVal;
    if CONTENT_LENGTH in r.fields && IsLength(r.fields[CONTENT_LENGTH]) {
      StoiDigits(r.fields[CONTENT_LENGTH]);
    }
  }

  /** parse_content_len takes the value of the field, unless there is a transfer
      encoding beside it. */
  predicate LengthTaken(r: ReqV, p: ReqV) {
    if CONTENT_LENGTH in p.fields && TRANSFER_ENCODING !in p.fields then
      IsLength(p.fields[CONTENT_LENGTH]) && p.contentLen == DecVal(p.fields[CONTENT_LENGTH]) < U32
    else p.contentLen == r.contentLen
  }

  /** Only the chunk decoder can be short of bytes. */
  lemma {:induction false} ShortIsChunked(r: ReqV, encs: seq<nat>, raw: string)
    requires var (s, done) := TransferDecoded(r, encs, raw); !done && !s.Faulted()
    ensures CHUNKED in encs
    decreases |encs|
  {
    hide ChunkDecoded;
    if encs[0] != CHUNKED {
      ShortIsChunked(r, encs[1..], raw);
      assert encs == [encs[0]] + encs[1..];
    }
  }

  /** Without it the transfer decoders do nothing. */
  lemma {:induction false} StubsDoNothing(r: ReqV, encs: seq<nat>, raw: string)
    requires CHUNKED !in encs && !r.Faulted()
    ensures var (s, done) := TransferDecoded(r, encs, raw); if done then s == r else s.Faulted()
    decreases |encs|
  {
    if encs != [] {
      StubsDoNothing(r, encs[1..], raw);
    }
  }

  lemma SameList(r: ReqV, s: ReqV)
    requires Grows(r, s) && FieldList(r, TRANSFER_ENCODING).0 != []
    ensures FieldList(s, TRANSFER_ENCODING) == FieldList(r, TRANSFER_ENCODING) && TRANSFER_ENCODING in r.fields
  {
    hide Lists.Values, Lists.Tokens;
  }

  lemma BodyReads(r: ReqV, raw: string, config: Config)
    requires ReadSoFar(r) && r.parseState != StartLine && r.parseState != ParseState.Headers
    requires var s := WithContent(r, raw, config); !s.Faulted() && s.IsParsingIncomplete()
    ensures ReadSoFar(WithContent(r, raw, config))
  {
    hide Checked, TransferDecoded, Finished, BadFraming, FieldList;
    var p := Checked(r, config);
    ContentKeepsClosed(r, raw, config);
    CheckedReads(r, config);
    if p.transferEncodings != [] {
      var (s, done) := TransferDecoded(p, p.transferEncodings, raw);
      if done {
        FinishedKeeps(s, s.contentEncodings);
      } else {
        ShortIsChunked(p, p.transferEncodings, raw);
        TransferGrows(p, p.transferEncodings, raw);
        SameList(p, s);
      }
    } else if CONTENT_LENGTH in p.fields && p.contentLen <= |raw| {
      FinishedKeeps(p.(content := raw[..p.contentLen]), p.contentEncodings);
    } else if CONTENT_LENGTH !in p.fields {
      FinishedKeeps(p, p.contentEncodings);
    }
  }

  /** A call that asks for more keeps it. */
  lemma StaysRead(c: ConnV, raw: string, config: Config)
    requires ReadSoFar(c.req) && Received(c, raw, config).1 == NeedMore
    ensures var r := Received(c, raw, config).0.req; ReadSoFar(r) && r.parseState != Complete
  {
    hide HeaderStep, WithContent, ReadSoFar;
    HeaderReads(c, raw);
    var c1 := HeaderStep(c, raw);
    if !c1.req.IsParsingHeaders() && c1.parsedTo <= |raw| {
      BodyReads(c1.req, raw[c1.parsedTo..], config);
    }
  }

  predicate AllNeedMore(vs: seq<Verdict>) {
    forall i :: 0 <= i < |vs| ==> vs[i] == NeedMore
  }

  lemma AllOf(v: Verdict, vs: seq<Verdict>)
    requires AllNeedMore([v] + vs)
    ensures v == NeedMore && AllNeedMore(vs)
  {
    assert ([v] + vs)[0] == v;
    forall i | 0 <= i < |vs|
      ensures vs[i] == NeedMore
    {
      assert ([v] + vs)[i + 1] == vs[i];
    }
  }

  /** So it holds wherever calls on longer and longer buffers lead a fresh request. */
  lemma {:induction false} ReachedReads(c: ConnV, full: string, cuts: seq<nat>, config: Config)
    requires ReadSoFar(c.req) && c.req.parseState != Complete && forall i :: 0 <= i < |cuts| ==> cuts[i] <= |full|
    requires AllNeedMore(Arrivals.Feed(c, full, cuts, config).1)
    ensures var d := Arrivals.Feed(c, full, cuts, config).0; ReadSoFar(d.req) && d.req.parseState != Complete
    decreases |cuts|
  {
    hide Received, ReadSoFar;
    if cuts != [] {
      var (c1, v) := Received(c, full[..cuts[0]], config);
      AllOf(v, Arrivals.Feed(c1, full, cuts[1..], config).1);
      StaysRead(c, full[..cuts[0]], config);
      ReachedReads(c1, full, cuts[1..], config);
    }
  }

  // ------------------------------------------------------------ the theorem

  /** The content of a request that is routed without chunked among its encodings. */
  lemma UnchunkedContent(r: ReqV, body: string, config: Config)
    requires ReadSoFar(r) && r.parseState != Complete && !r.IsParsingHeaders()
    requires var s := WithContent(r, body, config); !s.Faulted() && !s.HasErr() && s.parseState == Complete
    requires TRANSFER_ENCODING in Checked(r, config).fields && CHUNKED !in Checked(r, config).transferEncodings
    ensures WithContent(r, body, config).content == ""
  {
    hide Checked, TransferDecoded, Finished, BadFraming, FieldList;
    var p := Checked(r, config);
    CheckedReads(r, config);
    assert r.content == "" && p.contentLen == 0;
    if p.transferEncodings != [] {
      StubsDoNothing(p, p.transferEncodings, body);
    } else if CONTENT_LENGTH in p.fields {
      assert body[..0] == "" && p.(content := "") == p;
    }
    assert WithBody(p, body) == Finished(p, p.contentEncodings);
    FinishedKeeps(p, p.contentEncodings);
  }

  /** One that is routed with it holds the data of its chunks. */
  lemma ChunkedContent(p: ReqV, ps: seq<Piece>, m: nat, body: string)
    requires CHUNKED in p.transferEncodings && IsChunked(p, ps, m, body) && !p.HasErr() && !p.Faulted()
    requires p.parseState == ParseState.Content || p.parseState == ChunkTrailers
    requires Routes(WithBody(p, body))
    ensures WithBody(p, body).content == Data(ps)
  {
    hide WithBody, EncodeAll, StateAt, Finished, ChunkedFraming, Fits, Data, DecOf;
    RoutedIsChunkedFraming(p, body);
    ChunkedWhole(p, ps, m);
    EndState(ps);
    var r1 := WithDec(p, StateAt(ps, |EncodeAll(ps)|));
    FinishedKeeps(r1, p.contentEncodings);
  }

  /** The transfer encoding's list, if it is known, is what its text says exactly when
      the text is meant so. */
  lemma TextIsRead(p: ReqV, body: string, r: ReqV)
    requires TRANSFER_ENCODING in p.fields
    requires FieldList(p, TRANSFER_ENCODING) == (p.transferEncodings, true)
    requires OneFraming(p, r, body)
    ensures TextIsMeant(p) <==>
            CONTENT_LENGTH !in p.fields && EndsChunked(EncodingNames(p)) && NamesMatch(p.transferEncodings, EncodingNames(p))
    ensures TextIsMeant(p) ==> CHUNKED in p.transferEncodings
  {
    hide Lists.Values, Lists.Tokens, Elements, Names, Whole, IsCoding;
    var te, names := p.transferEncodings, EncodingNames(p);
    NamesMatchExactlyWhen(p.fields[TRANSFER_ENCODING]);
    if NamesMatch(te, names) && names != [] {
      forall i | 0 <= i < |names|
        ensures names[i] == "chunked" <==> te[i] == CHUNKED
      {
        ChunkedName(te[i]);
      }
    }
  }

  lemma ChunkedName(code: nat)
    ensures CodingName(code) == "chunked" <==> code == CHUNKED
  {
  }

  lemma LastIsRead(p: ReqV)
    requires TRANSFER_ENCODING in p.fields && |p.fields[TRANSFER_ENCODING]| < U32
    requires FieldList(p, TRANSFER_ENCODING) == (p.transferEncodings, true) && ChunkedOnceAndLast(p.transferEncodings)
    ensures CHUNKED in p.transferEncodings <==> ReadsChunked(p.fields[TRANSFER_ENCODING])
  {
    hide Lists.Tokens, Elements, Lists.BeforeEmpty, Lowercase, Keywords.KeywordVal;
    var t, te := p.fields[TRANSFER_ENCODING], p.transferEncodings;
    ValuesAreAll(Lists.Tokens(t, 0));
    TokensAreElements(t, 0, 0);
    if te != [] {
      LastIsOne(t);
    }
  }

  /** A request handed to the router is framed as its fields say if and only if its
      transfer encoding, if it has one, is meant as it is read. */
  lemma RoutedFieldsHold(c: ConnV, raw: string, config: Config, ps: seq<Piece>, m: nat)
    requires ReadSoFar(c.req) && c.req.parseState != Complete && Received(c, raw, config).1 == Route
    ensures var c1 := HeaderStep(c, raw);
            && c1.parsedTo <= |raw|
            && HoldsExactlyWhen(Checked(c1.req, config), Received(c, raw, config).0.req, raw[c1.parsedTo..], ps, m)
  {
    hide Checked, HeaderStep, WithBody, FieldList, DecVal, IsChunked, TextIsMeant, NamesMatch, EndsChunked, EncodingNames;
    hide ReadsChunked, ReadSoFar;
    var c1, r := HeaderStep(c, raw), Received(c, raw, config).0.req;
    var p, body := Checked(c1.req, config), raw[c1.parsedTo..];
    HeaderReads(c, raw);
    RoutedIsFramed(c, raw, config);
    HeaderStepNotComplete(c, raw);
    RoutedBody(c1.req, body, config, ps, m);
  }

  /** The same behind the headers. */
  lemma RoutedBody(r: ReqV, body: string, config: Config, ps: seq<Piece>, m: nat)
    requires ReadSoFar(r) && r.parseState != Complete && !r.IsParsingHeaders() && !r.HasErr()
    requires Routes(WithContent(r, body, config))
    requires OneFraming(Checked(r, config), WithContent(r, body, config), body)
    ensures HoldsExactlyWhen(Checked(r, config), WithContent(r, body, config), body, ps, m)
  {
    hide Checked, WithBody, FieldList, DecVal, IsChunked, TextIsMeant, NamesMatch, EndsChunked, EncodingNames, ReadsChunked;
    var p := Checked(r, config);
    CheckedReads(r, config);
    ListIsKnown(r, config);
    NoFieldNoList(p);
    if TRANSFER_ENCODING !in p.fields {
      NoTextIsMeant(p);
    } else {
      TextIsRead(p, body, WithContent(r, body, config));
      if CHUNKED !in p.transferEncodings {
        UnchunkedContent(r, body, config);
      } else if IsChunked(p, ps, m, body) {
        ChunkedContent(p, ps, m, body);
      }
      if |p.fields[TRANSFER_ENCODING]| < U32 {
        LastIsRead(p);
      }
    }
  }

  lemma NoTextIsMeant(p: ReqV)
    requires TRANSFER_ENCODING !in p.fields
    ensures TextIsMeant(p)
  {
  }

  lemma ListIsKnown(r: ReqV, config: Config)
    requires var p := Checked(r, config); !p.HasErr() && !p.Faulted()
    ensures var p := Checked(r, config); FieldList(p, TRANSFER_ENCODING) == (p.transferEncodings, true)
  {
    hide Lists.Values, Lists.Tokens, Keywords.KeywordVal, MediaTypeText, MediaSubtypeText, Stoi;
  }

  // ------------------------------------------------------------ over a run

  /** The text of the method: up to the first space of the request line. */
  function MethodText(full: string): string {
    match FindCrlf(full, 0)
    case None => ""
    case Some(e) =>
      match FindChar(full[..e], ' ', 0)
      case None => ""
      case Some(k) => full[..k]
  }

  /** The request line has been read, and the method is its number. */
  predicate MethodRead(r: ReqV, full: string) {
    r.parseState != StartLine && r.method_ == Keywords.KeywordVal(MethodText(full))
  }

  lemma LineReads(r: ReqV, full: string, e: nat)
    requires FindCrlf(full, 0) == Some(e) && r.parseState == StartLine
    requires var s := Headers.WithReqLine(r, full[..e]); !s.HasErr() && !s.Faulted()
    ensures MethodRead(Headers.WithReqLine(r, full[..e]), full)
  {
    hide FindChar, FindCrlf, Keywords.KeywordVal, Headers.WithTarget, Headers.WithVersion;
    var k := FindChar(full[..e], ' ', 0).value;
    assert full[..e][..k] == full[..k];
    forall q: ReqV, s
      ensures Headers.WithTarget(q, s).method_ == Headers.WithVersion(q, s).method_ == q.method_
    {
      TargetKeepsMethod(q, s);
      VersionKeepsMethod(q, s);
    }
  }

  lemma TargetKeepsMethod(r: ReqV, s: string)
    ensures Headers.WithTarget(r, s).method_ == r.method_
  {
    hide FindChar;
  }

  lemma VersionKeepsMethod(r: ReqV, s: string)
    ensures Headers.WithVersion(r, s).method_ == r.method_
  {
    hide Stoi;
  }

  lemma {:induction false} LoopKeepsMethod(r: ReqV, raw: string, i: nat, done: nat)
    ensures var s := Headers.FieldLoop(r, raw, i, done).0;
            s.method_ == r.method_ && (r.parseState != StartLine ==> s.parseState != StartLine)
    decreases |raw| - i
  {
    hide Headers.WithFieldLine, FindCrlf;
    if FindCrlf(raw, i).Some? && FindCrlf(raw, i).value != i {
      var e := FindCrlf(raw, i).value;
      FieldLineKeepsFrame(r, raw[i..e]);
      Headers.FieldLineKeepsState(r, raw[i..e]);
      LoopKeepsMethod(Headers.WithFieldLine(r, raw[i..e]), raw, e + 2, done);
    }
  }

  predicate MethodSoFar(r: ReqV, full: string) {
    r.parseState == StartLine || MethodRead(r, full)
  }

  lemma HeaderReadsMethod(c: ConnV, full: string, n: nat)
    requires n <= |full| && MethodSoFar(c.req, full) && !c.req.HasErr()
    requires var s := HeaderStep(c, full[..n]).req; !s.HasErr() && !s.Faulted()
    ensures MethodRead(HeaderStep(c, full[..n]).req, full)
  {
    hide Headers.FieldLoop, Headers.WithReqLine, FindCrlf, MethodText;
    var raw := full[..n];
    if c.req.parseState == StartLine {
      FindCrlfPrefix(full, n, 0);
      var e := FindCrlf(raw, 0).value;
      assert raw[..e] == full[..e];
      var s := Headers.WithReqLine(c.req, full[..e]);
      LoopKeepsMethod(s, raw, e + 2, c.parsedTo);
      if s.HasErr() || s.Faulted() {
        DeadLoopIs(s, raw, e + 2, c.parsedTo);
      }
      LineReads(c.req, full, e);
    } else {
      LoopKeepsMethod(c.req, raw, c.parsedTo, c.parsedTo);
    }
  }

  /** A request line in error or at fault is the end of it. */
  lemma DeadLoopIs(r: ReqV, raw: string, i: nat, done: nat)
    requires r.HasErr() || r.Faulted()
    ensures Headers.FieldLoop(r, raw, i, done).0 == r
  {
  }

  lemma ContentKeepsMethod(r: ReqV, raw: string, config: Config)
    requires r.parseState != StartLine && r.parseState != ParseState.Headers
    requires var s := WithContent(r, raw, config); !s.Faulted() && !s.HasErr()
    ensures WithContent(r, raw, config).method_ == r.method_
  {
    hide Checked, TransferDecoded, Finished, BadFraming;
    var p := Checked(r, config);
    CheckedReads(r, config);
    var t := if p.transferEncodings == [] then p else TransferDecoded(p, p.transferEncodings, raw).0;
    if p.transferEncodings != [] {
      TransferKeepsFrame(p, p.transferEncodings, raw);
    }
    FinishedKeepsMethod(t, t.contentEncodings);
    if p.contentLen <= |raw| {
      FinishedKeepsMethod(p.(content := raw[..p.contentLen]), p.contentEncodings);
    }
  }

  lemma FinishedKeepsMethod(r: ReqV, encs: seq<nat>)
    ensures Finished(r, encs).Faulted() || Finished(r, encs).method_ == r.method_
  {
    hide Finished;
    if !Finished(r, encs).Faulted() {
      FinishedKeeps(r, encs);
    }
  }

  /** A call that asks for more, or routes, has read the method and keeps it. */
  lemma CallReadsMethod(c: ConnV, full: string, n: nat, config: Config)
    requires n <= |full| && MethodSoFar(c.req, full) && !c.req.HasErr()
    requires var v := Received(c, full[..n], config).1; v == NeedMore || v == Route
    ensures var d := Received(c, full[..n], config).0.req; MethodRead(d, full) && !d.HasErr()
    ensures MethodRead(HeaderStep(c, full[..n]).req, full)
  {
    hide HeaderStep, WithContent, MethodText, Keywords.KeywordVal;
    HeaderReadsMethod(c, full, n);
    var c1 := HeaderStep(c, full[..n]);
    if !c1.req.IsParsingHeaders() && c1.parsedTo <= n {
      ContentKeepsMethod(c1.req, full[..n][c1.parsedTo..], config);
      ContentKeepsClosed(c1.req, full[..n][c1.parsedTo..], config);
    }
  }

  lemma {:induction false} ReachedMethod(c: ConnV, full: string, cuts: seq<nat>, config: Config)
    requires MethodSoFar(c.req, full) && !c.req.HasErr() && forall i :: 0 <= i < |cuts| ==> cuts[i] <= |full|
    requires AllNeedMore(Arrivals.Feed(c, full, cuts, config).1)
    ensures var d := Arrivals.Feed(c, full, cuts, config).0; MethodSoFar(d.req, full) && !d.req.HasErr()
    decreases |cuts|
  {
    hide Received, MethodText;
    if cuts != [] {
      var (c1, v) := Received(c, full[..cuts[0]], config);
      AllOf(v, Arrivals.Feed(c1, full, cuts[1..], config).1);
      CallReadsMethod(c, full, cuts[0], config);
      ReachedMethod(c1, full, cuts[1..], config);
    }
  }

  /** The same for any request and any arrivals of it: whatever beginnings have been
      read before, the call that routes it frames it so; and one that is routed without
      either field has one of the words numbered 1, GET among them, for its method. */
  lemma RunFieldsHold(r: ReqV, full: string, cuts: seq<nat>, n: nat, config: Config, ps: seq<Piece>, m: nat)
    requires IsFresh(r) && n <= |full| && forall i :: 0 <= i < |cuts| ==> cuts[i] <= |full|
    requires var (c, vs) := Arrivals.Feed(ConnV(0, r), full, cuts, config);
             AllNeedMore(vs) && Received(c, full[..n], config).1 == Route
    ensures var c := Arrivals.Feed(ConnV(0, r), full, cuts, config).0;
            var c1 := HeaderStep(c, full[..n]);
            var p := Checked(c1.req, config);
            && c1.parsedTo <= n
            && HoldsExactlyWhen(p, Received(c, full[..n], config).0.req, full[..n][c1.parsedTo..], ps, m)
            && (TRANSFER_ENCODING !in p.fields && CONTENT_LENGTH !in p.fields && |MethodText(full)| < U32 ==>
                  Lowercase(MethodText(full)) in Keywords.ONES)
  {
    hide Checked, HeaderStep, Received, Arrivals.Feed, HoldsExactlyWhen, ReadSoFar, MethodText, Lowercase;
    var c := Arrivals.Feed(ConnV(0, r), full, cuts, config).0;
    FreshReads(r);
    ReachedReads(ConnV(0, r), full, cuts, config);
    RoutedFieldsHold(c, full[..n], config, ps, m);
    ReachedMethod(ConnV(0, r), full, cuts, config);
    CallReadsMethod(c, full, n, config);
    RoutedMethod(c, full, n, config, ps, m);
  }

  lemma RoutedMethod(c: ConnV, full: string, n: nat, config: Config, ps: seq<Piece>, m: nat)
    requires n <= |full| && MethodRead(HeaderStep(c, full[..n]).req, full) && Received(c, full[..n], config).1 == Route
    requires c.req.parseState != Complete
    requires var c1 := HeaderStep(c, full[..n]);
             && c1.parsedTo <= n
             && HoldsExactlyWhen(Checked(c1.req, config), Received(c, full[..n], config).0.req, full[..n][c1.parsedTo..], ps, m)
    ensures var p := Checked(HeaderStep(c, full[..n]).req, config);
            TRANSFER_ENCODING !in p.fields && CONTENT_LENGTH !in p.fields && |MethodText(full)| < U32 ==>
              Lowercase(MethodText(full)) in Keywords.ONES
  {
    hide Checked, HeaderStep, Received, MethodText, Lowercase, FieldsHold, TextIsMeant, Keywords.KeywordVal;
    RoutedIsFramed(c, full[..n], config);
    CheckedReads(HeaderStep(c, full[..n]).req, config);
    if |MethodText(full)| < U32 {
      Keywords.OneIsAnyOf(MethodText(full));
    }
  }

  /** For a request that arrives whole, the decoder starts at the start: then the data of
      a chunked body is what the content has to be. */
  lemma WholeIsChunked(r: ReqV, full: string, config: Config, ps: seq<Piece>)
    requires IsFresh(r) && Received(ConnV(0, r), full, config).1 == Route
    requires var c1 := HeaderStep(ConnV(0, r), full);
             c1.parsedTo <= |full| && full[c1.parsedTo..] == EncodeAll(ps) && Fits(ps)
    ensures var c1 := HeaderStep(ConnV(0, r), full);
            CHUNKED in Checked(c1.req, config).transferEncodings ==>
              IsChunked(Checked(c1.req, config), ps, 0, full[c1.parsedTo..])
  {
    hide Checked, HeaderStep, Received, EncodeAll, IsBody, StateAt;
    var c1 := HeaderStep(ConnV(0, r), full);
    RoutedIsFramed(ConnV(0, r), full, config);
    if CHUNKED in Checked(c1.req, config).transferEncodings {
      FreshStart(r, full, config);
      CheckedKeepsDec(c1.req, config);
      FitsIsBody(ps);
      StartState(ps);
    }
  }

  /** So the content of a request that arrives whole, with a transfer encoding in front
      of a chunked body, is its data if the last word read has chunked's number, and else
      is empty. */
  lemma WholeFieldsHold(r: ReqV, full: string, config: Config, ps: seq<Piece>)
    requires IsFresh(r) && Received(ConnV(0, r), full, config).1 == Route
    requires var c1 := HeaderStep(ConnV(0, r), full);
             c1.parsedTo <= |full| && full[c1.parsedTo..] == EncodeAll(ps) && Fits(ps)
    ensures var c1, s := HeaderStep(ConnV(0, r), full), Received(ConnV(0, r), full, config).0.req;
            var p := Checked(c1.req, config);
            && HoldsExactlyWhen(p, s, full[c1.parsedTo..], ps, 0)
            && (TRANSFER_ENCODING in p.fields ==> s.content == if CHUNKED in p.transferEncodings then Data(ps) else "")
  {
    hide Checked, HeaderStep, Received, EncodeAll, Fits, Data, IsChunked, FieldsHold, TextIsMeant, ReadsChunked, ReadSoFar;
    FreshReads(r);
    RoutedFieldsHold(ConnV(0, r), full, config, ps, 0);
    WholeIsChunked(r, full, config, ps);
  }

  lemma FreshStart(r: ReqV, full: string, config: Config)
    requires IsFresh(r) && Received(ConnV(0, r), full, config).1 == Route
    ensures DecOf(HeaderStep(ConnV(0, r), full).req) == START
  {
    hide Headers.FieldLoop, Headers.WithReqLine, FindCrlf, ContentStep;
    if FindCrlf(full, 0).Some? {
      var e := FindCrlf(full, 0).value;
      ReqLineNoBody(r, full[..e]);
      LoopNoBody(Headers.WithReqLine(r, full[..e]), full, e + 2, 0);
      LineState(r, full[..e]);
      LoopEndsThere(Headers.WithReqLine(r, full[..e]), full, e + 2, 0);
    }
  }

  lemma LineState(r: ReqV, line: string)
    requires r.parseState == StartLine
    ensures var s := Headers.WithReqLine(r, line).parseState; s == StartLine || s == ParseState.Headers
  {
    hide FindChar, Keywords.KeywordVal, Headers.WithTarget, Headers.WithVersion;
    forall q: ReqV, s
      ensures Headers.WithTarget(q, s).parseState == Headers.WithVersion(q, s).parseState == q.parseState
    {
      TargetKeepsState(q, s);
      VersionKeepsState(q, s);
    }
  }

  /** The field loop that is not left in an error is left at the body or still open. */
  lemma {:induction false} LoopEndsThere(r: ReqV, raw: string, i: nat, done: nat)
    requires r.parseState != Complete && r.parseState != ChunkTrailers
    ensures var s := Headers.FieldLoop(r, raw, i, done).0; s.parseState != Complete && s.parseState != ChunkTrailers
    decreases |raw| - i
  {
    hide Headers.WithFieldLine, FindCrlf;
    if FindCrlf(raw, i).Some? && FindCrlf(raw, i).value != i {
      var e := FindCrlf(raw, i).value;
      Headers.FieldLineKeepsState(r, raw[i..e]);
      LoopEndsThere(Headers.WithFieldLine(r, raw[i..e]), raw, e + 2, done);
    }
  }

  lemma NoFieldNoList(p: ReqV)
    ensures TRANSFER_ENCODING !in p.fields ==> FieldList(p, TRANSFER_ENCODING).0 == []
  {
  }
}
