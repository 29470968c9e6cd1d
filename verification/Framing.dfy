/** What a routed request looks like (RFC 9112 section 6.3), and the checks in
    front of the body as a settled state. */
module Framing {
  import opened Strings
  import opened Lists
  import opened Message
  import opened Content
  import opened Chunked
  import opened ChunkedLoop
  import opened Receive
  import Headers
  import Keywords
  import Uri

  lemma {:induction false} CountPositive(s: seq<nat>, x: nat)
    ensures Count(s, x) > 0 <==> x in s
  {
    if s != [] {
      CountPositive(s[1..], x);
      assert s == [s[0]] + s[1..];
    }
  }

  lemma {:induction false} CountAppend(s: seq<nat>, t: seq<nat>, x: nat)
    ensures Count(s + t, x) == Count(s, x) + Count(t, x)
  {
    if s == [] {
      assert s + t == t;
    } else {
      assert (s + t)[1..] == s[1..] + t;
      CountAppend(s[1..], t, x);
    }
  }

  /** chunked occurs at most once, and then last. */
  predicate ChunkedOnceAndLast(te: seq<nat>) {
    forall i :: 0 <= i < |te| && te[i] == CHUNKED ==> i == |te| - 1
  }

  lemma ChunkedPlace(te: seq<nat>)
    requires te != []
    ensures (Count(te, CHUNKED) == 0 || (Count(te, CHUNKED) == 1 && te[|te| - 1] == CHUNKED)) <==> ChunkedOnceAndLast(te)
  {
    var k := |te| - 1;
    assert te == te[..k] + [te[k]];
    CountAppend(te[..k], [te[k]], CHUNKED);
    CountPositive(te[..k], CHUNKED);
    assert [te[k]][1..] == [];
    if CHUNKED in te[..k] {
      var i :| 0 <= i < k && te[..k][i] == CHUNKED;
      assert te[i] == CHUNKED;
    } else {
      assert forall i :: 0 <= i < k ==> te[i] == te[..k][i];
    }
  }

  /** The parts of a request no body decoder touches. */
  predicate SameFrame(p: ReqV, r: ReqV) {
    && r.transferEncodings == p.transferEncodings && r.contentEncodings == p.contentEncodings
    && r.method_ == p.method_
  }

  lemma FieldLineKeepsFrame(r: ReqV, line: string)
    ensures SameFrame(r, Headers.WithFieldLine(r, line))
  {
  }

  lemma {:induction false} TrailersKeepFrame(r: ReqV, raw: string, i: nat)
    ensures SameFrame(r, TrailerLoop(r, raw, i).0)
    decreases |raw| - i
  {
    hide Headers.WithFieldLine, FindCrlf;
    if i < |raw| && FindCrlf(raw, i).Some? && FindCrlf(raw, i).value != i {
      var e := FindCrlf(raw, i).value;
      FieldLineKeepsFrame(r, raw[i..e]);
      TrailersKeepFrame(Headers.WithFieldLine(r, raw[i..e]), raw, e + 2);
    }
  }

  lemma DecodedKeepsFrame(r: ReqV, raw: string)
    ensures SameFrame(r, ChunkDecoded(r, raw).0)
  {
    hide Chunks, TrailerLoop;
    var s := BeforeTrailers(r, raw);
    TrailersKeepFrame(s, raw, (s.chunkedContentLen + 1) % U32);
  }

  lemma {:induction false} TransferKeepsFrame(r: ReqV, encs: seq<nat>, raw: string)
    ensures SameFrame(r, TransferDecoded(r, encs, raw).0)
    decreases |encs|
  {
    hide ChunkDecoded;
    if encs != [] {
      DecodedKeepsFrame(r, raw);
      TransferKeepsFrame(r, encs[1..], raw);
      TransferKeepsFrame(ChunkDecoded(r, raw).0, encs[1..], raw);
    }
  }

  lemma FieldLineKeepsContent(r: ReqV, line: string)
    ensures var q := Headers.WithFieldLine(r, line); q.content == r.content && q.contentLen == r.contentLen
  {
    hide FindChar, Headers.FirstNotSpace, Lowercase;
  }

  lemma {:induction false} TrailersKeepContent(r: ReqV, raw: string, i: nat)
    ensures var q := TrailerLoop(r, raw, i).0; q.content == r.content && q.contentLen == r.contentLen
    decreases |raw| - i
  {
    hide Headers.WithFieldLine, FindCrlf;
    if i < |raw| && FindCrlf(raw, i).Some? && FindCrlf(raw, i).value != i {
      var e := FindCrlf(raw, i).value;
      FieldLineKeepsContent(r, raw[i..e]);
      TrailersKeepContent(Headers.WithFieldLine(r, raw[i..e]), raw, e + 2);
    }
  }

  /** A request of which the content decoders have made another. The count is a 32-bit
      field; adding nothing to it keeps what fits. */
  predicate SameContent(p: ReqV, r: ReqV) {
    SameFrame(p, r) && r.content == p.content && (p.contentLen < U32 ==> r.contentLen == p.contentLen)
  }

  /** decode_chunked on the content leaves it as it is, unless it appends to it. */
  lemma ContentDecoderKeeps(r: ReqV)
    requires !Appends(r)
    ensures SameContent(r, ChunkDecoded(r, r.content).0)
  {
    hide TrailerLoop, FindCrlf, FindChar, Chunks, SizeAt, SizeEnd;
    DecodedKeepsFrame(r, r.content);
    LoopUnfolds(r.content, DecOf(r));
    var s := BeforeTrailers(r, r.content);
    TrailersKeepContent(s, r.content, (s.chunkedContentLen + 1) % U32);
  }

  /** The content decoders complete the request and leave its content as it is. */
  lemma {:induction false} FinishedKeeps(r: ReqV, encs: seq<nat>)
    requires !Finished(r, encs).Faulted()
    ensures Finished(r, encs).parseState == Complete && SameContent(r, Finished(r, encs))
    decreases |encs|
  {
    hide ChunkDecoded, Appends;
    if encs != [] {
      if encs[0] == CHUNKED {
        ContentDecoderKeeps(r);
        FinishedKeeps(ChunkDecoded(r, r.content).0, encs[1..]);
      } else {
        FinishedKeeps(r, encs[1..]);
      }
    }
  }

  /** Exactly one of the three framings, decided on the request p as its headers
      left it, and the content r it promises. A trailer line may still add any
      field afterwards, hence the fields of p. */
  predicate OneFraming(p: ReqV, r: ReqV, body: string) {
    if p.transferEncodings != [] then CONTENT_LENGTH !in p.fields && ChunkedOnceAndLast(p.transferEncodings)
    else if CONTENT_LENGTH in p.fields then
      && p.contentLen <= |body| && r.content == body[..p.contentLen]
      && (p.contentLen < U32 ==> r.contentLen == p.contentLen)
    else p.method_ == GET && r.content == p.content
  }

  lemma BodyFraming(p: ReqV, body: string)
    requires !p.HasErr() && !p.Faulted() && p.parseState != Complete
    requires var r := WithBody(p, body); !r.HasErr() && !r.Faulted() && r.parseState == Complete
    ensures var r := WithBody(p, body);
            SameFrame(p, r) && OneFraming(p, r, body)
  {
    hide TransferDecoded, Finished, Count, ChunkedOnceAndLast;
    if p.transferEncodings != [] {
      if !BadFraming(p) {
        ChunkedPlace(p.transferEncodings);
        CountPositive(p.transferEncodings, CHUNKED);
        var (r1, done) := TransferDecoded(p, p.transferEncodings, body);
        TransferKeepsFrame(p, p.transferEncodings, body);
        if done {
          FinishedKeeps(r1, r1.contentEncodings);
        }
        TransferNotComplete(p, p.transferEncodings, body);
      }
    } else if CONTENT_LENGTH in p.fields {
      if p.contentLen <= |body| {
        FinishedKeeps(p.(content := body[..p.contentLen]), p.contentEncodings);
      }
    } else {
      FinishedKeeps(p, p.contentEncodings);
    }
  }

  /** Only the end of parse_content completes a request. */
  lemma {:induction false} TransferNotComplete(r: ReqV, encs: seq<nat>, raw: string)
    requires r.parseState != Complete
    ensures TransferDecoded(r, encs, raw).0.parseState != Complete
    decreases |encs|
  {
    hide ChunkDecoded;
    if encs != [] {
      DecodedNotComplete(r, raw);
      TransferNotComplete(r, encs[1..], raw);
      TransferNotComplete(ChunkDecoded(r, raw).0, encs[1..], raw);
    }
  }

  lemma DecodedNotComplete(r: ReqV, raw: string)
    requires r.parseState != Complete
    ensures ChunkDecoded(r, raw).0.parseState != Complete
  {
    hide Chunks, TrailerLoop;
    var s := BeforeTrailers(r, raw);
    TrailersKeepState(s, raw, (s.chunkedContentLen + 1) % U32);
  }

  lemma {:induction false} TrailersKeepState(r: ReqV, raw: string, i: nat)
    ensures TrailerLoop(r, raw, i).0.parseState == r.parseState
    decreases |raw| - i
  {
    hide Headers.WithFieldLine, FindCrlf;
    if i < |raw| && FindCrlf(raw, i).Some? && FindCrlf(raw, i).value != i {
      var e := FindCrlf(raw, i).value;
      Headers.FieldLineKeepsState(r, raw[i..e]);
      TrailersKeepState(Headers.WithFieldLine(r, raw[i..e]), raw, e + 2);
    }
  }

  /** Every request handed to the router is complete, free of errors, and framed
      in one way, whatever content encodings it names. */
  lemma RoutedIsFramed(c: ConnV, raw: string, config: Config)
    requires c.req.parseState != Complete && Received(c, raw, config).1 == Route
    ensures var c1, r := HeaderStep(c, raw), Received(c, raw, config).0.req;
            var p := Checked(c1.req, config);
            && r.parseState == Complete && !r.HasErr() && !r.Faulted()
            && c1.parsedTo <= |raw| && !p.HasErr() && !p.Faulted()
            && SameFrame(p, r) && OneFraming(p, r, raw[c1.parsedTo..])
  {
    hide WithBody, Headers.WithHeaders, Checked, OneFraming;
    var c1 := HeaderStep(c, raw);
    var p := Checked(c1.req, config);
    HeaderStepNotComplete(c, raw);
    CheckedKeepsState(c1.req, config);
    BodyFraming(p, raw[c1.parsedTo..]);
  }

  lemma HeaderStepNotComplete(c: ConnV, raw: string)
    requires c.req.parseState != Complete
    ensures HeaderStep(c, raw).req.parseState != Complete
  {
    hide Headers.FieldLoop, Headers.WithReqLine, FindCrlf;
    if c.req.IsParsingHeaders() && c.req.parseState == StartLine && FindCrlf(raw, 0).Some? {
      var e := FindCrlf(raw, 0).value;
      ReqLineState(c.req, raw[..e]);
      LoopState(Headers.WithReqLine(c.req, raw[..e]), raw, e + 2, c.parsedTo);
    }
    LoopState(c.req, raw, c.parsedTo, c.parsedTo);
  }

  lemma ReqLineState(r: ReqV, line: string)
    requires r.parseState == StartLine
    ensures Headers.WithReqLine(r, line).parseState != Complete
  {
    hide FindChar, Keywords.KeywordVal, Headers.WithTarget, Headers.WithVersion;
    forall q: ReqV, s ensures Headers.WithTarget(q, s).parseState == Headers.WithVersion(q, s).parseState == q.parseState {
      TargetKeepsState(q, s);
      VersionKeepsState(q, s);
    }
  }

  lemma TargetKeepsState(r: ReqV, s: string)
    ensures Headers.WithTarget(r, s).parseState == r.parseState
  {
    hide FindChar, Uri.Parsed;
  }

  lemma VersionKeepsState(r: ReqV, s: string)
    ensures Headers.WithVersion(r, s).parseState == r.parseState
  {
    hide Stoi;
  }

  lemma {:induction false} LoopState(r: ReqV, raw: string, i: nat, done: nat)
    requires r.parseState != Complete
    ensures Headers.FieldLoop(r, raw, i, done).0.parseState != Complete
    decreases |raw| - i
  {
    hide Headers.WithFieldLine, FindCrlf;
    if FindCrlf(raw, i).Some? && FindCrlf(raw, i).value != i {
      var e := FindCrlf(raw, i).value;
      Headers.FieldLineKeepsState(r, raw[i..e]);
      LoopState(Headers.WithFieldLine(r, raw[i..e]), raw, e + 2, done);
    }
  }

  lemma CheckedKeepsState(r: ReqV, config: Config)
    ensures Checked(r, config).parseState == r.parseState
  {
    hide FieldList, Keywords.KeywordVal, Stoi, MediaTypeText, MediaSubtypeText;
  }

  // ------------------------------------------------------ the settled checks

  /** The request is one the checks leave alone. */
  predicate Settled(p: ReqV, config: Config) {
    && !p.HasErr() && !p.Faulted() && Checked(p, config) == p
  }

  /** p has what the checks read of r, and what they would write. */
  predicate Agrees(r: ReqV, p: ReqV) {
    && p == r.(fields := p.fields, mediaType := p.mediaType, mediaSubtype := p.mediaSubtype)
    && (forall k :: k in [HOST, CONTENT_LENGTH, TRANSFER_ENCODING, CONTENT_ENCODING] ==>
          (k in p.fields <==> k in r.fields) && (k in r.fields ==> p.fields[k] == r.fields[k]))
  }

  lemma ContentTypeSettles(r: ReqV)
    requires !WithContentType(r).HasErr()
    ensures WithContentType(WithContentType(r)) == WithContentType(r) && Agrees(r, WithContentType(r))
  {
    hide Keywords.KeywordVal, MediaTypeText, MediaSubtypeText;
  }

  lemma ContentLenSettles(r: ReqV, p: ReqV)
    requires !WithContentLen(r).HasErr() && WithContentLen(r).fault == NoFault && Agrees(WithContentLen(r), p)
    ensures WithContentLen(p) == p
  {
    hide Stoi;
  }

  lemma ListsSettle(r: ReqV, p: ReqV)
    requires !r.HasErr() && Agrees(WithContentLen(WithLists(r)), p) && !p.HasErr() && p.fault == NoFault
    ensures WithLists(p) == p && !WithLists(r).HasErr()
  {
    hide Values, Tokens, Stoi;
  }

  /** Checking a request that has passed changes nothing more. */
  lemma CheckedOnce(r: ReqV, config: Config)
    requires !r.HasErr() && !Checked(r, config).HasErr() && !Checked(r, config).Faulted()
    ensures Settled(Checked(r, config), config)
  {
    hide WithLists, WithContentLen, WithContentType;
    var r1 := HostAdded(r);
    var r2 := WithContentLen(WithLists(r1));
    var p := Checked(r, config);
    ContentTypeKeepsErr(r2);
    ContentTypeSettles(r2);
    ListsSettle(r1, p);
    ContentLenSettles(WithLists(r1), p);
    UriKept(r1);
  }

  lemma ContentTypeKeepsErr(r: ReqV)
    ensures r.HasErr() ==> WithContentType(r).HasErr()
    ensures WithContentType(r).fault == r.fault
  {
  }

  lemma UriKept(r: ReqV)
    requires HOST in r.fields
    ensures WithLists(r).uri == r.uri && WithLists(r).fields == r.fields
    ensures WithContentLen(WithLists(r)).uri == r.uri && WithContentLen(WithLists(r)).fields == r.fields
  {
    hide Values, Tokens, Stoi;
  }

  lemma ListsAround(r: ReqV, d: Dec)
    ensures WithLists(WithDec(r, d)) == WithDec(WithLists(r), d)
  {
    hide Values, Tokens;
  }

  lemma TypeAround(r: ReqV, d: Dec)
    ensures WithContentType(WithDec(r, d)) == WithDec(WithContentType(r), d)
  {
    hide Keywords.KeywordVal, MediaTypeText, MediaSubtypeText;
  }

  /** With a transfer encoding the checks neither read nor write what the chunk
      decoder does. */
  lemma CheckedAround(r: ReqV, d: Dec, config: Config)
    requires TRANSFER_ENCODING in r.fields
    ensures Checked(WithDec(r, d), config) == WithDec(Checked(r, config), d)
  {
    hide WithLists, WithContentType;
    ListsAround(HostAdded(r), d);
    ListsKeepFields(HostAdded(r));
    TypeAround(WithLists(HostAdded(r)), d);
  }

  lemma ListsKeepFields(r: ReqV)
    ensures WithLists(r).fields == r.fields && WithLists(r).fault == r.fault
  {
    hide Values, Tokens;
  }

  lemma EncodingsNeedField(p: ReqV, config: Config)
    requires Settled(p, config) && p.transferEncodings != []
    ensures TRANSFER_ENCODING in p.fields
  {
    hide WithContentLen, WithContentType, Values, Tokens;
    var r1 := HostAdded(p);
    var r2 := WithContentLen(WithLists(r1));
    ContentLenKeepsLists(WithLists(r1));
    ContentTypeKeepsLists(r2);
  }

  lemma ContentLenKeepsLists(r: ReqV)
    ensures WithContentLen(r).transferEncodings == r.transferEncodings
  {
    hide Stoi;
  }

  lemma ContentTypeKeepsLists(r: ReqV)
    ensures WithContentType(r).transferEncodings == r.transferEncodings
  {
    hide Keywords.KeywordVal, MediaTypeText, MediaSubtypeText;
  }

  /** Nor does it when a chunk decoder has run in between. */
  lemma CheckedAroundDecoder(p: ReqV, d: Dec, config: Config)
    requires Settled(p, config) && p.transferEncodings != []
    ensures Settled(WithDec(p, d), config)
  {
    hide Checked;
    EncodingsNeedField(p, config);
    CheckedAround(p, d, config);
  }
}
