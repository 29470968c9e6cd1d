/** How the network cut a request does not matter: feeding on_rx any arrivals of it
    ends in the request, the index and the decision that one arrival ends in. */
module Segmentation {
  import opened Strings
  import opened Message
  import opened Content
  import opened Chunked
  import opened ChunkedRuns
  import opened Framing
  import Keywords
  import Lists

  // ------------------------------------------------------------- the body

  /** A body with nothing behind it: exactly what the framing of p asks for. */
  predicate IsBodyOf(p: ReqV, ps: seq<Piece>, body: string) {
    if CHUNKED in p.transferEncodings then Fits(ps) && body == EncodeAll(ps)
    else if p.transferEncodings == [] && CONTENT_LENGTH in p.fields then |body| == p.contentLen
    else body == ""
  }

  lemma {:induction false} TransferIsChunked(r: ReqV, te: seq<nat>, raw: string)
    requires te != [] && te[|te| - 1] == CHUNKED && ChunkedOnceAndLast(te) && !r.Faulted()
    ensures if exists i :: 0 <= i < |te| && (te[i] == 0 || te[i] > LAST_ENCODING)
            then TransferDecoded(r, te, raw).0.Faulted() && !TransferDecoded(r, te, raw).1
            else TransferDecoded(r, te, raw) == ChunkDecoded(r, raw)
    decreases |te|
  {
    hide ChunkDecoded;
    if |te| > 1 {
      assert forall i :: 0 <= i < |te| - 1 ==> te[1..][i] == te[i + 1];
      TransferIsChunked(r, te[1..], raw);
      if i :| 0 <= i < |te| && (te[i] == 0 || te[i] > LAST_ENCODING) && i > 0 {
        assert te[1..][i - 1] == te[i];
      }
    } else {
      assert te[1..] == [];
    }
  }

  /** decode_chunked on the first n bytes of a body, from the state any m of them
      left behind. */
  lemma {:induction false} DecodedIsStateAt(r: ReqV, ps: seq<Piece>, m: nat, n: nat)
    requires Fits(ps) && m <= n <= |EncodeAll(ps)| && !TornCut(ps, n)
    requires DecOf(r) == StateAt(ps, m) && (r.parseState == ParseState.Content || r.parseState == ChunkTrailers)
    ensures ChunkDecoded(r, EncodeAll(ps)[..n]) == (WithDec(r, StateAt(ps, n)), n == |EncodeAll(ps)|)
    ensures DecOf(WithDec(r, StateAt(ps, n))) == StateAt(ps, n)
  {
    hide Chunks, EncodeAll, TornCut, TrailerLoop;
    var raw := EncodeAll(ps)[..n];
    DecodePrefix(ps, m, n);
    StateAtCursor(ps, n);
    if StateAt(ps, m).ended {
      EndedStays(ps, m, n);
    }
    var s := WithDec(r, StateAt(ps, n));
    if StateAt(ps, n).ended && n < |EncodeAll(ps)| {
      assert s.chunkedContentLen == |EncodeAll(ps)|;
      NoTrailers(s, raw, (s.chunkedContentLen + 1) % U32);
    }
  }

  lemma NoTrailers(r: ReqV, raw: string, i: nat)
    requires i >= |raw|
    ensures TrailerLoop(r, raw, i) == (r, false)
  {
  }

  lemma CheckedKeepsDec(r: ReqV, config: Config)
    requires Checked(r, config).transferEncodings != [] && !Checked(r, config).HasErr() && !Checked(r, config).Faulted()
    ensures DecOf(Checked(r, config)) == DecOf(r) && Checked(r, config).parseState == r.parseState
  {
    hide Lists.Values, Lists.Tokens, Keywords.KeywordVal, Stoi, MediaTypeText, MediaSubtypeText;
  }

  /** Reading the body has begun, and a call with all of it would complete. */
  predicate Reading(r: ReqV, ps: seq<Piece>, m: nat, body: string, config: Config) {
    var p := Checked(r, config);
    && (r.parseState == ParseState.Content || r.parseState == ChunkTrailers)
    && !r.HasErr() && !r.Faulted() && !p.HasErr() && !p.Faulted()
    && IsBodyOf(p, ps, body) && m <= |body|
    && (CHUNKED in p.transferEncodings ==> DecOf(r) == StateAt(ps, m))
    && Routes(WithContent(r, body, config))
  }

  predicate Routes(r: ReqV) {
    r.parseState == Complete && !r.HasErr() && !r.Faulted()
  }

  predicate ValidCodes(te: seq<nat>) {
    forall i :: 0 <= i < |te| ==> 0 < te[i] <= LAST_ENCODING
  }

  /** chunked is among the encodings, correctly placed, and all of them are known. */
  predicate ChunkedFraming(p: ReqV) {
    && CHUNKED in p.transferEncodings && !BadFraming(p) && ChunkedOnceAndLast(p.transferEncodings)
    && p.transferEncodings[|p.transferEncodings| - 1] == CHUNKED && ValidCodes(p.transferEncodings)
  }

  lemma RoutedIsChunkedFraming(p: ReqV, body: string)
    requires CHUNKED in p.transferEncodings && !p.HasErr() && !p.Faulted()
    requires Routes(WithBody(p, body)) && p.parseState != Complete
    ensures ChunkedFraming(p)
  {
    hide TransferDecoded, Finished, Count;
    var te := p.transferEncodings;
    ChunkedPlace(te);
    CountPositive(te, CHUNKED);
    TransferIsChunked(p, te, body);
    var (r1, done) := TransferDecoded(p, te, body);
  }

  /** With chunked in the encodings, the body step is the chunk decoder. */
  lemma ChunkedBody(p: ReqV, raw: string)
    requires ChunkedFraming(p) && !p.HasErr() && !p.Faulted()
    ensures var (r1, done) := ChunkDecoded(p, raw);
            WithBody(p, raw) == if done then Finished(r1, r1.contentEncodings) else r1
  {
    hide ChunkDecoded, Finished, Count, ChunkedOnceAndLast, TransferDecoded;
    TransferIsChunked(p, p.transferEncodings, raw);
  }

  lemma ChunkedPrefix(p: ReqV, ps: seq<Piece>, m: nat, n: nat)
    requires Fits(ps) && m <= n <= |EncodeAll(ps)| && !TornCut(ps, n)
    requires ChunkedFraming(p) && !p.HasErr() && !p.Faulted() && DecOf(p) == StateAt(ps, m)
    requires p.parseState == ParseState.Content || p.parseState == ChunkTrailers
    ensures var r1 := WithDec(p, StateAt(ps, n));
            && WithBody(p, EncodeAll(ps)[..n]) == (if n == |EncodeAll(ps)| then Finished(r1, p.contentEncodings) else r1)
            && DecOf(r1) == StateAt(ps, n)
  {
    hide ChunkDecoded, Finished, EncodeAll, StateAt, TornCut, ChunkedFraming, WithBody, Decode, Fits;
    DecodedIsStateAt(p, ps, m, n);
    ChunkedBody(p, EncodeAll(ps)[..n]);
  }

  /** The whole body from wherever the decoder stands is the same. */
  lemma ChunkedWhole(p: ReqV, ps: seq<Piece>, m: nat)
    requires Fits(ps) && m <= |EncodeAll(ps)|
    requires ChunkedFraming(p) && !p.HasErr() && !p.Faulted() && DecOf(p) == StateAt(ps, m)
    requires p.parseState == ParseState.Content || p.parseState == ChunkTrailers
    ensures WithBody(p, EncodeAll(ps)) == Finished(WithDec(p, StateAt(ps, |EncodeAll(ps)|)), p.contentEncodings)
  {
    hide EncodeAll, StateAt, Finished, ChunkedFraming, WithBody, Torn, Fits;
    StateAtCursor(ps, |EncodeAll(ps)|);
    assert EncodeAll(ps)[..|EncodeAll(ps)|] == EncodeAll(ps);
    ChunkedPrefix(p, ps, m, |EncodeAll(ps)|);
  }

  lemma ChunkedResumes(r: ReqV, ps: seq<Piece>, m: nat, n: nat, config: Config)
    requires Fits(ps) && m <= n < |EncodeAll(ps)| && !TornCut(ps, n)
    requires Reading(r, ps, m, EncodeAll(ps), config) && CHUNKED in Checked(r, config).transferEncodings
    ensures var body := EncodeAll(ps);
            var r1 := WithContent(r, body[..n], config);
            && !r1.HasErr() && !r1.Faulted() && r1.parseState != Complete
            && WithContent(r1, body, config) == WithContent(r, body, config)
            && Reading(r1, ps, n, body, config) && SameFrame(Checked(r, config), Checked(r1, config))
  {
    hide Checked, WithBody, EncodeAll, StateAt, TornCut, ChunkedFraming, Finished, Fits, Routes;
    var body, p := EncodeAll(ps), Checked(r, config);
    var r1 := WithDec(p, StateAt(ps, n));
    assert body[..|body|] == body;
    CheckedKeepsDec(r, config);
    RoutedIsChunkedFraming(p, body);
    CheckedOnce(r, config);
    CheckedAroundDecoder(p, StateAt(ps, n), config);
    ChunkedPrefix(p, ps, m, n);
    assert WithContent(r, body[..n], config) == r1;
    SameChunkedFraming(p, StateAt(ps, n));
    ChunkedWhole(p, ps, m);
    ChunkedWhole(r1, ps, n);
    SameEnd(p, StateAt(ps, n), ps);
  }

  lemma SameChunkedFraming(p: ReqV, d: Dec)
    requires ChunkedFraming(p)
    ensures ChunkedFraming(WithDec(p, d))
  {
    hide Count;
  }

  lemma SameEnd(p: ReqV, d: Dec, ps: seq<Piece>)
    ensures var e := StateAt(ps, |EncodeAll(ps)|); WithDec(WithDec(p, d), e) == WithDec(p, e)
  {
    hide EncodeAll, StateAt;
    StateAtCursor(ps, |EncodeAll(ps)|);
  }

  /** The same for a body of known length: it is only taken whole. */
  lemma LengthResumes(r: ReqV, ps: seq<Piece>, m: nat, n: nat, body: string, config: Config)
    requires n < |body| && Reading(r, ps, m, body, config)
    requires CHUNKED !in Checked(r, config).transferEncodings
    ensures var r1 := WithContent(r, body[..n], config);
            && !r1.HasErr() && !r1.Faulted() && r1.parseState != Complete
            && WithContent(r1, body, config) == WithContent(r, body, config)
            && Reading(r1, ps, n, body, config) && SameFrame(Checked(r, config), Checked(r1, config))
  {
    hide Checked, TransferDecoded, Finished, Fits;
    CheckedOnce(r, config);
    CheckedKeepsState(r, config);
  }

  /** A call on part of the body, then one on all of it: as if the first had not
      happened. */
  lemma BodyResumes(r: ReqV, ps: seq<Piece>, m: nat, n: nat, body: string, config: Config)
    requires m <= n < |body| && Reading(r, ps, m, body, config)
    requires CHUNKED in Checked(r, config).transferEncodings ==> n <= |EncodeAll(ps)| && !TornCut(ps, n)
    ensures var r1 := WithContent(r, body[..n], config);
            && !r1.HasErr() && !r1.Faulted() && r1.parseState != Complete
            && WithContent(r1, body, config) == WithContent(r, body, config)
            && Reading(r1, ps, n, body, config) && SameFrame(Checked(r, config), Checked(r1, config))
  {
    if CHUNKED in Checked(r, config).transferEncodings {
      assert body == EncodeAll(ps) && Fits(ps);
      hide *;
      ChunkedResumes(r, ps, m, n, config);
    } else {
      hide *;
      LengthResumes(r, ps, m, n, body, config);
    }
  }
}
