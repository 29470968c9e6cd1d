/** A cut right behind the blank line in front of a body. */
module BlankCuts {
  import opened Strings
  import opened Message
  import opened Content
  import opened Chunked
  import opened ChunkedLoop
  import opened ChunkedRuns
  import opened Receive
  import opened Framing
  import opened Segmentation
  import opened HeadersProof
  import opened Arrivals
  import Headers
  import HeadersRuns

  // ------------------------------------------------- behind the blank line

  /** A call that has closed the headers never opens them again, so the index it
      has left stays. */
  lemma IndexStays(c: ConnV, raw: string, config: Config)
    requires (c.req.parseState != StartLine && c.req.parseState != ParseState.Headers)
    ensures var c1 := Received(c, raw, config).0;
            c1.parsedTo == c.parsedTo && c1.req.parseState != StartLine && c1.req.parseState != ParseState.Headers
  {
    hide WithContent;
    if c.parsedTo <= |raw| {
      ContentKeepsClosed(c.req, raw[c.parsedTo..], config);
    }
  }

  lemma ContentKeepsClosed(r: ReqV, raw: string, config: Config)
    requires r.parseState != StartLine && r.parseState != ParseState.Headers
    ensures var s := WithContent(r, raw, config); s.parseState != StartLine && s.parseState != ParseState.Headers
  {
    hide Checked, TransferDecoded, Finished, Count;
    var p := Checked(r, config);
    CheckedKeepsState(r, config);
    var t := if p.transferEncodings == [] then p else TransferDecoded(p, p.transferEncodings, raw).0;
    TransferKeepsClosed(p, p.transferEncodings, raw);
    FinishedKeepsClosed(t, t.contentEncodings);
    FinishedKeepsClosed(p, p.contentEncodings);
    if p.contentLen <= |raw| {
      FinishedKeepsClosed(p.(content := raw[..p.contentLen]), p.contentEncodings);
    }
  }

  lemma {:induction false} FinishedKeepsClosed(r: ReqV, encs: seq<nat>)
    requires r.parseState != StartLine && r.parseState != ParseState.Headers
    ensures var s := Finished(r, encs); s.parseState != StartLine && s.parseState != ParseState.Headers
    decreases |encs|
  {
    hide ChunkDecoded, Appends;
    if encs != [] {
      DecodedKeepsClosed(r, r.content);
      FinishedKeepsClosed(r, encs[1..]);
      FinishedKeepsClosed(ChunkDecoded(r, r.content).0, encs[1..]);
    }
  }

  lemma {:induction false} TransferKeepsClosed(r: ReqV, encs: seq<nat>, raw: string)
    requires r.parseState != StartLine && r.parseState != ParseState.Headers
    ensures var s := TransferDecoded(r, encs, raw).0; s.parseState != StartLine && s.parseState != ParseState.Headers
    decreases |encs|
  {
    hide ChunkDecoded;
    if encs != [] {
      DecodedKeepsClosed(r, raw);
      TransferKeepsClosed(r, encs[1..], raw);
      TransferKeepsClosed(ChunkDecoded(r, raw).0, encs[1..], raw);
    }
  }

  lemma DecodedKeepsClosed(r: ReqV, raw: string)
    requires r.parseState != StartLine && r.parseState != ParseState.Headers
    ensures var s := ChunkDecoded(r, raw).0; s.parseState != StartLine && s.parseState != ParseState.Headers
  {
    hide Chunks, TrailerLoop;
    var s := BeforeTrailers(r, raw);
    TrailersKeepState(s, raw, (s.chunkedContentLen + 1) % U32);
  }

  lemma BlankHeaderStep(c: ConnV, g: Goal)
    requires GoalOk(g) && g.b < |g.full| && InHeaders(c, g.full, g.b) && Reaches(c, g)
    ensures HeaderStep(c, g.full[..g.b]) == ConnV(g.b - 2, g.h) && g.b >= 2
    ensures HeaderStep(c, g.full) == ConnV(g.b, g.h)
    ensures !Dead(g.h) && g.h.parseState == ParseState.Content && NoBody(g.h)
  {
    hide Headers.FieldLoop, LinesEnd, BlankAt, ContentStep, IsBodyOf, Apply, FindCrlf, Lines;
    var full, j := g.full, c.parsedTo;
    RoutedNotDead(c, g);
    assert full[..|full|] == full;
    HeadersRuns.LoopMeaning(c.req, full, |full|, j);
    HeadersRuns.LoopMeaning(c.req, full, g.b, j);
    LoopSettles(c.req, full, g.b, j, j);
    LoopIndex(c.req, full, g.b, j);
    LoopIndex(c.req, full, |full|, j);
    LoopNoBody(c.req, full, j, j);
  }

  /** A cut right behind the blank line leaves the index in front of it. */
  lemma BlankCut(c: ConnV, g: Goal)
    requires GoalOk(g) && g.b < |g.full| && InHeaders(c, g.full, g.b) && Reaches(c, g)
    ensures var c1 := Received(c, g.full[..g.b], g.config).0;
            c1.parsedTo == g.b - 2 && c1.req.parseState != StartLine && c1.req.parseState != ParseState.Headers
    ensures g.end.parsedTo == g.b && g.b >= 2
  {
    hide HeaderStep, WithContent, IsBodyOf;
    BlankHeaderStep(c, g);
    ContentKeepsClosed(g.h, g.full[..g.b][g.b - 2..], g.config);
  }

  /** Without chunked among them, the content decoders let one request through as
      another. */
  lemma {:induction false} FinishedAlike(r: ReqV, s: ReqV, encs: seq<nat>)
    requires !r.Faulted() && !s.Faulted() && !Finished(r, encs).Faulted() && CHUNKED !in encs
    ensures Finished(s, encs) == s.(parseState := Complete)
    decreases |encs|
  {
    if encs != [] {
      FinishedAlike(r, s, encs[1..]);
    }
  }

  lemma HeaderIsLoop(c: ConnV, g: Goal, n: nat)
    requires n <= |g.full| && InHeaders(c, g.full, g.b)
    ensures HeaderStep(c, g.full[..n]).req == Headers.FieldLoop(c.req, g.full[..n], c.parsedTo, c.parsedTo).0
  {
    hide Headers.FieldLoop, LinesEnd;
  }

  lemma BlankIsThere(c: ConnV, g: Goal)
    requires GoalOk(g) && g.b < |g.full| && InHeaders(c, g.full, g.b) && Reaches(c, g)
    ensures BlankAt(g.full, LinesEnd(g.full, c.parsedTo))
  {
    hide Headers.FieldLoop, LinesEnd, BlankAt, ContentStep, IsBodyOf;
    RoutedNotDead(c, g);
    assert g.full[..|g.full|] == g.full;
    HeadersRuns.LoopMeaning(c.req, g.full, |g.full|, c.parsedTo);
  }

  lemma BlankBytes(c: ConnV, g: Goal)
    requires GoalOk(g) && g.b < |g.full| && InHeaders(c, g.full, g.b) && Reaches(c, g)
    ensures g.b >= 2 && g.full[..g.b][g.b - 2..] == "\r\n" && g.full[g.b - 2..] == "\r\n" + g.full[g.b..]
  {
    hide IsBodyOf, Checked, Reaches;
    BlankHeaderStep(c, g);
    BlankIsThere(c, g);
    assert CrlfAt(g.full, g.b - 2);
  }

  /** The content of a request whose length is known, where the index is off. */
  lemma LengthFrom(p: ReqV, raw: string, body: string, config: Config)
    requires Settled(p, config)
    requires p.transferEncodings == [] && CONTENT_LENGTH in p.fields && |body| == p.contentLen
    requires Routes(WithBody(p, body))
    ensures WithContent(p, body, config).content == body
    ensures var r := WithContent(p, raw, config);
            if |body| > |raw| then r == p
            else
              && (r.Faulted() || (r.parseState == Complete && r.content == raw[..|body|]))
              && (CHUNKED !in p.contentEncodings ==> Routes(r))
  {
    hide Checked, Finished;
    assert body[..|body|] == body;
    FinishedKeeps(p.(content := body), p.contentEncodings);
    if |body| <= |raw| {
      var q := p.(content := raw[..|body|]);
      if !Finished(q, p.contentEncodings).Faulted() {
        FinishedKeeps(q, p.contentEncodings);
      }
      if CHUNKED !in p.contentEncodings {
        FinishedAlike(p.(content := body), q, p.contentEncodings);
      }
    }
  }

  lemma ClosedReceived(c: ConnV, raw: string, config: Config)
    requires !c.req.HasErr() && !c.req.Faulted()
    requires c.req.parseState != StartLine && c.req.parseState != ParseState.Headers
    ensures Received(c, raw, config) == ContentStep(c, raw, config)
  {
    hide ContentStep;
  }

  /** What such a cut does to a body of known length: it is read from the blank line
      on, two bytes early, and a body of at most 2 bytes is not even waited for. The
      content decoders, if chunked is one of them, may then fail on it. */
  lemma BlankCutShiftsBody(c: ConnV, g: Goal)
    requires GoalOk(g) && g.b < |g.full| && InHeaders(c, g.full, g.b) && Reaches(c, g)
    requires var p := Checked(g.h, g.config); p.transferEncodings == [] && CONTENT_LENGTH in p.fields
    ensures var body := g.full[g.b..];
            var plain := CHUNKED !in Checked(g.h, g.config).contentEncodings;
            var (c1, v1) := Received(c, g.full[..g.b], g.config);
            var (c2, v2) := Received(c1, g.full, g.config);
            && g.end.req.content == body
            && (|body| <= 2 ==> v1 != NeedMore && (v1 == Crash || c1.req.content == "\r\n"[..|body|]) && (plain ==> v1 == Route))
            && (|body| > 2 ==>
                  && v1 == NeedMore && v2 != NeedMore && (v2 == Crash || c2.req.content == ("\r\n" + body)[..|body|])
                  && (plain ==> v2 == Route))
  {
    hide HeaderStep, WithBody, Checked;
    var p, body := Checked(g.h, g.config), g.full[g.b..];
    BlankHeaderStep(c, g);
    BlankBytes(c, g);
    BodySettles(c, g);
    LengthFrom(p, "\r\n", body, g.config);
    LengthFrom(p, "\r\n" + body, body, g.config);
    WithContentSettled(g.h, "\r\n", g.config);
    WithContentSettled(g.h, body, g.config);
    ClosedReceived(ConnV(g.b - 2, p), g.full, g.config);
  }

  lemma WithContentSettled(h: ReqV, raw: string, config: Config)
    requires Settled(Checked(h, config), config)
    ensures WithContent(h, raw, config) == WithContent(Checked(h, config), raw, config)
  {
    hide Checked, WithBody;
  }

  /** The checks pass, and leave the request ready for its body. */
  lemma BodySettles(c: ConnV, g: Goal)
    requires GoalOk(g) && g.b < |g.full| && InHeaders(c, g.full, g.b) && Reaches(c, g)
    ensures var p := Checked(g.h, g.config);
            && Settled(p, g.config) && p.parseState == ParseState.Content
            && Routes(WithBody(p, g.full[g.b..])) && (p.transferEncodings != [] ==> DecOf(p) == START)
            && g.end == ConnV(g.b, WithBody(p, g.full[g.b..]))
  {
    hide HeaderStep, WithBody, Checked, IsBodyOf;
    BlankHeaderStep(c, g);
    CheckedOnce(g.h, g.config);
    CheckedKeepsState(g.h, g.config);
    if Checked(g.h, g.config).transferEncodings != [] {
      CheckedKeepsDec(g.h, g.config);
    }
  }

  /** The blank line reads as a last chunk. */
  lemma BlankTurn()
    ensures Decode("\r\n", START) == Ends(Dec("", 0, 4, true))
  {
    var raw := "\r\n";
    assert CrlfAt(raw, 0) && FindCrlf(raw, 0) == Some(0);
    assert FindChar(raw, ' ', 0) == None;
    assert raw[0..0] == "" && HexRead("") == 0;
    assert OneTurn(raw, START) == Take(0, Dec("", 0, 4, false));
    LoopUnfolds(raw, START);
  }

  lemma BlankDecoded(p: ReqV)
    requires DecOf(p) == START && p.parseState == ParseState.Content
    ensures ChunkDecoded(p, "\r\n") == (WithDec(p, Dec("", 0, 4, true)), false)
  {
    hide Chunks, FindCrlf, FindChar;
    BlankTurn();
    NoTrailers(WithDec(p, Dec("", 0, 4, true)), "\r\n", 5);
  }

  /** What it does to a chunked body: the blank line is read as a last chunk, so the
      decoder has ended before the body begins, and no byte of it becomes content. */
  lemma BlankCutLosesChunks(c: ConnV, g: Goal)
    requires GoalOk(g) && g.b < |g.full| && InHeaders(c, g.full, g.b) && Reaches(c, g)
    requires CHUNKED in Checked(g.h, g.config).transferEncodings
    ensures var (c1, v) := Received(c, g.full[..g.b], g.config);
            v == NeedMore && (Received(c1, g.full, g.config).1 == Crash || Received(c1, g.full, g.config).0.req.content == "")
    ensures g.end.req.content == Data(g.ps)
  {
    hide HeaderStep, WithBody, Checked, ChunkDecoded, ChunkedFraming, Chunked.EncodeAll, Finished, Routes;
    hide StateAt, Fits, Data;
    var p, body := Checked(g.h, g.config), g.full[g.b..];
    BlankHeaderStep(c, g);
    BlankBytes(c, g);
    BodySettles(c, g);
    ChunkedNotEmpty(p);
    RoutedIsChunkedFraming(p, body);
    ChunkedBody(p, "\r\n");
    BlankDecoded(p);
    WithContentSettled(g.h, "\r\n", g.config);
    var r1 := WithDec(p, Dec("", 0, 4, true));
    CheckedAroundDecoder(p, Dec("", 0, 4, true), g.config);
    SameChunkedFraming(p, Dec("", 0, 4, true));
    EndedContent(r1, "\r\n" + body);
    ClosedReceived(ConnV(g.b - 2, r1), g.full, g.config);
    ChunkedEnd(p, g.ps);
  }

  lemma ChunkedNotEmpty(p: ReqV)
    requires CHUNKED in p.transferEncodings
    ensures p.transferEncodings != []
  {
  }

  lemma EndedContent(r: ReqV, raw: string)
    requires ChunkedFraming(r) && !r.HasErr() && !r.Faulted()
    requires r.parseState == ChunkTrailers
    ensures WithBody(r, raw).Faulted() || WithBody(r, raw).content == r.content
  {
    hide TrailerLoop, ChunkedFraming, Finished, WithBody;
    ChunkedBody(r, raw);
    TrailersKeepContent(r, raw, (r.chunkedContentLen + 1) % U32);
    var r1 := ChunkDecoded(r, raw).0;
    if !Finished(r1, r1.contentEncodings).Faulted() {
      FinishedKeeps(r1, r1.contentEncodings);
    }
  }

  lemma ChunkedEnd(p: ReqV, ps: seq<Piece>)
    requires Fits(ps) && ChunkedFraming(p) && !p.HasErr() && !p.Faulted() && DecOf(p) == START
    requires p.parseState == ParseState.Content && Routes(WithBody(p, EncodeAll(ps)))
    ensures WithBody(p, EncodeAll(ps)).content == Data(ps)
  {
    hide ChunkedFraming, Finished, WithBody, EncodeAll, Data, Fits, IsBody;
    FitsIsBody(ps);
    StartState(ps);
    ChunkedWhole(p, ps, 0);
    var r1 := WithDec(p, StateAt(ps, |EncodeAll(ps)|));
    FinishedKeeps(r1, p.contentEncodings);
    CompleteAll(ps);
    assert ps[..|ps|] == ps;
  }

  lemma FitsIsBody(ps: seq<Piece>)
    requires Fits(ps)
    ensures IsBody(ps)
  {
  }

  lemma {:induction false} FeedKeepsIndex(c: ConnV, full: string, cuts: seq<nat>, config: Config)
    requires forall i :: 0 <= i < |cuts| ==> cuts[i] <= |full|
    requires c.req.parseState != StartLine && c.req.parseState != ParseState.Headers
    ensures Arrivals.Feed(c, full, cuts, config).0.parsedTo == c.parsedTo
    decreases |cuts|
  {
    hide Received;
    if cuts != [] {
      IndexStays(c, full[..cuts[0]], config);
      FeedKeepsIndex(Received(c, full[..cuts[0]], config).0, full, cuts[1..], config);
    }
  }
}
