/** The calls behind a cut right behind the blank line: exactly when they do no harm. */
module BlankRuns {
  import opened Strings
  import opened Message
  import opened Content
  import opened Chunked
  import opened ChunkedRuns
  import opened ChunkedTorn
  import opened Receive
  import opened Framing
  import opened Segmentation
  import opened HeadersProof
  import opened Arrivals
  import opened BlankCuts
  import opened Decoding
  import opened TornCuts

  /** The first call leaves the connection at its headers' end, two bytes short. */
  lemma BlankFeed(c: ConnV, g: Goal, cuts: seq<nat>)
    requires GoalOk(g) && g.b < |g.full| && InHeaders(c, g.full, g.b) && Reaches(c, g)
    requires cuts != [] && cuts[0] == g.b && forall i :: 0 <= i < |cuts| ==> cuts[i] <= |g.full|
    ensures g.b >= 2 && !Dead(g.h) && g.h.parseState == ParseState.Content
    ensures Arrivals.Feed(c, g.full, cuts, g.config) == Arrivals.Feed(ConnV(g.b - 2, g.h), g.full, cuts, g.config)
    ensures g.end.parsedTo == g.b
  {
    hide Received, HeaderStep, GoalOk, InHeaders, Reaches, Arrivals.Feed;
    BlankHeaderStep(c, g);
    ClosedHeaderStep(ConnV(g.b - 2, g.h), g.full[..g.b]);
    SameHeaderStep(c, ConnV(g.b - 2, g.h), g.full[..g.b], g.config);
    FeedFirst(c, ConnV(g.b - 2, g.h), g.full, cuts, g.config);
    BlankCut(c, g);
  }

  lemma ClosedHeaderStep(c: ConnV, raw: string)
    requires c.req.parseState == ParseState.Content
    ensures HeaderStep(c, raw) == c
  {
  }

  // --------------------------------------------------------- a chunked body

  /** The blank line has been taken for the last chunk. Nothing is lost if there was
      nothing to lose, an empty line happens to follow where the trailers are looked
      for, and no arrival but the last shows it or ends at the decoder's cursor. */
  predicate NoChunksSpared(g: Goal, cuts: seq<nat>) {
    && |g.ps| == 1 && CrlfAt(g.full, g.b + 3)
    && forall i :: 0 <= i < |cuts| - 1 ==> cuts[i] < g.b + 5 && cuts[i] != g.b + 2
  }

  /** Only a body of one piece is empty. */
  lemma EmptyBody(ps: seq<Piece>)
    requires IsBody(ps)
    ensures Data(ps) == "" <==> |ps| == 1
  {
    hide IsPiece;
    assert Data(ps) == ps[0].data + Data(ps[1..]);
    if |ps| == 1 {
      assert ps[1..] == [];
    }
  }

  lemma BlankChunksRun(c: ConnV, g: Goal, cuts: seq<nat>)
    requires GoalOk(g) && g.b < |g.full| && InHeaders(c, g.full, g.b) && Reaches(c, g)
    requires CHUNKED in Checked(g.h, g.config).transferEncodings
    requires |cuts| > 1 && cuts[0] == g.b && cuts[|cuts| - 1] == |g.full|
    requires forall i :: 0 <= i < |cuts| ==> g.b <= cuts[i] <= |g.full|
    ensures SameOutcome(Arrivals.Feed(c, g.full, cuts, g.config), g.end) <==> NoChunksSpared(g, cuts)
  {
    hide Received, HeaderStep, Checked, EncodeAll, StateAt, Data, SameRequest, Stands, Arrivals.Feed, DecoderRun, SameOutcome;
    hide GoalOk, InHeaders, Reaches, Fits, WithContent, WithDec, DecOf, ChunkedFraming, Decode, Sound, Decoded, ValidCodes;
    var p, at, e := Checked(g.h, g.config), g.b - 2, Dec("", 0, 4, true);
    BlankFeed(c, g, cuts);
    BlankBytes(c, g);
    BlankStart(c, g);
    RunCases(ConnV(at, g.h), p, START, g.full, cuts, g.config, g.end, Data(g.ps));
    BlankTurn();
    SameFirstStep(START, e, at, g.full, cuts);
    FitsIsBody(g.ps);
    LongBody(g.ps);
    EndedRunIs(e, at, g.full, cuts);
    EmptyBody(g.ps);
    BlankStands(p.contentEncodings);
  }

  lemma BlankStands(encs: seq<nat>)
    ensures Stands(encs, Dec("", 0, 4, true))
  {
    NoCrlfBehind("", 5);
  }

  lemma BlankStart(c: ConnV, g: Goal)
    requires GoalOk(g) && g.b < |g.full| && InHeaders(c, g.full, g.b) && Reaches(c, g)
    requires CHUNKED in Checked(g.h, g.config).transferEncodings
    ensures var p := Checked(g.h, g.config);
            && g.b >= 2 && ReadyForBody(p, g.config) && InStep(ConnV(g.b - 2, g.h), p, START, g.config) && Sound(START)
            && ValidCodes(p.contentEncodings) && SameRequest(g.end.req, Decoded(p, Data(g.ps)))
            && Addressable(g.full) && Fits(g.ps) && g.full[g.b..] == EncodeAll(g.ps)
  {
    hide HeaderStep, Checked, EncodeAll, StateAt, Data, SameRequest, Fits, WithContent, WithDec, DecOf, ChunkedFraming;
    hide Decoded, Reading, Reaches, InHeaders, ValidCodes, Settled, Routes, WithBody;
    BlankHeaderStep(c, g);
    BodySettles(c, g);
    ClosedFull(c, g);
    BodyStarts(g);
    BodyEncodes(ConnV(g.b, g.h), g, 0);
    FitsIsBody(g.ps);
    StartState(g.ps);
    BodyReady(g.h, g.ps, 0, 0, g.config);
    BodyEnds(g.h, g.ps, 0, 0, g.config);
    EndIsContent(c, g);
    HeadersAreIn(g);
  }

  lemma EndIsContent(c: ConnV, g: Goal)
    requires GoalOk(g) && g.b < |g.full| && ContentStep(ConnV(g.b, g.h), g.full, g.config) == (g.end, Route)
    ensures g.end.req == WithContent(g.h, g.full[g.b..], g.config)
  {
    hide WithContent;
  }

  lemma HeadersAreIn(g: Goal)
    requires !Dead(g.h) && g.h.parseState == ParseState.Content
    ensures InBodyState(g.h) && !g.h.HasErr() && !g.h.Faulted()
  {
  }

  // ------------------------------------------------- a body of known length

  /** CR and LF in turn. */
  predicate CrlfOnly(s: string) {
    forall i :: 0 <= i < |s| ==> s[i] == if i % 2 == 0 then '\r' else '\n'
  }

  /** Only such a body is the same two bytes later. */
  lemma {:induction false} ShiftedIsCrlf(s: string)
    ensures s == ("\r\n" + s)[..|s|] <==> CrlfOnly(s)
  {
    var t := ("\r\n" + s)[..|s|];
    assert |t| == |s|;
    assert forall i :: 0 <= i < |s| ==> t[i] == if i < 2 then "\r\n"[i] else s[i - 2];
    if s == t {
      forall i | 0 <= i < |s|
        ensures s[i] == if i % 2 == 0 then '\r' else '\n'
      {
        ShiftedAt(s, t, i);
      }
    } else if CrlfOnly(s) {
      assert forall i :: 0 <= i < |s| ==> s[i] == t[i];
    }
  }

  lemma {:induction false} ShiftedAt(s: string, t: string, i: nat)
    requires s == t && i < |s|
    requires forall k :: 0 <= k < |s| ==> t[k] == if k < 2 then "\r\n"[k] else s[k - 2]
    ensures s[i] == if i % 2 == 0 then '\r' else '\n'
  {
    if i >= 2 {
      ShiftedAt(s, t, i - 2);
    }
  }

  /** A body of known length is read from the blank line on. Nothing is lost if it is
      CRLFs itself, and no arrival but the last brings all but two of its bytes. */
  predicate LengthSpared(g: Goal, cuts: seq<nat>)
    requires g.b <= |g.full|
  {
    CrlfOnly(g.full[g.b..]) && forall i :: 0 <= i < |cuts| - 1 ==> cuts[i] + 2 < |g.full|
  }

  /** One call of a connection whose checks pass as p, on raw. */
  lemma LengthCall(c: ConnV, p: ReqV, raw: string, body: string, end: ConnV, config: Config)
    requires Checked(c.req, config) == p && Settled(p, config) && InBodyState(c.req) && !c.req.HasErr() && !c.req.Faulted()
    requires p.parseState == ParseState.Content
    requires p.transferEncodings == [] && CONTENT_LENGTH in p.fields && |body| == p.contentLen
    requires Routes(WithBody(p, body)) && end.req == WithBody(p, body) && c.parsedTo <= |raw|
    ensures var (c1, v) := Received(c, raw, config);
            var got := raw[c.parsedTo..];
            if |got| < |body| then v == NeedMore && c1 == ConnV(c.parsedTo, p)
            else v != NeedMore && (v == Route && SameRequest(c1.req, end.req) <==> got[..|body|] == body)
  {
    hide Checked, WithBody, Settled;
    var got := raw[c.parsedTo..];
    SettledIs(p, config);
    ClosedReceived(c, raw, config);
    assert body[..|body|] == body;
    LengthBody(p, body);
    LengthBody(p, got);
    if |got| >= |body| && got[..|body|] == body {
      SameLengthBody(p, got, body);
    }
  }

  lemma LengthBody(p: ReqV, got: string)
    requires p.transferEncodings == [] && CONTENT_LENGTH in p.fields && !p.HasErr() && !p.Faulted()
    ensures var r := WithBody(p, got);
            if |got| < p.contentLen then r == p
            else r.Faulted() || (r.parseState == Complete && r.content == got[..p.contentLen])
  {
    hide Finished;
    if |got| >= p.contentLen {
      var q := p.(content := got[..p.contentLen]);
      if !Finished(q, p.contentEncodings).Faulted() {
        FinishedKeeps(q, p.contentEncodings);
      }
    }
  }

  lemma SameLengthBody(p: ReqV, got: string, body: string)
    requires p.transferEncodings == [] && CONTENT_LENGTH in p.fields && |body| == p.contentLen <= |got|
    requires got[..|body|] == body
    ensures WithBody(p, got) == WithBody(p, body)
  {
    hide Finished;
    assert body[..|body|] == body;
  }

  /** Its run from the wrong index. */
  lemma {:induction false} LengthRun(c: ConnV, p: ReqV, full: string, body: string, cuts: seq<nat>, end: ConnV, config: Config)
    requires Checked(c.req, config) == p && Settled(p, config) && InBodyState(c.req) && !c.req.HasErr() && !c.req.Faulted()
    requires p.parseState == ParseState.Content
    requires p.transferEncodings == [] && CONTENT_LENGTH in p.fields && |body| == p.contentLen
    requires Routes(WithBody(p, body)) && end.req == WithBody(p, body)
    requires cuts != [] && forall i :: 0 <= i < |cuts| ==> c.parsedTo <= cuts[i] <= |full|
    requires cuts[|cuts| - 1] == |full| && |body| <= |full| - c.parsedTo
    ensures SameOutcome(Arrivals.Feed(c, full, cuts, config), end) <==>
            && full[c.parsedTo..][..|body|] == body
            && forall i :: 0 <= i < |cuts| - 1 ==> cuts[i] - c.parsedTo < |body|
    decreases |cuts|
  {
    hide Received, Checked, WithBody, Settled, SameOutcome, SameRequest, Arrivals.Feed, Routes;
    LengthCall(c, p, full[..cuts[0]], body, end, config);
    OutcomeCons(c, full, cuts, config, end);
    if |cuts| == 1 {
      assert full[..|full|] == full;
    } else {
      var (c1, v) := Received(c, full[..cuts[0]], config);
      if cuts[0] - c.parsedTo < |body| {
        SettledIs(p, config);
        LengthRun(c1, p, full, body, cuts[1..], end, config);
        TailBelow(cuts, c.parsedTo, |body|);
      }
    }
  }

  lemma SettledIs(p: ReqV, config: Config)
    requires Settled(p, config)
    ensures Checked(p, config) == p && !p.HasErr() && !p.Faulted()
  {
    hide Checked;
  }

  lemma TailBelow(cuts: seq<nat>, at: nat, n: nat)
    requires |cuts| > 1
    ensures (forall i :: 0 <= i < |cuts| - 1 ==> cuts[i] - at < n) <==>
            cuts[0] - at < n && forall i :: 0 <= i < |cuts[1..]| - 1 ==> cuts[1..][i] - at < n
  {
    if cuts[0] - at < n && forall i :: 0 <= i < |cuts[1..]| - 1 ==> cuts[1..][i] - at < n {
      forall i | 0 <= i < |cuts| - 1
        ensures cuts[i] - at < n
      {
        assert i > 0 ==> cuts[i] == cuts[1..][i - 1];
      }
    }
  }

  lemma BlankLengthRun(c: ConnV, g: Goal, cuts: seq<nat>)
    requires GoalOk(g) && g.b < |g.full| && InHeaders(c, g.full, g.b) && Reaches(c, g)
    requires var p := Checked(g.h, g.config); p.transferEncodings == [] && CONTENT_LENGTH in p.fields
    requires |cuts| > 1 && cuts[0] == g.b && cuts[|cuts| - 1] == |g.full|
    requires forall i :: 0 <= i < |cuts| ==> g.b <= cuts[i] <= |g.full|
    ensures SameOutcome(Arrivals.Feed(c, g.full, cuts, g.config), g.end) <==> LengthSpared(g, cuts)
  {
    hide Received, HeaderStep, Checked, SameRequest, Arrivals.Feed, SameOutcome, InHeaders, Reaches, WithBody, Routes, Settled;
    var p, body, at := Checked(g.h, g.config), g.full[g.b..], g.b - 2;
    BlankFeed(c, g, cuts);
    BlankBytes(c, g);
    BodySettles(c, g);
    HeadersAreIn(g);
    KnownLength(g);
    LengthRun(ConnV(at, g.h), p, g.full, body, cuts, g.end, g.config);
    ShiftedIsCrlf(body);
  }

  lemma KnownLength(g: Goal)
    requires GoalOk(g)
    requires var p := Checked(g.h, g.config); p.transferEncodings == [] && CONTENT_LENGTH in p.fields
    ensures |g.full[g.b..]| == Checked(g.h, g.config).contentLen
  {
    hide Checked;
  }

  // ------------------------------------------------------------------ either

  /** The first cut is right behind the blank line, and does no harm. */
  predicate BlankSpared(g: Goal, cuts: seq<nat>)
    requires g.b <= |g.full|
  {
    if CHUNKED in Checked(g.h, g.config).transferEncodings then NoChunksSpared(g, cuts) else LengthSpared(g, cuts)
  }

  /** Exactly when the outcome is that of one arrival; the index never is. */
  lemma BlankRun(c: ConnV, g: Goal, cuts: seq<nat>)
    requires GoalOk(g) && g.b < |g.full| && InHeaders(c, g.full, g.b) && Reaches(c, g)
    requires |cuts| > 1 && cuts[0] == g.b && cuts[|cuts| - 1] == |g.full|
    requires forall i :: 0 <= i < |cuts| ==> g.b <= cuts[i] <= |g.full|
    ensures var f := Arrivals.Feed(c, g.full, cuts, g.config);
            (SameOutcome(f, g.end) <==> BlankSpared(g, cuts)) && f.0 != g.end
  {
    hide Received, HeaderStep, Checked, Arrivals.Feed, SameOutcome, GoalOk, InHeaders, Reaches, NoChunksSpared, LengthSpared;
    BlankFeed(c, g, cuts);
    FeedKeepsIndex(ConnV(g.b - 2, g.h), g.full, cuts, g.config);
    if CHUNKED in Checked(g.h, g.config).transferEncodings {
      BlankChunksRun(c, g, cuts);
    } else {
      SomeLength(g);
      BlankLengthRun(c, g, cuts);
    }
  }

  /** A body that is not empty is chunked or of known length. */
  lemma SomeLength(g: Goal)
    requires GoalOk(g) && g.b < |g.full| && CHUNKED !in Checked(g.h, g.config).transferEncodings
    ensures var p := Checked(g.h, g.config); p.transferEncodings == [] && CONTENT_LENGTH in p.fields
  {
    hide Checked;
  }
}
