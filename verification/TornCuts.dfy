/** A torn cut in a request, and what the calls behind it make of it. */
module TornCuts {
  import opened Strings
  import opened Message
  import opened Content
  import opened Chunked
  import opened ChunkedProof
  import opened ChunkedRuns
  import opened ChunkedTorn
  import opened Receive
  import opened Framing
  import opened Segmentation
  import opened Arrivals
  import opened BlankCuts
  import opened Fields
  import opened Decoding
  import Headers

  // ----------------------------------------------------------- the torn call

  lemma FieldLineKeepsDec(r: ReqV, line: string)
    ensures DecOf(Headers.WithFieldLine(r, line)) == DecOf(r)
  {
    hide FindChar, Headers.FirstNotSpace, Lowercase;
  }

  lemma {:induction false} TrailersKeepDec(r: ReqV, raw: string, i: nat)
    ensures DecOf(TrailerLoop(r, raw, i).0) == DecOf(r)
    decreases |raw| - i
  {
    hide Headers.WithFieldLine, FindCrlf, DecOf;
    if i < |raw| && FindCrlf(raw, i).Some? && FindCrlf(raw, i).value != i {
      var e := FindCrlf(raw, i).value;
      FieldLineKeepsDec(r, raw[i..e]);
      TrailersKeepDec(Headers.WithFieldLine(r, raw[i..e]), raw, e + 2);
    }
  }

  lemma BehindKeepsDec(r: ReqV, raw: string)
    ensures DecOf(BehindChunks(r, raw).0) == DecOf(r)
  {
    hide TrailerLoop, DecOf;
    TrailersKeepDec(r, raw, (r.chunkedContentLen + 1) % U32);
  }

  /** decode_chunked leaves the decoder where the loop left it, whatever trailers it
      then reads. */
  lemma DecodedIsLoop(p: ReqV, d: Dec, raw: string)
    requires p.parseState == ParseState.Content && Addressable(raw) && Sound(d)
    ensures var s, l := ChunkDecoded(WithDec(p, d), raw).0, Decode(raw, d);
            if l == Endless then s.Faulted() else DecOf(s) == l.d
  {
    hide Chunks, BehindChunks, DecOf, WithDec, Sound;
    DecIs(p, d);
    DecodeSound(raw, d);
    if Decode(raw, d) != Endless {
      var e := Decode(raw, d).d;
      DecTwice(p, d, e);
      DecIs(p, e);
      DecKeeps(p, e);
      BehindKeepsDec(WithDec(p, e), raw);
    }
  }

  lemma {:induction false} FinishedKeepsDec(r: ReqV, encs: seq<nat>)
    requires r.parseState == ChunkTrailers && !Finished(r, encs).Faulted()
    ensures DecOf(Finished(r, encs)) == DecOf(r)
    decreases |encs|
  {
    hide BehindChunks;
    if encs != [] && encs[0] == CHUNKED {
      BehindKeepsDec(r, r.content);
      BehindKeepsState(r, r.content);
      FinishedKeepsDec(BehindChunks(r, r.content).0, encs[1..]);
    } else if encs != [] {
      FinishedKeepsDec(r, encs[1..]);
    }
  }

  lemma StateSound(ps: seq<Piece>, n: nat)
    requires Fits(ps) && n <= |EncodeAll(ps)|
    ensures Sound(StateAt(ps, n))
  {
    hide EncodeAll, Data;
    StateAtCursor(ps, n);
    RestIsBodyOrAll(ps, CompleteIn(ps, n));
  }

  lemma RestIsBodyOrAll(ps: seq<Piece>, k: nat)
    requires Fits(ps) && k <= |ps|
    ensures |Data(ps[..k])| < U32
  {
    hide EncodeAll, Data;
    if k < |ps| {
      RestIsBody(ps, k);
      assert |EncodeAll(ps[..k])| <= |EncodeAll(ps)|;
    } else {
      assert ps[..k] == ps;
      DataFits(ps);
    }
  }

  /** parse_content on a chunked body cut at a torn header: unless the torn turn takes
      the right bytes by chance, it never returns, or leaves a decoder that is off. */
  lemma TornContent(r: ReqV, ps: seq<Piece>, m: nat, n: nat, config: Config)
    requires Fits(ps) && m <= n <= |EncodeAll(ps)| && TornCut(ps, n) && !Coincides(ps, n)
    requires Reading(r, ps, m, EncodeAll(ps), config) && CHUNKED in Checked(r, config).transferEncodings
    ensures CompleteIn(ps, n) < |ps|
    ensures var s := WithContent(r, EncodeAll(ps)[..n], config);
            s.Faulted() || Off(ps, CompleteIn(ps, n), DecOf(s))
  {
    hide Checked, WithBody, EncodeAll, StateAt, TornCut, ChunkedFraming, Finished, Fits, Routes, ChunkDecoded, Coincides;
    hide CompleteIn, Off, TornAt, Chunks, DecOf, Sound, WithDec;
    var raw, d, p := EncodeAll(ps)[..n], StateAt(ps, m), Checked(r, config);
    DecodePrefix(ps, m, n);
    BodyReady(r, ps, m, n, config);
    NotEnded(ps, n);
    var l := TornAt(ps, n);
    SmallRaw(ps, n);
    StateSound(ps, m);
    if l != Endless {
      TornIsOff(ps, n, l);
    }
    var (s, done) := ChunkDecoded(p, raw);
    DecodedIsLoop(p, d, raw);
    ChunkedBody(p, raw);
    BodyInState(p, d);
    DoneState(p, raw);
    if done && !Finished(s, s.contentEncodings).Faulted() {
      FinishedKeepsDec(s, s.contentEncodings);
    }
    if l == Endless {
      EndlessIsNotDone(p, raw);
    }
  }

  lemma EndlessIsNotDone(p: ReqV, raw: string)
    ensures Decode(raw, DecOf(p)) == Endless ==> !ChunkDecoded(p, raw).1
  {
    hide Chunks;
  }

  lemma BodyInState(p: ReqV, d: Dec)
    requires p.parseState == ParseState.Content && DecOf(p) == d
    ensures InBodyState(p) && WithDec(p, d) == p
  {
  }

  lemma SmallRaw(ps: seq<Piece>, n: nat)
    requires Fits(ps) && n <= |EncodeAll(ps)|
    ensures Addressable(EncodeAll(ps)[..n])
  {
    hide EncodeAll, IsBody;
  }

  /** In front of a torn header the decoder has not ended, and the checks are settled. */
  lemma BodyReady(r: ReqV, ps: seq<Piece>, m: nat, n: nat, config: Config)
    requires Fits(ps) && m <= n <= |EncodeAll(ps)| && !StateAt(ps, n).ended
    requires Reading(r, ps, m, EncodeAll(ps), config) && CHUNKED in Checked(r, config).transferEncodings
    ensures var p := Checked(r, config);
            && ReadyForBody(p, config) && DecOf(p) == StateAt(ps, m) && WithDec(p, StateAt(ps, m)) == p && !p.HasErr() && !p.Faulted()
  {
    hide Checked, WithBody, EncodeAll, StateAt, ChunkedFraming, Fits, Routes;
    var p := Checked(r, config);
    CheckedOnce(r, config);
    CheckedKeepsDec(r, config);
    RoutedIsChunkedFraming(p, EncodeAll(ps));
    if StateAt(ps, m).ended {
      EndedStays(ps, m, n);
    }
  }

  // --------------------------------------------------------- the calls behind it

  /** What the body is decoded to. */
  lemma BodyEnds(r: ReqV, ps: seq<Piece>, m: nat, n: nat, config: Config)
    requires Fits(ps) && m <= n <= |EncodeAll(ps)| && !StateAt(ps, n).ended
    requires Reading(r, ps, m, EncodeAll(ps), config) && CHUNKED in Checked(r, config).transferEncodings
    ensures var p := Checked(r, config);
            && ValidCodes(p.contentEncodings)
            && WithContent(r, EncodeAll(ps), config) == WithDec(p, StateAt(ps, |EncodeAll(ps)|)).(parseState := Complete)
            && SameRequest(WithContent(r, EncodeAll(ps), config), Decoded(p, Data(ps)))
  {
    hide Checked, WithBody, EncodeAll, StateAt, ChunkedFraming, Fits, Routes, Finished, Data, DecOf, WithDec, Decoded, SameRequest;
    hide Stands, Sound;
    var p, e := Checked(r, config), StateAt(ps, |EncodeAll(ps)|);
    BodyReady(r, ps, m, n, config);
    ChunkedWhole(p, ps, m);
    RoutesIs(WithContent(r, EncodeAll(ps), config));
    FinishedValid(WithDec(p, e), p.contentEncodings);
    EndState(ps);
    StateSound(ps, |EncodeAll(ps)|);
    EndStands(ps, p.contentEncodings);
    FinishedCases(p, e, p.contentEncodings);
    DecodedIs(p, e, Data(ps));
  }

  lemma RoutesIs(r: ReqV)
    requires Routes(r)
    ensures !r.Faulted() && !r.HasErr()
  {
  }

  lemma {:induction false} FinishedValid(r: ReqV, encs: seq<nat>)
    requires !Finished(r, encs).Faulted()
    ensures ValidCodes(encs)
    decreases |encs|
  {
    hide ChunkDecoded, Appends;
    if encs != [] {
      if encs[0] == CHUNKED {
        FinishedValid(ChunkDecoded(r, r.content).0, encs[1..]);
      } else {
        FinishedValid(r, encs[1..]);
      }
      forall i | 0 <= i < |encs|
        ensures 0 < encs[i] <= LAST_ENCODING
      {
        assert i > 0 ==> encs[i] == encs[1..][i - 1];
      }
    }
  }

  lemma EndState(ps: seq<Piece>)
    ensures StateAt(ps, |EncodeAll(ps)|) == Dec(Data(ps), |Data(ps)|, |EncodeAll(ps)|, true)
  {
    hide EncodeAll, Data;
    CompleteAll(ps);
    assert ps[..|ps|] == ps;
  }

  /** The end of the body lies behind the end of its content. */
  lemma EndStands(ps: seq<Piece>, encs: seq<nat>)
    requires Fits(ps)
    ensures Stands(encs, StateAt(ps, |EncodeAll(ps)|))
  {
    hide EncodeAll, Data, FindCrlf;
    EndState(ps);
    DataFits(ps);
    NoCrlfBehind(Data(ps), |EncodeAll(ps)| + 1);
  }

  lemma NoCrlfBehind(s: string, i: nat)
    requires i + 1 >= |s|
    ensures FindCrlf(s, i) == None
  {
  }

  /** For a torn cut at the last chunk, which takes no bytes: the decoder has ended with
      its cursor at 3. Nothing is lost if an empty line happens to follow there, and no
      later arrival but the last ends at 3 or behind that line. */
  predicate EmptyTurnSpared(g: Goal, cuts: seq<nat>) {
    CrlfAt(g.full, g.b + 4) && forall i :: 0 <= i < |cuts| - 1 ==> cuts[i] < g.b + 6 && cuts[i] != g.b + 3
  }

  /** For one that takes the right bytes by chance: the decoder alone, going on from
      where that leaves it, comes out with the content. */
  predicate Recovers(g: Goal, cuts: seq<nat>)
    requires GoalOk(g) && cuts != [] && forall i :: 0 <= i < |cuts| ==> g.b <= cuts[i] <= |g.full|
  {
    var o := DecoderRun(StateAt(g.ps, cuts[0] - g.b), g.b, g.full, cuts);
    o.Some? && o.value.content == Data(g.ps) && Stands(Checked(g.h, g.config).contentEncodings, o.value)
  }

  /** The first cut is torn, and does no harm. */
  predicate TornSpared(g: Goal, cuts: seq<nat>)
    requires GoalOk(g) && cuts != [] && TearsHeader(g, cuts[0])
    requires forall i :: 0 <= i < |cuts| ==> g.b <= cuts[i] <= |g.full|
  {
    var n := cuts[0] - g.b;
    if PieceAt(g.ps, n).data == "" then EmptyTurnSpared(g, cuts) else Coincides(g.ps, n) && Recovers(g, cuts)
  }

  lemma BodySlice(g: Goal, n: nat)
    requires g.b <= n <= |g.full|
    ensures g.full[..n][g.b..] == g.full[g.b..][..n - g.b]
  {
  }

  /** From a state of the body on, the outcome is the decoder's. */
  lemma BodyRun(c: ConnV, g: Goal, m: nat, cuts: seq<nat>)
    requires GoalOk(g) && InBody(c, g, m) && Received(c, g.full, g.config) == (g.end, Route)
    requires cuts != [] && forall i :: 0 <= i < |cuts| ==> g.b <= cuts[i] <= |g.full|
    requires g.b + m <= cuts[0] && TearsHeader(g, cuts[0])
    ensures var o, f := DecoderRun(StateAt(g.ps, m), g.b, g.full, cuts), Arrivals.Feed(c, g.full, cuts, g.config);
            var ce := Checked(g.h, g.config).contentEncodings;
            && (SameOutcome(f, g.end) <==> o.Some? && o.value.content == Data(g.ps) && Stands(ce, o.value))
            && (SameOutcome(f, g.end) ==> (f.0 == g.end <==> o.value == StateAt(g.ps, |EncodeAll(g.ps)|)))
  {
    hide Received, WithContent, Checked, EncodeAll, StateAt, TornCut, Routes, Data, SameRequest, Stands, Decoded, Sound;
    hide Arrivals.Feed, DecoderRun, SameOutcome, ChunkedFraming, Settled, ValidCodes, WithDec, DecOf;
    var ps, n, p := g.ps, cuts[0] - g.b, Checked(c.req, g.config);
    TornNotEnded(g, cuts[0]);
    BodyEncodes(c, g, m);
    BodyReady(c.req, ps, m, n, g.config);
    BodyEnds(c.req, ps, m, n, g.config);
    StateSound(ps, m);
    BodyIsContent(c, g, m, |g.full|);
    assert g.full[..|g.full|] == g.full;
    StepInBody(c, g, m);
    RunCases(c, p, StateAt(ps, m), g.full, cuts, g.config, g.end, Data(ps));
    StateSound(ps, |EncodeAll(ps)|);
    EndState(ps);
    RunEnded(StateAt(ps, m), g.b, g.full, cuts);
    EndsCompare(p, DecoderRun(StateAt(ps, m), g.b, g.full, cuts), StateAt(ps, |EncodeAll(ps)|), g.b);
  }

  lemma BodyEncodes(c: ConnV, g: Goal, m: nat)
    requires GoalOk(g) && InBody(c, g, m) && CHUNKED in Checked(g.h, g.config).transferEncodings
    ensures c.parsedTo == g.b && g.full[g.b..] == EncodeAll(g.ps) && Fits(g.ps) && Addressable(g.full)
    ensures CHUNKED in Checked(c.req, g.config).transferEncodings && Reading(c.req, g.ps, m, EncodeAll(g.ps), g.config)
    ensures Checked(c.req, g.config).contentEncodings == Checked(g.h, g.config).contentEncodings
  {
    hide Checked, Reading, EncodeAll;
  }

  lemma TornNotEnded(g: Goal, n: nat)
    requires GoalOk(g) && TearsHeader(g, n)
    ensures CHUNKED in Checked(g.h, g.config).transferEncodings && Fits(g.ps)
    ensures g.b <= n && n - g.b <= |EncodeAll(g.ps)| && TornCut(g.ps, n - g.b) && !StateAt(g.ps, n - g.b).ended
  {
    hide Checked, EncodeAll, Torn;
  }

  lemma StepInBody(c: ConnV, g: Goal, m: nat)
    requires GoalOk(g) && InBody(c, g, m) && ReadyForBody(Checked(c.req, g.config), g.config)
    requires WithDec(Checked(c.req, g.config), StateAt(g.ps, m)) == Checked(c.req, g.config)
    ensures InStep(c, Checked(c.req, g.config), StateAt(g.ps, m), g.config)
  {
    hide Checked, WithContent, IsBodyOf, StateAt, Routes;
  }

  lemma BodyIsContent(c: ConnV, g: Goal, m: nat, n: nat)
    requires GoalOk(g) && InBody(c, g, m) && n <= |g.full| && g.b <= n
    ensures Received(c, g.full[..n], g.config) == ContentStep(c, g.full[..n], g.config)
    ensures Received(c, g.full[..n], g.config).0 == ConnV(g.b, WithContent(c.req, g.full[g.b..][..n - g.b], g.config))
    ensures g.full[g.b..][..|g.full| - g.b] == g.full[g.b..]
  {
    hide WithContent, IsBodyOf, Checked, StateAt;
    BodySlice(g, n);
  }

  lemma {:induction false} RunEnded(d: Dec, at: nat, full: string, cuts: seq<nat>)
    requires Sound(d) && Addressable(full) && forall i :: 0 <= i < |cuts| ==> at <= cuts[i] <= |full|
    ensures var o := DecoderRun(d, at, full, cuts); o.Some? ==> o.value.ended && Sound(o.value)
    decreases |cuts|
  {
    hide Decode, Waits, Closes, Sound;
    if cuts != [] {
      var raw := full[..cuts[0]][at..];
      DecodeSound(raw, d);
      if Decode(raw, d) != Endless {
        RunEnded(Decode(raw, d).d, at, full, cuts[1..]);
      }
    }
  }

  lemma EndsCompare(p: ReqV, o: Option<Dec>, e: Dec, at: nat)
    requires o.Some? ==> o.value.ended
    requires e.ended
    ensures o.Some? ==>
              (ConnV(at, WithDec(p, o.value).(parseState := Complete)) == ConnV(at, WithDec(p, e).(parseState := Complete))
               <==> o.value == e)
  {
  }

  // ------------------------------------------------------- the decoder alone

  lemma SameFirstCall(d: Dec, e: Dec, at: nat, full: string, cuts: seq<nat>)
    requires cuts != [] && forall i :: 0 <= i < |cuts| ==> at <= cuts[i] <= |full|
    requires Decode(full[..cuts[0]][at..], d) == Decode(full[..cuts[0]][at..], e)
    ensures DecoderRun(d, at, full, cuts) == DecoderRun(e, at, full, cuts)
  {
    hide Decode, Waits, Closes;
  }

  lemma RawIs(g: Goal, n: nat)
    requires g.b <= n <= |g.full| && g.full[g.b..] == EncodeAll(g.ps)
    ensures n - g.b <= |EncodeAll(g.ps)| && g.full[..n][g.b..] == EncodeAll(g.ps)[..n - g.b]
  {
    hide EncodeAll;
    BodySlice(g, n);
  }

  /** The state in front of the torn call does not matter, as long as it is one of the
      body. */
  lemma RunFrom(g: Goal, m: nat, cuts: seq<nat>)
    requires GoalOk(g) && cuts != [] && TearsHeader(g, cuts[0]) && g.b + m <= cuts[0]
    requires forall i :: 0 <= i < |cuts| ==> g.b <= cuts[i] <= |g.full|
    requires g.full[g.b..] == EncodeAll(g.ps)
    ensures DecoderRun(StateAt(g.ps, m), g.b, g.full, cuts) == DecoderRun(StateAt(g.ps, cuts[0] - g.b), g.b, g.full, cuts)
  {
    hide *;
    TornNotEnded(g, cuts[0]);
    RawIs(g, cuts[0]);
    SameDecode(g.ps, m, cuts[0] - g.b);
    SameFirstCall(StateAt(g.ps, m), StateAt(g.ps, cuts[0] - g.b), g.b, g.full, cuts);
  }

  lemma SameDecode(ps: seq<Piece>, m: nat, n: nat)
    requires Fits(ps) && m <= n <= |EncodeAll(ps)|
    ensures Decode(EncodeAll(ps)[..n], StateAt(ps, m)) == Decode(EncodeAll(ps)[..n], StateAt(ps, n))
  {
    hide Decode, EncodeAll, StateAt, TornCut, TornAt, PieceAt, Fits;
    DecodePrefix(ps, m, n);
    DecodePrefix(ps, n, n);
  }

  /** Wrong bytes in the place of a chunk's data stay there. */
  lemma {:induction false} RunStaysOff(ps: seq<Piece>, k: nat, d: Dec, at: nat, full: string, cuts: seq<nat>)
    requires k < |ps| && ps[k].data != "" && Off(ps, k, d) && forall i :: 0 <= i < |cuts| ==> at <= cuts[i] <= |full|
    ensures var o := DecoderRun(d, at, full, cuts); o.Some? ==> o.value.content != Data(ps)
    decreases |cuts|
  {
    hide Decode, Waits, Closes, Off;
    if cuts != [] {
      var raw := full[..cuts[0]][at..];
      if Decode(raw, d) != Endless {
        StaysOff(ps, k, d, raw);
        OffIsOther(ps, k, Decode(raw, d).d);
        RunStaysOff(ps, k, Decode(raw, d).d, at, full, cuts[1..]);
      }
    }
  }

  lemma OffIsOther(ps: seq<Piece>, k: nat, d: Dec)
    requires k < |ps| && ps[k].data != "" && Off(ps, k, d)
    ensures d.content != Data(ps)
  {
    hide Data;
    PrefixSplit(ps, k + 1, |ps|);
    assert ps[..|ps|] == ps;
    assert Data(ps)[..|Data(ps[..k + 1])|] == Data(ps[..k + 1]);
  }

  /** Whatever state they were put there from. */
  lemma FirstCallOff(ps: seq<Piece>, k: nat, d: Dec, at: nat, full: string, cuts: seq<nat>)
    requires k < |ps| && ps[k].data != "" && cuts != [] && forall i :: 0 <= i < |cuts| ==> at <= cuts[i] <= |full|
    requires var l := Decode(full[..cuts[0]][at..], d); l != Endless ==> Off(ps, k, l.d)
    ensures var o := DecoderRun(d, at, full, cuts); o.Some? ==> o.value.content != Data(ps)
  {
    hide Decode, Waits, Closes, Off;
    var l := Decode(full[..cuts[0]][at..], d);
    if l != Endless {
      OffIsOther(ps, k, l.d);
      RunStaysOff(ps, k, l.d, at, full, cuts[1..]);
    }
  }

  /** The turn there takes bytes, and not those of the chunk. */
  predicate WrongBytes(ps: seq<Piece>, n: nat) {
    n <= |EncodeAll(ps)| && !StateAt(ps, n).ended && PieceAt(ps, n).data != "" && !Coincides(ps, n)
  }

  lemma PieceIs(ps: seq<Piece>, n: nat)
    requires !StateAt(ps, n).ended
    ensures CompleteIn(ps, n) < |ps| && ps[CompleteIn(ps, n)] == PieceAt(ps, n)
  {
  }

  /** Unless its bytes coincide, a torn turn that takes some spoils the run. */
  lemma OffRunFails(g: Goal, cuts: seq<nat>)
    requires GoalOk(g) && cuts != [] && TearsHeader(g, cuts[0]) && g.full[g.b..] == EncodeAll(g.ps)
    requires forall i :: 0 <= i < |cuts| ==> g.b <= cuts[i] <= |g.full|
    requires WrongBytes(g.ps, cuts[0] - g.b)
    ensures !Recovers(g, cuts)
  {
    hide Decode, EncodeAll, StateAt, TornCut, TornAt, Off, Coincides, Data, Stands, Checked, CompleteIn, DecoderRun;
    hide GoalOk, TearsHeader, Fits, PieceAt;
    var n, ps := cuts[0] - g.b, g.ps;
    TornNotEnded(g, cuts[0]);
    BodySlice(g, cuts[0]);
    DecodePrefix(ps, n, n);
    NotEnded(ps, n);
    if TornAt(ps, n) != Endless {
      TornIsOff(ps, n, TornAt(ps, n));
    }
    PieceIs(ps, n);
    FirstCallOff(ps, CompleteIn(ps, n), StateAt(ps, n), g.b, g.full, cuts);
  }

  /** Behind a last chunk at the cursor, where an empty line follows: what is waited
      for, and what is the end of the body. */
  lemma WaitsUntil(raw: string, q: nat, cursor: nat)
    requires q <= |raw| && CrlfAt(raw, cursor + 1)
    ensures Waits(raw[..q], cursor) <==> q < cursor + 3 && q != cursor
  {
    hide FindCrlf;
    FindCrlfIs(raw, cursor + 1, cursor + 1);
    FindCrlfPrefix(raw, q, cursor + 1);
  }

  lemma ClosesThere(raw: string, cursor: nat)
    requires |raw| != cursor
    ensures Closes(raw, cursor) <==> CrlfAt(raw, cursor + 1)
  {
    hide FindCrlf;
    if CrlfAt(raw, cursor + 1) {
      FindCrlfIs(raw, cursor + 1, cursor + 1);
    }
  }

  /** What is left of a decoder that has ended at the cursor: the run goes well if and
      only if an empty line follows there, and no call but the last sees it or ends at
      the cursor. */
  lemma {:induction false} EndedRunIs(d: Dec, at: nat, full: string, cuts: seq<nat>)
    requires d.ended && cuts != [] && forall i :: 0 <= i < |cuts| ==> at <= cuts[i] <= |full|
    requires cuts[|cuts| - 1] == |full| && |full| - at != d.cursor
    ensures DecoderRun(d, at, full, cuts) ==
            if CrlfAt(full, at + d.cursor + 1)
               && forall i :: 0 <= i < |cuts| - 1 ==> cuts[i] < at + d.cursor + 3 && cuts[i] != at + d.cursor
            then Some(d) else None
  {
    hide Waits, Closes, DecoderRun;
    var body, j := full[at..], d.cursor + 1;
    EndedRun(d, at, full, cuts);
    assert full[..|full|][at..] == body;
    ClosesThere(body, d.cursor);
    assert CrlfAt(body, j) <==> CrlfAt(full, at + j);
    if CrlfAt(body, j) {
      forall i | 0 <= i < |cuts| - 1
        ensures Waits(full[..cuts[i]][at..], d.cursor) <==> cuts[i] < at + d.cursor + 3 && cuts[i] != at + d.cursor
      {
        assert full[..cuts[i]][at..] == body[..cuts[i] - at];
        WaitsUntil(body, cuts[i] - at, d.cursor);
      }
    }
  }

  lemma TornCursor(ps: seq<Piece>, n: nat)
    requires n <= |EncodeAll(ps)| && TornCut(ps, n)
    ensures |EncodeAll(ps[..CompleteIn(ps, n)])| < n
  {
    hide EncodeAll, CompleteIn, Data, FindCrlf, HexRead;
  }

  lemma FirstIsLong(ps: seq<Piece>, k: nat)
    requires IsBody(ps) && 0 < k < |ps|
    ensures |EncodeAll(ps[..k])| >= 6
  {
    assert IsPiece(ps[0]);
    assert ps[..k][0] == ps[0];
  }

  /** A piece without data is the last one. */
  lemma EmptyIsLast(ps: seq<Piece>, n: nat)
    requires Fits(ps) && n <= |EncodeAll(ps)| && !StateAt(ps, n).ended && PieceAt(ps, n).data == ""
    ensures StateAt(ps, n).content == Data(ps)
    ensures TornCut(ps, n) && n < 6 ==> Data(ps) == ""
  {
    hide EncodeAll, Data, CompleteIn, Torn;
    var k := CompleteIn(ps, n);
    NotEnded(ps, n);
    DataSnoc(ps, k);
    assert ps[..k + 1] == ps;
    if TornCut(ps, n) && n < 6 {
      TornCursor(ps, n);
      if k > 0 {
        FirstIsLong(ps, k);
      } else {
        DataOfNone(ps);
      }
    }
  }

  lemma DataOfNone(ps: seq<Piece>)
    ensures Data(ps[..0]) == ""
  {
  }

  lemma SameFirstStep(d: Dec, e: Dec, at: nat, full: string, cuts: seq<nat>)
    requires cuts != [] && forall i :: 0 <= i < |cuts| ==> at <= cuts[i] <= |full|
    requires Decode(full[..cuts[0]][at..], d) == Ends(e) && e.ended
    ensures DecoderRun(d, at, full, cuts) == DecoderRun(e, at, full, cuts)
  {
    hide Chunks, DecoderRun;
    SameFirstCall(d, e, at, full, cuts);
  }

  /** What a torn turn of size 0 leaves behind. */
  lemma EmptyTurn(ps: seq<Piece>, n: nat)
    requires n <= |EncodeAll(ps)| && !StateAt(ps, n).ended && |PieceAt(ps, n).data| < n && PieceAt(ps, n).data == ""
    ensures var d := StateAt(ps, n);
            TornAt(ps, n) == Ends(Dec(d.content, d.contentLen % U32, 3, true))
  {
    hide EncodeAll, StateAt, Chunks, PieceAt;
    var raw, d := EncodeAll(ps)[..n], StateAt(ps, n);
    assert d.content + raw[1..1] == d.content;
  }

  lemma EmptyStands(encs: seq<nat>, d: Dec)
    requires d.content == "" && d.cursor == 3
    ensures Stands(encs, d)
  {
    NoCrlfBehind("", 4);
  }

  /** The exact condition for a torn cut at the last chunk. */
  lemma EmptyRun(g: Goal, cuts: seq<nat>)
    requires GoalOk(g) && |cuts| > 1 && TearsHeader(g, cuts[0]) && g.full[g.b..] == EncodeAll(g.ps)
    requires forall i :: 0 <= i < |cuts| ==> g.b <= cuts[i] <= |g.full|
    requires cuts[|cuts| - 1] == |g.full|
    requires EmptyAt(g.ps, cuts[0] - g.b)
    ensures Recovers(g, cuts) <==> EmptyTurnSpared(g, cuts)
    ensures DecoderRun(StateAt(g.ps, cuts[0] - g.b), g.b, g.full, cuts) != Some(StateAt(g.ps, |EncodeAll(g.ps)|))
  {
    hide Decode, EncodeAll, StateAt, TornCut, TornAt, Data, Stands, Checked, CompleteIn, DecoderRun;
    hide GoalOk, TearsHeader, Fits, PieceAt;
    var n, ps := cuts[0] - g.b, g.ps;
    TornNotEnded(g, cuts[0]);
    BodySlice(g, cuts[0]);
    DecodePrefix(ps, n, n);
    EmptyTurn(ps, n);
    EmptyIsLast(ps, n);
    var d := StateAt(ps, n);
    var e := Dec(d.content, d.contentLen % U32, 3, true);
    SameFirstStep(d, e, g.b, g.full, cuts);
    FitsIsBody(ps);
    LongBody(ps);
    EndedRunIs(e, g.b, g.full, cuts);
    EndState(ps);
    if EmptyTurnSpared(g, cuts) {
      assert cuts[0] < g.b + 6;
      EmptyStands(Checked(g.h, g.config).contentEncodings, e);
    }
  }

  predicate EmptyAt(ps: seq<Piece>, n: nat) {
    n <= |EncodeAll(ps)| && !StateAt(ps, n).ended && PieceAt(ps, n).data == ""
  }

  // --------------------------------------------------------------- the run

  /** When the decoder alone comes out right behind a torn cut. */
  lemma RecoversExactlyWhen(g: Goal, cuts: seq<nat>)
    requires GoalOk(g) && |cuts| > 1 && TearsHeader(g, cuts[0]) && g.full[g.b..] == EncodeAll(g.ps)
    requires forall i :: 0 <= i < |cuts| ==> g.b <= cuts[i] <= |g.full|
    requires cuts[|cuts| - 1] == |g.full|
    ensures Recovers(g, cuts) <==> TornSpared(g, cuts)
  {
    hide EncodeAll, StateAt, TornCut, Coincides, PieceAt, Recovers, EmptyTurnSpared, GoalOk, TearsHeader, Fits;
    var n := cuts[0] - g.b;
    TornNotEnded(g, cuts[0]);
    if PieceAt(g.ps, n).data == "" {
      EmptyRun(g, cuts);
    } else if !Coincides(g.ps, n) {
      OffRunFails(g, cuts);
    }
  }

  /** The decoder alone comes out in the state that one call on the body leaves. */
  predicate Repairs(g: Goal, cuts: seq<nat>)
    requires GoalOk(g) && cuts != [] && forall i :: 0 <= i < |cuts| ==> g.b <= cuts[i] <= |g.full|
  {
    DecoderRun(StateAt(g.ps, cuts[0] - g.b), g.b, g.full, cuts) == Some(StateAt(g.ps, |EncodeAll(g.ps)|))
  }

  lemma RepairsRecovers(g: Goal, cuts: seq<nat>)
    requires GoalOk(g) && Fits(g.ps) && cuts != [] && forall i :: 0 <= i < |cuts| ==> g.b <= cuts[i] <= |g.full|
    ensures Repairs(g, cuts) ==> Recovers(g, cuts)
  {
    hide EncodeAll, StateAt, Data, Stands, DecoderRun, Checked, GoalOk, Fits;
    EndState(g.ps);
    EndStands(g.ps, Checked(g.h, g.config).contentEncodings);
  }

  /** The decoder's run from the state of the torn cut decides. */
  lemma RunFromHere(c: ConnV, g: Goal, m: nat, cuts: seq<nat>)
    requires GoalOk(g) && InBody(c, g, m) && Received(c, g.full, g.config) == (g.end, Route)
    requires cuts != [] && forall i :: 0 <= i < |cuts| ==> g.b <= cuts[i] <= |g.full|
    requires g.b + m <= cuts[0] && TearsHeader(g, cuts[0]) && g.full[g.b..] == EncodeAll(g.ps)
    ensures var f := Arrivals.Feed(c, g.full, cuts, g.config);
            && (SameOutcome(f, g.end) <==> Recovers(g, cuts))
            && (SameOutcome(f, g.end) ==> (f.0 == g.end <==> Repairs(g, cuts)))
  {
    hide Received, Checked, EncodeAll, StateAt, Data, Stands, Arrivals.Feed, DecoderRun, SameOutcome, GoalOk, TearsHeader, InBody;
    hide Fits, TornCut;
    TornNotEnded(g, cuts[0]);
    BodyRun(c, g, m, cuts);
    RunFrom(g, m, cuts);
  }

  /** Behind a torn cut, from a state of the body: exactly when the outcome is that of
      one arrival, and when index and cursor are, too. */
  lemma TornBodyRun(c: ConnV, g: Goal, m: nat, cuts: seq<nat>)
    requires GoalOk(g) && InBody(c, g, m) && Received(c, g.full, g.config) == (g.end, Route)
    requires |cuts| > 1 && forall i :: 0 <= i < |cuts| ==> g.b <= cuts[i] <= |g.full|
    requires cuts[|cuts| - 1] == |g.full| && g.b + m <= cuts[0] && TearsHeader(g, cuts[0])
    ensures var f := Arrivals.Feed(c, g.full, cuts, g.config);
            && (SameOutcome(f, g.end) <==> TornSpared(g, cuts))
            && (SameOutcome(f, g.end) && f.0 == g.end <==> Repairs(g, cuts))
  {
    hide Received, Checked, EncodeAll, Arrivals.Feed, SameOutcome, GoalOk, TearsHeader, InBody, Fits;
    hide TornSpared, Recovers, Repairs;
    TornNotEnded(g, cuts[0]);
    BodyEncodes(c, g, m);
    RunFromHere(c, g, m, cuts);
    RecoversExactlyWhen(g, cuts);
    RepairsRecovers(g, cuts);
  }
}
