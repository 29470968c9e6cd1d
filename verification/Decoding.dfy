/** A chunked body from any state of the decoder: what the remaining calls make of the
    request is what they make of the decoder. */
module Decoding {
  import opened Strings
  import opened Message
  import opened Content
  import opened Chunked
  import opened Receive
  import opened Framing
  import opened Segmentation
  import opened Fields
  import opened BlankCuts
  import Arrivals

  // ------------------------------------------------------------- the decoder

  /** The decoder alone, called on longer and longer beginnings of a buffer, of which
      it is given what lies behind `at`: the state it ends in, if each call but the last
      waits for more and the last one completes the body. */
  function DecoderRun(d: Dec, at: nat, full: string, cuts: seq<nat>): Option<Dec>
    requires forall i :: 0 <= i < |cuts| ==> at <= cuts[i] <= |full|
    decreases |cuts|
  {
    if cuts == [] then None
    else
      var raw := full[..cuts[0]][at..];
      match Decode(raw, d)
      case Endless => None
      case Asks(e) => DecoderRun(e, at, full, cuts[1..])
      case Ends(e) =>
        if |cuts| == 1 then if Closes(raw, e.cursor) then Some(e) else None
        else if Waits(raw, e.cursor) then DecoderRun(e, at, full, cuts[1..])
        else None
  }

  /** A decoder that has seen the last chunk stays as it is. */
  lemma {:induction false} EndedRun(d: Dec, at: nat, full: string, cuts: seq<nat>)
    requires d.ended && cuts != [] && forall i :: 0 <= i < |cuts| ==> at <= cuts[i] <= |full|
    ensures DecoderRun(d, at, full, cuts) ==
            if (forall i :: 0 <= i < |cuts| - 1 ==> Waits(full[..cuts[i]][at..], d.cursor))
               && Closes(full[..cuts[|cuts| - 1]][at..], d.cursor)
            then Some(d) else None
    decreases |cuts|
  {
    hide Waits, Closes;
    if |cuts| > 1 {
      EndedRun(d, at, full, cuts[1..]);
      WaitsCons(d, at, full, cuts);
    }
  }

  lemma WaitsCons(d: Dec, at: nat, full: string, cuts: seq<nat>)
    requires |cuts| > 1 && forall i :: 0 <= i < |cuts| ==> at <= cuts[i] <= |full|
    ensures (forall i :: 0 <= i < |cuts| - 1 ==> Waits(full[..cuts[i]][at..], d.cursor)) <==>
            Waits(full[..cuts[0]][at..], d.cursor)
            && forall i :: 0 <= i < |cuts[1..]| - 1 ==> Waits(full[..cuts[1..][i]][at..], d.cursor)
  {
    hide Waits;
    if Waits(full[..cuts[0]][at..], d.cursor) && forall i :: 0 <= i < |cuts[1..]| - 1 ==> Waits(full[..cuts[1..][i]][at..], d.cursor) {
      forall i | 0 <= i < |cuts| - 1
        ensures Waits(full[..cuts[i]][at..], d.cursor)
      {
        assert i > 0 ==> cuts[i] == cuts[1..][i - 1];
      }
    }
  }

  /** The count is that of the content, and the cursor can be stepped over. */
  predicate Sound(d: Dec) {
    d.contentLen == |d.content| % U32 && d.cursor + 1 < U32
  }

  lemma TurnSound(raw: string, d: Dec)
    requires Addressable(raw) && Sound(d) && OneTurn(raw, d).Take?
    ensures Sound(OneTurn(raw, d).next) && OneTurn(raw, d).next.ended == d.ended
  {
    hide FindChar, FindCrlf, SizeEnd, HexRead;
    var n := SizeAt(raw, d.cursor);
    CountAdds(|d.content|, n);
    match FindCrlf(raw, d.cursor)
    case None =>
      assert (U32 - 1 + 2 + n + 2) % U32 == n + 3;
    case Some(h) =>
      assert h % U32 == h;
  }

  lemma CountAdds(a: nat, n: nat)
    ensures (a % U32 + n) % U32 == (a + n) % U32
  {
  }

  lemma {:induction false} TurnsSound(raw: string, d: Dec, limit: nat)
    requires Addressable(raw) && Sound(d) && !d.ended
    ensures match Turns(raw, d, limit)
            case Asks(e) => Sound(e) && !e.ended
            case Ends(e) => Sound(e) && e.ended
            case Endless => true
    decreases limit
  {
    hide OneTurn, Sound;
    if OneTurn(raw, d).Take? {
      var next := OneTurn(raw, d).next;
      TurnSound(raw, d);
      EndedSound(next);
      if OneTurn(raw, d).size > 0 && limit > 0 {
        TurnsSound(raw, next, limit - 1);
      }
    }
  }

  lemma EndedSound(d: Dec)
    ensures Sound(d.(ended := true)) <==> Sound(d)
  {
  }

  lemma DecodeSound(raw: string, d: Dec)
    requires Addressable(raw) && Sound(d)
    ensures match Decode(raw, d)
            case Asks(e) => Sound(e) && !e.ended && !d.ended
            case Ends(e) => Sound(e) && e.ended
            case Endless => !d.ended
  {
    hide Turns, Sound;
    if !d.ended {
      TurnsSound(raw, d, |raw|);
    }
  }

  // ----------------------------------------------------------- one call of it

  /** A request p whose headers are in and whose checks have passed, with a decoder in
      state d. */
  predicate ReadyForBody(p: ReqV, config: Config) {
    Settled(p, config) && ChunkedFraming(p) && p.parseState == ParseState.Content
  }

  lemma DecIs(p: ReqV, d: Dec)
    requires p.parseState == ParseState.Content
    ensures DecOf(WithDec(p, d)) == d
    ensures WithDec(p, d).parseState == if d.ended then ChunkTrailers else ParseState.Content
  {
  }

  lemma DecTwice(p: ReqV, d: Dec, e: Dec)
    requires d.ended ==> e.ended
    ensures WithDec(WithDec(p, d), e) == WithDec(p, e)
  {
  }

  lemma DecodedCases(p: ReqV, d: Dec, raw: string)
    requires p.parseState == ParseState.Content && !p.Faulted() && Addressable(raw) && Sound(d)
    ensures var (s, done) := ChunkDecoded(WithDec(p, d), raw);
            match Decode(raw, d)
            case Endless => s.Faulted() && !done
            case Asks(e) => s == WithDec(p, e) && !done
            case Ends(e) =>
              && (Waits(raw, e.cursor) ==> s == WithDec(p, e) && !done)
              && (Closes(raw, e.cursor) ==> s == WithDec(p, e) && done)
              && (Waits(raw, e.cursor) || Closes(raw, e.cursor) || Spoiled(p, s))
  {
    hide Chunks, BehindChunks, Waits, Closes, DecOf, WithDec;
    var r := WithDec(p, d);
    DecIs(p, d);
    DecodeSound(raw, d);
    match Decode(raw, d)
    case Endless =>
    case Asks(e) =>
      DecTwice(p, d, e);
    case Ends(e) =>
      DecTwice(p, d, e);
      DecKeeps(p, e);
      BehindCases(WithDec(p, e), raw);
      SpoiledFrom(p, WithDec(p, e), BehindChunks(WithDec(p, e), raw).0);
  }

  lemma DecKeeps(p: ReqV, d: Dec)
    ensures var r := WithDec(p, d);
            && r.chunkedContentLen == d.cursor && r.content == d.content && r.fields == p.fields && r.err == p.err
            && (r.Faulted() <==> p.Faulted()) && r.contentEncodings == p.contentEncodings
            && (d.ended ==> r.(parseState := ChunkTrailers) == r)
  {
  }

  lemma SpoiledFrom(p: ReqV, r: ReqV, s: ReqV)
    requires r.fields == p.fields
    ensures Spoiled(r, s) <==> Spoiled(p, s)
  {
  }

  lemma {:induction false} FinishedStaysSpoiled(p: ReqV, r: ReqV, encs: seq<nat>)
    requires Spoiled(p, r) && !r.Faulted() && r.parseState == ChunkTrailers
    ensures Spoiled(p, Finished(r, encs))
    decreases |encs|
  {
    hide TrailerLoop;
    if encs != [] && encs[0] == CHUNKED {
      var s := ChunkDecoded(r, r.content).0;
      TrailersStaySpoiled(p, r, r.content, (r.chunkedContentLen + 1) % U32);
      TrailersKeepState(r, r.content, (r.chunkedContentLen + 1) % U32);
      if !s.Faulted() {
        FinishedStaysSpoiled(p, s, encs[1..]);
      }
    } else if encs != [] {
      FinishedStaysSpoiled(p, r, encs[1..]);
    }
  }

  /** The content decoders, if chunked is one of them, take nothing in the content for
      a trailer line. */
  predicate Stands(encs: seq<nat>, d: Dec) {
    CHUNKED in encs ==> Waits(d.content, d.cursor) || Closes(d.content, d.cursor)
  }

  lemma {:induction false} FinishedCases(p: ReqV, d: Dec, encs: seq<nat>)
    requires p.parseState == ParseState.Content && !p.Faulted() && d.ended && Sound(d) && ValidCodes(encs)
    ensures var r := WithDec(p, d);
            if Stands(encs, d) then Finished(r, encs) == r.(parseState := Complete) else Spoiled(p, Finished(r, encs))
    decreases |encs|
  {
    hide BehindChunks, Waits, Closes;
    if encs != [] {
      var r := WithDec(p, d);
      StandsTail(encs, d);
      if encs[0] == CHUNKED {
        var s := BehindChunks(r, d.content).0;
        BehindCases(r, d.content);
        SpoiledFrom(p, r, s);
        if s != r && !s.Faulted() {
          BehindKeepsState(r, d.content);
          FinishedStaysSpoiled(p, s, encs[1..]);
        } else if s == r {
          FinishedCases(p, d, encs[1..]);
        }
      } else {
        FinishedCases(p, d, encs[1..]);
      }
    }
  }

  lemma StandsTail(encs: seq<nat>, d: Dec)
    requires encs != []
    ensures encs[0] != CHUNKED ==> (Stands(encs, d) <==> Stands(encs[1..], d))
    ensures ValidCodes(encs) ==> 0 < encs[0] <= LAST_ENCODING && ValidCodes(encs[1..])
    ensures Stands(encs, d) ==> Stands(encs[1..], d)
  {
  }

  lemma BehindKeepsState(r: ReqV, raw: string)
    ensures BehindChunks(r, raw).0.parseState == r.parseState
  {
    hide TrailerLoop;
    TrailersKeepState(r, raw, (r.chunkedContentLen + 1) % U32);
  }

  // ----------------------------------------------------------- one call of on_rx

  predicate InBodyState(r: ReqV) {
    r.parseState == ParseState.Content || r.parseState == ChunkTrailers
  }

  /** The body step of a request p with a decoder in state d. */
  lemma BodyCases(p: ReqV, d: Dec, raw: string, config: Config)
    requires ReadyForBody(p, config) && ValidCodes(p.contentEncodings) && Sound(d) && Addressable(raw)
    ensures var s := WithBody(WithDec(p, d), raw);
            match Decode(raw, d)
            case Endless => s.Faulted()
            case Asks(e) => s == WithDec(p, e)
            case Ends(e) =>
              && (Waits(raw, e.cursor) ==> s == WithDec(p, e))
              && (Closes(raw, e.cursor) && Stands(p.contentEncodings, e) ==> s == WithDec(p, e).(parseState := Complete))
              && (Closes(raw, e.cursor) ==> s.Faulted() || s.parseState == Complete)
              && (Closes(raw, e.cursor) && !Stands(p.contentEncodings, e) ==> Spoiled(p, s))
              && (Waits(raw, e.cursor) || Closes(raw, e.cursor) || Spoiled(p, s))
  {
    hide Checked, ChunkDecoded, Finished, Waits, Closes, WithDec, WithBody, ChunkedFraming, Stands, Decode, Spoiled, Sound;
    var r := WithDec(p, d);
    var (t, done) := ChunkDecoded(r, raw);
    DecFraming(p, d);
    ChunkedBody(r, raw);
    DecodedCases(p, d, raw);
    DecodeSound(raw, d);
    if Decode(raw, d).Ends? {
      var e := Decode(raw, d).d;
      DecKeeps(p, e);
      FinishedCases(p, e, p.contentEncodings);
      if !Finished(WithDec(p, e), p.contentEncodings).Faulted() {
        FinishedKeeps(WithDec(p, e), p.contentEncodings);
      }
      if done && Spoiled(p, t) {
        DecIs(p, d);
        DoneState(r, raw);
        FinishedStaysSpoiled(p, t, t.contentEncodings);
      }
    }
  }

  lemma DecFraming(p: ReqV, d: Dec)
    requires ChunkedFraming(p) && !p.HasErr() && !p.Faulted()
    ensures var r := WithDec(p, d); ChunkedFraming(r) && !r.HasErr() && !r.Faulted()
  {
    hide ChunkedFraming;
    SameChunkedFraming(p, d);
  }

  lemma DoneState(r: ReqV, raw: string)
    requires InBodyState(r) && !r.Faulted()
    ensures ChunkDecoded(r, raw).1 ==> ChunkDecoded(r, raw).0.parseState == ChunkTrailers && !ChunkDecoded(r, raw).0.Faulted()
  {
    hide Chunks, TrailerLoop;
    DoneIsNoFault(r, raw);
    var s := BeforeTrailers(r, raw);
    TrailersKeepState(s, raw, (s.chunkedContentLen + 1) % U32);
    DecodedEnds(raw, DecOf(r));
  }

  lemma DecodedEnds(raw: string, d: Dec)
    ensures match Chunks(raw, d) case Ends(e) => e.ended case _ => true
  {
    hide Turns;
    TurnsEnd(raw, d, |raw|);
  }

  lemma {:induction false} TurnsEnd(raw: string, d: Dec, limit: nat)
    ensures match Turns(raw, d, limit) case Ends(e) => e.ended case _ => true
    decreases limit
  {
    hide OneTurn;
    if OneTurn(raw, d).Take? && OneTurn(raw, d).size > 0 && limit > 0 {
      TurnsEnd(raw, OneTurn(raw, d).next, limit - 1);
    }
  }

  /** The connection is at the body of p, with the decoder in state d. */
  predicate InStep(c: ConnV, p: ReqV, d: Dec, config: Config) {
    Checked(c.req, config) == WithDec(p, d) && InBodyState(c.req) && !c.req.HasErr() && !c.req.Faulted()
  }

  lemma StaysInStep(at: nat, p: ReqV, d: Dec, config: Config)
    requires ReadyForBody(p, config)
    ensures InStep(ConnV(at, WithDec(p, d)), p, d, config)
  {
    hide Checked, ChunkedFraming;
    ChunkedIsSome(p);
    CheckedAroundDecoder(p, d, config);
  }

  lemma ChunkedIsSome(p: ReqV)
    requires ChunkedFraming(p)
    ensures p.transferEncodings != []
  {
  }

  /** A call in step is what the decoder makes of it. */
  lemma CallCases(c: ConnV, p: ReqV, d: Dec, raw: string, config: Config)
    requires ReadyForBody(p, config) && ValidCodes(p.contentEncodings) && Sound(d) && Addressable(raw)
    requires InStep(c, p, d, config) && c.parsedTo <= |raw|
    ensures var (c1, v) := Received(c, raw, config);
            var body := raw[c.parsedTo..];
            match Decode(body, d)
            case Endless => v == Crash
            case Asks(e) => v == NeedMore && c1 == ConnV(c.parsedTo, WithDec(p, e))
            case Ends(e) =>
              && (Waits(body, e.cursor) ==> v == NeedMore && c1 == ConnV(c.parsedTo, WithDec(p, e)))
              && (Closes(body, e.cursor) && Stands(p.contentEncodings, e) ==>
                    v == Route && c1 == ConnV(c.parsedTo, WithDec(p, e).(parseState := Complete)))
              && (Closes(body, e.cursor) ==> v != NeedMore)
              && (Waits(body, e.cursor) || (Closes(body, e.cursor) && Stands(p.contentEncodings, e))
                  || v == Crash || v == Reject || !(c1.req.fields.Keys <= p.fields.Keys))
  {
    hide Checked, WithBody, Waits, Closes, WithDec, ChunkedFraming, Stands, Decode, Sound;
    var body := raw[c.parsedTo..];
    BodyCases(p, d, body, config);
    ClosedReceived(c, raw, config);
    DecKeeps(p, d);
    match Decode(body, d)
    case Endless =>
    case Asks(e) =>
      DecodeSound(body, d);
      DecKeeps(p, e);
      DecIs(p, e);
    case Ends(e) =>
      DecodeSound(body, d);
      DecKeeps(p, e);
      DecIs(p, e);
  }

  // ------------------------------------------------------------------ the run

  /** The requests are the same but for the decoder's cursor, which is its own. */
  predicate SameRequest(r: ReqV, s: ReqV) {
    r.(chunkedContentLen := 0) == s.(chunkedContentLen := 0)
  }

  /** Every arrival but the last asks for more, and the last one routes the request
      that one arrival routes. */
  predicate SameOutcome(r: (ConnV, seq<Verdict>), end: ConnV) {
    SameRequest(r.0.req, end.req) && Arrivals.OnlyLastRoutes(r.1)
  }

  lemma {:induction false} FeedLength(c: ConnV, full: string, cuts: seq<nat>, config: Config)
    requires forall i :: 0 <= i < |cuts| ==> cuts[i] <= |full|
    ensures |Arrivals.Feed(c, full, cuts, config).1| == |cuts|
    decreases |cuts|
  {
    hide Received;
    if cuts != [] {
      FeedLength(Received(c, full[..cuts[0]], config).0, full, cuts[1..], config);
    }
  }

  /** The outcome of a run is that of its first call and of the rest. */
  lemma OutcomeCons(c: ConnV, full: string, cuts: seq<nat>, config: Config, end: ConnV)
    requires cuts != [] && forall i :: 0 <= i < |cuts| ==> cuts[i] <= |full|
    ensures var (c1, v) := Received(c, full[..cuts[0]], config);
            var rest := Arrivals.Feed(c1, full, cuts[1..], config);
            && Arrivals.Feed(c, full, cuts, config).0 == rest.0
            && (SameOutcome(Arrivals.Feed(c, full, cuts, config), end) <==>
                if |cuts| == 1 then v == Route && SameRequest(c1.req, end.req) else v == NeedMore && SameOutcome(rest, end))
  {
    hide Received, SameRequest;
    var (c1, v) := Received(c, full[..cuts[0]], config);
    FeedLength(c1, full, cuts[1..], config);
    OnlyLastCons(v, Arrivals.Feed(c1, full, cuts[1..], config).1);
  }

  lemma OnlyLastCons(v: Verdict, vs: seq<Verdict>)
    ensures Arrivals.OnlyLastRoutes([v] + vs) <==> if vs == [] then v == Route else v == NeedMore && Arrivals.OnlyLastRoutes(vs)
  {
    var all := [v] + vs;
    assert all[|all| - 1] == if vs == [] then v else vs[|vs| - 1];
    if vs != [] && Arrivals.OnlyLastRoutes(all) {
      forall i | 0 <= i < |vs| - 1
        ensures vs[i] == NeedMore
      {
        assert all[i + 1] == vs[i];
      }
      assert all[0] == v;
    }
  }

  lemma {:induction false} FeedKeepsFields(c: ConnV, full: string, cuts: seq<nat>, config: Config)
    requires forall i :: 0 <= i < |cuts| ==> cuts[i] <= |full|
    requires c.req.parseState != StartLine && c.req.parseState != ParseState.Headers
    ensures Grows(c.req, Arrivals.Feed(c, full, cuts, config).0.req)
    decreases |cuts|
  {
    hide Received;
    if cuts != [] {
      var raw := full[..cuts[0]];
      var c1 := Received(c, raw, config).0;
      IndexStays(c, raw, config);
      CallKeepsFields(c, raw, config);
      FeedKeepsFields(c1, full, cuts[1..], config);
    }
  }

  lemma CallKeepsFields(c: ConnV, raw: string, config: Config)
    requires c.req.parseState != StartLine && c.req.parseState != ParseState.Headers
    ensures Grows(c.req, Received(c, raw, config).0.req)
  {
    hide WithContent;
    if c.parsedTo <= |raw| {
      ContentGrows(c.req, raw[c.parsedTo..], config);
    }
  }

  /** A request that has a field too many never becomes the one it should be. */
  lemma SpoiledRun(p: ReqV, c: ConnV, full: string, cuts: seq<nat>, config: Config, end: ConnV)
    requires forall i :: 0 <= i < |cuts| ==> cuts[i] <= |full|
    requires c.req.parseState != StartLine && c.req.parseState != ParseState.Headers
    requires !(c.req.fields.Keys <= p.fields.Keys) && end.req.fields == p.fields
    ensures !SameOutcome(Arrivals.Feed(c, full, cuts, config), end)
  {
    hide Arrivals.Feed;
    FeedKeepsFields(c, full, cuts, config);
    MoreKeys(p, c.req, Arrivals.Feed(c, full, cuts, config).0.req);
  }

  /** The request that p becomes once its body has been decoded to data. */
  function Decoded(p: ReqV, data: string): ReqV {
    WithDec(p, Dec(data, |data| % U32, 0, true)).(parseState := Complete)
  }

  lemma DecodedIs(p: ReqV, d: Dec, data: string)
    requires d.ended && Sound(d)
    ensures SameRequest(WithDec(p, d).(parseState := Complete), Decoded(p, data)) <==> d.content == data
  {
  }

  lemma RequestsCompare(r: ReqV, s: ReqV, t: ReqV)
    requires SameRequest(s, t)
    ensures SameRequest(r, s) <==> SameRequest(r, t)
    ensures s.fields == t.fields
  {
  }

  /** The outcome of a run in step is decided by the decoder alone: each call but the
      last has to wait, the last one to complete the body, and the content to be the
      body's. */
  lemma {:induction false} RunCases(c: ConnV, p: ReqV, d: Dec, full: string, cuts: seq<nat>, config: Config, end: ConnV,
                                    data: string)
    requires ReadyForBody(p, config) && ValidCodes(p.contentEncodings) && Sound(d) && Addressable(full)
    requires InStep(c, p, d, config) && SameRequest(end.req, Decoded(p, data))
    requires cuts != [] && forall i :: 0 <= i < |cuts| ==> c.parsedTo <= cuts[i] <= |full|
    ensures var o, f := DecoderRun(d, c.parsedTo, full, cuts), Arrivals.Feed(c, full, cuts, config);
            && (SameOutcome(f, end) <==> o.Some? && o.value.content == data && Stands(p.contentEncodings, o.value))
            && (SameOutcome(f, end) ==> f.0 == ConnV(c.parsedTo, WithDec(p, o.value).(parseState := Complete)))
    decreases |cuts|
  {
    hide Received, Decode, Waits, Closes, Stands, WithDec, Sound, SameOutcome, SameRequest, ReadyForBody, InStep, Decoded, ValidCodes;
    hide Arrivals.Feed;
    var raw := full[..cuts[0]];
    var body := raw[c.parsedTo..];
    var (c1, v) := Received(c, raw, config);
    CallCases(c, p, d, raw, config);
    OutcomeCons(c, full, cuts, config, end);
    DecodeSound(body, d);
    if |cuts| == 1 {
      NoMoreCalls(c1, full, cuts, config);
      LastCall(p, d, body, c.parsedTo, c1, v, end, data);
    } else if Decode(body, d) != Endless {
      var e := Decode(body, d).d;
      StaysInStep(c.parsedTo, p, e, config);
      DecKeeps(p, e);
      if v == NeedMore && c1 == ConnV(c.parsedTo, WithDec(p, e)) {
        RunCases(c1, p, e, full, cuts[1..], config, end, data);
      } else if v == NeedMore {
        OneCallStays(c, p, d, raw, config);
        RequestsCompare(c1.req, end.req, Decoded(p, data));
        DecodedFields(p, data);
        SpoiledRun(p, c1, full, cuts[1..], config, end);
      }
    }
  }

  lemma DecodedFields(p: ReqV, data: string)
    ensures Decoded(p, data).fields == p.fields
  {
  }

  lemma NoMoreCalls(c: ConnV, full: string, cuts: seq<nat>, config: Config)
    requires |cuts| == 1
    ensures Arrivals.Feed(c, full, cuts[1..], config) == (c, [])
  {
  }

  lemma OneCallStays(c: ConnV, p: ReqV, d: Dec, raw: string, config: Config)
    requires InStep(c, p, d, config)
    ensures var r := Received(c, raw, config).0.req; r.parseState != StartLine && r.parseState != ParseState.Headers
  {
    hide Received, Checked;
    IndexStays(c, raw, config);
  }

  /** The last call of such a run. */
  lemma LastCall(p: ReqV, d: Dec, body: string, at: nat, c1: ConnV, v: Verdict, end: ConnV, data: string)
    requires SameRequest(end.req, Decoded(p, data))
    requires match Decode(body, d)
             case Endless => v == Crash
             case Asks(e) => v == NeedMore
             case Ends(e) =>
               && e.ended && Sound(e)
               && (Waits(body, e.cursor) ==> v == NeedMore)
               && (Closes(body, e.cursor) && Stands(p.contentEncodings, e) ==>
                     v == Route && c1 == ConnV(at, WithDec(p, e).(parseState := Complete)))
               && (Waits(body, e.cursor) || (Closes(body, e.cursor) && Stands(p.contentEncodings, e))
                   || v == Crash || v == Reject || !(c1.req.fields.Keys <= p.fields.Keys))
    ensures v == Route && SameRequest(c1.req, end.req) <==>
            match Decode(body, d)
            case Ends(e) => Closes(body, e.cursor) && e.content == data && Stands(p.contentEncodings, e)
            case _ => false
  {
    hide Decode, Waits, Closes, Stands, WithDec, Sound, SameRequest, Decoded;
    RequestsCompare(c1.req, end.req, Decoded(p, data));
    DecodedFields(p, data);
    OtherFields(p, c1.req, end.req);
    if Decode(body, d).Ends? {
      var e := Decode(body, d).d;
      DecodedIs(p, e, data);
      WaitsOrCloses(body, e.cursor);
    }
  }

  lemma WaitsOrCloses(raw: string, cursor: nat)
    ensures !(Waits(raw, cursor) && Closes(raw, cursor))
  {
    hide FindCrlf;
  }

  lemma OtherFields(p: ReqV, r: ReqV, s: ReqV)
    requires s.fields == p.fields
    ensures SameRequest(r, s) ==> r.fields.Keys <= p.fields.Keys
  {
  }
}
