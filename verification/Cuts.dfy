/** Exactly which arrivals of a request lead where one arrival of it leads. */
module Cuts {
  import opened Strings
  import opened Message
  import opened Content
  import opened Chunked
  import opened ChunkedRuns
  import opened ChunkedTorn
  import opened Receive
  import opened Segmentation
  import opened HeadersProof
  import opened Arrivals
  import opened BlankCuts
  import opened Decoding
  import opened TornCuts
  import opened BlankRuns
  import Headers

  /** Every arrival but the last asks for more, and the last one leaves everything, the
      index and the decoder's cursor included, as one arrival leaves it. */
  predicate SameState(r: (ConnV, seq<Verdict>), end: ConnV) {
    SameOutcome(r, end) && r.0 == end
  }

  lemma SomeBody(g: Goal)
    requires GoalOk(g) && CHUNKED in Checked(g.h, g.config).transferEncodings
    ensures g.b < |g.full| && Fits(g.ps) && g.full[g.b..] == EncodeAll(g.ps)
  {
    hide Checked;
    LongBody(g.ps);
  }

  // ---------------------------------------------------- behind an unfair cut

  predicate BehindStart(g: Goal, cuts: seq<nat>) {
    && |cuts| > 1 && g.b <= cuts[0] < |g.full| && cuts[|cuts| - 1] == |g.full|
    && forall i :: 0 <= i < |cuts| ==> g.b <= cuts[i] <= |g.full|
  }

  /** The first cut that is not fair does no harm to the request. */
  predicate Spared(g: Goal, cuts: seq<nat>)
    requires GoalOk(g)
    decreases |cuts|
  {
    |cuts| > 1 &&
    if cuts[0] == g.b then BlankSpared(g, cuts)
    else if TearsHeader(g, cuts[0]) then BehindStart(g, cuts) && TornSpared(g, cuts)
    else Spared(g, cuts[1..])
  }

  /** Nor to the index or the decoder. */
  predicate Repaired(g: Goal, cuts: seq<nat>)
    requires GoalOk(g)
    decreases |cuts|
  {
    |cuts| > 1 && cuts[0] != g.b
    && if TearsHeader(g, cuts[0]) then BehindStart(g, cuts) && Repairs(g, cuts) else Repaired(g, cuts[1..])
  }

  lemma StartsBehind(g: Goal, cuts: seq<nat>)
    requires GoalOk(g) && Arrivals.Arrivals(g.full, cuts) && |cuts| > 1 && cuts[0] >= g.b
    requires forall i :: 0 <= i < |cuts| ==> cuts[i] <= |g.full|
    ensures BehindStart(g, cuts)
  {
    hide GoalOk;
  }

  /** While the headers are open, the blank line is not all in. */
  lemma OpenIsBefore(r: ReqV, full: string, n: nat, i: nat)
    requires n <= |full| && Open(r) && BlankAt(full, LinesEnd(full, i))
    requires Open(Headers.FieldLoop(r, full[..n], i, i).0)
    ensures n < LinesEnd(full, i) + 2
  {
    hide Headers.FieldLoop, LinesEnd, FindCrlf, Apply, Lines;
    LoopIsApply(r, full[..n], i, i);
    ApplyKeepsState(r, Lines(full[..n], i));
    LinesGrow(full, n, i);
    var e := LinesEnd(full[..n], i);
    LinesEndStops(full[..n], i);
    FindCrlfPrefix(full, n, e);
    assert LinesEnd(full, e) >= e;
  }

  lemma HeadersClosed(c: ConnV, g: Goal, n: nat)
    requires GoalOk(g) && InHeaders(c, g.full, g.b) && Reaches(c, g) && g.b < n < |g.full|
    ensures HeaderStep(c, g.full[..n]) == ConnV(g.b, g.h) && g.h.parseState == ParseState.Content && !Dead(g.h)
  {
    hide HeaderStep, ContentStep, IsBodyOf, Checked, LinesEnd, BlankAt;
    HeaderCall(c, g, n);
    BlankIsThere(c, g);
    HeaderIsLoop(c, g, n);
    if Open(HeaderStep(c, g.full[..n]).req) {
      OpenIsBefore(c.req, g.full, n, c.parsedTo);
    }
  }

  /** Behind a torn cut. */
  lemma TornPhaseRun(c: ConnV, g: Goal, m: nat, cuts: seq<nat>)
    requires GoalOk(g) && Phase(c, g, m) && BehindStart(g, cuts) && m <= cuts[0] && cuts[0] != g.b && TearsHeader(g, cuts[0])
    ensures var f := Arrivals.Feed(c, g.full, cuts, g.config);
            && (SameOutcome(f, g.end) <==> TornSpared(g, cuts))
            && (SameState(f, g.end) <==> Repairs(g, cuts))
  {
    hide Received, Arrivals.Feed, InHeaders, InBody, Reaches, SameOutcome, TornSpared, Repairs, GoalOk, TearsHeader;
    if InHeaders(c, g.full, g.b) && Reaches(c, g) {
      var c' := ClosedStart(c, g, cuts);
      TornBodyRun(c', g, 0, cuts);
    } else {
      TornBodyRun(c, g, m - g.b, cuts);
    }
  }

  /** A first call past the blank line starts the body. */
  lemma ClosedStart(c: ConnV, g: Goal, cuts: seq<nat>) returns (c': ConnV)
    requires GoalOk(g) && InHeaders(c, g.full, g.b) && Reaches(c, g) && BehindStart(g, cuts) && cuts[0] != g.b
    ensures InBody(c', g, 0) && Received(c', g.full, g.config) == (g.end, Route)
    ensures Arrivals.Feed(c, g.full, cuts, g.config) == Arrivals.Feed(c', g.full, cuts, g.config)
  {
    hide Received, HeaderStep, ContentStep, Arrivals.Feed, InHeaders, InBody, Reaches, GoalOk;
    c' := ConnV(g.b, g.h);
    HeadersClosed(c, g, cuts[0]);
    ClosedFull(c, g);
    BlankHeaderStep(c, g);
    BodyStarts(g);
    ClosedHeaderStep(c', g.full[..cuts[0]]);
    ClosedHeaderStep(c', g.full);
    SameHeaderStep(c, c', g.full[..cuts[0]], g.config);
    FeedFirst(c, c', g.full, cuts, g.config);
    SameHeaderStep(c, c', g.full, g.config);
    ReachesRoute(c, g);
  }

  lemma ReachesRoute(c: ConnV, g: Goal)
    requires Reaches(c, g)
    ensures Received(c, g.full, g.config) == (g.end, Route)
  {
    hide Received;
  }

  /** The first unfair cut decides the run. */
  lemma {:induction false} UnfairRunIs(c: ConnV, g: Goal, m: nat, cuts: seq<nat>)
    requires GoalOk(g) && Phase(c, g, m) && Arrivals.Arrivals(g.full, cuts) && !FairCuts(g, cuts)
    requires m <= cuts[0] && (m != g.b || (InHeaders(c, g.full, g.b) && Reaches(c, g)))
    requires forall i :: 0 <= i < |cuts| ==> cuts[i] <= |g.full|
    ensures var f := Arrivals.Feed(c, g.full, cuts, g.config);
            && (SameOutcome(f, g.end) <==> Spared(g, cuts))
            && (SameState(f, g.end) <==> Repaired(g, cuts))
    decreases |cuts|
  {
    hide Received, TearsHeader, InHeaders, InBody, Reaches, GoalOk, SameOutcome, TornSpared, BlankSpared, Repairs;
    hide Arrivals.Feed;
    ArrivalsBound(g.full, cuts);
    UnfairHead(g, cuts);
    var n := cuts[0];
    if n == g.b {
      StartsBehind(g, cuts);
      BlankPhase(c, g, m);
      BlankRun(c, g, cuts);
    } else if TearsHeader(g, n) {
      TornIsBehind(g, n);
      StartsBehind(g, cuts);
      TornPhaseRun(c, g, m, cuts);
    } else {
      CallInPhase(c, g, m, n);
      OutcomeCons(c, g.full, cuts, g.config, g.end);
      UnfairRunIs(Received(c, g.full[..n], g.config).0, g, n, cuts[1..]);
    }
  }

  /** At the blank line, only the headers are being read. */
  lemma BlankPhase(c: ConnV, g: Goal, m: nat)
    requires GoalOk(g) && Phase(c, g, m) && m <= g.b && (m != g.b || (InHeaders(c, g.full, g.b) && Reaches(c, g)))
    ensures InHeaders(c, g.full, g.b) && Reaches(c, g)
  {
    hide InHeaders, Reaches, InBody, GoalOk, Received;
  }

  lemma TornIsBehind(g: Goal, n: nat)
    requires TearsHeader(g, n)
    ensures g.b <= n
  {
    hide Checked, TornCut, EncodeAll;
  }

  lemma UnfairHead(g: Goal, cuts: seq<nat>)
    requires Arrivals.Arrivals(g.full, cuts) && !FairCuts(g, cuts)
    ensures |cuts| > 1 && cuts[0] < |g.full| && cuts[0] <= cuts[1]
    ensures cuts[0] == g.b || TearsHeader(g, cuts[0]) || !FairCuts(g, cuts[1..])
  {
    hide TearsHeader;
    var i :| 0 <= i < |cuts| - 1 && !(cuts[i] != g.b && !TearsHeader(g, cuts[i]));
    if i > 0 {
      assert cuts[1..][i - 1] == cuts[i];
    }
  }

  // ------------------------------------------------------------ the theorem

  lemma NoRequestLine(r: ReqV, full: string, cuts: seq<nat>, config: Config)
    requires IsFresh(r) && Received(ConnV(0, r), full, config).1 == Route
    requires Arrivals.Arrivals(full, cuts) && forall i :: 0 <= i < |cuts| ==> cuts[i] <= |full|
    requires FindCrlf(full[..cuts[0]], 0).None?
    ensures !OnlyLastRoutes(Arrivals.Feed(ConnV(0, r), full, cuts, config).1)
  {
    hide Received, FindCrlf;
    RequestLineInPieces(r, full[..cuts[0]], config);
    assert full[..|full|] == full;
    if |cuts| > 1 {
      var c1 := Received(ConnV(0, r), full[..cuts[0]], config).0;
      FeedLength(c1, full, cuts[1..], config);
      assert Arrivals.Feed(ConnV(0, r), full, cuts, config).1[0] == Reject;
    }
  }

  lemma SameFirstBlank(r: ReqV, g: Goal, e: nat)
    requires IsFresh(r) && g == GoalOf(r, g.full, g.ps, g.config) && GoalOk(g)
    requires Received(ConnV(0, r), g.full, g.config).1 == Route && FindCrlf(g.full, 0) == Some(e)
    requires g.b < |g.full| && FindCrlf(g.full[..g.b], 0) == Some(e)
    ensures var c' := ConnV(e + 2, Headers.WithReqLine(r, g.full[..e]));
            Received(ConnV(0, r), g.full[..g.b], g.config) == Received(c', g.full[..g.b], g.config)
  {
    hide HeaderStep, Headers.WithReqLine, FindCrlf, LinesEnd, ContentStep, IsBodyOf, GoalOk, Received;
    var c' := FirstState(r, g, e);
    assert g.full[..g.b][..e] == g.full[..e];
    OpenFirst(c', g);
    FirstCallIs(r, g.full[..g.b], e);
    BlankHeaderStep(c', g);
    SameHeaderStep(ConnV(0, r), c', g.full[..g.b], g.config);
  }

  lemma UnfairRun(r: ReqV, g: Goal, cuts: seq<nat>)
    requires IsFresh(r) && g == GoalOf(r, g.full, g.ps, g.config) && GoalOk(g)
    requires Received(ConnV(0, r), g.full, g.config).1 == Route
    requires Arrivals.Arrivals(g.full, cuts) && forall i :: 0 <= i < |cuts| ==> cuts[i] <= |g.full|
    requires FindCrlf(g.full[..cuts[0]], 0).Some? && !FairCuts(g, cuts)
    ensures var f := Arrivals.Feed(ConnV(0, r), g.full, cuts, g.config);
            && (SameOutcome(f, g.end) <==> Spared(g, cuts))
            && (SameState(f, g.end) <==> Repaired(g, cuts))
  {
    hide Received, HeaderStep, GoalOf, Headers.WithReqLine, FindCrlf, LinesEnd, FairCuts, GoalOk, Phase;
    hide Arrivals.Feed, InHeaders, Reaches, SameOutcome, Spared, Repaired;
    var n := cuts[0];
    FindCrlfPrefix(g.full, n, 0);
    var e := FindCrlf(g.full, 0).value;
    assert g.full[..n][..e] == g.full[..e];
    var c' := FirstState(r, g, e);
    UnfairRunIs(c', g, 0, cuts);
    if n != g.b {
      SameFirst(r, g, n, e);
    } else {
      UnfairHead(g, cuts);
      ArrivalsBound(g.full, cuts);
      SameFirstBlank(r, g, e);
    }
    FeedFirst(ConnV(0, r), c', g.full, cuts, g.config);
  }

  /** A fresh connection whose request, arriving whole, is routed, and has nothing
      behind its body: other arrivals of it have the same outcome, each but the last
      re-arming for input without an error and the last routing the very same request,
      if and only if the first of them holds the request line, and none ends right
      behind the blank line in front of a body or at a torn chunk header, or the first
      that does is spared. */
  lemma {:induction false} SegmentationMattersExactlyWhen(r: ReqV, full: string, cuts: seq<nat>, ps: seq<Piece>, config: Config)
    requires IsFresh(r) && Received(ConnV(0, r), full, config).1 == Route
    requires GoalOk(GoalOf(r, full, ps, config))
    requires Arrivals.Arrivals(full, cuts) && forall i :: 0 <= i < |cuts| ==> cuts[i] <= |full|
    ensures var line, g := FindCrlf(full[..cuts[0]], 0).Some?, GoalOf(r, full, ps, config);
            SameOutcome(Arrivals.Feed(ConnV(0, r), full, cuts, config), Received(ConnV(0, r), full, config).0)
            <==> line && (FairCuts(g, cuts) || Spared(g, cuts))
  {
    hide Received, HeaderStep, GoalOf, FindCrlf, LinesEnd, FairCuts, GoalOk, Phase, Arrivals.Feed, InHeaders, Reaches;
    hide Spared, Repaired;
    var g, n := GoalOf(r, full, ps, config), cuts[0];
    GoalIs(r, full, ps, config);
    if FindCrlf(full[..n], 0).None? {
      NoRequestLine(r, full, cuts, config);
    } else if FairCuts(g, cuts) {
      SegmentationDoesNotMatter(r, full, cuts, ps, config);
    } else {
      UnfairRun(r, g, cuts);
    }
  }

  /** The same for the whole state: index and cursor, too, are those of one arrival if
      and only if the cuts are fair, or the first unfair one is torn and the decoder
      happens to fall into step again. */
  lemma {:induction false} StateMattersExactlyWhen(r: ReqV, full: string, cuts: seq<nat>, ps: seq<Piece>, config: Config)
    requires IsFresh(r) && Received(ConnV(0, r), full, config).1 == Route
    requires GoalOk(GoalOf(r, full, ps, config))
    requires Arrivals.Arrivals(full, cuts) && forall i :: 0 <= i < |cuts| ==> cuts[i] <= |full|
    ensures var line, g := FindCrlf(full[..cuts[0]], 0).Some?, GoalOf(r, full, ps, config);
            SameState(Arrivals.Feed(ConnV(0, r), full, cuts, config), Received(ConnV(0, r), full, config).0)
            <==> line && (FairCuts(g, cuts) || Repaired(g, cuts))
  {
    hide Received, HeaderStep, GoalOf, FindCrlf, LinesEnd, FairCuts, GoalOk, Phase, Arrivals.Feed, InHeaders, Reaches;
    hide Spared, Repaired;
    var g, n := GoalOf(r, full, ps, config), cuts[0];
    GoalIs(r, full, ps, config);
    if FindCrlf(full[..n], 0).None? {
      NoRequestLine(r, full, cuts, config);
    } else if FairCuts(g, cuts) {
      SegmentationDoesNotMatter(r, full, cuts, ps, config);
    } else {
      UnfairRun(r, g, cuts);
    }
  }

  /** The first call of a fresh connection, if it ends right behind the blank line, is
      the call of one that has read the request line. */
  lemma BlankFirst(r: ReqV, full: string, ps: seq<Piece>, config: Config) returns (c: ConnV)
    requires IsFresh(r) && Received(ConnV(0, r), full, config).1 == Route
    requires GoalOk(GoalOf(r, full, ps, config)) && BodyStart(full) < |full| && FindCrlf(full, 0).Some?
    ensures var g := GoalOf(r, full, ps, config);
            && g.b == BodyStart(full) && InHeaders(c, full, g.b) && Reaches(c, g)
            && Received(ConnV(0, r), full[..g.b], config) == Received(c, full[..g.b], config)
  {
    hide Received, HeaderStep, GoalOf, Headers.WithReqLine, FindCrlf, LinesEnd, GoalOk, Phase, InHeaders, Reaches, BodyStart;
    var g := GoalOf(r, full, ps, config);
    GoalIs(r, full, ps, config);
    GoalStart(r, full, ps, config);
    var e := FindCrlf(full, 0).value;
    c := FirstState(r, g, e);
    LineBeforeBody(full, e);
    SameFirstBlank(r, g, e);
  }

  lemma LineBeforeBody(full: string, e: nat)
    requires FindCrlf(full, 0) == Some(e) && BodyStart(full) <= |full|
    ensures FindCrlf(full[..BodyStart(full)], 0) == Some(e)
  {
    hide FindCrlf, LinesEnd;
    FindCrlfPrefix(full, BodyStart(full), 0);
  }

  /** A fresh connection whose request has a body of known length, and whose first call
      ends right behind the blank line: the body is read two bytes early. */
  lemma BlankCutShiftsFresh(r: ReqV, full: string, ps: seq<Piece>, config: Config)
    requires IsFresh(r) && Received(ConnV(0, r), full, config).1 == Route
    requires GoalOk(GoalOf(r, full, ps, config)) && BodyStart(full) < |full| && FindCrlf(full, 0).Some?
    requires var p := Checked(GoalOf(r, full, ps, config).h, config);
             p.transferEncodings == [] && CONTENT_LENGTH in p.fields
    ensures var body := full[BodyStart(full)..];
            var plain := CHUNKED !in Checked(GoalOf(r, full, ps, config).h, config).contentEncodings;
            var (c1, v1) := Received(ConnV(0, r), full[..BodyStart(full)], config);
            var (c2, v2) := Received(c1, full, config);
            && Received(ConnV(0, r), full, config).0.req.content == body
            && (|body| <= 2 ==> v1 != NeedMore && (v1 == Crash || c1.req.content == "\r\n"[..|body|]) && (plain ==> v1 == Route))
            && (|body| > 2 ==>
                  && v1 == NeedMore && v2 != NeedMore && (v2 == Crash || c2.req.content == ("\r\n" + body)[..|body|])
                  && (plain ==> v2 == Route))
  {
    hide Received, HeaderStep, GoalOf, FindCrlf, GoalOk, InHeaders, Reaches, BodyStart, Checked;
    GoalIs(r, full, ps, config);
    var c := BlankFirst(r, full, ps, config);
    BlankCutShiftsBody(c, GoalOf(r, full, ps, config));
  }

  /** The same for a chunked body: no byte of it becomes content. */
  lemma BlankCutLosesFresh(r: ReqV, full: string, ps: seq<Piece>, config: Config)
    requires IsFresh(r) && Received(ConnV(0, r), full, config).1 == Route
    requires GoalOk(GoalOf(r, full, ps, config)) && BodyStart(full) < |full| && FindCrlf(full, 0).Some?
    requires CHUNKED in Checked(GoalOf(r, full, ps, config).h, config).transferEncodings
    ensures var (c1, v1) := Received(ConnV(0, r), full[..BodyStart(full)], config);
            var (c2, v2) := Received(c1, full, config);
            && Received(ConnV(0, r), full, config).0.req.content == Data(ps)
            && v1 == NeedMore && (v2 == Crash || c2.req.content == "")
  {
    hide Received, HeaderStep, GoalOf, FindCrlf, GoalOk, InHeaders, Reaches, BodyStart, Checked;
    GoalIs(r, full, ps, config);
    var c := BlankFirst(r, full, ps, config);
    BlankCutLosesChunks(c, GoalOf(r, full, ps, config));
  }

  /** Where no extension holds a space, or the body is not chunked, no cut is torn: the
      state is that of one arrival if and only if the request line comes first and no
      arrival but the last ends right behind the blank line. */
  lemma {:induction false} UnspacedMattersExactlyWhen(r: ReqV, full: string, cuts: seq<nat>, ps: seq<Piece>, config: Config)
    requires IsFresh(r) && Received(ConnV(0, r), full, config).1 == Route
    requires GoalOk(GoalOf(r, full, ps, config)) && forall i :: 0 <= i < |ps| ==> ' ' !in ps[i].ext
    requires Arrivals.Arrivals(full, cuts) && forall i :: 0 <= i < |cuts| ==> cuts[i] <= |full|
    ensures SameState(Arrivals.Feed(ConnV(0, r), full, cuts, config), Received(ConnV(0, r), full, config).0)
            <==> FindCrlf(full[..cuts[0]], 0).Some? && forall i :: 0 <= i < |cuts| - 1 ==> cuts[i] != BodyStart(full)
  {
    hide Received, HeaderStep, FindCrlf, LinesEnd, Arrivals.Feed, GoalOf, GoalOk;
    var g := GoalOf(r, full, ps, config);
    GoalIs(r, full, ps, config);
    GoalStart(r, full, ps, config);
    forall n
      ensures !TearsHeader(g, n)
    {
      UnspacedIsNotTorn(g, n);
    }
    NeverRepaired(g, cuts);
    StateMattersExactlyWhen(r, full, cuts, ps, config);
  }

  lemma GoalStart(r: ReqV, full: string, ps: seq<Piece>, config: Config)
    ensures GoalOf(r, full, ps, config).b == BodyStart(full)
  {
    hide Received, HeaderStep, BodyStart;
  }

  lemma UnspacedIsNotTorn(g: Goal, n: nat)
    requires GoalOk(g) && forall i :: 0 <= i < |g.ps| ==> ' ' !in g.ps[i].ext
    ensures !TearsHeader(g, n)
  {
    hide Checked, TornCut, EncodeAll, Fits;
    if TearsHeader(g, n) {
      SomeBody(g);
      NoSpaceNoTear(g.ps, n - g.b);
    }
  }

  lemma {:induction false} NeverRepaired(g: Goal, cuts: seq<nat>)
    requires GoalOk(g) && forall n :: !TearsHeader(g, n)
    ensures !Repaired(g, cuts)
    decreases |cuts|
  {
    hide TearsHeader, GoalOk;
    if |cuts| > 1 {
      NeverRepaired(g, cuts[1..]);
    }
  }

  /** Nor is a run spared whose body cannot be read from two bytes early. */
  lemma {:induction false} NeverSpared(g: Goal, cuts: seq<nat>)
    requires GoalOk(g) && (forall n :: !TearsHeader(g, n)) && forall cs :: !BlankSpared(g, cs)
    ensures !Spared(g, cuts)
    decreases |cuts|
  {
    hide TearsHeader, GoalOk, BlankSpared;
    if |cuts| > 1 {
      NeverSpared(g, cuts[1..]);
    }
  }
}
