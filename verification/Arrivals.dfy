/** The theorem about whole requests: any arrival schedule, one outcome. */
module Arrivals {
  import opened Strings
  import opened Message
  import opened Content
  import opened Chunked
  import opened ChunkedRuns
  import opened Receive
  import opened Framing
  import opened Segmentation
  import opened HeadersProof
  import Headers
  import HeadersRuns

  // -------------------------------------------------- what headers leave alone

  /** Nothing of the body has been read yet. */
  predicate NoBody(r: ReqV) {
    r.content == "" && r.contentLen == 0 && r.chunkedContentLen == 0
  }

  lemma FieldLineNoBody(r: ReqV, line: string)
    requires NoBody(r)
    ensures NoBody(Headers.WithFieldLine(r, line))
  {
    hide FindChar, Headers.FirstNotSpace, Lowercase;
  }

  lemma {:induction false} LoopNoBody(r: ReqV, raw: string, i: nat, done: nat)
    requires NoBody(r)
    ensures NoBody(Headers.FieldLoop(r, raw, i, done).0)
    decreases |raw| - i
  {
    hide Headers.WithFieldLine, FindCrlf;
    if FindCrlf(raw, i).Some? && FindCrlf(raw, i).value != i {
      var e := FindCrlf(raw, i).value;
      FieldLineNoBody(r, raw[i..e]);
      LoopNoBody(Headers.WithFieldLine(r, raw[i..e]), raw, e + 2, done);
    }
  }

  lemma TargetNoBody(r: ReqV, s: string)
    requires NoBody(r)
    ensures NoBody(Headers.WithTarget(r, s))
  {
    hide FindChar;
  }

  lemma VersionNoBody(r: ReqV, s: string)
    requires NoBody(r)
    ensures NoBody(Headers.WithVersion(r, s))
  {
    hide Stoi;
  }

  lemma ReqLineNoBody(r: ReqV, line: string)
    requires NoBody(r)
    ensures NoBody(Headers.WithReqLine(r, line))
  {
    hide FindChar, Headers.WithTarget, Headers.WithVersion;
    forall q: ReqV, s | NoBody(q) ensures NoBody(Headers.WithTarget(q, s)) && NoBody(Headers.WithVersion(q, s)) {
      TargetNoBody(q, s);
      VersionNoBody(q, s);
    }
  }

  // ------------------------------------------------------------ header phase

  /** Between field lines, with the body to start at b. */
  predicate InHeaders(c: ConnV, full: string, b: nat) {
    Open(c.req) && NoBody(c.req) && LinesEnd(full, c.parsedTo) + 2 == b
  }

  /** What the complete request is and what is to become of it. */
  datatype Goal = Goal(full: string, config: Config, b: nat, ps: seq<Piece>, h: ReqV, end: ConnV)

  predicate GoalOk(g: Goal) {
    && Addressable(g.full) && g.b <= |g.full|
    && IsBodyOf(Checked(g.h, g.config), g.ps, g.full[g.b..])
  }

  /** One arrival of everything routes the request, through the headers h. */
  predicate Reaches(c: ConnV, g: Goal) {
    && Received(c, g.full, g.config) == (g.end, Route)
    && HeaderStep(c, g.full).req == g.h
  }

  predicate InBody(c: ConnV, g: Goal, m: nat)
    requires GoalOk(g)
  {
    && c.parsedTo == g.b && Reading(c.req, g.ps, m, g.full[g.b..], g.config)
    && SameFrame(Checked(g.h, g.config), Checked(c.req, g.config))
  }

  predicate TearsHeader(g: Goal, n: nat) {
    && CHUNKED in Checked(g.h, g.config).transferEncodings
    && g.b <= n && n - g.b <= |EncodeAll(g.ps)| && TornCut(g.ps, n - g.b)
  }

  /** The header part of one call on the first n bytes. */
  lemma HeaderCall(c: ConnV, g: Goal, n: nat)
    requires GoalOk(g) && n < |g.full| && n != g.b
    requires InHeaders(c, g.full, g.b) && Reaches(c, g)
    ensures var c1 := HeaderStep(c, g.full[..n]);
            if Open(c1.req) then InHeaders(c1, g.full, g.b) && Reaches(c1, g)
            else c1 == ConnV(g.b, g.h) && g.b < n && !Dead(g.h) && g.h.parseState == ParseState.Content && NoBody(g.h)
  {
    hide Headers.FieldLoop, LinesEnd, BlankAt, ContentStep, IsBodyOf;
    var full, j := g.full, c.parsedTo;
    var (r1, j1) := Headers.FieldLoop(c.req, full[..n], j, j);
    HeadersRuns.LoopMeaning(c.req, full, n, j);
    LoopNoBody(c.req, full[..n], j, j);
    LoopIndex(c.req, full, n, j);
    RoutedNotDead(c, g);
    if Open(r1) {
      LoopResumes(c.req, full, n, j, j);
    } else {
      LoopSettles(c.req, full, n, j, j);
    }
  }

  lemma RoutedNotDead(c: ConnV, g: Goal)
    requires GoalOk(g) && Reaches(c, g)
    ensures !Dead(g.h)
  {
    hide HeaderStep, ContentStep;
  }

  /** The index returned for a growing buffer. */
  lemma LoopIndex(r: ReqV, full: string, n: nat, j: nat)
    requires n <= |full| && Open(r) && Addressable(full)
    ensures var (r1, j1) := Headers.FieldLoop(r, full[..n], j, j);
            && (Open(r1) ==> j1 <= n || j1 == j)
            && (!Open(r1) && !Dead(r1) ==>
                  j1 == (if LinesEnd(full, j) + 2 < n then LinesEnd(full, j) + 2 else LinesEnd(full, j)) && j1 <= n)
  {
    hide Headers.FieldLoop, LinesEnd, FindCrlf, Apply;
    LoopIsApply(r, full[..n], j, j);
    ApplyKeepsState(r, Lines(full[..n], j));
    LinesGrow(full, n, j);
    LinesEndInside(full[..n], j);
  }

  lemma {:induction false} LinesEndInside(raw: string, i: nat)
    ensures LinesEnd(raw, i) <= |raw| || LinesEnd(raw, i) == i
    decreases |raw| - i
  {
    hide FindCrlf;
    if FindCrlf(raw, i).Some? && FindCrlf(raw, i).value != i {
      LinesEndInside(raw, FindCrlf(raw, i).value + 2);
    }
  }

  /** The body part of a call on the first n bytes, m of which had been decoded. */
  lemma BodyCall(c: ConnV, g: Goal, m: nat, n: nat)
    requires GoalOk(g) && g.b + m <= n < |g.full| && InBody(c, g, m) && !TearsHeader(g, n)
    ensures var (c1, v) := ContentStep(c, g.full[..n], g.config);
            && v == NeedMore && InBody(c1, g, n - g.b)
            && WithContent(c1.req, g.full[g.b..], g.config) == WithContent(c.req, g.full[g.b..], g.config)
  {
    hide WithContent, Checked, EncodeAll, TornCut, Reading;
    var body := g.full[g.b..];
    assert g.full[..n][g.b..] == body[..n - g.b];
    NotTornBody(c, g, m, n);
    BodyResumes(c.req, g.ps, m, n - g.b, body, g.config);
  }

  lemma NotTornBody(c: ConnV, g: Goal, m: nat, n: nat)
    requires GoalOk(g) && g.b + m <= n < |g.full| && InBody(c, g, m) && !TearsHeader(g, n)
    ensures CHUNKED in Checked(c.req, g.config).transferEncodings ==>
              n - g.b <= |EncodeAll(g.ps)| && !TornCut(g.ps, n - g.b)
  {
    hide WithContent, Checked, EncodeAll, TornCut, StateAt;
  }

  /** A call while the body is being read. */
  lemma CallInBody(c: ConnV, g: Goal, m: nat, n: nat)
    requires GoalOk(g) && g.b + m <= n < |g.full| && InBody(c, g, m) && !TearsHeader(g, n)
    requires Received(c, g.full, g.config) == (g.end, Route)
    ensures var (c1, v) := Received(c, g.full[..n], g.config);
            v == NeedMore && InBody(c1, g, n - g.b) && Received(c1, g.full, g.config) == (g.end, Route)
  {
    hide WithContent, Checked, IsBodyOf, TornCut, TearsHeader;
    BodyCall(c, g, m, n);
  }

  /** The headers that have just closed start the body. */
  lemma BodyStarts(g: Goal)
    requires GoalOk(g) && !Dead(g.h) && g.h.parseState == ParseState.Content && NoBody(g.h)
    requires ContentStep(ConnV(g.b, g.h), g.full, g.config) == (g.end, Route)
    ensures InBody(ConnV(g.b, g.h), g, 0)
  {
    hide IsBodyOf, Checked;
    var p, body := Checked(g.h, g.config), g.full[g.b..];
    assert DecOf(g.h) == START;
    hide WithBody;
    if CHUNKED in p.transferEncodings {
      BodyIsBody(p, g.ps, body);
      StartState(g.ps);
    }
  }

  lemma BodyIsBody(p: ReqV, ps: seq<Piece>, body: string)
    requires CHUNKED in p.transferEncodings && IsBodyOf(p, ps, body)
    ensures IsBody(ps)
  {
  }

  /** A call while the headers are being read. */
  lemma CallInHeaders(c: ConnV, g: Goal, n: nat)
    requires GoalOk(g) && n < |g.full| && n != g.b && !TearsHeader(g, n)
    requires InHeaders(c, g.full, g.b) && Reaches(c, g)
    ensures var (c1, v) := Received(c, g.full[..n], g.config);
            && v == NeedMore
            && Received(c1, g.full, g.config) == (g.end, Route)
            && (if Open(c1.req) then InHeaders(c1, g.full, g.b) && Reaches(c1, g)
                else g.b <= n && InBody(c1, g, n - g.b))
  {
    hide HeaderStep, ContentStep, IsBodyOf, Checked, LinesEnd, TornCut, EncodeAll, TearsHeader;
    HeaderCall(c, g, n);
    var c1 := HeaderStep(c, g.full[..n]);
    if !Open(c1.req) {
      ClosedFull(c, g);
      BodyStarts(g);
      BodyCall(c1, g, 0, n);
      AfterBody(c1, g, n);
    }
  }

  /** With everything in, the index behind the headers is the start of the body. */
  lemma ClosedFull(c: ConnV, g: Goal)
    requires GoalOk(g) && InHeaders(c, g.full, g.b) && Reaches(c, g) && g.b < |g.full|
    requires !Dead(g.h) && g.h.parseState == ParseState.Content
    ensures HeaderStep(c, g.full) == ConnV(g.b, g.h)
    ensures ContentStep(ConnV(g.b, g.h), g.full, g.config) == (g.end, Route)
  {
    hide Headers.FieldLoop, LinesEnd, BlankAt, ContentStep, IsBodyOf;
    var full := g.full;
    assert full[..|full|] == full;
    LoopIndex(c.req, full, |full|, c.parsedTo);
  }

  lemma AfterBody(c: ConnV, g: Goal, n: nat)
    requires GoalOk(g) && g.b < n < |g.full| && c == ConnV(g.b, g.h) && InBody(c, g, 0)
    requires ContentStep(c, g.full, g.config) == (g.end, Route)
    requires var (c1, v) := ContentStep(c, g.full[..n], g.config);
             && v == NeedMore && InBody(c1, g, n - g.b)
             && WithContent(c1.req, g.full[g.b..], g.config) == WithContent(c.req, g.full[g.b..], g.config)
    ensures var c1 := ContentStep(c, g.full[..n], g.config).0;
            Received(c1, g.full, g.config) == (g.end, Route) && !Open(c1.req)
  {
    hide WithContent, Checked, IsBodyOf, TornCut;
  }

  // ---------------------------------------------------------------- the run

  /** Beginnings of the message, none shorter than the one before, only the last one
      all of it. */
  predicate Arrivals(full: string, cuts: seq<nat>) {
    && cuts != [] && cuts[|cuts| - 1] == |full|
    && (forall i :: 0 <= i < |cuts| - 1 ==> cuts[i] < |full|)
    && (forall i, j :: 0 <= i < j < |cuts| ==> cuts[i] <= cuts[j])
  }

  /** on_rx called on each of them. */
  function Feed(c: ConnV, full: string, cuts: seq<nat>, config: Config): (ConnV, seq<Verdict>)
    requires forall i :: 0 <= i < |cuts| ==> cuts[i] <= |full|
    decreases |cuts|
  {
    if cuts == [] then (c, [])
    else
      var (c1, v) := Received(c, full[..cuts[0]], config);
      var (c2, vs) := Feed(c1, full, cuts[1..], config);
      (c2, [v] + vs)
  }

  lemma {:induction false} FeedMore(c: ConnV, full: string, cuts: seq<nat>, n: nat, config: Config)
    requires n <= |full| && forall i :: 0 <= i < |cuts| ==> cuts[i] <= |full|
    ensures var (d, vs) := Feed(c, full, cuts, config);
            var (e, v) := Received(d, full[..n], config);
            Feed(c, full, cuts + [n], config) == (e, vs + [v])
    decreases |cuts|
  {
    hide Received;
    if cuts == [] {
      var (c1, v1) := Received(c, full[..n], config);
      assert cuts + [n] == [n] && [n][1..] == [];
      assert Feed(c1, full, [], config) == (c1, []);
      assert [] + [v1] == [v1] + [];
    } else {
      assert (cuts + [n])[1..] == cuts[1..] + [n];
      var (c1, v1) := Received(c, full[..cuts[0]], config);
      FeedMore(c1, full, cuts[1..], n, config);
      var (d, vs) := Feed(c1, full, cuts[1..], config);
      var v := Received(d, full[..n], config).1;
      assert [v1] + (vs + [v]) == [v1] + vs + [v];
    }
  }

  lemma {:induction false} FeedGrows(c: ConnV, raw: string, full: string, cuts: seq<nat>, config: Config)
    requires raw <= full && forall i :: 0 <= i < |cuts| ==> cuts[i] <= |raw|
    ensures Feed(c, raw, cuts, config) == Feed(c, full, cuts, config)
    decreases |cuts|
  {
    hide Received;
    if cuts != [] {
      assert raw[..cuts[0]] == full[..cuts[0]];
      FeedGrows(Received(c, raw[..cuts[0]], config).0, raw, full, cuts[1..], config);
    }
  }

  /** The first calls of a run are the run on the first cuts. */
  lemma {:induction false} FeedFirsts(c: ConnV, full: string, cuts: seq<nat>, k: nat, config: Config)
    requires k <= |cuts| && forall i :: 0 <= i < |cuts| ==> cuts[i] <= |full|
    ensures var vs := Feed(c, full, cuts, config).1;
            |vs| == |cuts| && Feed(c, full, cuts[..k], config).1 == vs[..k]
    decreases |cuts|
  {
    hide Received;
    if k > 0 {
      var c1 := Received(c, full[..cuts[0]], config).0;
      assert cuts[..k][1..] == cuts[1..][..k - 1];
      FeedFirsts(c1, full, cuts[1..], k - 1, config);
    } else if cuts != [] {
      FeedFirsts(Received(c, full[..cuts[0]], config).0, full, cuts[1..], 0, config);
    }
  }

  /** Every call but the last asks for more, the last one routes. */
  predicate OnlyLastRoutes(vs: seq<Verdict>) {
    && vs != [] && vs[|vs| - 1] == Route
    && forall i :: 0 <= i < |vs| - 1 ==> vs[i] == NeedMore
  }

  /** No cut right behind the blank line of a message with a body, none at a torn
      chunk header. */
  predicate FairCuts(g: Goal, cuts: seq<nat>) {
    forall i :: 0 <= i < |cuts| - 1 ==> cuts[i] != g.b && !TearsHeader(g, cuts[i])
  }

  predicate Phase(c: ConnV, g: Goal, m: nat)
    requires GoalOk(g)
  {
    && Received(c, g.full, g.config) == (g.end, Route)
    && (|| (InHeaders(c, g.full, g.b) && Reaches(c, g))
        || (g.b <= m && InBody(c, g, m - g.b)))
  }

  lemma CallInPhase(c: ConnV, g: Goal, m: nat, n: nat)
    requires GoalOk(g) && Phase(c, g, m) && m <= n < |g.full| && n != g.b && !TearsHeader(g, n)
    ensures var (c1, v) := Received(c, g.full[..n], g.config);
            v == NeedMore && Phase(c1, g, n)
  {
    hide Received, InBody, InHeaders, Reaches, TearsHeader;
    if InHeaders(c, g.full, g.b) && Reaches(c, g) {
      CallInHeaders(c, g, n);
    } else {
      CallInBody(c, g, m - g.b, n);
    }
  }

  lemma ArrivalsBound(full: string, cuts: seq<nat>)
    requires Arrivals(full, cuts)
    ensures forall i :: 0 <= i < |cuts| ==> cuts[i] <= |full|
    ensures |cuts| > 1 ==> cuts[0] < |full| && Arrivals(full, cuts[1..])
  {
  }

  lemma {:induction false} FeedRoutes(c: ConnV, g: Goal, m: nat, cuts: seq<nat>)
    requires GoalOk(g) && Phase(c, g, m) && Arrivals(g.full, cuts) && FairCuts(g, cuts) && m <= cuts[0]
    requires forall i :: 0 <= i < |cuts| ==> cuts[i] <= |g.full|
    ensures var (c1, vs) := Feed(c, g.full, cuts, g.config);
            c1 == g.end && |vs| == |cuts| && OnlyLastRoutes(vs)
    decreases |cuts|
  {
    hide Received, TearsHeader;
    if |cuts| == 1 {
      assert g.full[..|g.full|] == g.full;
      assert cuts[1..] == [];
      PhaseGoal(c, g, m);
    } else {
      ArrivalsBound(g.full, cuts);
      FairTail(g, cuts);
      hide Phase, InBody, InHeaders, Reaches, FairCuts;
      CallInPhase(c, g, m, cuts[0]);
      var (c1, v) := Received(c, g.full[..cuts[0]], g.config);
      FeedRoutes(c1, g, cuts[0], cuts[1..]);
      var vs := Feed(c1, g.full, cuts[1..], g.config).1;
      assert ([v] + vs)[|vs|] == vs[|vs| - 1];
    }
  }

  lemma PhaseGoal(c: ConnV, g: Goal, m: nat)
    requires GoalOk(g) && Phase(c, g, m)
    ensures Received(c, g.full, g.config) == (g.end, Route)
  {
  }

  lemma FairTail(g: Goal, cuts: seq<nat>)
    requires |cuts| > 1 && FairCuts(g, cuts)
    ensures cuts[0] != g.b && !TearsHeader(g, cuts[0]) && FairCuts(g, cuts[1..])
  {
    hide TearsHeader;
  }

  // ------------------------------------------------------------ the theorem

  /** Where the body starts: behind the blank line. */
  function BodyStart(full: string): nat {
    match FindCrlf(full, 0)
    case Some(e) => LinesEnd(full, e + 2) + 2
    case None => 0
  }

  /** The first arrival that holds the request line is the line and then the loop. */
  lemma FirstCallIs(r: ReqV, raw: string, e: nat)
    requires IsFresh(r) && FindCrlf(raw, 0) == Some(e) && Open(Headers.WithReqLine(r, raw[..e]))
    ensures var r0 := Headers.WithReqLine(r, raw[..e]);
            var a, b := HeaderStep(ConnV(0, r), raw), HeaderStep(ConnV(e + 2, r0), raw);
            a.req == b.req && (!Dead(a.req) ==> a == b)
  {
    hide Headers.WithReqLine, Headers.FieldLoop, FindCrlf;
    HeadersRuns.DoneIsForFailure(Headers.WithReqLine(r, raw[..e]), raw, e + 2, 0, e + 2);
  }

  lemma ReqLineOpen(r: ReqV, raw: string, e: nat)
    requires IsFresh(r) && FindCrlf(raw, 0) == Some(e) && !Dead(HeaderStep(ConnV(0, r), raw).req)
    ensures Open(Headers.WithReqLine(r, raw[..e])) && NoBody(Headers.WithReqLine(r, raw[..e]))
  {
    hide Headers.WithReqLine, Headers.FieldLoop, FindCrlf;
    var r0 := Headers.WithReqLine(r, raw[..e]);
    HeadersRuns.ReqLineResult(r, raw[..e]);
    ReqLineNoBody(r, raw[..e]);
    if Dead(r0) {
      HeadersRuns.DeadLoop(r0, raw, e + 2, 0);
    }
  }

  /** Received depends on the connection through its header step alone. */
  lemma SameHeaderStep(c: ConnV, d: ConnV, raw: string, config: Config)
    requires HeaderStep(c, raw) == HeaderStep(d, raw)
    ensures Received(c, raw, config) == Received(d, raw, config)
  {
    hide HeaderStep, ContentStep;
  }

  /** What one arrival of the whole message does, as the goal of the others. */
  function GoalOf(r: ReqV, full: string, ps: seq<Piece>, config: Config): Goal {
    var c := ConnV(0, r);
    Goal(full, config, BodyStart(full), ps, HeaderStep(c, full).req, Received(c, full, config).0)
  }

  lemma GoalIs(r: ReqV, full: string, ps: seq<Piece>, config: Config)
    ensures var g := GoalOf(r, full, ps, config);
            g.full == full && g.ps == ps && g.config == config && g.end == Received(ConnV(0, r), full, config).0
  {
    hide Received, HeaderStep, BodyStart;
  }

  /** A fresh connection whose request, arriving whole, is routed, and has nothing
      behind its body: any other arrivals of it, the first of which holds the
      request line, and none of which ends right behind the blank line or at a torn
      chunk header, re-arm for input without an error until the last one, which
      routes the very same request from the very same index. */
  lemma {:induction false} SegmentationDoesNotMatter(r: ReqV, full: string, cuts: seq<nat>, ps: seq<Piece>, config: Config)
    requires IsFresh(r) && Received(ConnV(0, r), full, config).1 == Route
    requires GoalOk(GoalOf(r, full, ps, config))
    requires Arrivals(full, cuts) && FairCuts(GoalOf(r, full, ps, config), cuts)
    requires forall i :: 0 <= i < |cuts| ==> cuts[i] <= |full|
    requires FindCrlf(full[..cuts[0]], 0).Some?
    ensures var (c, vs) := Feed(ConnV(0, r), full, cuts, config);
            && c == Received(ConnV(0, r), full, config).0
            && |vs| == |cuts| && OnlyLastRoutes(vs)
  {
    hide Received, HeaderStep, GoalOf, Headers.WithReqLine, FindCrlf, LinesEnd, FairCuts, GoalOk, Phase, Feed;
    hide InHeaders, Reaches;
    var g, n := GoalOf(r, full, ps, config), cuts[0];
    GoalIs(r, full, ps, config);
    FindCrlfPrefix(full, n, 0);
    var e := FindCrlf(full, 0).value;
    assert full[..n][..e] == full[..e];
    var c' := FirstState(r, g, e);
    FeedRoutes(c', g, 0, cuts);
    FairHead(g, cuts);
    SameFirst(r, g, n, e);
    FeedFirst(ConnV(0, r), c', full, cuts, config);
  }

  lemma FairHead(g: Goal, cuts: seq<nat>)
    requires FairCuts(g, cuts) && Arrivals(g.full, cuts)
    ensures cuts[0] < |g.full| ==> cuts[0] != g.b
  {
    hide TearsHeader;
  }

  lemma FeedFirst(c: ConnV, d: ConnV, full: string, cuts: seq<nat>, config: Config)
    requires cuts != [] && forall i :: 0 <= i < |cuts| ==> cuts[i] <= |full|
    requires Received(c, full[..cuts[0]], config) == Received(d, full[..cuts[0]], config)
    ensures Feed(c, full, cuts, config) == Feed(d, full, cuts, config)
  {
    hide Received;
  }

  /** The state behind the request line, in the header phase. */
  lemma FirstState(r: ReqV, g: Goal, e: nat) returns (c: ConnV)
    requires IsFresh(r) && g == GoalOf(r, g.full, g.ps, g.config) && GoalOk(g)
    requires Received(ConnV(0, r), g.full, g.config).1 == Route && FindCrlf(g.full, 0) == Some(e)
    ensures c == ConnV(e + 2, Headers.WithReqLine(r, g.full[..e]))
    ensures InHeaders(c, g.full, g.b) && Reaches(c, g) && Phase(c, g, 0)
  {
    hide HeaderStep, Headers.WithReqLine, FindCrlf, LinesEnd, ContentStep, IsBodyOf;
    c := ConnV(e + 2, Headers.WithReqLine(r, g.full[..e]));
    ReqLineOpen(r, g.full, e);
    FirstCallIs(r, g.full, e);
    SameHeaderStep(ConnV(0, r), c, g.full, g.config);
  }

  lemma SameFirst(r: ReqV, g: Goal, n: nat, e: nat)
    requires IsFresh(r) && g == GoalOf(r, g.full, g.ps, g.config) && GoalOk(g)
    requires Received(ConnV(0, r), g.full, g.config).1 == Route && FindCrlf(g.full, 0) == Some(e)
    requires n <= |g.full| && FindCrlf(g.full[..n], 0) == Some(e) && (n < |g.full| ==> n != g.b)
    ensures var c' := ConnV(e + 2, Headers.WithReqLine(r, g.full[..e]));
            Received(ConnV(0, r), g.full[..n], g.config) == Received(c', g.full[..n], g.config)
  {
    hide HeaderStep, Headers.WithReqLine, FindCrlf, LinesEnd, ContentStep, IsBodyOf, GoalOk, Received;
    var c' := FirstState(r, g, e);
    assert g.full[..n][..e] == g.full[..e];
    if n == |g.full| {
      assert g.full[..n] == g.full;
    } else {
      OpenFirst(c', g);
      FirstCallIs(r, g.full[..n], e);
      HeaderCall(c', g, n);
      SameHeaderStep(ConnV(0, r), c', g.full[..n], g.config);
    }
  }

  lemma OpenFirst(c: ConnV, g: Goal)
    requires InHeaders(c, g.full, g.b)
    ensures Open(c.req)
  {
  }

  /** The first arrival must hold the request line, else the request is rejected. */
  lemma RequestLineInPieces(r: ReqV, raw: string, config: Config)
    requires IsFresh(r)
    ensures FindCrlf(raw, 0).None? ==>
              Received(ConnV(0, r), raw, config) == (ConnV(0, r.(err := BadRequest)), Reject)
  {
    hide ContentStep, FindCrlf;
  }
}
