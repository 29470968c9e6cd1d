/** Runs of one connection that is receiving, and the whole exchange of a request for
    its answer. */
module ReceiveRuns {
  import opened Epoll
  import opened Strings
  import opened Message
  import opened Receive
  import opened Transport
  import opened Connection
  import opened Lifecycle
  import opened Arrivals
  import opened Chunked

  /** What becomes of a connection armed for IN: on_rx has decided something other
      than to wait, it was closed, it still waits, or its event was none the loop
      handles. */
  datatype Intake = Decided(v: Verdict) | Refused | Expecting | Missed

  /** What k calls of do_rx on a plan add to the receive buffer, and what is left. */
  function Stream(plan: seq<RxEvent>, k: nat): string
    decreases k
  {
    if k == 0 then "" else Arrived(plan) + Stream(Behind(Ahead(plan)), k - 1)
  }

  function PlanAfter(plan: seq<RxEvent>, k: nat): seq<RxEvent>
    decreases k
  {
    if k == 0 then plan else PlanAfter(Behind(Ahead(plan)), k - 1)
  }

  /** The lengths a buffer of n bytes has after each of those calls. */
  function Lengths(n: nat, plan: seq<RxEvent>, k: nat): (r: seq<nat>)
    ensures |r| == k && forall i :: 0 <= i < k ==> n <= r[i] <= n + |Stream(plan, k)|
    ensures k > 0 ==> r[k - 1] == n + |Stream(plan, k)|
    ensures forall i, j :: 0 <= i < j < k ==> r[i] <= r[j]
    decreases k
  {
    if k == 0 then [] else [n + |Arrived(plan)|] + Lengths(n + |Arrived(plan)|, Behind(Ahead(plan)), k - 1)
  }

  lemma {:induction false} OneMoreStream(plan: seq<RxEvent>, k: nat)
    ensures var p := PlanAfter(plan, k);
            && PlanAfter(plan, k + 1) == Behind(Ahead(p))
            && Stream(plan, k + 1) == Stream(plan, k) + Arrived(p)
    decreases k
  {
    hide Arrived, Ahead, Behind;
    if k > 0 {
      var a, rest := Arrived(plan), Behind(Ahead(plan));
      OneMoreStream(rest, k - 1);
      var s, t := Stream(rest, k - 1), Arrived(PlanAfter(rest, k - 1));
      assert a + (s + t) == a + s + t;
    }
  }

  lemma {:induction false} OneMoreCall(n: nat, plan: seq<RxEvent>, k: nat)
    ensures Lengths(n, plan, k + 1) == Lengths(n, plan, k) + [n + |Stream(plan, k + 1)|]
    decreases k
  {
    hide Arrived, Ahead, Behind;
    if k > 0 {
      var m, rest := n + |Arrived(plan)|, Behind(Ahead(plan));
      OneMoreCall(m, rest, k - 1);
      assert [m] + (Lengths(m, rest, k - 1) + [m + |Stream(rest, k)|]) == [m] + Lengths(m, rest, k - 1) + [m + |Stream(rest, k)|];
    }
  }

  /** What the verdicts of a run register a connection for. */
  function RegsOf(vs: seq<Verdict>): seq<Mask> {
    if vs == [] then [] else RegsOf(vs[..|vs| - 1]) + MaskFor(vs[|vs| - 1])
  }

  lemma RegsOfMore(vs: seq<Verdict>, v: Verdict)
    ensures RegsOf(vs + [v]) == RegsOf(vs) + MaskFor(v)
  {
    assert (vs + [v])[..|vs|] == vs;
  }

  lemma RegsAdd(regs: seq<Mask>, vs: seq<Verdict>, v: Verdict)
    ensures regs + RegsOf(vs) + MaskFor(v) == regs + RegsOf(vs + [v])
  {
    RegsOfMore(vs, v);
  }

  lemma WaitingIsSound(c: ConnV, raw: string, config: Config)
    requires Received(c, raw, config).1 == NeedMore
    ensures !Received(c, raw, config).0.req.Faulted()
  {
    hide HeaderStep;
  }

  /** What makes an event close a connection armed for IN. */
  predicate Refusal(event: Readiness, plan: seq<RxEvent>, ioRx: string) {
    event == ErrReady || (event == IoReady && (Broken(Ahead(plan)) || ioRx + Arrived(plan) == ""))
  }

  /** One event of a connection armed for IN. */
  method ReceiveOne(c: Conn, config: Config, routed: Routed, event: Readiness) returns (end: Intake)
    requires c.Valid() && c.NoResponse() && !c.parser.req.View().Faulted()
    modifies c.Repr()
    ensures c.Valid() && fresh(c.Repr() - old(c.Repr())) && c.skt.wire == old(c.skt.wire)
    ensures end == Refused || end == Missed ==>
              c.parser.View() == old(c.parser.View()) && c.regs == old(c.regs) && c.crashed == old(c.crashed)
    ensures end == Expecting || end.Decided? ==>
              var (d, v) := Outcome(old(c.parser.View()), c.ioRx, config, routed);
              && event == IoReady && v == (if end.Decided? then end.v else NeedMore) && (end.Decided? ==> v != NeedMore)
              && c.ioRx == old(c.ioRx + Arrived(c.skt.rxPlan)) && c.skt.rxPlan == Behind(old(Ahead(c.skt.rxPlan)))
              && c.parser.View() == d && c.regs == old(c.regs) + MaskFor(v)
              && c.crashed == (old(c.crashed) || v == Crash) && c.Handled(v, routed)
    ensures end == Expecting ==> c.NoResponse() && !c.parser.req.View().Faulted()
    ensures c.closes == old(c.closes) + if end == Refused then 1 else 0
    ensures end == Missed <==> event == OtherReady
    ensures end == Refused ==> Refusal(event, old(c.skt.rxPlan), old(c.ioRx))
  {
    hide Received, Padded, IsPadded, Arrived, Ahead, Behind, Work, IsRxPlan, Broken;
    match event {
      case ErrReady =>
        c.OnClose();
        end := Refused;
      case OtherReady =>
        end := Missed;
      case IoReady =>
        ghost var c0 := c.parser.View();
        var r, v := c.HandleIn(config, routed);
        if v == Some(NeedMore) {
          WaitingIsSound(c0, c.ioRx, config);
        }
        end := match v
          case None => Refused
          case Some(w) => if w == NeedMore then Expecting else Decided(w);
    }
  }

  /** The parsing half of a connection behind a run that ended so. */
  function AfterRun(c: ConnV, end: Intake, routed: Routed): ConnV {
    if end.Decided? then Judged(c, end.v, routed) else c
  }

  function Onward(v: Verdict): Intake {
    if v == NeedMore then Expecting else Decided(v)
  }

  /** Each call but a deciding one asked for more. */
  predicate OnlyLastDecides(vs: seq<Verdict>, end: Intake) {
    && (forall i :: 0 <= i < |vs| - 1 ==> vs[i] == NeedMore)
    && (vs != [] ==> vs[|vs| - 1] == if end.Decided? then end.v else NeedMore)
    && (end.Decided? ==> vs != [] && end.v != NeedMore)
  }

  lemma DecidesMore(vs: seq<Verdict>, v: Verdict)
    requires OnlyLastDecides(vs, Expecting)
    ensures OnlyLastDecides(vs + [v], Onward(v))
  {
  }

  /** Behind |vs| calls of on_rx, the connection c is d: it has been fed the bytes of
      the plan, at the lengths the plan gives the buffer. */
  ghost predicate Fed(c: ConnV, rx: string, plan: seq<RxEvent>, config: Config, routed: Routed,
                      vs: seq<Verdict>, end: Intake, d: ConnV) {
    var (e, ws) := Feed(c, rx + Stream(plan, |vs|), Lengths(|rx|, plan, |vs|), config);
    ws == vs && OnlyLastDecides(vs, end) && d == AfterRun(e, end, routed)
  }

  lemma Unfed(c: ConnV, rx: string, plan: seq<RxEvent>, config: Config, routed: Routed)
    ensures RegsOf([]) == [] && Ran(c, rx, plan, config, routed, [], Expecting, c, rx, plan)
  {
    hide Arrived, Ahead, Behind;
  }

  lemma FedMore(c: ConnV, rx: string, plan: seq<RxEvent>, config: Config, routed: Routed, vs: seq<Verdict>,
                d: ConnV, raw: string, v: Verdict, e: ConnV)
    requires Fed(c, rx, plan, config, routed, vs, Expecting, d)
    requires raw == rx + Stream(plan, |vs| + 1) && (e, v) == Outcome(d, raw, config, routed)
    ensures Fed(c, rx, plan, config, routed, vs + [v], Onward(v), e)
  {
    hide Received, Arrived, Ahead, Behind, Lengths, Stream, PlanAfter, OnlyLastDecides;
    var k := |vs|;
    OneMoreStream(plan, k);
    OneMoreCall(|rx|, plan, k);
    DecidesMore(vs, v);
    var before, cuts := rx + Stream(plan, k), Lengths(|rx|, plan, k);
    assert raw == before + Arrived(PlanAfter(plan, k));
    FeedGrows(c, before, raw, cuts, config);
    FeedMore(c, raw, cuts, |raw|, config);
    assert raw[..|raw|] == raw;
    assert |vs + [v]| == k + 1;
  }

  /** The buffer and the plan behind k calls. */
  predicate BufferIs(rx: string, plan: seq<RxEvent>, k: nat, ioRx: string, left: seq<RxEvent>) {
    ioRx == rx + Stream(plan, k) && left == PlanAfter(plan, k)
  }

  /** What a run has made of a connection, from the values it started with. */
  ghost predicate Ran(c: ConnV, rx: string, plan: seq<RxEvent>, config: Config, routed: Routed,
                      vs: seq<Verdict>, end: Intake, d: ConnV, ioRx: string, left: seq<RxEvent>) {
    && Fed(c, rx, plan, config, routed, vs, end, d)
    && (end == Expecting || end.Decided? ==> BufferIs(rx, plan, |vs|, ioRx, left))
  }

  lemma RanOn(c: ConnV, rx: string, plan: seq<RxEvent>, config: Config, routed: Routed, vs: seq<Verdict>,
              d: ConnV, ioRx: string, left: seq<RxEvent>, v: Verdict, e: ConnV)
    requires Ran(c, rx, plan, config, routed, vs, Expecting, d, ioRx, left)
    requires (e, v) == Outcome(d, ioRx + Arrived(left), config, routed)
    ensures Ran(c, rx, plan, config, routed, vs + [v], Onward(v), e, ioRx + Arrived(left), Behind(Ahead(left)))
  {
    hide Received, Arrived, Ahead, Behind, Stream, PlanAfter, Fed, Outcome;
    OneMoreStream(plan, |vs|);
    var raw := ioRx + Arrived(left);
    assert rx + (Stream(plan, |vs|) + Arrived(left)) == raw;
    FedMore(c, rx, plan, config, routed, vs, d, raw, v, e);
  }

  /** Why a run ended before it had decided: its events were used up, or the next one
      closed the connection or was none the loop handles. */
  predicate Stopped(rx: string, plan: seq<RxEvent>, events: seq<Readiness>, k: nat, end: Intake) {
    match end
    case Decided(_) => k <= |events|
    case Expecting => k == |events|
    case Missed => k < |events| && events[k] == OtherReady
    case Refused => k < |events| && Refusal(events[k], PlanAfter(plan, k), rx + Stream(plan, k))
  }

  lemma RanStops(c: ConnV, rx: string, plan: seq<RxEvent>, config: Config, routed: Routed, vs: seq<Verdict>,
                 d: ConnV, ioRx: string, left: seq<RxEvent>, events: seq<Readiness>, end: Intake)
    requires Ran(c, rx, plan, config, routed, vs, Expecting, d, ioRx, left) && |vs| < |events|
    requires end == Missed ==> events[|vs|] == OtherReady
    requires end == Refused ==> Refusal(events[|vs|], left, ioRx)
    requires end == Missed || end == Refused
    ensures Stopped(rx, plan, events, |vs|, end)
  {
    hide Fed, Refusal, Stream, PlanAfter;
  }

  lemma RanOut(c: ConnV, rx: string, plan: seq<RxEvent>, config: Config, routed: Routed, vs: seq<Verdict>,
               d: ConnV, ioRx: string, left: seq<RxEvent>, end: Intake)
    requires Ran(c, rx, plan, config, routed, vs, Expecting, d, ioRx, left) && (end == Refused || end == Missed)
    ensures forall rx', left' :: Ran(c, rx, plan, config, routed, vs, end, d, rx', left')
  {
    hide Received, Arrived, Ahead, Behind, Stream, PlanAfter;
  }

  /** A connection behind such a run. */
  ghost predicate Behaves(c: Conn, c0: ConnV, rx: string, plan: seq<RxEvent>, config: Config, routed: Routed,
                          vs: seq<Verdict>, end: Intake)
    requires c.Valid()
    reads c, c.skt, c.ioTx, c.ioTx.buf, c.parser, c.parser.req, c.parser.req.uri, c.resp
  {
    && Ran(c0, rx, plan, config, routed, vs, end, c.parser.View(), c.ioRx, c.skt.rxPlan)
    && (end.Decided? ==> c.Handled(end.v, routed))
    && (end == Expecting ==> c.NoResponse() && !c.parser.req.View().Faulted())
  }

  /** The next event of such a run. */
  method ReceiveNext(c: Conn, config: Config, routed: Routed, events: seq<Readiness>, ghost c0: ConnV, ghost rx: string,
                     ghost plan: seq<RxEvent>, ghost regs: seq<Mask>, vs: seq<Verdict>)
    returns (ws: seq<Verdict>, end: Intake)
    requires c.Valid() && Behaves(c, c0, rx, plan, config, routed, vs, Expecting) && |vs| < |events|
    requires c.regs == regs + RegsOf(vs)
    modifies c.Repr()
    ensures c.Valid() && fresh(c.Repr() - old(c.Repr())) && c.skt.wire == old(c.skt.wire)
    ensures Behaves(c, c0, rx, plan, config, routed, ws, end) && c.regs == regs + RegsOf(ws)
    ensures if end == Expecting then |ws| == |vs| + 1 else Stopped(rx, plan, events, |ws|, end)
    ensures c.closes == old(c.closes) + if end == Refused then 1 else 0
    ensures c.crashed == (old(c.crashed) || end == Decided(Crash))
  {
    hide Received, Outcome, Judged, MaskFor, Ran, Behind, RegsOf, Conn.Handled, Refusal, Stream, PlanAfter;
    hide Arrived, Ahead, Work, IsRxPlan, Padded, IsPadded, IsErrorText, IsAnswer;
    ghost var d, raw, left := c.parser.View(), c.ioRx, c.skt.rxPlan;
    end := ReceiveOne(c, config, routed, events[|vs|]);
    if end == Expecting || end.Decided? {
      var v := if end.Decided? then end.v else NeedMore;
      RanOn(c0, rx, plan, config, routed, vs, d, raw, left, v, c.parser.View());
      RegsAdd(regs, vs, v);
      ws := vs + [v];
    } else {
      RanStops(c0, rx, plan, config, routed, vs, d, raw, left, events, end);
      RanOut(c0, rx, plan, config, routed, vs, d, raw, left, end);
      ws := vs;
    }
  }

  /** The event loop on a connection armed for IN, for any events and any behaviour of
      the socket: on_rx is fed the bytes of the plan, at the lengths the plan gives the
      buffer, each call but the last asking for more. */
  method ReceiveRun(c: Conn, config: Config, routed: Routed, events: seq<Readiness>) returns (vs: seq<Verdict>, end: Intake)
    requires c.Valid() && c.NoResponse() && !c.parser.req.View().Faulted()
    modifies c.Repr()
    ensures c.Valid() && fresh(c.Repr() - old(c.Repr())) && c.skt.wire == old(c.skt.wire)
    ensures Stopped(old(c.ioRx), old(c.skt.rxPlan), events, |vs|, end)
    ensures Behaves(c, old(c.parser.View()), old(c.ioRx), old(c.skt.rxPlan), config, routed, vs, end)
    ensures c.regs == old(c.regs) + RegsOf(vs)
    ensures c.closes == old(c.closes) + if end == Refused then 1 else 0
    ensures c.crashed == (old(c.crashed) || end == Decided(Crash))
  {
    hide Behaves, Ran, RegsOf, Refusal, Stream, PlanAfter, Work, IsRxPlan, Padded, IsPadded, Stopped;
    ghost var c0, rx, plan, regs := c.parser.View(), c.ioRx, c.skt.rxPlan, c.regs;
    vs, end := [], Expecting;
    Begins(c, config, routed);
    while |vs| < |events| && end == Expecting
      invariant c.Valid() && fresh(c.Repr() - old(c.Repr())) && c.skt.wire == old(c.skt.wire)
      invariant if end == Expecting then |vs| <= |events| else Stopped(rx, plan, events, |vs|, end)
      invariant Behaves(c, c0, rx, plan, config, routed, vs, end) && c.regs == regs + RegsOf(vs)
      invariant c.closes == old(c.closes) + if end == Refused then 1 else 0
      invariant c.crashed == (old(c.crashed) || end == Decided(Crash))
      decreases end == Expecting, |events| - |vs|
    {
      vs, end := ReceiveNext(c, config, routed, events, c0, rx, plan, regs, vs);
    }
    AllUsed(rx, plan, events, |vs|, end);
  }

  lemma Begins(c: Conn, config: Config, routed: Routed)
    requires c.Valid() && c.NoResponse() && !c.parser.req.View().Faulted()
    ensures Behaves(c, c.parser.View(), c.ioRx, c.skt.rxPlan, config, routed, [], Expecting)
    ensures c.regs + RegsOf([]) == c.regs
  {
    hide Ran, RegsOf, IsRxPlan, IsPadded;
    Unfed(c.parser.View(), c.ioRx, c.skt.rxPlan, config, routed);
  }

  lemma AllUsed(rx: string, plan: seq<RxEvent>, events: seq<Readiness>, k: nat, end: Intake)
    requires if end == Expecting then k == |events| else Stopped(rx, plan, events, k, end)
    ensures Stopped(rx, plan, events, k, end)
  {
  }

  // ----------------------------------------------------- the whole exchange

  lemma {:induction false} FirstCalls(n: nat, plan: seq<RxEvent>, k: nat, m: nat)
    requires k <= m
    ensures Lengths(n, plan, m)[..k] == Lengths(n, plan, k) && Stream(plan, k) <= Stream(plan, m)
    decreases m
  {
    hide Arrived, Ahead, Behind, Lengths, Stream, PlanAfter;
    if k < m {
      OneMoreStream(plan, m - 1);
      OneMoreCall(n, plan, m - 1);
      FirstCalls(n, plan, k, m - 1);
      assert Lengths(n, plan, m)[..k] == Lengths(n, plan, m - 1)[..k];
    } else {
      assert Lengths(n, plan, m)[..m] == Lengths(n, plan, m);
    }
  }

  /** The socket has something for every one of n calls, and never fails. */
  predicate Delivers(plan: seq<RxEvent>, n: nat) {
    n > 0 && Arrived(plan) != "" && forall k :: 0 <= k < n ==> !Broken(Ahead(PlanAfter(plan, k)))
  }

  predicate AllReady(events: seq<Readiness>) {
    forall i :: 0 <= i < |events| ==> events[i] == IoReady
  }

  lemma SomethingCame(plan: seq<RxEvent>, k: nat)
    requires Arrived(plan) != ""
    ensures Stream(plan, k + 1) != ""
  {
    hide Arrived, Ahead, Behind;
  }

  /** Such a run is only ended by a decision. */
  lemma NeverRefused(plan: seq<RxEvent>, events: seq<Readiness>, k: nat, end: Intake)
    requires AllReady(events) && Delivers(plan, |events|) && Stopped("", plan, events, k, end)
    ensures end.Decided? || (end == Expecting && k == |events|)
  {
    hide Arrived, Ahead, Behind, PlanAfter;
    if end == Refused {
      OneMoreStream(plan, k);
      SomethingCame(plan, k);
    }
  }

  /** Its verdicts are those of feeding the parsers the first |vs| lengths of all. */
  lemma RunIsFeed(c: ConnV, plan: seq<RxEvent>, config: Config, routed: Routed, vs: seq<Verdict>,
                  end: Intake, d: ConnV, n: nat)
    requires |vs| <= n && Fed(c, "", plan, config, routed, vs, end, d)
    ensures var (e, ws) := Feed(c, Stream(plan, n), Lengths(0, plan, n), config);
            |ws| == n && vs == ws[..|vs|] && (|vs| == n ==> d == AfterRun(e, end, routed))
  {
    hide Received, Feed, Lengths, Stream;
    var k, full, cuts := |vs|, Stream(plan, n), Lengths(0, plan, n);
    FirstCalls(0, plan, k, n);
    assert "" + Stream(plan, k) == Stream(plan, k);
    FeedGrows(c, Stream(plan, k), full, cuts[..k], config);
    FeedFirsts(c, full, cuts, k, config);
    if k == n {
      assert cuts[..k] == cuts;
      var ws := Feed(c, full, cuts, config).1;
      assert ws[..n] == ws;
    }
  }

  /** Whether a run over a socket that delivers routes a request at its last event is
      what feeding the parsers at the plan's lengths says. */
  lemma RunRoutesExactlyWhen(c: ConnV, plan: seq<RxEvent>, config: Config, routed: Routed, vs: seq<Verdict>,
                             end: Intake, d: ConnV, events: seq<Readiness>)
    requires AllReady(events) && Delivers(plan, |events|) && Stopped("", plan, events, |vs|, end)
    requires Fed(c, "", plan, config, routed, vs, end, d)
    ensures var (e, ws) := Feed(c, Stream(plan, |events|), Lengths(0, plan, |events|), config);
            && (end == Decided(Route) && |vs| == |events| <==> OnlyLastRoutes(ws))
            && (OnlyLastRoutes(ws) ==> vs == ws && d == Judged(e, Route, routed))
  {
    hide Received, Feed, Lengths, Stream, Delivers, Judged;
    var n := |events|;
    NeverRefused(plan, events, |vs|, end);
    RunIsFeed(c, plan, config, routed, vs, end, d, n);
    var ws := Feed(c, Stream(plan, n), Lengths(0, plan, n), config).1;
    if |vs| == n {
      assert vs == ws;
    } else {
      assert ws[|vs| - 1] == vs[|vs| - 1];
    }
  }

  /** The peer's bytes, over n events, are one request that a single arrival routes,
      with nothing behind its body, and come in fair pieces. */
  ghost predicate FairRequest(r: ReqV, plan: seq<RxEvent>, n: nat, ps: seq<Piece>, config: Config) {
    var full, cuts := Stream(plan, n), Lengths(0, plan, n);
    && Delivers(plan, n) && IsFresh(r) && Received(ConnV(0, r), full, config).1 == Route
    && GoalOk(GoalOf(r, full, ps, config)) && Arrivals.Arrivals(full, cuts)
    && FairCuts(GoalOf(r, full, ps, config), cuts) && FindCrlf(full[..cuts[0]], 0).Some?
  }

  /** Registrations for a request that takes n calls: for input until the last one. */
  function AskThenAnswer(n: nat): seq<Mask> {
    if n == 0 then [] else seq(n - 1, _ => In) + [Out]
  }

  lemma WaitingRegs(vs: seq<Verdict>)
    requires OnlyLastRoutes(vs)
    ensures RegsOf(vs) == AskThenAnswer(|vs|)
  {
    hide RegsOf;
    var k := |vs| - 1;
    assert vs[..k] + [Route] == vs;
    RegsOfMore(vs[..k], Route);
    AllWait(vs[..k]);
  }

  lemma {:induction false} AllWait(vs: seq<Verdict>)
    requires forall i :: 0 <= i < |vs| ==> vs[i] == NeedMore
    ensures RegsOf(vs) == seq(|vs|, _ => In)
  {
    if vs != [] {
      AllWait(vs[..|vs| - 1]);
    }
  }

  lemma FairRunRoutes(r: ReqV, plan: seq<RxEvent>, config: Config, routed: Routed, vs: seq<Verdict>, end: Intake,
                      d: ConnV, ps: seq<Piece>, events: seq<Readiness>)
    requires FairRequest(r, plan, |events|, ps, config) && routed.err == NoErr
    requires AllReady(events) && Stopped("", plan, events, |vs|, end)
    requires Fed(ConnV(0, r), "", plan, config, routed, vs, end, d)
    ensures end == Decided(Route) && |vs| == |events| && RegsOf(vs) == AskThenAnswer(|events|)
    ensures d == Received(ConnV(0, r), Stream(plan, |events|), config).0
  {
    hide Received, Lengths, Stream, Delivers, GoalOf, GoalOk, FairCuts, FindCrlf, Stopped, Fed, AllReady;
    SegmentationDoesNotMatter(r, Stream(plan, |events|), Lengths(0, plan, |events|), ps, config);
    RunRoutesExactlyWhen(ConnV(0, r), plan, config, routed, vs, end, d, events);
    WaitingRegs(vs);
  }

  /** The receiving half of an exchange: up to the router, and its answer. */
  method ReceiveRequest(c: Conn, config: Config, routed: Routed, ghost ps: seq<Piece>, rx: seq<Readiness>)
    requires c.Valid() && c.Restarted() && c.ioRx == "" && AllReady(rx) && routed.err == NoErr
    requires FairRequest(c.parser.req.View(), c.skt.rxPlan, |rx|, ps, config)
    modifies c.Repr()
    ensures c.Valid() && fresh(c.Repr() - old(c.Repr())) && c.skt.wire == old(c.skt.wire)
    ensures c.ioRx == old(Stream(c.skt.rxPlan, |rx|)) && IsAnswer(c.ioTx.Unsent(), routed)
    ensures c.parser.View() == old(Received(c.parser.View(), Stream(c.skt.rxPlan, |rx|), config).0)
    ensures c.regs == old(c.regs) + AskThenAnswer(|rx|) && c.closes == old(c.closes) && c.crashed == old(c.crashed)
  {
    hide Received, Padded, IsPadded, IsRxPlan, IsAnswer, Fed, Stream, PlanAfter, Stopped, FairRequest, RegsOf, AskThenAnswer;
    ghost var r, plan := c.parser.req.View(), c.skt.rxPlan;
    var vs, intake := ReceiveRun(c, config, routed, rx);
    FairRunRoutes(r, plan, config, routed, vs, intake, c.parser.View(), ps, rx);
    assert "" + Stream(plan, |rx|) == Stream(plan, |rx|);
  }

  /** A request and its answer, for any pieces the socket delivers it in and any pace
      at which it takes the answer: the connection waits for input until all of the
      request is in, hands the router the request one arrival would, and sends nothing
      but the router's answer; once that is sent it is ready for another request and
      armed for input if it is kept alive, and closed once if not. */
  method RequestRun(c: Conn, config: Config, routed: Routed, ghost ps: seq<Piece>, rx: seq<Readiness>, tx: seq<Readiness>)
    returns (end: Ending)
    requires c.Valid() && c.Restarted() && c.ioRx == "" && AllReady(rx) && routed.err == NoErr
    requires FairRequest(c.parser.req.View(), c.skt.rxPlan, |rx|, ps, config)
    modifies c.Repr()
    ensures c.Valid() && c.ioRx == old(Stream(c.skt.rxPlan, |rx|)) && c.crashed == old(c.crashed)
    ensures Settles(c, end, old(Received(c.parser.View(), Stream(c.skt.rxPlan, |rx|), config).0))
    ensures exists text :: IsAnswer(text, routed) && c.skt.wire + c.ioTx.Unsent() == old(c.skt.wire) + text
              && old(c.skt.wire) <= c.skt.wire && (end == Sent ==> c.skt.wire == old(c.skt.wire) + text)
    ensures var regs := old(c.regs) + AskThenAnswer(|rx|);
            regs <= c.regs && MayAdd(c.regs[|regs|..], end, c.keepAlive)
    ensures c.closes == old(c.closes) + ClosesOf(end, c.keepAlive)
  {
    hide Received, Padded, IsPadded, IsRxPlan, IsAnswer, Stream, Settles, MayAdd, FairRequest, AskThenAnswer;
    ReceiveRequest(c, config, routed, ps, rx);
    ghost var text := c.ioTx.Unsent();
    end := SendRun(c, tx);
    assert IsAnswer(text, routed);
  }
}
