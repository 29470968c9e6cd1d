/** One connection: its receive and transmit loops, the server's handlers, and the
    event loop's dispatch to them. The registrations and the close requests it
    makes are recorded in the order they are made. */
module Connection {
  import opened Epoll
  import opened Strings
  import opened Keywords
  import opened Message
  import opened Receive
  import opened Response
  import opened Transport

  datatype IoStatus = COMPLETE | PARTIAL | ERROR

  /** What the router makes of a request: a response, or an error. */
  datatype Routed = Routed(statusCode: nat, reason: string, fields: map<string, string>, content: string, err: Err)

  function StatusCode(e: Err): nat {
    match e
    case BadRequest => 400
    case NotFound => 404
    case LengthRequired => 411
    case UnsupportedMediaType => 415
    case MisdirectedRequest => 421
    case InternalServer => 500
    case NotImplemented => 501
    case NoErr => 0
  }

  function Reason(e: Err): string {
    match e
    case BadRequest => "Bad Request"
    case NotFound => "Not Found"
    case LengthRequired => "Length Required"
    case UnsupportedMediaType => "Unsupported Media Type"
    case MisdirectedRequest => "Misdirected Request"
    case InternalServer => "Internal Server Error"
    case NotImplemented => "Not Implemented"
    case NoErr => ""
  }

  const ERROR_FIELDS: map<string, string> := map["Content-Length" := "0", "Connection" := "close"]

  /** s is the response an error builder builds, its fields in one order or the other. */
  ghost predicate IsErrorText(s: string, e: Err) {
    exists order :: Lists(order, ERROR_FIELDS) && s == StatusLine(StatusCode(e), Reason(e)) + Section(order)
  }

  /** What a routed request is answered with, its fields printed in some order. */
  function AnswerText(routed: Routed, order: seq<Field>): string {
    StatusLine(routed.statusCode, routed.reason) + Section(order) + Tail(routed.content)
  }

  ghost predicate IsAnswer(s: string, routed: Routed) {
    exists order :: Lists(order, routed.fields)
      && (|AnswerText(routed, order)| < U32 ==> s == Padded(AnswerText(routed, order)))
  }

  /** What do_rx appends of the bytes that have arrived: all of them, or, if it fails,
      those of the buffers it had filled. */
  function KeptBytes(arrived: string, failed: bool): string {
    if failed then arrived[..|arrived| - |arrived| % DEFAULT_BUF_LEN] else arrived
  }

  /** The parsing half of a connection after on_rx, where a router's error is the
      request's, and what on_rx decided. */
  function Outcome(c: ConnV, raw: string, config: Config, routed: Routed): (ConnV, Verdict) {
    var (d, v) := Received(c, raw, config);
    (Judged(d, v, routed), v)
  }

  function Judged(c: ConnV, v: Verdict, routed: Routed): ConnV {
    if v == Route && routed.err != NoErr then c.(req := c.req.(err := routed.err)) else c
  }

  /** What on_rx registers the connection for. */
  function MaskFor(v: Verdict): seq<Mask> {
    match v
    case Crash => []
    case NeedMore => [In]
    case Reject | Route => [Out]
  }

  lemma NotJudged(c: ConnV, v: Verdict, routed: Routed)
    requires v != Route
    ensures Judged(c, v, routed) == c
  {
  }

  lemma NextBuffer(arrived: string, k: nat, got: string)
    requires k <= |arrived|
    ensures got <= arrived[k..] ==>
              arrived[..k] + got == arrived[..k + |got|] && arrived[k..][|got|..] == arrived[k + |got|..]
    ensures got == arrived[k..] ==> arrived[..k] + got == arrived
  {
    if got <= arrived[k..] {
      assert arrived[k..][..|got|] == got;
    }
  }

  lemma KeptAll(arrived: string)
    ensures KeptBytes(arrived, false) == arrived
  {
  }

  lemma LastBuffer(arrived: string, k: nat)
    requires k <= |arrived| < k + DEFAULT_BUF_LEN && k % DEFAULT_BUF_LEN == 0
    ensures arrived[..k] == KeptBytes(arrived, true)
  {
  }

  class Conn {
    var keepAlive: bool
    var parser: Parser
    const skt: Socket
    var ioRx: string
    var ioTx: IoBuf
    var resp: Resp
    var crashed: bool
    /** What reg and on_close have been called for. */
    var regs: seq<Mask>
    var closes: nat

    constructor (skt: Socket)
      requires IsRxPlan(skt.rxPlan)
      ensures Valid() && this.skt == skt && keepAlive && ioRx == "" && regs == [] && closes == 0 && !crashed
      ensures fresh(Repr() - {skt}) && Restarted() && ioTx.Unsent() == ""
    {
      this.skt, keepAlive, ioRx, regs, closes, crashed := skt, true, "", [], 0, false;
      parser := new Parser();
      ioTx := new IoBuf(true, DEFAULT_BUF_LEN);
      resp := new Resp();
    }

    ghost function Repr(): set<object>
      reads this
    {
      {this, skt, ioTx, ioTx.buf, parser, parser.req, parser.req.uri, resp}
    }

    ghost predicate Valid()
      reads this, skt, ioTx, ioTx.buf
    {
      ioTx.Valid() && ioTx.isTx && IsPadded(ioTx.Unsent()) && IsRxPlan(skt.rxPlan)
    }

    /** No response has been put together yet. */
    predicate NoResponse()
      reads this, resp
    {
      resp.fields == map[] && resp.content == ""
    }

    /** A request may be read from the start. */
    predicate Restarted()
      reads this, parser, parser.req, parser.req.uri, resp
    {
      IsFresh(parser.req.View()) && parser.parsedTo == 0 && NoResponse()
    }

    // ------------------------------------------------------------- receive

    /** The inner loop of do_rx: receive into one buffer until it is full, and report
        the last answer of the socket. */
    method FillBuf(rxIo: IoBuf) returns (n: int)
      requires rxIo.Valid() && rxIo.bytesRx == 0 && rxIo.buf.Length > 0 && IsRxPlan(skt.rxPlan)
      modifies rxIo`bytesRx, rxIo.buf, skt`rxPlan, skt`delivered, skt`wouldBlock
      ensures rxIo.Valid() && IsRxPlan(skt.rxPlan)
      ensures skt.delivered == old(skt.delivered) + rxIo.buf[..rxIo.bytesRx]
      ensures n >= 0 || n == SOCKET_ERROR
      ensures n > 0 ==> rxIo.bytesRx == rxIo.buf.Length && Work(skt.rxPlan) < old(Work(skt.rxPlan))
      ensures n > 0 ==> rxIo.buf[..rxIo.bytesRx] + Arrived(skt.rxPlan) == old(Arrived(skt.rxPlan))
                        && Ahead(skt.rxPlan) == old(Ahead(skt.rxPlan))
      ensures n <= 0 ==> rxIo.bytesRx < rxIo.buf.Length && rxIo.buf[..rxIo.bytesRx] == old(Arrived(skt.rxPlan))
                         && skt.rxPlan == Behind(old(Ahead(skt.rxPlan)))
      ensures n == 0 ==> AtEof(old(Ahead(skt.rxPlan)))
      ensures n == SOCKET_ERROR ==> if skt.wouldBlock then Blocked(old(Ahead(skt.rxPlan))) else Broken(old(Ahead(skt.rxPlan)))
    {
      hide Work, IsRxPlan, Arrived, Ahead, Taken;
      n := 1;
      ghost var arrived, before, got := Arrived(skt.rxPlan), skt.delivered, "";
      while rxIo.bytesRx < rxIo.buf.Length
        invariant rxIo.Valid() && IsRxPlan(skt.rxPlan) && n > 0
        invariant got == rxIo.buf[..rxIo.bytesRx] && skt.delivered == before + got
        invariant got + Arrived(skt.rxPlan) == arrived && Ahead(skt.rxPlan) == old(Ahead(skt.rxPlan))
        invariant Work(skt.rxPlan) <= old(Work(skt.rxPlan))
        invariant rxIo.bytesRx > 0 ==> Work(skt.rxPlan) < old(Work(skt.rxPlan))
        decreases Work(skt.rxPlan)
      {
        ghost var b, plan := rxIo.bytesRx, skt.rxPlan;
        n := skt.Rx(rxIo.buf, rxIo.bytesRx);
        if n <= 0 {
          NothingArrives(plan);
          assert got + "" == got;
          return;
        }
        ghost var more := rxIo.buf[b..b + n];
        assert rxIo.buf[..b + n] == got + more;
        JoinBytes(before, got, more);
        JoinBytes(got, more, Arrived(skt.rxPlan));
        got := got + more;
        rxIo.bytesRx := rxIo.bytesRx + n;
      }
    }

    /** do_rx: everything the socket has, buffer by buffer, up to where it blocks, ends
        or fails. On a failure the bytes of the buffer being filled are lost. */
    method DoRx() returns (r: IoStatus)
      requires Valid()
      modifies this`ioRx, this`keepAlive, skt`rxPlan, skt`delivered, skt`wouldBlock
      ensures Valid()
      ensures skt.delivered == old(skt.delivered + Arrived(skt.rxPlan))
      ensures skt.rxPlan == Behind(old(Ahead(skt.rxPlan)))
      ensures match r
              case COMPLETE => AtEof(old(Ahead(skt.rxPlan)))
              case PARTIAL => Blocked(old(Ahead(skt.rxPlan)))
              case ERROR => Broken(old(Ahead(skt.rxPlan)))
      ensures ioRx == old(ioRx + KeptBytes(Arrived(skt.rxPlan), r == ERROR))
      ensures r != ERROR && old(ioRx == skt.delivered) ==> ioRx == skt.delivered
      ensures r == PARTIAL ==> skt.wouldBlock
      ensures keepAlive == (old(keepAlive) && r != COMPLETE)
    {
      hide Work, IsRxPlan, Arrived, Ahead, KeptBytes, Behind, Blocked, AtEof, Broken, IsPadded, Padded;
      ghost var arrived, k: nat := Arrived(skt.rxPlan), 0;
      while true
        invariant IsRxPlan(skt.rxPlan) && keepAlive == old(keepAlive)
        invariant k % DEFAULT_BUF_LEN == 0 && k <= |arrived|
        invariant Arrived(skt.rxPlan) == arrived[k..] && Ahead(skt.rxPlan) == old(Ahead(skt.rxPlan))
        invariant skt.delivered == old(skt.delivered) + arrived[..k] && ioRx == old(ioRx) + arrived[..k]
        decreases Work(skt.rxPlan)
      {
        var rxIo := new IoBuf(false, DEFAULT_BUF_LEN);
        var n := FillBuf(rxIo);
        ghost var got := rxIo.buf[..rxIo.bytesRx];
        NextBuffer(arrived, k, got);
        KeptAll(arrived);
        if n == SOCKET_ERROR && !skt.wouldBlock {
          LastBuffer(arrived, k);
          return ERROR;
        }
        ioRx := ioRx + rxIo.buf[..rxIo.bytesRx];
        if n == SOCKET_ERROR {
          return PARTIAL;
        }
        if n == 0 {
          keepAlive := false;
          return COMPLETE;
        }
        k := k + |got|;
      }
    }

    // ------------------------------------------------------------ transmit

    /** prepare_tx of text held elsewhere; a longer buffer replaces a short one. */
    method PrepareTx(tx: string)
      requires Valid()
      modifies this`ioTx, ioTx, ioTx.buf
      ensures Valid() && (ioTx == old(ioTx) || (fresh(ioTx) && fresh(ioTx.buf)))
      ensures |tx| < U32 ==> ioTx.Unsent() == Padded(tx)
    {
      hide Padded, IsPadded, IsRxPlan;
      if |tx| > ioTx.buf.Length {
        ioTx := new IoBuf(true, |tx| % U32);
      }
      ioTx.WriteBuf(tx);
      PaddedStays(tx, ioTx.bytesToTx);
    }

    /** prepare_tx of the unsent end of the buffer itself: it fits, so the buffer
        the view points into stays. */
    method PrepareTxView(from: nat, len: nat)
      requires Valid() && from == ioTx.bytesTx && from + len == ioTx.bytesToTx
      modifies ioTx, ioTx.buf
      ensures Valid() && ioTx.Unsent() == old(ioTx.Unsent())
    {
      assert len <= ioTx.buf.Length;
      ioTx.WriteBufView(from, len);
    }

    /** do_tx: until all is sent or the socket takes no more. */
    method DoTx() returns (r: IoStatus)
      requires Valid()
      modifies ioTx`bytesTx, skt`txPlan, skt`wire, skt`wouldBlock
      ensures Valid()
      ensures skt.wire + ioTx.Unsent() == old(skt.wire + ioTx.Unsent()) && old(skt.wire) <= skt.wire
      ensures r == COMPLETE <==> ioTx.Unsent() == ""
      ensures ioTx.bytesToTx == old(ioTx.bytesToTx)
    {
      hide Padded, IsPadded, IsRxPlan;
      ghost var wire0, total := skt.wire, skt.wire + ioTx.Unsent();
      while ioTx.bytesTx < ioTx.bytesToTx
        invariant Valid() && ioTx.bytesToTx == old(ioTx.bytesToTx)
        invariant skt.wire + ioTx.Unsent() == total && wire0 <= skt.wire
        decreases |skt.txPlan|
      {
        ghost var wire, all := skt.wire, ioTx.buf[..];
        ghost var unsent := all[ioTx.bytesTx..ioTx.bytesToTx];
        assert ioTx.Unsent() == unsent;
        var n := skt.Tx(ioTx.buf, ioTx.bytesTx, ioTx.bytesToTx);
        if n == SOCKET_ERROR {
          return if skt.wouldBlock then PARTIAL else ERROR;
        }
        SplitSlice(all, ioTx.bytesTx, n, ioTx.bytesToTx);
        assert skt.wire == wire + all[ioTx.bytesTx..ioTx.bytesTx + n];
        PaddedTail(unsent, n);
        ioTx.bytesTx := ioTx.bytesTx + n;
        assert ioTx.Unsent() == all[ioTx.bytesTx..ioTx.bytesToTx];
        MoveSent(wire, unsent, n);
      }
      return COMPLETE;
    }

    // ------------------------------------------------------------ handlers

    method Reg(mask: Mask)
      modifies this`regs
      ensures regs == old(regs) + [mask]
    {
      regs := regs + [mask];
    }

    method OnClose()
      modifies this`closes
      ensures closes == old(closes) + 1
    {
      closes := closes + 1;
    }

    method ResetState()
      requires Valid()
      modifies this`parser, this`resp
      ensures Valid() && fresh(parser) && fresh(parser.req) && fresh(parser.req.uri) && fresh(resp)
      ensures Restarted()
    {
      parser := new Parser();
      resp := new Resp();
    }

    method OnTx()
      requires Valid()
      modifies this`parser, this`resp, this`regs, this`closes
      ensures Valid() && fresh(Repr() - old(Repr()))
      ensures if keepAlive then regs == old(regs) + [In] && closes == old(closes) && Restarted()
              else regs == old(regs) && closes == old(closes) + 1 && parser == old(parser) && resp == old(resp)
    {
      if keepAlive {
        ResetState();
        Reg(In);
        return;
      }
      OnClose();
    }

    /** handle_out. Bytes sent and bytes left are conserved; a partial send moves
        the rest to the front of the same buffer and waits for OUT. */
    method HandleOut() returns (r: IoStatus)
      requires Valid()
      modifies this`parser, this`resp, this`regs, this`closes, ioTx, ioTx.buf, skt`txPlan, skt`wire, skt`wouldBlock
      ensures Valid() && fresh(Repr() - old(Repr())) && ioTx == old(ioTx)
      ensures skt.wire + ioTx.Unsent() == old(skt.wire + ioTx.Unsent()) && old(skt.wire) <= skt.wire
      ensures r == COMPLETE <==> ioTx.Unsent() == ""
      ensures match r
              case PARTIAL => regs == old(regs) + [Out] && closes == old(closes) && parser == old(parser)
              case ERROR => regs == old(regs) && closes == old(closes) + 1 && parser == old(parser)
              case COMPLETE => if keepAlive then regs == old(regs) + [In] && closes == old(closes) && Restarted()
                               else regs == old(regs) && closes == old(closes) + 1 && parser == old(parser)
    {
      hide Padded, IsPadded, IsRxPlan, IsFresh;
      r := DoTx();
      match r
      case COMPLETE =>
        OnTx();
      case PARTIAL =>
        PrepareTxView(ioTx.bytesTx, ioTx.bytesToTx - ioTx.bytesTx);
        Reg(Out);
      case ERROR =>
        OnClose();
    }

    /** The connection is to send the response for e and then to be closed. */
    ghost predicate FailedWith(e: Err)
      requires Valid()
      reads this, skt, ioTx, ioTx.buf
    {
      !keepAlive && IsErrorText(ioTx.Unsent(), e)
    }

    /** An error's build. */
    method Build(e: Err)
      requires NoResponse()
      modifies resp
      ensures resp.statusCode == StatusCode(e) && resp.reason == Reason(e)
      ensures resp.fields == ERROR_FIELDS && resp.content == ""
    {
      hide StatusCode, Reason;
      resp.statusCode, resp.reason := StatusCode(e), Reason(e);
      resp.PutHeader("Content-Length", "0");
      resp.PutHeader("Connection", "close");
    }

    /** The error branch of on_rx: build the error's response, give up keep-alive,
        and ask for OUT. */
    method Fail()
      requires Valid() && NoResponse() && parser.req.err != NoErr
      modifies this`keepAlive, this`ioTx, this`regs, ioTx, ioTx.buf, resp
      ensures Valid() && (ioTx == old(ioTx) || (fresh(ioTx) && fresh(ioTx.buf)))
      ensures regs == old(regs) + [Out] && FailedWith(parser.req.err)
    {
      hide Lists, Section, StatusLine, Padded, IsPadded, IsRxPlan, IsErrorText, StatusCode, Reason;
      ghost var e := parser.req.err;
      Build(parser.req.err);
      keepAlive := false;
      ghost var order;
      var text;
      text, order := resp.ToStr();
      ErrorTextPlain(text, e, order);
      PrepareTx(text);
      Reg(Out);
    }

    /** What on_rx leaves behind for a verdict v. */
    ghost predicate Handled(v: Verdict, routed: Routed)
      requires Valid()
      reads this, skt, ioTx, ioTx.buf, parser, parser.req
    {
      && (v == Reject ==> FailedWith(parser.req.err))
      && (v == Route ==> if routed.err != NoErr then FailedWith(routed.err) else IsAnswer(ioTx.Unsent(), routed))
    }

    /** on_rx: parse what has come in, then wait for more, answer, or fail. */
    method OnRx(config: Config, routed: Routed) returns (v: Verdict)
      requires Valid() && NoResponse() && !parser.req.View().Faulted()
      modifies this`keepAlive, this`ioTx, this`resp, this`regs, this`crashed
      modifies parser, parser.req, parser.req.uri, ioTx, ioTx.buf, resp
      ensures Valid() && (ioTx == old(ioTx) || (fresh(ioTx) && fresh(ioTx.buf))) && (resp == old(resp) || fresh(resp))
      ensures (parser.View(), v) == Outcome(old(parser.View()), ioRx, config, routed)
      ensures crashed == (old(crashed) || v == Crash)
      ensures regs == old(regs) + MaskFor(v)
      ensures Handled(v, routed) && (v == NeedMore ==> NoResponse())
      ensures v == Crash || v == NeedMore || (v == Route && routed.err == NoErr) ==> keepAlive == old(keepAlive)
    {
      hide Received, IsErrorText, IsAnswer, Padded, FailedWith, IsPadded, Lists, Section, StatusLine, Tail, IsRxPlan, Judged;
      v := parser.OnRx(ioRx, config);
      if v != Route {
        NotJudged(parser.View(), v, routed);
      }
      match v
      case Crash =>
        crashed := true;
      case NeedMore =>
        Reg(In);
      case Reject =>
        RejectHasErr(old(parser.View()), ioRx, config);
        Fail();
      case Route =>
        Respond(routed);
    }

    /** on_rx behind the parsers: the router's response, or its error. */
    method Respond(routed: Routed)
      requires Valid()
      modifies this`keepAlive, this`ioTx, this`resp, this`regs, parser.req`err, ioTx, ioTx.buf
      ensures Valid() && (ioTx == old(ioTx) || (fresh(ioTx) && fresh(ioTx.buf))) && fresh(resp)
      ensures parser.View() == Judged(old(parser.View()), Route, routed)
      ensures regs == old(regs) + [Out] && Handled(Route, routed)
      ensures routed.err == NoErr ==> keepAlive == old(keepAlive)
    {
      hide IsErrorText, IsAnswer, Padded, FailedWith, IsPadded, Lists, Section, StatusLine, Tail;
      resp := new Resp();
      if routed.err != NoErr {
        parser.req.err := routed.err;
        Fail();
      } else {
        Answer(routed);
      }
    }

    /** The end of on_rx for a routed request. */
    method Answer(routed: Routed)
      requires Valid()
      modifies this`ioTx, this`regs, ioTx, ioTx.buf, resp
      ensures Valid() && (ioTx == old(ioTx) || (fresh(ioTx) && fresh(ioTx.buf))) && regs == old(regs) + [Out]
      ensures IsAnswer(ioTx.Unsent(), routed)
    {
      hide Lists, Section, StatusLine, Tail, Padded;
      resp.statusCode, resp.reason := routed.statusCode, routed.reason;
      resp.fields, resp.content := routed.fields, routed.content;
      ghost var order;
      var text;
      text, order := resp.ToStr();
      PrepareTx(text);
      Reg(Out);
      assert AnswerText(routed, order) == text;
    }

    /** handle_in: receive, and hand everything received so far to on_rx, even when
        the peer has shut down; a failed connection, or one with nothing received,
        is closed. Reports what on_rx decided, if it was called. */
    method HandleIn(config: Config, routed: Routed) returns (r: IoStatus, v: Option<Verdict>)
      requires Valid() && NoResponse() && !parser.req.View().Faulted()
      modifies Repr()
      ensures Valid() && fresh(Repr() - old(Repr())) && skt.wire == old(skt.wire)
      ensures skt.delivered == old(skt.delivered + Arrived(skt.rxPlan))
      ensures skt.rxPlan == Behind(old(Ahead(skt.rxPlan)))
      ensures match r
              case COMPLETE => AtEof(old(Ahead(skt.rxPlan)))
              case PARTIAL => Blocked(old(Ahead(skt.rxPlan)))
              case ERROR => Broken(old(Ahead(skt.rxPlan)))
      ensures ioRx == old(ioRx + KeptBytes(Arrived(skt.rxPlan), r == ERROR))
      ensures r == PARTIAL ==> skt.wouldBlock
      ensures v.None? <==> r == ERROR || ioRx == ""
      ensures match v
              case None =>
                && regs == old(regs) && closes == old(closes) + 1 && crashed == old(crashed)
                && parser.View() == old(parser.View()) && NoResponse()
              case Some(w) =>
                && (parser.View(), w) == Outcome(old(parser.View()), ioRx, config, routed)
                && regs == old(regs) + MaskFor(w) && closes == old(closes)
                && crashed == (old(crashed) || w == Crash) && Handled(w, routed)
                && (w == NeedMore ==> NoResponse())
                && (w == Crash || w == NeedMore || (w == Route && routed.err == NoErr) ==>
                      keepAlive == (old(keepAlive) && r != COMPLETE))
    {
      hide Received, Handled, Padded, IsPadded, Work, IsRxPlan, Arrived, Ahead, KeptBytes, Outcome;
      r := DoRx();
      if r != ERROR && ioRx != "" {
        var w := OnRx(config, routed);
        return r, Some(w);
      }
      OnClose();
      v := None;
    }
  }

  lemma PaddedStays(tx: string, n: nat)
    requires n <= |tx|
    ensures IsPadded(Padded(tx[..n])) && (n == |tx| ==> tx[..n] == tx)
  {
    PaddedAgain(tx[..n], 0);
    assert Padded(tx[..n])[0..] == Padded(tx[..n]);
  }

  lemma JoinBytes(a: string, b: string, c: string)
    ensures a + b + c == a + (b + c)
  {
  }

  lemma SplitSlice(s: string, from: nat, n: nat, to: nat)
    requires from + n <= to <= |s|
    ensures s[from..to][..n] == s[from..from + n] && s[from..to][n..] == s[from + n..to]
  {
  }

  lemma MoveSent(wire: string, unsent: string, n: nat)
    requires n <= |unsent|
    ensures wire + unsent[..n] + unsent[n..] == wire + unsent
  {
    assert unsent[..n] + unsent[n..] == unsent;
  }

  lemma PaddedTail(unsent: string, n: nat)
    requires n <= |unsent| && IsPadded(unsent)
    ensures IsPadded(unsent[n..])
  {
    PaddedAgain(unsent, n);
  }

  lemma RejectHasErr(c: ConnV, raw: string, config: Config)
    requires Received(c, raw, config).1 == Reject
    ensures Received(c, raw, config).0.req.HasErr()
  {
    hide HeaderStep, Content.WithContent;
  }

  // ------------------------------------------------------------ error text

  predicate Plain(s: string) { forall i :: 0 <= i < |s| ==> s[i] != NUL }

  lemma {:induction false} PlainSection(order: seq<Field>, bound: nat)
    requires forall i :: 0 <= i < |order| ==> Plain(order[i].0) && Plain(order[i].1) && |order[i].0| + |order[i].1| <= bound
    ensures Plain(Section(order)) && |Section(order)| <= |order| * (bound + 4)
    decreases |order|
  {
    if order != [] {
      PlainSection(order[1..], bound);
    }
  }

  lemma {:induction false} PlainDec(n: nat)
    ensures Plain(DecPrint(n)) && (n < 1000 ==> |DecPrint(n)| <= 3)
  {
    if n >= 10 {
      PlainDec(n / 10);
    }
  }

  /** The error response holds no NUL, so it is copied as it is. */
  lemma {:induction false} ErrorTextPlain(text: string, e: Err, order: seq<Field>)
    requires Lists(order, ERROR_FIELDS)
    requires text == StatusLine(StatusCode(e), Reason(e)) + Section(order) + Tail("")
    ensures |text| < U32 && Padded(text) == text && IsErrorText(text, e)
  {
    forall i | 0 <= i < |order|
      ensures Plain(order[i].0) && Plain(order[i].1) && |order[i].0| + |order[i].1| <= 20
    {
      assert order[i].0 == "Content-Length" || order[i].0 == "Connection";
    }
    PlainSection(order, 20);
    PlainStatus(e);
    assert text == StatusLine(StatusCode(e), Reason(e)) + Section(order);
    assert |ERROR_FIELDS| == 2;
    PaddedIff(text);
  }

  lemma PlainStatus(e: Err)
    ensures var s := StatusLine(StatusCode(e), Reason(e)); Plain(s) && |s| < 100
  {
    hide DecPrint;
    PlainDec(StatusCode(e));
    PlainReason(e);
  }

  lemma PlainReason(e: Err)
    ensures Plain(Reason(e)) && |Reason(e)| < 40 && StatusCode(e) < 1000
  {
  }
}
