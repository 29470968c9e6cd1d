/** Runs of one connection that has something to send. The event loop hands a
    connection to one thread at a time, so its calls come one after the other. */
module Lifecycle {
  import opened Epoll
  import opened Message
  import opened Receive
  import opened Transport
  import opened Connection

  /** What epoll can report for an armed connection: an error, what it is armed for,
      or neither of the conditions the loop looks at. */
  datatype Readiness = ErrReady | IoReady | OtherReady

  datatype Ending = Sent | Closed | Waiting | Dropped

  predicate OnlyOut(regs: seq<Mask>) {
    forall i :: 0 <= i < |regs| ==> regs[i] == Out
  }

  /** What one event adds to the registrations. */
  function Added(end: Ending, keepAlive: bool): seq<Mask> {
    match end
    case Waiting => [Out]
    case Sent => if keepAlive then [In] else []
    case _ => []
  }

  function ClosesOf(end: Ending, keepAlive: bool): nat {
    if end == Closed || (end == Sent && !keepAlive) then 1 else 0
  }

  /** The parsing half after sending: ready for another request on a connection that
      is kept alive and has sent everything, else as it was. */
  ghost predicate Settles(c: Conn, end: Ending, before: ConnV)
    reads c, c.parser, c.parser.req, c.parser.req.uri, c.resp
  {
    if end == Sent && c.keepAlive then c.Restarted() else c.parser.View() == before
  }

  /** One event of a connection armed for OUT. */
  method SendOne(c: Conn, event: Readiness) returns (end: Ending)
    requires c.Valid()
    modifies c.Repr()
    ensures c.Valid() && fresh(c.Repr() - old(c.Repr())) && c.ioTx == old(c.ioTx)
    ensures c.skt.wire + c.ioTx.Unsent() == old(c.skt.wire + c.ioTx.Unsent()) && old(c.skt.wire) <= c.skt.wire
    ensures end == Sent ==> c.ioTx.Unsent() == ""
    ensures c.keepAlive == old(c.keepAlive) && c.ioRx == old(c.ioRx) && c.crashed == old(c.crashed)
    ensures c.regs == old(c.regs) + Added(end, c.keepAlive)
    ensures c.closes == old(c.closes) + ClosesOf(end, c.keepAlive)
    ensures Settles(c, end, old(c.parser.View()))
  {
    hide Padded, IsPadded, IsRxPlan, Conn.Restarted;
    match event {
      case ErrReady =>
        c.OnClose();
        end := Closed;
      case IoReady =>
        var r := c.HandleOut();
        end := if r == COMPLETE then Sent else if r == ERROR then Closed else Waiting;
      case OtherReady =>
        end := Dropped;
    }
  }

  /** added is what a run may register: OUT, and IN only once all has been sent on a
      connection that is kept alive. */
  predicate MayAdd(added: seq<Mask>, end: Ending, keepAlive: bool) {
    if end == Sent && keepAlive then added != [] && added[|added| - 1] == In && OnlyOut(added[..|added| - 1])
    else OnlyOut(added)
  }

  lemma MayAddMore(added: seq<Mask>, end: Ending, keepAlive: bool)
    requires OnlyOut(added)
    ensures MayAdd(added + Added(end, keepAlive), end, keepAlive)
  {
    var all := added + Added(end, keepAlive);
    if end == Sent && keepAlive {
      assert all[..|all| - 1] == added;
    }
  }

  /** The event loop on a connection armed for OUT, for any events and any behaviour
      of the socket: it is only armed for OUT again, whatever happens the bytes sent
      followed by the bytes left are the response, and it ends sent in full, closed
      once, still armed, or dropped. */
  method SendRun(c: Conn, events: seq<Readiness>) returns (end: Ending)
    requires c.Valid()
    modifies c.Repr()
    ensures c.Valid() && fresh(c.Repr() - old(c.Repr()))
    ensures c.skt.wire + c.ioTx.Unsent() == old(c.skt.wire + c.ioTx.Unsent()) && old(c.skt.wire) <= c.skt.wire
    ensures c.keepAlive == old(c.keepAlive) && c.ioRx == old(c.ioRx) && c.crashed == old(c.crashed)
    ensures end == Sent ==> c.skt.wire == old(c.skt.wire + c.ioTx.Unsent())
    ensures old(c.regs) <= c.regs && MayAdd(c.regs[|old(c.regs)|..], end, c.keepAlive)
    ensures c.closes == old(c.closes) + ClosesOf(end, c.keepAlive)
    ensures Settles(c, end, old(c.parser.View()))
  {
    hide Padded, IsPadded, IsRxPlan, MayAdd, OnlyOut, Added, Conn.Restarted;
    end := Waiting;
    ghost var regs0, added := c.regs, [];
    NoneAdded();
    var i := 0;
    while i < |events| && end == Waiting
      invariant c.Valid() && fresh(c.Repr() - old(c.Repr())) && c.ioTx == old(c.ioTx)
      invariant c.keepAlive == old(c.keepAlive) && c.ioRx == old(c.ioRx) && c.crashed == old(c.crashed)
      invariant c.skt.wire + c.ioTx.Unsent() == old(c.skt.wire + c.ioTx.Unsent()) && old(c.skt.wire) <= c.skt.wire
      invariant end == Sent ==> c.ioTx.Unsent() == ""
      invariant c.regs == regs0 + added && MayAdd(added, end, c.keepAlive)
      invariant c.closes == old(c.closes) + ClosesOf(end, c.keepAlive)
      invariant Settles(c, end, old(c.parser.View()))
      decreases |events| - i
    {
      WaitingAdds(added, c.keepAlive);
      end := SendOne(c, events[i]);
      MayAddMore(added, end, c.keepAlive);
      JoinMasks(regs0, added, Added(end, c.keepAlive));
      added := added + Added(end, c.keepAlive);
      i := i + 1;
    }
    assert c.regs[|regs0|..] == added;
  }

  lemma JoinMasks(a: seq<Mask>, b: seq<Mask>, c: seq<Mask>)
    ensures a + b + c == a + (b + c)
  {
  }

  lemma NoneAdded()
    ensures forall keepAlive :: MayAdd([], Waiting, keepAlive)
  {
  }

  lemma WaitingAdds(added: seq<Mask>, keepAlive: bool)
    requires MayAdd(added, Waiting, keepAlive)
    ensures OnlyOut(added)
  {
  }

  lemma AfterOut(before: seq<Mask>, regs: seq<Mask>, end: Ending)
    requires before + [Out] <= regs && MayAdd(regs[|before| + 1..], end, false)
    ensures before <= regs && regs[|before|..] != [] && OnlyOut(regs[|before|..])
  {
    assert regs[|before|..] == [Out] + regs[|before| + 1..];
  }

  /** A request that is rejected, by a parser or by the router: from then on the
      connection is registered for OUT only and never for input again, keep-alive
      stays off, at most one close is asked for, and if the transmission completes
      then exactly the error's response has been sent and exactly one close follows. */
  method ErrorRun(c: Conn, config: Config, routed: Routed, events: seq<Readiness>) returns (e: Err, end: Ending)
    requires c.Valid() && c.NoResponse() && !c.parser.req.View().Faulted()
    requires var v := Received(c.parser.View(), c.ioRx, config).1; v == Reject || (v == Route && routed.err != NoErr)
    modifies c.Repr()
    ensures var (d, v) := old(Received(c.parser.View(), c.ioRx, config));
            e == if v == Reject then d.req.err else routed.err
    ensures c.Valid() && !c.keepAlive && old(c.regs) <= c.regs
    ensures var added := c.regs[|old(c.regs)|..]; added != [] && OnlyOut(added)
    ensures c.closes == old(c.closes) + if end == Sent || end == Closed then 1 else 0
    ensures exists text :: IsErrorText(text, e) && old(c.skt.wire) <= c.skt.wire <= old(c.skt.wire) + text
              && (end == Sent ==> c.skt.wire == old(c.skt.wire) + text)
  {
    hide Received, IsErrorText, Padded, IsPadded, IsRxPlan, Settles, MayAdd, Conn.NoResponse;
    var v := c.OnRx(config, routed);
    e := if v == Reject then c.parser.req.err else routed.err;
    ghost var text := c.ioTx.Unsent();
    assert IsErrorText(text, e);
    end := SendRun(c, events);
    AfterOut(old(c.regs), c.regs, end);
  }
}
