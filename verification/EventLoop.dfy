/** The event loop's and the server's methods over their shared tables, each run
    without interruption, against the steps of the protocol they are made of. */
module EventLoop {
  import opened Epoll
  import opened Protocol
  import opened OwnershipRuns

  datatype Resolved = NoConn | AConn(c: Conn)

  class Tables {
    var conns: map<Fd, Conn>
    var events: map<Fd, Weak>
    var interest: map<Fd, Interest>

    /** The state of the whole system: rest gives the threads and the kernel's side. */
    function In(rest: Sys): Sys
      reads this
    {
      rest.(conns := conns, events := events, interest := interest)
    }

    /** The tables are those of s. */
    predicate Are(s: Sys)
      reads this
    {
      conns == s.conns && events == s.events && interest == s.interest
    }

    /** get_event: events_[fd] also makes an entry. */
    method GetEvent(fd: Fd) returns (w: Weak)
      modifies this`events
      ensures old(fd in events) ==> w == old(events[fd]) && events == old(events)
      ensures old(fd !in events) ==> w == Empty && events == old(events)[fd := Empty]
    {
      if fd !in events {
        events := events[fd := Empty];
      }
      w := events[fd];
      assert events == old(events)[fd := w];
    }

    /** epoll_ctl, which fails on the wrong operation and may fail otherwise. */
    method EpollCtl(op: Op, c: Conn, mask: Mask, willing: bool) returns (ok: bool)
      modifies this`interest
      ensures ok == (willing && (op == Add <==> c.fd !in old(interest)))
      ensures interest == if ok then old(interest)[c.fd := Interest(true, mask, c)] else old(interest)
    {
      ok := willing && (op == Add) == (c.fd !in interest);
      if ok {
        interest := interest[c.fd := Interest(true, mask, c)];
      }
    }

    /** reg: look up, epoll_ctl, store. In a state the system can reach it fails only
        when the kernel is not willing. */
    method Reg(rest: Sys, t: nat, willing: bool) returns (ok: bool)
      requires At(rest, t) && PcOf(rest, t).RegLook?
      modifies this`events, this`interest
      ensures Run(old(In(rest)), RegSteps(t, ok)) && Are(After(old(In(rest)), RegSteps(t, ok)))
      ensures ok ==> interest == old(interest)[PcOf(rest, t).c.fd := Interest(true, PcOf(rest, t).mask, PcOf(rest, t).c)]
      ensures ok ==> willing
      ensures Reachable(old(In(rest))) ==> ok == willing
    {
      hide Reachable, Run, After, Expired;
      var c, mask := PcOf(rest, t).c, PcOf(rest, t).mask;
      ghost var s := In(rest);
      var op := Mod;
      var w := GetEvent(c.fd);
      ExpiredSame(s, In(rest), w);
      if Expired(In(rest), w) {
        op := Add;
      }
      ok := EpollCtl(op, c, mask, willing);
      if Reachable(s) {
        RegAsksRight(s, t);
      }
      if !ok {
        RegFails(s, t);
        return;
      }
      RegSucceeds(s, t);
      events := events[c.fd := Ref(c)];
    }

    /** The start of an iteration of the loop: an event resolves to the connection
        that armed it, unless the acceptor is between arming and storing that one. */
    method Resolve(rest: Sys, t: nat) returns (r: Resolved)
      requires Enabled(In(rest), Get(t)) && Reachable(In(rest))
      modifies this`events
      ensures Are(Next(old(In(rest)), Get(t)))
      ensures var e := rest.threads[t].batch[rest.threads[t].next];
              r == if PcOf(rest, 0) == RegStore(e.armer) then NoConn else AConn(e.armer)
    {
      hide Reachable, Expired;
      var e := rest.threads[t].batch[rest.threads[t].next];
      ghost var s := In(rest);
      var w := GetEvent(e.fd);
      assert w == Lookup(s, e.fd);
      DroppedOnlyInTheWindow(s, t);
      ExpiredSame(s, In(rest), w);
      if Expired(In(rest), w) {
        return NoConn;
      }
      return AConn(w.c);
    }

    /** on_conn's entry. */
    method OnConn(rest: Sys)
      requires Enabled(In(rest), Insert)
      modifies this`conns
      ensures Are(Next(old(In(rest)), Insert))
    {
      var c := PcOf(rest, 0).c;
      conns := conns[c.fd := c];
    }

    /** on_close's erase. */
    method OnClose(rest: Sys, t: nat)
      requires Enabled(In(rest), Erase(t))
      modifies this`conns
      ensures Are(Next(old(In(rest)), Erase(t)))
    {
      var c := PcOf(rest, t).c;
      conns := conns - {c.fd};
    }
  }

  function RegSteps(t: nat, ok: bool): seq<Step> {
    if ok then [Look(t), Ctl(t, true), Store(t)] else [Look(t), Ctl(t, false)]
  }

  lemma {:induction false} RunOfTwo(s: Sys, a: Step, b: Step)
    requires Enabled(s, a) && Enabled(Next(s, a), b)
    ensures Run(s, [a, b]) && After(s, [a, b]) == Next(Next(s, a), b)
  {
    hide Enabled, Next;
    assert [a, b][1..] == [b] && [b][1..] == [];
    var s1 := Next(s, a);
    assert Run(s1, [b]) && After(s1, [b]) == After(Next(s1, b), []);
  }

  lemma {:induction false} RunOfThree(s: Sys, a: Step, b: Step, c: Step)
    requires Enabled(s, a) && Enabled(Next(s, a), b) && Enabled(Next(Next(s, a), b), c)
    ensures Run(s, [a, b, c]) && After(s, [a, b, c]) == Next(Next(Next(s, a), b), c)
  {
    hide Enabled, Next;
    assert [a, b, c][1..] == [b, c];
    RunOfTwo(Next(s, a), b, c);
  }

  /** The tables after the steps of reg, if epoll_ctl fails. */
  lemma RegFails(s: Sys, t: nat)
    requires At(s, t) && PcOf(s, t).RegLook?
    ensures Run(s, RegSteps(t, false))
    ensures var fd, u := PcOf(s, t).c.fd, After(s, RegSteps(t, false));
            u.conns == s.conns && u.interest == s.interest && u.events == s.events[fd := Lookup(s, fd)]
  {
    hide Reachable, Run, After, Expired;
    RunOfTwo(s, Look(t), Ctl(t, false));
  }

  /** And if it succeeds, as it can if it is asked for the right operation. */
  lemma RegSucceeds(s: Sys, t: nat)
    requires At(s, t) && PcOf(s, t).RegLook?
    requires Expired(s, Lookup(s, PcOf(s, t).c.fd)) <==> PcOf(s, t).c.fd !in s.interest
    ensures Run(s, RegSteps(t, true))
    ensures var RegLook(c, mask) := PcOf(s, t);
            var u := After(s, RegSteps(t, true));
            && u.conns == s.conns && u.interest == s.interest[c.fd := Interest(true, mask, c)]
            && u.events == s.events[c.fd := Ref(c)]
  {
    hide Reachable, Run, After, Expired;
    var c := PcOf(s, t).c;
    var s1 := Next(s, Look(t));
    var s2 := Next(s1, Ctl(t, true));
    RunOfThree(s, Look(t), Ctl(t, true), Store(t));
    assert s1.events[c.fd := Ref(c)] == s.events[c.fd := Ref(c)];
  }

  /** In a reachable state it is. */
  lemma RegAsksRight(s: Sys, t: nat)
    requires Reachable(s) && At(s, t) && PcOf(s, t).RegLook?
    ensures Expired(s, Lookup(s, PcOf(s, t).c.fd)) <==> PcOf(s, t).c.fd !in s.interest
  {
    hide Reachable, Expired;
    ReachableNext(s, Look(t));
    AddExactlyWhenAbsent(Next(s, Look(t)), t);
  }

  lemma ExpiredSame(s: Sys, s2: Sys, w: Weak)
    requires s2.threads == s.threads && s2.conns == s.conns
    ensures Expired(s2, w) == Expired(s, w)
  {
  }
}
