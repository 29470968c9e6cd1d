/** Safety of the connection protocol in every reachable state, for any number of
    workers, any interleaving and any answers of the kernel. */
module OwnershipRuns {
  import opened Epoll
  import opened Protocol
  import opened Ownership
  import opened OwnershipSteps

  predicate Run(s: Sys, steps: seq<Step>)
    decreases |steps|
  {
    steps == [] || (Enabled(s, steps[0]) && Run(Next(s, steps[0]), steps[1..]))
  }

  function After(s: Sys, steps: seq<Step>): Sys
    requires Run(s, steps)
    decreases |steps|
  {
    if steps == [] then s else After(Next(s, steps[0]), steps[1..])
  }

  ghost predicate Reachable(s: Sys) {
    exists workers: nat, cap: nat, steps: seq<Step> ::
      Run(Init(workers, cap), steps) && After(Init(workers, cap), steps) == s
  }

  lemma {:induction false} RunKeeps(s: Sys, p: Places, steps: seq<Step>) returns (q: Places)
    requires Inv(s, p) && Run(s, steps)
    ensures Inv(After(s, steps), q)
    decreases |steps|
  {
    hide Inv, Enabled, Next, NextPlaces;
    q := p;
    if steps != [] {
      StepKeeps(s, p, steps[0]);
      q := RunKeeps(Next(s, steps[0]), NextPlaces(s, p, steps[0]), steps[1..]);
    }
  }

  lemma ReachableIsOk(s: Sys) returns (p: Places)
    requires Reachable(s)
    ensures Inv(s, p)
  {
    hide Inv, Enabled, Next, Init;
    var workers: nat, cap: nat, steps: seq<Step> :|
      Run(Init(workers, cap), steps) && After(Init(workers, cap), steps) == s;
    InitIsOk(workers, cap);
    p := RunKeeps(Init(workers, cap), map[], steps);
  }

  // --------------------------------------------------------- mutual exclusion

  /** The thread may read or write fields of c: while it sets c up, in a callback up
      to the epoll_ctl that arms c again, and to destroy it. */
  predicate Touches(pc: Pc, c: Conn) {
    match pc
    case SettingUp(d) => c == d
    case Running(d, _) => c == d
    case Erased(d) => c == d
    case RegLook(d, _) => c == d
    case RegCtl(d, _, _) => c == d
    case Closing(d) => c == d
    case _ => false
  }

  lemma TouchPlace(s: Sys, p: Places, t: nat, c: Conn)
    requires Inv(s, p) && At(s, t) && Touches(PcOf(s, t), c)
    ensures IsOpen(s, c) && (Place(p, c) == AtThread(t) || Place(p, c) == Shut(t))
  {
    hide SlotsOk, FdsOk, PlacesOk, CountOk;
    assert ThreadOk(s, p, t);
  }

  /** No two threads ever touch the same connection, nor two that share a descriptor. */
  lemma MutualExclusion(s: Sys, i: nat, j: nat, c: Conn, d: Conn)
    requires Reachable(s) && At(s, i) && At(s, j) && i != j
    requires Touches(PcOf(s, i), c) && Touches(PcOf(s, j), d)
    ensures c.fd != d.fd
  {
    hide Inv, Reachable;
    var p := ReachableIsOk(s);
    TouchPlace(s, p, i, c);
    TouchPlace(s, p, j, d);
  }

  /** Whoever touches or refers to a connection, its socket has not been closed and
      its number has not been given to another. */
  lemma HeldStaysOpen(s: Sys, t: nat, c: Conn)
    requires Reachable(s) && At(s, t)
    requires InConns(s, c) || Holds(PcOf(s, t), c) || Touches(PcOf(s, t), c)
    ensures IsOpen(s, c)
  {
    hide Inv, Reachable;
    var p := ReachableIsOk(s);
    if Touches(PcOf(s, t), c) {
      TouchPlace(s, p, t, c);
    } else {
      RefsAreOpen(s, p, c, |s.threads|);
    }
  }

  // ---------------------------------------------------------------- one place

  /** t sets c up, has dequeued its event or is in its callback. */
  predicate HeldBy(s: Sys, t: nat, c: Conn) {
    At(s, t) && Owns(PcOf(s, t), c)
  }

  ghost predicate Held(s: Sys, c: Conn) { exists t :: HeldBy(s, t, c) }

  ghost predicate Queued(s: Sys, c: Conn) { exists t, k :: PendingAt(s, t, k, c) }

  lemma ByPlace(s: Sys, p: Places, c: Conn)
    requires Inv(s, p)
    ensures ArmedAt(s, c) <==> Place(p, c) == Armed
    ensures c in s.lost <==> Place(p, c) == Lost
    ensures forall t :: HeldBy(s, t, c) <==> Place(p, c) == AtThread(t)
    ensures forall t, k :: PendingAt(s, t, k, c) <==> Place(p, c) == Slot(t, k)
  {
    hide Inv;
    InvParts(s, p);
    PlaceHere(s, p, c);
    if ArmedAt(s, c) {
      ArmedIsOpen(s, p, c);
    }
    forall t | HeldBy(s, t, c)
      ensures Place(p, c) == AtThread(t)
    {
      OwnerIsOpen(s, p, t, c);
    }
    forall t, k | PendingAt(s, t, k, c)
      ensures Place(p, c) == Slot(t, k)
    {
      SlotIsOpen(s, p, t, k);
    }
  }

  lemma InvParts(s: Sys, p: Places)
    requires Inv(s, p)
    ensures At(s, 0) && ThreadsOk(s, p) && SlotsOk(s, p) && FdsOk(s, p) && PlacesOk(s, p) && CountOk(s)
  {
  }

  /** A connection in conns_ is with one thread, armed, queued once in one batch, or
      lost: exactly one of these. */
  lemma ExactlyOnePlace(s: Sys, c: Conn)
    requires Reachable(s) && InConns(s, c)
    ensures Held(s, c) || ArmedAt(s, c) || Queued(s, c) || c in s.lost
    ensures !(Held(s, c) && ArmedAt(s, c)) && !(Held(s, c) && Queued(s, c)) && !(Held(s, c) && c in s.lost)
    ensures !(ArmedAt(s, c) && Queued(s, c)) && !(ArmedAt(s, c) && c in s.lost) && !(Queued(s, c) && c in s.lost)
    ensures forall t, u :: HeldBy(s, t, c) && HeldBy(s, u, c) ==> t == u
    ensures forall t, k, u, l :: PendingAt(s, t, k, c) && PendingAt(s, u, l, c) ==> t == u && k == l
  {
    hide Inv, Reachable, HeldBy, PendingAt, ArmedAt;
    var p := ReachableIsOk(s);
    InvParts(s, p);
    ConnIsOpen(s, p, c);
    ByPlace(s, p, c);
    PlaceHere(s, p, c);
    match Place(p, c)
    case AtThread(t) => assert HeldBy(s, t, c);
    case Slot(t, k) => assert PendingAt(s, t, k, c);
    case _ =>
  }

  /** And a connection armed, queued or lost is in conns_: no event outlives it. */
  lemma WaitingMeansLive(s: Sys, c: Conn)
    requires Reachable(s) && (ArmedAt(s, c) || Queued(s, c) || c in s.lost)
    ensures InConns(s, c) && IsOpen(s, c)
  {
    hide Inv, Reachable, PendingAt, ArmedAt, InConns, IsOpen;
    var p := ReachableIsOk(s);
    InvParts(s, p);
    ByPlace(s, p, c);
    if ArmedAt(s, c) {
      ArmedIsOpen(s, p, c);
    } else if Queued(s, c) {
      WaitingIsHeld(s, p, c);
      ConnIsOpen(s, p, c);
    } else {
      LostIsHeld(s, p, c);
      ConnIsOpen(s, p, c);
    }
  }

  lemma LostIsHeld(s: Sys, p: Places, c: Conn)
    requires Inv(s, p) && Place(p, c) == Lost
    ensures InConns(s, c)
  {
    hide Inv;
    PlaceHere(s, p, c);
  }

  // ----------------------------------------------------------- no fd confusion

  /** An event that resolves to a connection resolves to the one that armed it, and
      lock() after expired() said no yields a pointer. */
  lemma EventReachesItsConnection(s: Sys, t: nat)
    requires Reachable(s) && At(s, t)
    ensures PcOf(s, t) != NullConn
    ensures PcOf(s, t).Got? ==>
              (Expired(s, PcOf(s, t).weak) <==> PcOf(s, t).weak != Ref(PcOf(s, t).e.armer))
    ensures PcOf(s, t).Live? ==> PcOf(s, t).c == PcOf(s, t).e.armer && Refs(s, PcOf(s, t).c)
  {
    hide Inv, Reachable, ThreadsOk, SlotsOk, FdsOk, PlacesOk, CountOk;
    var p := ReachableIsOk(s);
    Known(s, p, t, Conn(0, 0));
    if PcOf(s, t).Got? && !Expired(s, PcOf(s, t).weak) {
      CheckVerdict(s, p, t);
    }
  }

  /** A dequeued event fails to resolve exactly while the acceptor, having armed the
      connection, has not stored it in events_ yet; otherwise it resolves to the
      connection that armed it. */
  lemma DroppedOnlyInTheWindow(s: Sys, t: nat)
    requires Reachable(s) && Enabled(s, Get(t))
    ensures var e := s.threads[t].batch[s.threads[t].next];
            && (Expired(s, Lookup(s, e.fd)) <==> PcOf(s, 0) == RegStore(e.armer))
            && (Expired(s, Lookup(s, e.fd)) || Lookup(s, e.fd) == Ref(e.armer))
  {
    hide Inv, Reachable, ThreadsOk, SlotsOk, FdsOk, PlacesOk, CountOk;
    var p := ReachableIsOk(s);
    var e := s.threads[t].batch[s.threads[t].next];
    PendingIsOk(s, p, t, s.threads[t].next);
    Known(s, p, 0, e.armer);
    var w := Lookup(s, e.fd);
    if w.Ref? && w.c != e.armer && !Expired(s, w) {
      RefsAreOpen(s, p, w.c, |s.threads|);
    }
  }

  /** reg asks for ADD exactly when the interest set does not have the descriptor, so
      the kernel never answers EEXIST or ENOENT. */
  lemma AddExactlyWhenAbsent(s: Sys, t: nat)
    requires Reachable(s) && At(s, t) && PcOf(s, t).RegCtl?
    ensures PcOf(s, t).op == Add <==> PcOf(s, t).c.fd !in s.interest
    ensures PcOf(s, t).op == Add <==> t == 0
    ensures Enabled(s, Ctl(t, true))
  {
    hide Inv, Reachable, ThreadsOk, SlotsOk, FdsOk, PlacesOk, CountOk;
    var p := ReachableIsOk(s);
    Known(s, p, t, PcOf(s, t).c);
  }

  // ---------------------------------------------------------------- accounting

  /** conns_ holds what was accepted and not erased, and never more than the cap. */
  lemma Accounting(s: Sys)
    requires Reachable(s)
    ensures At(s, 0)
    ensures s.accepted == s.erased + |s.conns| + (if PcOf(s, 0).SettingUp? then 1 else 0)
    ensures |s.conns| <= s.cap
    ensures PcOf(s, 0).SettingUp? ==> |s.conns| < s.cap
  {
    hide Reachable, ThreadsOk, SlotsOk, FdsOk, PlacesOk;
    var p := ReachableIsOk(s);
  }

  /** on_conn overwrites no entry, and on_close erases the entry of its own connection. */
  lemma OwnEntryOnly(s: Sys, t: nat)
    requires Reachable(s) && At(s, t)
    ensures PcOf(s, t).SettingUp? ==> PcOf(s, t).c.fd !in s.conns
    ensures Enabled(s, Erase(t)) ==> InConns(s, PcOf(s, t).c)
  {
    hide Inv, Reachable, ThreadsOk, SlotsOk, FdsOk, PlacesOk, CountOk;
    var p := ReachableIsOk(s);
    Known(s, p, t, Conn(0, 0));
  }

  /** c has been in conns_ and is not any more, or has never been and never will be. */
  predicate Departed(s: Sys, c: Conn) {
    c.id < s.nextId && !InConns(s, c) && At(s, 0) && PcOf(s, 0) != SettingUp(c)
  }

  /** What a step may do to the acceptor, conns_, the ids and the record of losses. */
  ghost predicate Modest(s: Sys, e: Step, s2: Sys) {
    && |s2.threads| == |s.threads|
    && (At(s, 0) ==> PcOf(s2, 0).SettingUp? ==> PcOf(s2, 0) == PcOf(s, 0))
    && s2.conns == s.conns && s2.nextId == s.nextId
    && forall c :: c in s.lost ==> c in s2.lost
  }

  lemma PollingStep(s: Sys, e: Step)
    requires Enabled(s, e) && (e.Poll? || e.Get? || e.Lock?)
    ensures Modest(s, e, Next(s, e))
  {
    hide Refs, Done;
  }

  lemma CheckStep(s: Sys, t: nat)
    requires Enabled(s, Check(t))
    ensures Modest(s, Check(t), Next(s, Check(t)))
  {
    hide Done, Expired;
    DoneFields(s, t);
  }

  lemma RegStep(s: Sys, e: Step)
    requires Enabled(s, e) && (e.Admit? || e.Look? || e.Ctl? || e.Store?)
    ensures Modest(s, e, Next(s, e))
  {
  }

  lemma LeavingStep(s: Sys, e: Step)
    requires Enabled(s, e) && (e.Leave? || e.Close?)
    ensures Modest(s, e, Next(s, e))
  {
    hide Done;
    DoneFields(s, e.t);
  }

  lemma CallbackStep(s: Sys, e: Step)
    requires Enabled(s, e) && (e.Rearm? || e.Ignore? || e.Notify?)
    ensures Modest(s, e, Next(s, e))
  {
  }

  lemma OtherStep(s: Sys, e: Step)
    requires Enabled(s, e) && !e.Accept? && !e.Insert? && !e.Erase?
    ensures Modest(s, e, Next(s, e))
  {
    hide Enabled, Next, Modest;
    if e.Poll? || e.Get? || e.Lock? {
      PollingStep(s, e);
    } else if e.Check? {
      CheckStep(s, e.t);
    } else if e.Leave? || e.Close? {
      LeavingStep(s, e);
    } else if e.Rearm? || e.Ignore? || e.Notify? {
      CallbackStep(s, e);
    } else {
      RegStep(s, e);
    }
  }

  lemma AcceptStep(s: Sys, fd: Fd)
    requires Enabled(s, Accept(fd))
    ensures var s2 := Next(s, Accept(fd));
            && |s2.threads| == |s.threads| && PcOf(s2, 0) == SettingUp(Conn(s.nextId, fd))
            && s2.conns == s.conns && s2.nextId == s.nextId + 1 && s2.lost == s.lost
  {
  }

  lemma InsertStep(s: Sys)
    requires Enabled(s, Insert)
    ensures var s2 := Next(s, Insert);
            && PcOf(s, 0).SettingUp? && |s2.threads| == |s.threads| && !PcOf(s2, 0).SettingUp?
            && s2.conns == s.conns[PcOf(s, 0).c.fd := PcOf(s, 0).c] && s2.nextId == s.nextId && s2.lost == s.lost
  {
  }

  lemma EraseStep(s: Sys, t: nat)
    requires Enabled(s, Erase(t))
    ensures var s2 := Next(s, Erase(t));
            && |s2.threads| == |s.threads| && (At(s, 0) && PcOf(s2, 0).SettingUp? ==> PcOf(s2, 0) == PcOf(s, 0))
            && s2.conns == s.conns - {PcOf(s, t).c.fd} && s2.nextId == s.nextId && s2.lost == s.lost
  {
  }

  lemma StaysDeparted(s: Sys, c: Conn, e: Step)
    requires Departed(s, c) && Enabled(s, e)
    ensures Departed(Next(s, e), c)
  {
    hide Enabled, Next;
    match e
    case Accept(fd) => AcceptStep(s, fd);
    case Insert => InsertStep(s);
    case Erase(t) => EraseStep(s, t);
    case _ => OtherStep(s, e);
  }

  lemma {:induction false} DepartedForGood(s: Sys, c: Conn, steps: seq<Step>)
    requires Departed(s, c) && Run(s, steps)
    ensures Departed(After(s, steps), c)
    decreases |steps|
  {
    if steps != [] {
      StaysDeparted(s, c, steps[0]);
      DepartedForGood(Next(s, steps[0]), c, steps[1..]);
    }
  }

  lemma EraseDeparts(s: Sys, t: nat)
    requires Reachable(s) && Enabled(s, Erase(t))
    ensures Departed(Next(s, Erase(t)), PcOf(s, t).c)
  {
    hide Inv, Reachable, ThreadsOk, SlotsOk, FdsOk, PlacesOk, CountOk;
    var p := ReachableIsOk(s);
    Known(s, p, t, PcOf(s, t).c);
    Known(s, p, 0, PcOf(s, t).c);
  }

  lemma ReachableNext(s: Sys, e: Step)
    requires Reachable(s) && Enabled(s, e)
    ensures Reachable(Next(s, e))
  {
    hide Enabled, Next, Init;
    var workers: nat, cap: nat, steps: seq<Step> :|
      Run(Init(workers, cap), steps) && After(Init(workers, cap), steps) == s;
    RunAppend(Init(workers, cap), steps, e);
    assert Run(Init(workers, cap), steps + [e]);
  }

  lemma {:induction false} RunAppend(s: Sys, steps: seq<Step>, e: Step)
    requires Run(s, steps) && Enabled(After(s, steps), e)
    ensures Run(s, steps + [e]) && After(s, steps + [e]) == Next(After(s, steps), e)
    decreases |steps|
  {
    hide Enabled, Next;
    if steps == [] {
      assert steps + [e] == [e];
      assert [e][1..] == [];
    } else {
      RunAppend(Next(s, steps[0]), steps[1..], e);
      assert (steps + [e])[1..] == steps[1..] + [e];
    }
  }

  lemma {:induction false} ReachableAfter(s: Sys, steps: seq<Step>)
    requires Reachable(s) && Run(s, steps)
    ensures Reachable(After(s, steps))
    decreases |steps|
  {
    hide Enabled, Next, Reachable;
    if steps != [] {
      ReachableNext(s, steps[0]);
      ReachableAfter(Next(s, steps[0]), steps[1..]);
    }
  }

  /** Once a connection has been erased, whatever happens in between, the next erase
      by any thread is of another one. */
  lemma ErasedOnce(s: Sys, t: nat, between: seq<Step>, u: nat)
    requires Reachable(s) && Enabled(s, Erase(t)) && Run(Next(s, Erase(t)), between)
    requires Enabled(After(Next(s, Erase(t)), between), Erase(u))
    ensures PcOf(After(Next(s, Erase(t)), between), u).c != PcOf(s, t).c
  {
    hide Reachable, Next, Run, After;
    var s1 := Next(s, Erase(t));
    EraseDeparts(s, t);
    ReachableNext(s, Erase(t));
    DepartedForGood(s1, PcOf(s, t).c, between);
    ReachableAfter(s1, between);
    OwnEntryOnly(After(s1, between), u);
  }

  // ---------------------------------------------------------- what is not safe

  lemma StaysLost(s: Sys, c: Conn, e: Step)
    requires c in s.lost && Enabled(s, e)
    ensures c in Next(s, e).lost
  {
    hide Enabled, Next;
    match e
    case Accept(fd) => AcceptStep(s, fd);
    case Insert => InsertStep(s);
    case Erase(t) => EraseStep(s, t);
    case _ => OtherStep(s, e);
  }

  /** Nobody ever closes a connection whose event was dropped, was of no kind the loop
      handles, or could not be armed again: it stays in conns_ and counts to the cap. */
  lemma {:induction false} LostForGood(s: Sys, c: Conn, steps: seq<Step>)
    requires Reachable(s) && c in s.lost && Run(s, steps)
    ensures c in After(s, steps).lost && InConns(After(s, steps), c)
    decreases |steps|
  {
    hide Enabled, Next, Reachable;
    if steps == [] {
      WaitingMeansLive(s, c);
    } else {
      StaysLost(s, c, steps[0]);
      ReachableNext(s, steps[0]);
      LostForGood(Next(s, steps[0]), c, steps[1..]);
    }
  }

  /** The acceptor has armed connection c and not stored it yet. */
  function InWindow(c: Conn): Sys {
    Sys([Thread(RegStore(c), [], 0), Thread(Polling, [], 0)], map[c.fd := c], map[c.fd := Empty],
        map[c.fd := Interest(true, In, c)], map[c.fd := c], 1, 1, 1, 0, map[])
  }

  lemma WindowOpens(fd: Fd)
    ensures Reachable(InWindow(Conn(0, fd)))
  {
    hide Reachable, Run, After;
    var c := Conn(0, fd);
    var s := Init(1, 1);
    InitIsReachable(1, 1);
    s := Take(s, Admit);
    s := Take(s, Accept(fd));
    s := Take(s, Insert);
    s := Take(s, Look(0));
    assert Lookup(s, fd) == Empty;
    s := Take(s, Ctl(0, true));
    assert s == InWindow(c);
  }

  /** A worker has dequeued its first event and looked it up. */
  function TakenInWindow(c: Conn): Sys {
    var e := Event(c.fd, ReadyIn, c);
    InWindow(c).(threads := [Thread(RegStore(c), [], 0), Thread(Got(e, Empty), [e], 0)],
                 interest := map[c.fd := Interest(false, In, c)])
  }

  lemma DisarmedOne(fd: Fd, e: Event, c: Conn)
    requires e.fd == fd
    ensures Disarmed(map[fd := Interest(true, In, c)], [e]) == map[fd := Interest(false, In, c)]
  {
    var d := Disarmed(map[fd := Interest(true, In, c)], [e]);
    assert [e][0].fd == fd;
    assert fd in d && d[fd] == Interest(false, In, c);
  }

  lemma WindowUsed(fd: Fd)
    ensures Reachable(TakenInWindow(Conn(0, fd)))
  {
    hide Reachable, Run, After;
    var c := Conn(0, fd);
    var e := Event(fd, ReadyIn, c);
    WindowOpens(fd);
    var s := InWindow(c);
    s := Take(s, Poll(1, [e]));
    DisarmedOne(fd, e, c);
    assert s.threads[1] == Thread(Polling, [e], 0);
    s := Take(s, Get(1));
    assert s == TakenInWindow(c);
  }

  /** The window is real: a worker takes the first event of a connection after the
      acceptor's epoll_ctl and before its store. */
  lemma WindowExample(fd: Fd) returns (s: Sys)
    ensures Reachable(s) && s.lost == map[Conn(0, fd) := DroppedInWindow]
  {
    hide Reachable, Run, After;
    WindowUsed(fd);
    s := Take(TakenInWindow(Conn(0, fd)), Check(1));
  }

  lemma InitIsReachable(workers: nat, cap: nat)
    ensures Reachable(Init(workers, cap))
  {
    assert Run(Init(workers, cap), []);
  }

  lemma Take(s: Sys, e: Step) returns (t: Sys)
    requires Reachable(s) && Enabled(s, e)
    ensures Reachable(t) && t == Next(s, e)
  {
    hide Enabled, Next;
    ReachableNext(s, e);
    t := Next(s, e);
  }
}
