/** What a connection is armed for: in every reachable state, for any interleaving, it
    is what its handlers last asked for, and they are called for nothing else. */
module ArmedRuns {
  import opened Epoll
  import opened Protocol
  import opened Ownership
  import opened OwnershipSteps
  import opened OwnershipRuns

  /** What a step asks reg for on behalf of c: on_conn asks for IN, a handler for what
      it decides on. */
  function AskedBy(s: Sys, e: Step, c: Conn): seq<Mask>
    requires Enabled(s, e)
  {
    match e
    case Insert => if PcOf(s, 0).c == c then [In] else []
    case Rearm(t, mask) => if PcOf(s, t).c == c then [mask] else []
    case _ => []
  }

  /** All that is asked for c along a run, in order. */
  function Asked(s: Sys, steps: seq<Step>, c: Conn): seq<Mask>
    requires Run(s, steps)
    decreases |steps|
  {
    if steps == [] then [] else AskedBy(s, steps[0], c) + Asked(Next(s, steps[0]), steps[1..], c)
  }

  predicate Last(asked: seq<Mask>, mask: Mask) {
    asked != [] && asked[|asked| - 1] == mask
  }

  /** An event for input or output was asked for. */
  predicate Meant(ready: Ready, asked: seq<Mask>) {
    (ready == ReadyIn ==> Last(asked, In)) && (ready == ReadyOut ==> Last(asked, Out))
  }

  predicate PcAgrees(pc: Pc, c: Conn, asked: seq<Mask>) {
    match pc
    case RegLook(d, mask) => d == c ==> Last(asked, mask)
    case RegCtl(d, mask, _) => d == c ==> Last(asked, mask)
    case Got(e, _) => e.armer == c ==> Meant(e.ready, asked)
    case Live(e, _) => e.armer == c ==> Meant(e.ready, asked)
    case Running(d, ready) => d == c ==> Meant(ready, asked)
    case _ => true
  }

  ghost predicate ThreadsAgree(s: Sys, c: Conn, asked: seq<Mask>) {
    forall t: nat :: At(s, t) ==> PcAgrees(PcOf(s, t), c, asked)
  }

  predicate ArmedAgrees(s: Sys, c: Conn, asked: seq<Mask>) {
    ArmedAt(s, c) ==> Last(asked, s.interest[c.fd].mask)
  }

  ghost predicate QueuedAgrees(s: Sys, c: Conn, asked: seq<Mask>) {
    forall t: nat, k: nat :: PendingAt(s, t, k, c) ==> Meant(s.threads[t].batch[k].ready, asked)
  }

  /** Whatever concerns c, wherever it is, agrees with what was last asked for. */
  ghost predicate Agrees(s: Sys, c: Conn, asked: seq<Mask>) {
    ThreadsAgree(s, c, asked) && ArmedAgrees(s, c, asked) && QueuedAgrees(s, c, asked)
  }

  // ------------------------------------------------------------- asking steps

  /** What is pending for u was pending for s already. */
  ghost predicate QueuesShrink(s: Sys, u: Sys) {
    forall t: nat, k: nat :: At(u, t) && Pending(u.threads[t], k) ==>
      At(s, t) && Pending(s.threads[t], k) && u.threads[t].batch == s.threads[t].batch
  }

  lemma StillQueued(s: Sys, u: Sys, c: Conn, asked: seq<Mask>)
    requires QueuesShrink(s, u)
    ensures forall t: nat, k: nat :: PendingAt(u, t, k, c) ==> PendingAt(s, t, k, c)
    ensures QueuedAgrees(s, c, asked) ==> QueuedAgrees(u, c, asked)
  {
    hide Meant;
    forall t: nat, k: nat | PendingAt(u, t, k, c)
      ensures PendingAt(s, t, k, c)
    {
      assert At(u, t) && Pending(u.threads[t], k);
    }
    if QueuedAgrees(s, c, asked) {
      forall t: nat, k: nat | PendingAt(u, t, k, c)
        ensures Meant(u.threads[t].batch[k].ready, asked)
      {
        assert PendingAt(s, t, k, c);
      }
    }
  }

  lemma MoveShrinks(s: Sys, t: nat, u: Sys)
    requires At(s, t) && At(u, t) && u.threads == s.threads[t := s.threads[t].(pc := PcOf(u, t))]
    requires PcOf(u, t) != Polling
    ensures QueuesShrink(s, u)
  {
  }

  /** Nothing but the thread that holds c concerns it, so the thread may ask anew. */
  lemma HolderAsks(s: Sys, t: nat, c: Conn, asked: seq<Mask>, mask: Mask)
    requires Reachable(s) && HeldBy(s, t, c) && !PcOf(s, t).Polling?
    ensures Agrees(Move(s, t, RegLook(c, mask)), c, asked + [mask])
  {
    hide Inv, Reachable, QueuesShrink;
    var p := ReachableIsOk(s);
    ByPlace(s, p, c);
    var u := Move(s, t, RegLook(c, mask));
    forall i: nat | At(u, i)
      ensures PcAgrees(PcOf(u, i), c, asked + [mask])
    {
      OthersElsewhere(s, p, t, i, c, asked + [mask]);
    }
    MoveShrinks(s, t, u);
    StillQueued(s, u, c, asked);
  }

  lemma OthersElsewhere(s: Sys, p: Places, t: nat, i: nat, c: Conn, asked: seq<Mask>)
    requires Place(p, c) == AtThread(t) && (HeldBy(s, i, c) ==> Place(p, c) == AtThread(i))
    ensures At(s, i) && i != t ==> PcAgrees(PcOf(s, i), c, asked)
  {
  }

  lemma AskingStep(s: Sys, e: Step, c: Conn, asked: seq<Mask>)
    requires Reachable(s) && Enabled(s, e) && AskedBy(s, e, c) != []
    ensures Agrees(Next(s, e), c, asked + AskedBy(s, e, c))
  {
    hide Reachable, Agrees;
    match e
    case Insert =>
      HolderAsks(s, 0, c, asked, In);
      SameAgrees(Move(s, 0, RegLook(c, In)), Next(s, e), c, asked + [In]);
    case Rearm(t, mask) =>
      HolderAsks(s, t, c, asked, mask);
  }

  lemma SameThreads(s: Sys, u: Sys, c: Conn, asked: seq<Mask>)
    requires ThreadsAgree(s, c, asked) && QueuedAgrees(s, c, asked) && u.threads == s.threads
    ensures ThreadsAgree(u, c, asked) && QueuedAgrees(u, c, asked)
  {
    hide PcAgrees, Meant;
    forall t: nat | At(u, t)
      ensures PcAgrees(PcOf(u, t), c, asked)
    {
      assert PcAgrees(PcOf(s, t), c, asked);
    }
    StillQueued(s, u, c, asked);
  }

  lemma SameAgrees(s: Sys, u: Sys, c: Conn, asked: seq<Mask>)
    requires Agrees(s, c, asked) && u.threads == s.threads && u.interest == s.interest
    ensures Agrees(u, c, asked)
  {
    hide ThreadsAgree, QueuedAgrees;
    SameThreads(s, u, c, asked);
  }

  // -------------------------------------------------------------- other steps

  /** One thread goes on, and if it was polling it has taken its next event. */
  lemma MoveAgrees(s: Sys, t: nat, u: Sys, c: Conn, asked: seq<Mask>)
    requires At(s, t) && ThreadsAgree(s, c, asked) && QueuedAgrees(s, c, asked)
    requires At(u, t) && u.threads == s.threads[t := s.threads[t].(pc := PcOf(u, t))] && PcOf(u, t) != Polling
    requires PcAgrees(PcOf(u, t), c, asked)
    ensures ThreadsAgree(u, c, asked) && QueuedAgrees(u, c, asked)
  {
    hide PcAgrees, QueuesShrink, QueuedAgrees;
    forall i: nat | At(u, i)
      ensures PcAgrees(PcOf(u, i), c, asked)
    {
      assert PcAgrees(PcOf(s, i), c, asked);
    }
    MoveShrinks(s, t, u);
    StillQueued(s, u, c, asked);
  }

  lemma DoneAgrees(s: Sys, t: nat, c: Conn, asked: seq<Mask>)
    requires At(s, t) && ThreadsAgree(s, c, asked) && QueuedAgrees(s, c, asked) && PcOf(s, t) != Polling
    ensures ThreadsAgree(Done(s, t), c, asked) && QueuedAgrees(Done(s, t), c, asked)
  {
    hide QueuedAgrees;
    var u := Done(s, t);
    forall i: nat | At(u, i)
      ensures PcAgrees(PcOf(u, i), c, asked)
    {
      assert PcAgrees(PcOf(s, i), c, asked);
    }
    StillQueued(s, u, c, asked);
  }

  lemma AcceptorAgrees(s: Sys, e: Step, c: Conn, asked: seq<Mask>)
    requires Enabled(s, e) && Agrees(s, c, asked) && AskedBy(s, e, c) == [] && (e.Admit? || e.Accept? || e.Insert?)
    ensures Agrees(Next(s, e), c, asked)
  {
    hide ThreadsAgree, QueuedAgrees;
    MoveAgrees(s, 0, Next(s, e), c, asked);
  }

  lemma CallbackAgrees(s: Sys, e: Step, c: Conn, asked: seq<Mask>)
    requires Enabled(s, e) && Agrees(s, c, asked) && AskedBy(s, e, c) == []
    requires e.Rearm? || e.Erase? || e.Ignore? || e.Notify?
    ensures Agrees(Next(s, e), c, asked)
  {
    hide ThreadsAgree, QueuedAgrees;
    MoveAgrees(s, e.t, Next(s, e), c, asked);
  }

  lemma LookAgrees(s: Sys, t: nat, c: Conn, asked: seq<Mask>)
    requires Enabled(s, Look(t)) && Agrees(s, c, asked)
    ensures Agrees(Next(s, Look(t)), c, asked)
  {
    hide QueuedAgrees, Expired;
    assert PcAgrees(PcOf(s, t), c, asked);
    hide ThreadsAgree;
    MoveAgrees(s, t, Next(s, Look(t)), c, asked);
  }

  lemma CtlAgrees(s: Sys, t: nat, ok: bool, c: Conn, asked: seq<Mask>)
    requires Enabled(s, Ctl(t, ok)) && Agrees(s, c, asked)
    ensures Agrees(Next(s, Ctl(t, ok)), c, asked)
  {
    hide QueuedAgrees;
    assert PcAgrees(PcOf(s, t), c, asked);
    hide ThreadsAgree;
    MoveAgrees(s, t, Next(s, Ctl(t, ok)), c, asked);
  }

  lemma StoreAgrees(s: Sys, t: nat, c: Conn, asked: seq<Mask>)
    requires Enabled(s, Store(t)) && Agrees(s, c, asked)
    ensures Agrees(Next(s, Store(t)), c, asked)
  {
    hide QueuedAgrees, ThreadsAgree;
    MoveAgrees(s, t, Next(s, Store(t)), c, asked);
  }

  lemma LeaveAgrees(s: Sys, e: Step, c: Conn, asked: seq<Mask>)
    requires Enabled(s, e) && Agrees(s, c, asked) && (e.Leave? || e.Close?)
    ensures Agrees(Next(s, e), c, asked)
  {
    hide ThreadsAgree, QueuedAgrees, Done, RefsBut;
    var u := Next(s, e);
    DoneFields(s, e.t);
    DoneAgrees(s, e.t, c, asked);
    if e.Leave? && !RefsBut(s, PcOf(s, e.t).c, e.t) {
      MoveAgrees(s, e.t, u, c, asked);
    } else {
      SameThreads(Done(s, e.t), u, c, asked);
    }
  }

  lemma GetAgrees(s: Sys, t: nat, c: Conn, asked: seq<Mask>)
    requires Enabled(s, Get(t)) && Agrees(s, c, asked)
    ensures Agrees(Next(s, Get(t)), c, asked)
  {
    var k := s.threads[t].next;
    if s.threads[t].batch[k].armer == c {
      assert PendingAt(s, t, k, c);
    }
    hide ThreadsAgree, QueuedAgrees;
    MoveAgrees(s, t, Next(s, Get(t)), c, asked);
  }

  lemma CheckAgrees(s: Sys, t: nat, c: Conn, asked: seq<Mask>)
    requires Enabled(s, Check(t)) && Agrees(s, c, asked)
    ensures Agrees(Next(s, Check(t)), c, asked)
  {
    hide QueuedAgrees, Done, Expired;
    assert PcAgrees(PcOf(s, t), c, asked);
    hide ThreadsAgree;
    DoneFields(s, t);
    DoneAgrees(s, t, c, asked);
    if Expired(s, PcOf(s, t).weak) {
      SameThreads(Done(s, t), Next(s, Check(t)), c, asked);
    } else {
      MoveAgrees(s, t, Next(s, Check(t)), c, asked);
    }
  }

  lemma LockAgrees(s: Sys, t: nat, c: Conn, asked: seq<Mask>)
    requires Reachable(s) && Enabled(s, Lock(t)) && Agrees(s, c, asked)
    ensures Agrees(Next(s, Lock(t)), c, asked)
  {
    hide Reachable, QueuedAgrees, Refs;
    EventReachesItsConnection(s, t);
    assert PcAgrees(PcOf(s, t), c, asked);
    hide ThreadsAgree;
    MoveAgrees(s, t, Next(s, Lock(t)), c, asked);
  }

  /** An event epoll_wait may return was asked for. */
  lemma ReportIsMeant(s: Sys, events: seq<Event>, k: nat, c: Conn, asked: seq<Mask>)
    requires Reachable(s) && CanReport(s, events) && k < |events| && events[k].armer == c && ArmedAgrees(s, c, asked)
    ensures Meant(events[k].ready, asked)
  {
    hide Inv, Reachable;
    var p := ReachableIsOk(s);
    InvParts(s, p);
    assert FdOk(s, p, events[k].fd);
  }

  lemma PollAgrees(s: Sys, t: nat, events: seq<Event>, c: Conn, asked: seq<Mask>)
    requires Reachable(s) && Enabled(s, Poll(t, events)) && Agrees(s, c, asked)
    ensures Agrees(Next(s, Poll(t, events)), c, asked)
  {
    hide Reachable, CanReport, Meant;
    var u := Next(s, Poll(t, events));
    forall i: nat, k: nat | PendingAt(u, i, k, c)
      ensures Meant(u.threads[i].batch[k].ready, asked)
    {
      if i == t {
        ReportIsMeant(s, events, k, c, asked);
      } else {
        assert PendingAt(s, i, k, c);
      }
    }
    forall i: nat | At(u, i)
      ensures PcAgrees(PcOf(u, i), c, asked)
    {
      assert PcAgrees(PcOf(s, i), c, asked);
    }
  }

  lemma OnlyThoseAsk(s: Sys, e: Step, c: Conn)
    requires Enabled(s, e)
    ensures AskedBy(s, e, c) != [] ==> e.Insert? || e.Rearm?
  {
  }

  lemma StepAgrees(s: Sys, e: Step, c: Conn, asked: seq<Mask>)
    requires Reachable(s) && Enabled(s, e) && Agrees(s, c, asked)
    ensures Agrees(Next(s, e), c, asked + AskedBy(s, e, c))
  {
    hide Reachable, Enabled, Next, Agrees, AskedBy;
    if AskedBy(s, e, c) != [] {
      AskingStep(s, e, c, asked);
    } else {
      assert asked + [] == asked;
      OnlyThoseAsk(s, e, c);
      match e
      case Look(t) => LookAgrees(s, t, c, asked);
      case Ctl(t, ok) => CtlAgrees(s, t, ok, c, asked);
      case Store(t) => StoreAgrees(s, t, c, asked);
      case Leave(_) => LeaveAgrees(s, e, c, asked);
      case Close(_) => LeaveAgrees(s, e, c, asked);
      case Poll(t, events) => PollAgrees(s, t, events, c, asked);
      case Get(t) => GetAgrees(s, t, c, asked);
      case Check(t) => CheckAgrees(s, t, c, asked);
      case Lock(t) => LockAgrees(s, t, c, asked);
      case Admit => AcceptorAgrees(s, e, c, asked);
      case Accept(_) => AcceptorAgrees(s, e, c, asked);
      case Insert => AcceptorAgrees(s, e, c, asked);
      case _ => CallbackAgrees(s, e, c, asked);
    }
  }

  // -------------------------------------------------------------- whole runs

  lemma {:induction false} RunAgrees(s: Sys, steps: seq<Step>, c: Conn, asked: seq<Mask>)
    requires Reachable(s) && Run(s, steps) && Agrees(s, c, asked)
    ensures Agrees(After(s, steps), c, asked + Asked(s, steps, c))
    decreases |steps|
  {
    hide Reachable, Enabled, Next, Agrees, AskedBy;
    if steps == [] {
      assert asked + [] == asked;
    } else {
      var more := AskedBy(s, steps[0], c);
      StepAgrees(s, steps[0], c, asked);
      ReachableNext(s, steps[0]);
      RunAgrees(Next(s, steps[0]), steps[1..], c, asked + more);
      assert asked + more + Asked(Next(s, steps[0]), steps[1..], c) == asked + Asked(s, steps, c);
    }
  }

  lemma InitAgrees(workers: nat, cap: nat, c: Conn)
    ensures Agrees(Init(workers, cap), c, [])
  {
  }

  /** Over every run from the start: an armed connection is armed for what was last
      asked for it, and a callback for input or output only runs on a connection for
      which that was last asked. */
  lemma ArmedAsAsked(workers: nat, cap: nat, steps: seq<Step>, c: Conn)
    requires Run(Init(workers, cap), steps)
    ensures var s, asked := After(Init(workers, cap), steps), Asked(Init(workers, cap), steps, c);
            && (ArmedAt(s, c) ==> Last(asked, s.interest[c.fd].mask))
            && forall t: nat :: At(s, t) ==>
                 && (PcOf(s, t) == Running(c, ReadyIn) ==> Last(asked, In))
                 && (PcOf(s, t) == Running(c, ReadyOut) ==> Last(asked, Out))
  {
    hide Reachable, Init, Run, After, Asked;
    var s, asked := After(Init(workers, cap), steps), Asked(Init(workers, cap), steps, c);
    InitIsReachable(workers, cap);
    InitAgrees(workers, cap, c);
    RunAgrees(Init(workers, cap), steps, c, []);
    assert [] + asked == asked;
  }

  /** So where IN is asked for when the connection is accepted, and then what its
      handlers register it for, regs, it is armed for the last of regs, or for IN while
      there are none; and output is only handled if they asked for OUT last. */
  lemma ArmedAsRegistered(workers: nat, cap: nat, steps: seq<Step>, c: Conn, regs: seq<Mask>)
    requires Run(Init(workers, cap), steps) && Asked(Init(workers, cap), steps, c) == [In] + regs
    ensures var s, mask := After(Init(workers, cap), steps), if regs == [] then In else regs[|regs| - 1];
            && (ArmedAt(s, c) ==> s.interest[c.fd].mask == mask)
            && forall t: nat :: At(s, t) ==>
                 && (PcOf(s, t) == Running(c, ReadyIn) ==> mask == In)
                 && (PcOf(s, t) == Running(c, ReadyOut) ==> mask == Out)
  {
    hide Run, After, Asked, Init;
    ArmedAsAsked(workers, cap, steps, c);
  }

  // ------------------------------------------------------ from asking to arming

  /** The thread that takes a step. */
  function By(e: Step): nat {
    match e
    case Admit => 0
    case Accept(_) => 0
    case Insert => 0
    case _ => e.t
  }

  predicate NoneBy(t: nat, steps: seq<Step>) {
    forall i :: 0 <= i < |steps| ==> By(steps[i]) != t
  }

  predicate Ends(e: Step) {
    e.Leave? || e.Close? || e.Check?
  }

  lemma EndingStays(s: Sys, t: nat, e: Step)
    requires At(s, t) && Enabled(s, e) && By(e) != t && Ends(e)
    ensures At(Next(s, e), t) && PcOf(Next(s, e), t) == PcOf(s, t)
  {
    hide RefsBut, Expired, Done;
    DoneFields(s, e.t);
  }

  lemma OtherStays(s: Sys, t: nat, e: Step)
    requires At(s, t) && Enabled(s, e) && By(e) != t
    ensures At(Next(s, e), t) && PcOf(Next(s, e), t) == PcOf(s, t)
  {
    hide RefsBut, Expired, Refs, Done, CanReport, Disarmed;
    if Ends(e) {
      EndingStays(s, t, e);
    }
  }

  lemma {:induction false} OthersStay(s: Sys, t: nat, steps: seq<Step>)
    requires At(s, t) && Run(s, steps) && NoneBy(t, steps)
    ensures At(After(s, steps), t) && PcOf(After(s, steps), t) == PcOf(s, t)
    decreases |steps|
  {
    hide Enabled, Next;
    if steps != [] {
      OtherStays(s, t, steps[0]);
      assert forall i :: 0 <= i < |steps| - 1 ==> steps[1..][i] == steps[i + 1];
      OthersStay(Next(s, steps[0]), t, steps[1..]);
    }
  }

  /** reg, whatever other threads do between its lookup and its epoll_ctl: the kernel
      may accept, and then the connection is armed for the mask reg was given. */
  lemma RegArms(s: Sys, t: nat, a: seq<Step>, b: seq<Step>)
    requires Reachable(s) && At(s, t) && PcOf(s, t).RegLook? && NoneBy(t, a) && NoneBy(t, b) && Run(s, a)
    ensures Enabled(After(s, a), Look(t))
    ensures var RegLook(c, mask) := PcOf(s, t);
            var s2 := Next(After(s, a), Look(t));
            Run(s2, b) ==>
              && Enabled(After(s2, b), Ctl(t, true))
              && var u := Next(After(s2, b), Ctl(t, true));
                 c.fd in u.interest && u.interest[c.fd] == Interest(true, mask, c)
  {
    hide Reachable, Run, After, Expired, NoneBy;
    OthersStay(s, t, a);
    ReachableAfter(s, a);
    var s1 := After(s, a);
    var s2 := Next(s1, Look(t));
    ReachableNext(s1, Look(t));
    if Run(s2, b) {
      OthersStay(s2, t, b);
      ReachableAfter(s2, b);
      AddExactlyWhenAbsent(After(s2, b), t);
    }
  }

  /** A handler that asks for a mask gets it. */
  lemma RearmArms(s: Sys, t: nat, mask: Mask, a: seq<Step>, b: seq<Step>)
    requires Reachable(s) && Enabled(s, Rearm(t, mask)) && NoneBy(t, a) && NoneBy(t, b)
    requires Run(Next(s, Rearm(t, mask)), a)
    ensures var c, s1 := PcOf(s, t).c, After(Next(s, Rearm(t, mask)), a);
            && Enabled(s1, Look(t))
            && var s2 := Next(s1, Look(t));
               Run(s2, b) ==>
                 && Enabled(After(s2, b), Ctl(t, true))
                 && var u := Next(After(s2, b), Ctl(t, true));
                    c.fd in u.interest && u.interest[c.fd] == Interest(true, mask, c)
  {
    hide Reachable, Run, After, Expired, NoneBy;
    ReachableNext(s, Rearm(t, mask));
    RegArms(Next(s, Rearm(t, mask)), t, a, b);
  }

  /** A new connection is armed for IN. */
  lemma InsertArms(s: Sys, a: seq<Step>, b: seq<Step>)
    requires Reachable(s) && Enabled(s, Insert) && NoneBy(0, a) && NoneBy(0, b) && Run(Next(s, Insert), a)
    ensures var c, s1 := PcOf(s, 0).c, After(Next(s, Insert), a);
            && Enabled(s1, Look(0))
            && var s2 := Next(s1, Look(0));
               Run(s2, b) ==>
                 && Enabled(After(s2, b), Ctl(0, true))
                 && var u := Next(After(s2, b), Ctl(0, true));
                    c.fd in u.interest && u.interest[c.fd] == Interest(true, In, c)
  {
    hide Reachable, Run, After, Expired, NoneBy;
    ReachableNext(s, Insert);
    RegArms(Next(s, Insert), 0, a, b);
  }
}
