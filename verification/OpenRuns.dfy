/** No descriptor leaks: in every reachable state an open socket belongs to a connection
    that something still refers to, or that a thread is just closing. */
module OpenRuns {
  import opened Protocol
  import opened Ownership
  import OwnershipSteps
  import opened OwnershipRuns
  import opened ArmedRuns

  /** Thread t refers to c, or has dropped the last reference and closes it next. */
  predicate KeptBy(s: Sys, t: nat, c: Conn) {
    At(s, t) && (Holds(PcOf(s, t), c) || PcOf(s, t) == Closing(c))
  }

  ghost predicate Kept(s: Sys, c: Conn) {
    InConns(s, c) || exists t: nat :: KeptBy(s, t, c)
  }

  lemma OpenedBy(s: Sys, e: Step, c: Conn)
    requires Reachable(s) && Enabled(s, e) && IsOpen(Next(s, e), c)
    ensures IsOpen(s, c) || (e.Accept? && At(Next(s, e), 0) && PcOf(Next(s, e), 0) == SettingUp(c))
    ensures e.Close? ==> c.fd != PcOf(s, e.t).c.fd
  {
    hide Reachable, Done, RefsBut, Refs, Expired, CanReport, Disarmed;
    if e.Leave? || e.Close? || e.Check? {
      OwnershipSteps.DoneFields(s, e.t);
    }
  }

  predicate ErasedBy(s: Sys, t: nat, c: Conn) {
    At(s, t) && PcOf(s, t) == Erased(c)
  }

  /** conns_ loses a connection only to the thread that erases it. */
  lemma StaysInConns(s: Sys, e: Step, c: Conn)
    requires Reachable(s) && Enabled(s, e) && InConns(s, c)
    ensures InConns(Next(s, e), c) || (e.Erase? && ErasedBy(Next(s, e), e.t, c))
  {
    hide Reachable, Enabled, Next;
    match e
    case Accept(fd) => AcceptStep(s, fd);
    case Insert =>
      InsertStep(s);
      OwnEntryOnly(s, 0);
    case Erase(t) => ErasesOwn(s, t, c);
    case _ => OtherStep(s, e);
  }

  lemma ErasesOwn(s: Sys, t: nat, c: Conn)
    requires Reachable(s) && Enabled(s, Erase(t)) && InConns(s, c)
    ensures InConns(Next(s, Erase(t)), c) || ErasedBy(Next(s, Erase(t)), t, c)
  {
    hide Reachable;
    OwnEntryOnly(s, t);
  }

  /** The thread that takes the step keeps c, unless it leaves c to others or closes it. */
  lemma KeepsOn(s: Sys, e: Step, c: Conn)
    requires Reachable(s) && Enabled(s, e) && KeptBy(s, By(e), c)
    ensures KeptBy(Next(s, e), By(e), c) || (e.Leave? && RefsBut(s, c, e.t)) || (e.Close? && c == PcOf(s, e.t).c)
  {
    hide Reachable, Done, RefsBut, Refs, Expired, CanReport, Disarmed, Next;
    if Ends(e) {
      EndsOrKeeps(s, e, c);
    } else {
      GoesOn(s, e, c);
    }
  }

  lemma EndsOrKeeps(s: Sys, e: Step, c: Conn)
    requires Enabled(s, e) && KeptBy(s, By(e), c) && Ends(e)
    ensures KeptBy(Next(s, e), By(e), c) || (e.Leave? && RefsBut(s, c, e.t)) || (e.Close? && c == PcOf(s, e.t).c)
  {
    hide Done, RefsBut, Expired;
  }

  lemma GoesOn(s: Sys, e: Step, c: Conn)
    requires Enabled(s, e) && KeptBy(s, By(e), c) && !Ends(e)
    ensures KeptBy(Next(s, e), By(e), c)
  {
    hide Enabled, Next;
    match e
    case Admit => AcceptorGoesOn(s, e, c);
    case Accept(_) => AcceptorGoesOn(s, e, c);
    case Insert => AcceptorGoesOn(s, e, c);
    case _ => WorkerGoesOn(s, e, c);
  }

  lemma AcceptorGoesOn(s: Sys, e: Step, c: Conn)
    requires Enabled(s, e) && KeptBy(s, 0, c) && (e.Admit? || e.Accept? || e.Insert?)
    ensures KeptBy(Next(s, e), 0, c)
  {
  }

  lemma WorkerGoesOn(s: Sys, e: Step, c: Conn)
    requires Enabled(s, e) && !Ends(e) && !e.Admit? && !e.Accept? && !e.Insert? && KeptBy(s, e.t, c)
    ensures KeptBy(Next(s, e), e.t, c)
  {
    hide RefsBut, Refs, Expired, CanReport, Disarmed;
  }

  lemma OthersKeep(s: Sys, e: Step, t: nat, c: Conn)
    requires Enabled(s, e) && KeptBy(s, t, c) && t != By(e)
    ensures KeptBy(Next(s, e), t, c)
  {
    hide Enabled, Next;
    OtherStays(s, t, e);
  }

  lemma StaysKept(s: Sys, e: Step, c: Conn)
    requires Reachable(s) && Enabled(s, e) && Kept(s, c) && IsOpen(Next(s, e), c)
    ensures Kept(Next(s, e), c)
  {
    hide Reachable, Enabled, Next, KeptBy, InConns, IsOpen, RefsBut;
    OpenedBy(s, e, c);
    if InConns(s, c) {
      StaysInConns(s, e, c);
      if !InConns(Next(s, e), c) {
        ErasedIsKept(s, e, c);
      }
    } else {
      var t :| KeptBy(s, t, c);
      if t != By(e) {
        OthersKeep(s, e, t, c);
      } else {
        KeepsOn(s, e, c);
        if e.Leave? && RefsBut(s, c, e.t) {
          LeftToOthers(s, e.t, c);
        }
      }
    }
  }

  lemma ErasedIsKept(s: Sys, e: Step, c: Conn)
    requires Enabled(s, e) && e.Erase? && ErasedBy(Next(s, e), e.t, c)
    ensures KeptBy(Next(s, e), e.t, c)
  {
  }

  lemma LeftToOthers(s: Sys, t: nat, c: Conn)
    requires Enabled(s, Leave(t)) && RefsBut(s, c, t) && !InConns(s, c)
    ensures exists u: nat :: KeptBy(Next(s, Leave(t)), u, c)
  {
    hide Enabled, Next;
    var u :| 0 <= u < |s.threads| && u != t && Holds(s.threads[u].pc, c);
    assert KeptBy(s, u, c);
    OthersKeep(s, Leave(t), u, c);
  }

  lemma StepLeaksNothing(s: Sys, e: Step, c: Conn)
    requires Reachable(s) && Enabled(s, e) && (IsOpen(s, c) ==> Kept(s, c))
    ensures IsOpen(Next(s, e), c) ==> Kept(Next(s, e), c)
  {
    hide Reachable, Enabled, Next, IsOpen, InConns;
    if IsOpen(Next(s, e), c) {
      OpenedBy(s, e, c);
      if IsOpen(s, c) {
        StaysKept(s, e, c);
      } else {
        NewIsKept(Next(s, e), c);
      }
    }
  }

  lemma NewIsKept(s: Sys, c: Conn)
    requires At(s, 0) && PcOf(s, 0) == SettingUp(c)
    ensures KeptBy(s, 0, c)
  {
  }

  lemma {:induction false} RunLeaksNothing(s: Sys, steps: seq<Step>, c: Conn)
    requires Reachable(s) && Run(s, steps) && (IsOpen(s, c) ==> Kept(s, c))
    ensures IsOpen(After(s, steps), c) ==> Kept(After(s, steps), c)
    decreases |steps|
  {
    hide Reachable, Enabled, Next, IsOpen, Kept;
    if steps != [] {
      StepLeaksNothing(s, steps[0], c);
      ReachableNext(s, steps[0]);
      RunLeaksNothing(Next(s, steps[0]), steps[1..], c);
    }
  }

  /** In every reachable state: whatever is open is in conns_, or a thread refers to it, or
      is about to close it. With HeldStaysOpen, a socket is open exactly as long. */
  lemma OpenIsKept(s: Sys, c: Conn)
    requires Reachable(s)
    ensures IsOpen(s, c) <==> Kept(s, c)
  {
    hide Reachable, Enabled, Next, Run, After, Kept;
    var workers, cap, steps := SomeRun(s);
    InitIsReachable(workers, cap);
    InitOpensNothing(workers, cap, c);
    RunLeaksNothing(Init(workers, cap), steps, c);
    if Kept(s, c) {
      KeptIsOpen(s, c);
    }
  }

  lemma SomeRun(s: Sys) returns (workers: nat, cap: nat, steps: seq<Step>)
    requires Reachable(s)
    ensures Run(Init(workers, cap), steps) && After(Init(workers, cap), steps) == s
  {
    hide Enabled, Next, Init;
    workers, cap, steps :| Run(Init(workers, cap), steps) && After(Init(workers, cap), steps) == s;
  }

  lemma InitOpensNothing(workers: nat, cap: nat, c: Conn)
    ensures !IsOpen(Init(workers, cap), c)
  {
  }

  lemma KeptIsOpen(s: Sys, c: Conn)
    requires Reachable(s) && Kept(s, c)
    ensures IsOpen(s, c)
  {
    hide Reachable, IsOpen, InConns;
    ThreadZero(s);
    if InConns(s, c) {
      HeldStaysOpen(s, 0, c);
    } else {
      var t :| KeptBy(s, t, c);
      HeldStaysOpen(s, t, c);
    }
  }

  lemma ThreadZero(s: Sys)
    requires Reachable(s)
    ensures At(s, 0)
  {
    hide Reachable;
    Accounting(s);
  }
}
