/** Safety of the pool in every reachable state: no lost wakeup, jobs in order and
    accounted for, nothing after stop. */
module PoolProof {
  import opened Pool

  // -------------------------------------------------------------- counting

  function WokenCount(ws: seq<Worker>): nat {
    if ws == [] then 0 else (if ws[0].Woken? then 1 else 0) + WokenCount(ws[1..])
  }

  function BusyCount(ws: seq<Worker>): nat {
    if ws == [] then 0 else (if ws[0].Busy? then 1 else 0) + BusyCount(ws[1..])
  }

  lemma {:induction false} CountsAfterTurn(ws: seq<Worker>, w: nat, k: Worker)
    requires w < |ws|
    ensures WokenCount(ws[w := k]) == WokenCount(ws) - (if ws[w].Woken? then 1 else 0) + (if k.Woken? then 1 else 0)
    ensures BusyCount(ws[w := k]) == BusyCount(ws) - (if ws[w].Busy? then 1 else 0) + (if k.Busy? then 1 else 0)
  {
    if w == 0 {
      assert ws[w := k][1..] == ws[1..];
    } else {
      CountsAfterTurn(ws[1..], w - 1, k);
      assert ws[w := k][1..] == ws[1..][w - 1 := k];
    }
  }

  lemma {:induction false} BusyAfterWakeAll(ws: seq<Worker>)
    ensures BusyCount(WakeAll(ws)) == BusyCount(ws)
  {
    if ws != [] {
      BusyAfterWakeAll(ws[1..]);
      assert WakeAll(ws)[1..] == WakeAll(ws[1..]);
    }
  }

  lemma {:induction false} AllReadyCounts(n: nat)
    ensures WokenCount(seq(n, _ => Ready)) == 0 && BusyCount(seq(n, _ => Ready)) == 0
  {
    if n > 0 {
      AllReadyCounts(n - 1);
      assert seq(n, _ => Ready)[1..] == seq(n - 1, _ => Ready);
    }
  }

  // ------------------------------------------------------------- invariant

  /** No wakeup is lost: while somebody sleeps, every queued job has a notify still
      to come or a woken worker on its way; and once stop is set, the sleepers'
      notify_all is still to come. */
  predicate NoLostWakeup(s: State) {
    AnySleeps(s) ==> if s.stop then s.pendingAll else |s.jobs| <= s.pending + WokenCount(s.workers)
  }

  /** Every accepted job is queued, running or finished, and jobs start in the order
      they were accepted. */
  predicate Accounted(s: State) {
    && s.accepted == s.started + s.jobs
    && |s.started| == BusyCount(s.workers) + s.finished
  }

  predicate NobodyExited(s: State) {
    forall w :: 0 <= w < |s.workers| ==> !s.workers[w].Exited?
  }

  predicate Inv(s: State) {
    NoLostWakeup(s) && Accounted(s) && (s.pendingAll ==> s.stop) && (!s.stop ==> NobodyExited(s))
  }

  lemma StepKeepsAccounts(s: State, e: Step)
    requires Inv(s) && Enabled(s, e)
    ensures Accounted(Next(s, e)) && (Next(s, e).pendingAll ==> Next(s, e).stop)
    ensures !Next(s, e).stop ==> NobodyExited(Next(s, e))
  {
    match e
    case Submit(j) =>
      assert s.started + (s.jobs + [j]) == s.started + s.jobs + [j];
    case NotifyOne(w) => CountsAfterTurn(s.workers, w, Woken);
    case NotifyNobody =>
    case Look(w) =>
      if s.jobs == [] && !s.stop {
        CountsAfterTurn(s.workers, w, Sleeping);
      } else if s.stop {
        CountsAfterTurn(s.workers, w, Exited);
      } else {
        CountsAfterTurn(s.workers, w, Busy(s.jobs[0]));
        assert s.started + s.jobs == s.started + [s.jobs[0]] + s.jobs[1..];
      }
    case WakeSpuriously(w) => CountsAfterTurn(s.workers, w, Woken);
    case Finish(w) => CountsAfterTurn(s.workers, w, Ready);
    case SetStop =>
    case NotifyAll => BusyAfterWakeAll(s.workers);
  }

  lemma SleepersOnly(s: State, w: nat, k: Worker)
    requires w < |s.workers| && !k.Sleeping? && AnySleeps(Turn(s, w, k))
    ensures AnySleeps(s)
  {
    var v :| 0 <= v < |s.workers| && s.workers[w := k][v].Sleeping?;
    assert s.workers[v].Sleeping?;
  }

  lemma StepLosesNoWakeup(s: State, e: Step)
    requires Inv(s) && Enabled(s, e)
    ensures NoLostWakeup(Next(s, e))
  {
    match e
    case Submit(j) =>
      assert AnySleeps(Next(s, e)) ==> AnySleeps(s);
    case NotifyOne(w) =>
      CountsAfterTurn(s.workers, w, Woken);
      assert AnySleeps(s);
    case NotifyNobody =>
    case Look(w) =>
      if s.jobs == [] && !s.stop {
        CountsAfterTurn(s.workers, w, Sleeping);
      } else if s.stop {
        if AnySleeps(Next(s, e)) {
          SleepersOnly(s, w, Exited);
        }
      } else {
        CountsAfterTurn(s.workers, w, Busy(s.jobs[0]));
        if AnySleeps(Next(s, e)) {
          SleepersOnly(s, w, Busy(s.jobs[0]));
        }
      }
    case WakeSpuriously(w) =>
      CountsAfterTurn(s.workers, w, Woken);
      assert AnySleeps(s);
    case Finish(w) =>
      CountsAfterTurn(s.workers, w, Ready);
      if AnySleeps(Next(s, e)) {
        SleepersOnly(s, w, Ready);
      }
    case SetStop =>
    case NotifyAll =>
  }

  lemma {:induction false} RunKeepsInv(s: State, steps: seq<Step>)
    requires Inv(s) && Run(s, steps)
    ensures Inv(After(s, steps))
    decreases |steps|
  {
    if steps != [] {
      StepKeepsAccounts(s, steps[0]);
      StepLosesNoWakeup(s, steps[0]);
      RunKeepsInv(Next(s, steps[0]), steps[1..]);
    }
  }

  /** Every reachable state, over all interleavings, for any number of workers. */
  lemma {:induction false} PoolIsSafe(n: nat, steps: seq<Step>)
    requires Run(Init(n), steps)
    ensures var s := After(Init(n), steps);
            && NoLostWakeup(s)
            && s.started <= s.accepted
            && |s.accepted| == |s.jobs| + BusyCount(s.workers) + s.finished
  {
    AllReadyCounts(n);
    RunKeepsInv(Init(n), steps);
  }

  /** Nothing is under way: no notify is due, and every worker sleeps or has left. */
  predicate Quiet(s: State) {
    && s.pending == 0 && !s.pendingAll
    && forall w :: 0 <= w < |s.workers| ==> s.workers[w].Sleeping? || s.workers[w].Exited?
  }

  lemma {:induction false} NobodyWoken(ws: seq<Worker>)
    requires forall w :: 0 <= w < |ws| ==> ws[w].Sleeping? || ws[w].Exited?
    ensures WokenCount(ws) == 0 && BusyCount(ws) == 0
  {
    if ws != [] {
      NobodyWoken(ws[1..]);
    }
  }

  /** A pool that has come to rest has finished every job it accepted; one that has
      come to rest after stop has been left by every worker, so joining them ends. */
  lemma {:induction false} RestMeansDone(n: nat, steps: seq<Step>)
    requires n > 0 && Run(Init(n), steps) && Quiet(After(Init(n), steps))
    ensures var s := After(Init(n), steps);
            if s.stop then forall w :: 0 <= w < |s.workers| ==> s.workers[w].Exited?
            else s.jobs == [] && s.finished == |s.accepted|
  {
    AllReadyCounts(n);
    RunKeepsInv(Init(n), steps);
    var s := After(Init(n), steps);
    NobodyWoken(s.workers);
    RunKeepsWorkers(Init(n), steps);
    if !s.stop {
      assert s.workers[0].Sleeping?;
    }
  }

  lemma {:induction false} RunKeepsWorkers(s: State, steps: seq<Step>)
    requires Run(s, steps)
    ensures |After(s, steps).workers| == |s.workers|
    decreases |steps|
  {
    if steps != [] {
      RunKeepsWorkers(Next(s, steps[0]), steps[1..]);
    }
  }

  /** Once stop is set it stays set, and no job is taken or accepted any more. */
  lemma {:induction false} NothingStartsAfterStop(s: State, steps: seq<Step>)
    requires s.stop && Run(s, steps)
    ensures var t := After(s, steps); t.stop && t.started == s.started && t.accepted == s.accepted && t.jobs == s.jobs
    decreases |steps|
  {
    if steps != [] {
      NothingStartsAfterStop(Next(s, steps[0]), steps[1..]);
    }
  }
}
