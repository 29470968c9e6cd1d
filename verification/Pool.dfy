/** The worker pool: a job queue under a mutex, a condition variable, and any
    interleaving of submitters, workers, the destructor and spurious wakeups. One
    step is one critical section or one notify. */
module Pool {

  type Job = nat

  /** Ready and Woken workers are about to take the lock and look at the queue; a
      Woken one comes out of a wait. */
  datatype Worker = Ready | Sleeping | Woken | Busy(job: Job) | Exited

  /** pending counts the submitters between their push and their notify_one,
      pendingAll says the destructor is between setting stop and notify_all. The
      last three fields only record what has happened. */
  datatype State = State(workers: seq<Worker>, jobs: seq<Job>, stop: bool, pending: nat, pendingAll: bool,
                         accepted: seq<Job>, started: seq<Job>, finished: nat)

  datatype Step =
    | Submit(job: Job)
    | NotifyOne(w: nat)
    | NotifyNobody
    | Look(w: nat)
    | WakeSpuriously(w: nat)
    | Finish(w: nat)
    | SetStop
    | NotifyAll

  function Init(n: nat): State {
    State(seq(n, _ => Ready), [], false, 0, false, [], [], 0)
  }

  predicate Is(s: State, w: nat, k: Worker) {
    w < |s.workers| && s.workers[w] == k
  }

  predicate AnySleeps(s: State) {
    exists w :: 0 <= w < |s.workers| && s.workers[w].Sleeping?
  }

  predicate Enabled(s: State, e: Step) {
    match e
    case Submit(_) => true
    case NotifyOne(w) => s.pending > 0 && Is(s, w, Sleeping)
    case NotifyNobody => s.pending > 0 && !AnySleeps(s)
    case Look(w) => Is(s, w, Ready) || Is(s, w, Woken)
    case WakeSpuriously(w) => Is(s, w, Sleeping)
    case Finish(w) => w < |s.workers| && s.workers[w].Busy?
    case SetStop => !s.stop
    case NotifyAll => s.pendingAll
  }

  function Turn(s: State, w: nat, k: Worker): State
    requires w < |s.workers|
  {
    s.(workers := s.workers[w := k])
  }

  function WakeAll(ws: seq<Worker>): (r: seq<Worker>)
    ensures |r| == |ws|
    ensures forall i :: 0 <= i < |ws| ==> r[i] == if ws[i].Sleeping? then Woken else ws[i]
  {
    seq(|ws|, i requires 0 <= i < |ws| => if ws[i].Sleeping? then Woken else ws[i])
  }

  function Next(s: State, e: Step): State
    requires Enabled(s, e)
  {
    match e
    case Submit(j) =>
      if s.stop then s else s.(jobs := s.jobs + [j], accepted := s.accepted + [j], pending := s.pending + 1)
    case NotifyOne(w) => Turn(s, w, Woken).(pending := s.pending - 1)
    case NotifyNobody => s.(pending := s.pending - 1)
    case Look(w) =>
      if s.jobs == [] && !s.stop then Turn(s, w, Sleeping)
      else if s.stop then Turn(s, w, Exited)
      else Turn(s, w, Busy(s.jobs[0])).(jobs := s.jobs[1..], started := s.started + [s.jobs[0]])
    case WakeSpuriously(w) => Turn(s, w, Woken)
    case Finish(w) => Turn(s, w, Ready).(finished := s.finished + 1)
    case SetStop => s.(stop := true, pendingAll := true)
    case NotifyAll => s.(workers := WakeAll(s.workers), pendingAll := false)
  }

  /** A run: steps that are each enabled where they are taken. */
  predicate Run(s: State, steps: seq<Step>)
    decreases |steps|
  {
    steps == [] || (Enabled(s, steps[0]) && Run(Next(s, steps[0]), steps[1..]))
  }

  function After(s: State, steps: seq<Step>): State
    requires Run(s, steps)
    decreases |steps|
  {
    if steps == [] then s else After(Next(s, steps[0]), steps[1..])
  }

  // ------------------------------------------------------------------ the code

  /** The queue and the flag that the mutex guards. Each method is one critical
      section, and does to them what its step does in any state of the workers. */
  class JobQueue {
    var jobs: seq<Job>
    var stop: bool

    function In(rest: State): State
      reads this
    {
      rest.(jobs := jobs, stop := stop)
    }

    predicate Are(s: State)
      reads this
    {
      jobs == s.jobs && stop == s.stop
    }

    /** submit up to its notify_one, which it is to call. */
    method Submit(job: Job, rest: State) returns (notify: bool)
      modifies this`jobs
      ensures var s := old(In(rest)); Are(Next(s, Step.Submit(job))) && notify == (Next(s, Step.Submit(job)).pending > s.pending)
    {
      if stop {
        return false;
      }
      jobs := jobs + [job];
      return true;
    }

    /** A worker with the lock: wait on, leave, or take the oldest job. */
    method Take(rest: State, w: nat) returns (now: Worker)
      requires Enabled(In(rest), Look(w))
      modifies this`jobs
      ensures var t := Next(old(In(rest)), Look(w)); Are(t) && now == t.workers[w]
    {
      if jobs == [] && !stop {
        return Sleeping;
      }
      if stop {
        return Exited;
      }
      now := Busy(jobs[0]);
      jobs := jobs[1..];
    }

    /** The destructor's critical section. */
    method Stop(rest: State)
      requires !stop
      modifies this`stop
      ensures Are(Next(old(In(rest)), SetStop))
    {
      stop := true;
    }
  }
}
