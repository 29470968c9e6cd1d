/** Connection ownership: the acceptor and the event-loop workers as a step system
    over the epoll interest set, the weak map events_, the strong map conns_ and
    the kernel's table of open descriptors. Thread 0 is the acceptor. */
module Protocol {
  import opened Epoll

  type Fd = nat

  /** A connection object: its identity, and the handle of its socket. */
  datatype Conn = Conn(id: nat, fd: Fd)

  datatype Op = Add | Mod
  datatype Weak = Empty | Ref(c: Conn)

  /** The conditions the loop tests for, in its order. */
  datatype Ready = ReadyErr | ReadyIn | ReadyOut | ReadyOther

  /** An entry of the interest set. `armer` records the connection whose reg armed it
      last; no step looks at it. */
  datatype Interest = Interest(armed: bool, mask: Mask, armer: Conn)

  datatype Event = Event(fd: Fd, ready: Ready, armer: Conn)

  /** Where a thread is. From SettingUp on the acceptor, and from Running on a
      worker, holds a strong reference until it has left. */
  datatype Pc =
    | Waiting                               // for the number of connections to drop below the cap
    | Admitted                              // about to accept
    | SettingUp(c: Conn)                    // the new object is not in conns_ yet
    | Polling                               // at the next event, or in epoll_wait
    | Got(e: Event, weak: Weak)             // get_event has returned
    | Live(e: Event, c: Conn)               // expired() has said no
    | Running(c: Conn, ready: Ready)        // inside a callback
    | NullConn                              // inside a callback with a null pointer
    | Erased(c: Conn)                       // on_close has erased the entry
    | RegLook(c: Conn, mask: Mask)          // reg: about to look up events_
    | RegCtl(c: Conn, mask: Mask, op: Op)   // reg: about to call epoll_ctl
    | RegStore(c: Conn)                     // reg: about to store into events_
    | Leaving(c: Conn)                      // about to drop its reference
    | Closing(c: Conn)                      // it was the last one: about to close the socket

  /** next is the event of the batch being processed, or the next one. */
  datatype Thread = Thread(pc: Pc, batch: seq<Event>, next: nat)

  /** Why a connection in conns_ will see no event again. */
  datatype Why = DroppedInWindow | NotHandled | CtlFailed

  /** nextId, accepted, erased and lost only record what has happened. */
  datatype Sys = Sys(threads: seq<Thread>, conns: map<Fd, Conn>, events: map<Fd, Weak>,
                     interest: map<Fd, Interest>, open: map<Fd, Conn>, cap: nat,
                     nextId: nat, accepted: nat, erased: nat, lost: map<Conn, Why>)

  function Init(workers: nat, cap: nat): Sys {
    Sys([Thread(Waiting, [], 0)] + seq(workers, _ => Thread(Polling, [], 0)),
        map[], map[], map[], map[], cap, 0, 0, 0, map[])
  }

  // ------------------------------------------------------------ references

  predicate Holds(pc: Pc, c: Conn) {
    match pc
    case SettingUp(d) => c == d
    case Running(d, _) => c == d
    case Erased(d) => c == d
    case RegLook(d, _) => c == d
    case RegCtl(d, _, _) => c == d
    case RegStore(d) => c == d
    case Leaving(d) => c == d
    case _ => false
  }

  predicate InConns(s: Sys, c: Conn) {
    c.fd in s.conns && s.conns[c.fd] == c
  }

  /** Somebody but thread t holds a strong reference. */
  predicate RefsBut(s: Sys, c: Conn, t: nat) {
    InConns(s, c) || exists i :: 0 <= i < |s.threads| && i != t && Holds(s.threads[i].pc, c)
  }

  predicate Refs(s: Sys, c: Conn) {
    RefsBut(s, c, |s.threads|)
  }

  predicate Expired(s: Sys, w: Weak) {
    w == Empty || !Refs(s, w.c)
  }

  /** operator[] of events_, which adds an empty pointer where there is none. */
  function Lookup(s: Sys, fd: Fd): Weak {
    if fd in s.events then s.events[fd] else Empty
  }

  function LookedUp(s: Sys, fd: Fd): Sys {
    s.(events := s.events[fd := Lookup(s, fd)])
  }

  // ----------------------------------------------------------------- steps

  datatype Step =
    | Admit
    | Accept(fd: Fd)
    | Insert
    | Look(t: nat)
    | Ctl(t: nat, ok: bool)
    | Store(t: nat)
    | Leave(t: nat)
    | Close(t: nat)
    | Poll(t: nat, events: seq<Event>)
    | Get(t: nat)
    | Check(t: nat)
    | Lock(t: nat)
    | Rearm(t: nat, mask: Mask)
    | Erase(t: nat)
    | Ignore(t: nat)
    | Notify(t: nat)

  predicate At(s: Sys, t: nat) { t < |s.threads| }

  function PcOf(s: Sys, t: nat): Pc
    requires At(s, t)
  {
    s.threads[t].pc
  }

  function Move(s: Sys, t: nat, pc: Pc): Sys
    requires At(s, t)
  {
    s.(threads := s.threads[t := s.threads[t].(pc := pc)])
  }

  /** Back to the accept loop, or on to the next event. */
  function Done(s: Sys, t: nat): Sys
    requires At(s, t)
  {
    if t == 0 then Move(s, t, Waiting)
    else s.(threads := s.threads[t := s.threads[t].(pc := Polling, next := s.threads[t].next + 1)])
  }

  /** Events epoll_wait may return: armed descriptors, each once, with a condition
      that was asked for or is always reported. */
  predicate CanReport(s: Sys, events: seq<Event>) {
    && (forall i :: 0 <= i < |events| ==>
          && events[i].fd in s.interest
          && s.interest[events[i].fd].armed
          && events[i].armer == s.interest[events[i].fd].armer
          && (events[i].ready == ReadyIn ==> s.interest[events[i].fd].mask == In)
          && (events[i].ready == ReadyOut ==> s.interest[events[i].fd].mask == Out))
    && (forall i, j :: 0 <= i < j < |events| ==> events[i].fd != events[j].fd)
  }

  /** One-shot: what is reported is disarmed. */
  function Disarmed(interest: map<Fd, Interest>, events: seq<Event>): map<Fd, Interest> {
    map fd | fd in interest ::
      if exists i :: 0 <= i < |events| && events[i].fd == fd then interest[fd].(armed := false) else interest[fd]
  }

  /** What a handler may ask reg for: after an IN event more input or output, after
      an OUT event more output, or input again on a kept-alive connection. */
  predicate CanRearm(ready: Ready) {
    ready == ReadyIn || ready == ReadyOut
  }

  predicate Enabled(s: Sys, e: Step) {
    match e
    case Admit => At(s, 0) && PcOf(s, 0) == Waiting && |s.conns| < s.cap
    case Accept(fd) => At(s, 0) && PcOf(s, 0) == Admitted && fd !in s.open
    case Insert => At(s, 0) && PcOf(s, 0).SettingUp?
    case Look(t) => At(s, t) && PcOf(s, t).RegLook?
    case Ctl(t, ok) =>
      && At(s, t) && PcOf(s, t).RegCtl?
      && (ok ==> (PcOf(s, t).op == Add <==> PcOf(s, t).c.fd !in s.interest))
    case Store(t) => At(s, t) && PcOf(s, t).RegStore?
    case Leave(t) => At(s, t) && PcOf(s, t).Leaving?
    case Close(t) => At(s, t) && PcOf(s, t).Closing?
    case Poll(t, events) =>
      At(s, t) && PcOf(s, t) == Polling && s.threads[t].next == |s.threads[t].batch| && CanReport(s, events)
    case Get(t) => At(s, t) && PcOf(s, t) == Polling && s.threads[t].next < |s.threads[t].batch|
    case Check(t) => At(s, t) && PcOf(s, t).Got?
    case Lock(t) => At(s, t) && PcOf(s, t).Live?
    case Rearm(t, _) => At(s, t) && PcOf(s, t).Running? && CanRearm(PcOf(s, t).ready)
    case Erase(t) => At(s, t) && PcOf(s, t).Running? && PcOf(s, t).ready != ReadyOther
    case Ignore(t) => At(s, t) && PcOf(s, t).Running? && PcOf(s, t).ready == ReadyOther
    case Notify(t) => At(s, t) && PcOf(s, t).Erased?
  }

  function Next(s: Sys, e: Step): Sys
    requires Enabled(s, e)
  {
    match e
    case Admit => Move(s, 0, Admitted)
    case Accept(fd) =>
      var c := Conn(s.nextId, fd);
      Move(s, 0, SettingUp(c)).(open := s.open[fd := c], nextId := s.nextId + 1, accepted := s.accepted + 1)
    case Insert =>
      var c := PcOf(s, 0).c;
      Move(s, 0, RegLook(c, In)).(conns := s.conns[c.fd := c])
    case Look(t) =>
      var RegLook(c, mask) := PcOf(s, t);
      Move(LookedUp(s, c.fd), t, RegCtl(c, mask, if Expired(s, Lookup(s, c.fd)) then Add else Mod))
    case Ctl(t, ok) =>
      var RegCtl(c, mask, _) := PcOf(s, t);
      if ok then Move(s, t, RegStore(c)).(interest := s.interest[c.fd := Interest(true, mask, c)])
      else Move(s, t, Leaving(c)).(lost := s.lost[c := CtlFailed])
    case Store(t) =>
      var c := PcOf(s, t).c;
      Move(s, t, Leaving(c)).(events := s.events[c.fd := Ref(c)])
    case Leave(t) =>
      var c := PcOf(s, t).c;
      if RefsBut(s, c, t) then Done(s, t) else Move(s, t, Closing(c))
    case Close(t) =>
      var fd := PcOf(s, t).c.fd;
      Done(s, t).(open := s.open - {fd}, interest := s.interest - {fd})
    case Poll(t, events) =>
      s.(threads := s.threads[t := Thread(Polling, events, 0)], interest := Disarmed(s.interest, events))
    case Get(t) =>
      var e := s.threads[t].batch[s.threads[t].next];
      Move(LookedUp(s, e.fd), t, Got(e, Lookup(s, e.fd)))
    case Check(t) =>
      var Got(e, w) := PcOf(s, t);
      if Expired(s, w) then Done(s, t).(lost := s.lost[e.armer := DroppedInWindow])
      else Move(s, t, Live(e, w.c))
    case Lock(t) =>
      var Live(e, c) := PcOf(s, t);
      Move(s, t, if Refs(s, c) then Running(c, e.ready) else NullConn)
    case Rearm(t, mask) => Move(s, t, RegLook(PcOf(s, t).c, mask))
    case Erase(t) =>
      var c := PcOf(s, t).c;
      Move(s, t, Erased(c)).(conns := s.conns - {c.fd}, erased := s.erased + 1)
    case Ignore(t) =>
      var c := PcOf(s, t).c;
      Move(s, t, Leaving(c)).(lost := s.lost[c := NotHandled])
    case Notify(t) => Move(s, t, Leaving(PcOf(s, t).c))
  }
}
