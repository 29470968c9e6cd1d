/** Every step of the connection protocol keeps the invariant. */
module OwnershipSteps {
  import opened Epoll
  import opened Protocol
  import opened Ownership

  /** Slots hands the k-th event of the batch of thread t to slot k. */
  function Slots(p: Places, t: nat, events: seq<Event>, n: nat): Places
    requires n <= |events|
  {
    if n == 0 then p else Slots(p, t, events, n - 1)[events[n - 1].armer := Slot(t, n - 1)]
  }

  /** Who has charge of what after the step. */
  function NextPlaces(s: Sys, p: Places, e: Step): Places
    requires Enabled(s, e)
  {
    match e
    case Accept(fd) => p[Conn(s.nextId, fd) := AtThread(0)]
    case Ctl(t, ok) => p[PcOf(s, t).c := if ok then Armed else Lost]
    case Leave(t) => if RefsBut(s, PcOf(s, t).c, t) then p else p[PcOf(s, t).c := Shut(t)]
    case Close(t) => p[PcOf(s, t).c := Gone]
    case Poll(t, events) => Slots(p, t, events, |events|)
    case Get(t) => p[s.threads[t].batch[s.threads[t].next].armer := AtThread(t)]
    case Check(t) => if Expired(s, PcOf(s, t).weak) then p[PcOf(s, t).e.armer := Lost] else p
    case Ignore(t) => p[PcOf(s, t).c := Lost]
    case Notify(t) => p[PcOf(s, t).c := Gone]
    case _ => p
  }

  /** What is known of thread t, its connection c and the descriptor of c. */
  lemma Known(s: Sys, p: Places, t: nat, c: Conn)
    requires Inv(s, p) && At(s, t)
    ensures ThreadOk(s, p, t) && FdOk(s, p, c.fd) && WhereOk(s, p, c) && CountOk(s)
  {
  }

  lemma PendingIsOk(s: Sys, p: Places, t: nat, k: nat)
    requires Inv(s, p) && At(s, t) && Pending(s.threads[t], k)
    ensures SlotOk(s, p, t, k)
  {
  }

  lemma SizeAfterErase(m: map<Fd, Conn>, fd: Fd)
    requires fd in m
    ensures |m - {fd}| == |m| - 1
  {
    assert (m - {fd}).Keys == m.Keys - {fd};
    assert |(m - {fd}).Keys| == |m.Keys| - 1;
  }

  lemma SizeAfterInsert(m: map<Fd, Conn>, fd: Fd, c: Conn)
    requires fd !in m
    ensures |m[fd := c]| == |m| + 1
  {
    assert m[fd := c].Keys == m.Keys + {fd};
  }

  /** What reg reads off the weak pointer is whether it is the acceptor that registers. */
  lemma LookVerdict(s: Sys, p: Places, t: nat)
    requires Inv(s, p) && At(s, t) && PcOf(s, t).RegLook?
    ensures Expired(s, Lookup(s, PcOf(s, t).c.fd)) <==> t == 0
  {
    hide Inv, ThreadsOk, SlotsOk, FdsOk, PlacesOk;
    var c := PcOf(s, t).c;
    Known(s, p, t, c);
    var w := Lookup(s, c.fd);
    if t == 0 && w.Ref? && Refs(s, w.c) {
      RefsAreOpen(s, p, w.c, |s.threads|);
    }
  }

  /** A weak pointer that has not expired points to the connection that armed the event. */
  lemma CheckVerdict(s: Sys, p: Places, t: nat)
    requires Inv(s, p) && At(s, t) && PcOf(s, t).Got? && !Expired(s, PcOf(s, t).weak)
    ensures PcOf(s, t).weak == Ref(PcOf(s, t).e.armer)
  {
    hide Inv, ThreadsOk, SlotsOk, FdsOk, PlacesOk;
    Known(s, p, t, PcOf(s, t).e.armer);
    RefsAreOpen(s, p, PcOf(s, t).weak.c, |s.threads|);
  }

  /** The shares of thread t and of its connection c are kept, whoever else there is. */
  ghost predicate Kept(s: Sys, p: Places, s2: Sys, p2: Places, t: nat, c: Conn)
    requires At(s, 0) && At(s2, 0) && At(s2, t)
  {
    && Compatible(s, p, s2, p2, t, c)
    && ThreadOk(s2, p2, t) && FdOk(s2, p2, c.fd) && WhereOk(s2, p2, c) && CountOk(s2)
  }

  // ------------------------------------------------------------------- Admit

  lemma SlotsWithout(s: Sys, p: Places, s2: Sys)
    requires Inv(s, p) && PcOf(s, 0) == Waiting && s2 == Move(s, 0, Admitted)
    ensures SlotsOk(s2, p)
  {
    hide ThreadsOk, FdsOk, PlacesOk, CountOk, SlotOk;
    forall t, k | 0 <= t < |s2.threads| && 0 <= k && Pending(s2.threads[t], k)
      ensures SlotOk(s2, p, t, k)
    {
      assert Pending(s.threads[t], k);
      assert SlotOk(s, p, t, k);
      SameSlot(s, p, s2, t, k);
    }
  }

  lemma SameSlot(s: Sys, p: Places, s2: Sys, t: nat, k: nat)
    requires At(s, t) && At(s2, t) && s2.threads[t].batch == s.threads[t].batch && k < |s.threads[t].batch|
    requires SlotOk(s, p, t, k) && NoTable(s, s2)
    ensures SlotOk(s2, p, t, k)
  {
  }

  lemma AdmitKeepsMaps(s: Sys, p: Places, s2: Sys)
    requires Inv(s, p) && PcOf(s, 0) == Waiting && s2 == Move(s, 0, Admitted)
    ensures FdsOk(s2, p) && PlacesOk(s2, p)
  {
    hide ThreadsOk, SlotsOk, CountOk;
    forall fd
      ensures FdOk(s2, p, fd)
    {
      assert FdOk(s, p, fd);
    }
    forall c
      ensures WhereOk(s2, p, c)
    {
      assert WhereOk(s, p, c);
    }
  }

  lemma AdmitKeeps(s: Sys, p: Places, e: Step)
    requires Inv(s, p) && Enabled(s, e) && e.Admit?
    ensures Inv(Next(s, e), NextPlaces(s, p, e))
  {
    hide SlotsOk, FdsOk, PlacesOk, ThreadOk;
    var s2 := Next(s, e);
    SlotsWithout(s, p, s2);
    AdmitKeepsMaps(s, p, s2);
    forall t | 0 <= t < |s2.threads|
      ensures ThreadOk(s2, p, t)
    {
      assert ThreadOk(s, p, t);
      if t != 0 {
        SameTables(s, p, s2, t);
      } else {
        AdmittedIsOk(s2, p);
      }
    }
  }

  lemma AdmittedIsOk(s: Sys, p: Places)
    requires At(s, 0) && PcOf(s, 0) == Admitted
    ensures ThreadOk(s, p, 0)
  {
  }

  // -------------------------------------------------------------------- Poll

  ghost predicate Reported(events: seq<Event>, c: Conn) {
    exists i :: 0 <= i < |events| && events[i].armer == c
  }

  /** Every reported event is one the connection that armed it is still waiting for. */
  lemma ReportedIsArmed(s: Sys, p: Places, events: seq<Event>, i: nat)
    requires Inv(s, p) && CanReport(s, events) && i < |events|
    ensures var c := events[i].armer;
            ArmedAt(s, c) && events[i].fd == c.fd && IsOpen(s, c) && InConns(s, c) && Place(p, c) == Armed
  {
    hide ThreadsOk, SlotsOk, PlacesOk, CountOk, OpenOk, ConnOk, EventOk;
    assert FdOk(s, p, events[i].fd);
  }

  lemma ReportedOnce(s: Sys, p: Places, events: seq<Event>)
    requires Inv(s, p) && CanReport(s, events)
    ensures forall i, j :: 0 <= i < j < |events| ==> events[i].armer != events[j].armer
  {
    hide Inv, IsOpen, InConns, ArmedAt;
    forall i, j | 0 <= i < j < |events|
      ensures events[i].armer != events[j].armer
    {
      ReportedIsArmed(s, p, events, i);
      ReportedIsArmed(s, p, events, j);
      assert events[i].fd != events[j].fd;
    }
  }

  lemma {:induction false} SlotsHandOver(p: Places, t: nat, events: seq<Event>, n: nat)
    requires n <= |events|
    requires forall i, j :: 0 <= i < j < |events| ==> events[i].armer != events[j].armer
    ensures forall i :: 0 <= i < n ==> Place(Slots(p, t, events, n), events[i].armer) == Slot(t, i)
    ensures forall c :: !Reported(events, c) ==> Place(Slots(p, t, events, n), c) == Place(p, c)
  {
    if n > 0 {
      SlotsHandOver(p, t, events, n - 1);
      assert Reported(events, events[n - 1].armer);
    }
  }

  /** What a poll by thread t does, as everybody else sees it. */
  ghost predicate Polled(s: Sys, p: Places, s2: Sys, p2: Places, t: nat, events: seq<Event>) {
    && At(s, t) && |s2.threads| == |s.threads| && s2.threads[t] == Thread(Polling, events, 0)
    && (forall u :: 0 <= u < |s.threads| && u != t ==> s2.threads[u] == s.threads[u])
    && s2.conns == s.conns && s2.open == s.open && s2.events == s.events && s2.lost == s.lost
    && s2.nextId == s.nextId && s2.interest == Disarmed(s.interest, events)
    && (forall c :: Reported(events, c) ==> ArmedAt(s, c) && IsOpen(s, c) && InConns(s, c) && Place(p, c) == Armed)
    && (forall i :: 0 <= i < |events| ==>
          events[i].fd == events[i].armer.fd && Place(p2, events[i].armer) == Slot(t, i))
    && (forall c :: !Reported(events, c) ==> Place(p2, c) == Place(p, c))
  }

  lemma PollIsPolled(s: Sys, p: Places, t: nat, events: seq<Event>)
    requires Inv(s, p) && Enabled(s, Poll(t, events))
    ensures Polled(s, p, Next(s, Poll(t, events)), NextPlaces(s, p, Poll(t, events)), t, events)
  {
    hide Inv, IsOpen, InConns, ArmedAt, CanReport;
    ReportedOnce(s, p, events);
    SlotsHandOver(p, t, events, |events|);
    forall i | 0 <= i < |events|
      ensures var c := events[i].armer;
              ArmedAt(s, c) && events[i].fd == c.fd && IsOpen(s, c) && InConns(s, c) && Place(p, c) == Armed
    {
      ReportedIsArmed(s, p, events, i);
    }
  }

  lemma PollPlace(s: Sys, p: Places, s2: Sys, p2: Places, t: nat, events: seq<Event>, c: Conn)
    requires Polled(s, p, s2, p2, t, events)
    ensures Place(p2, c) == Place(p, c) || (Reported(events, c) && Place(p, c) == Armed && Place(p2, c).Slot?)
  {
    if Reported(events, c) {
      var i :| 0 <= i < |events| && events[i].armer == c;
      assert Place(p2, events[i].armer) == Slot(t, i);
    }
  }

  lemma ThreadBesidePoll(s: Sys, p: Places, s2: Sys, p2: Places, u: nat)
    requires At(s, u) && At(s2, u) && s2.threads[u] == s.threads[u] && ThreadOk(s, p, u)
    requires s2.conns == s.conns && s2.open == s.open && s2.events == s.events
    requires forall fd :: fd in s2.interest <==> fd in s.interest
    requires HasSubject(PcOf(s, u)) ==>
               var c := Subject(PcOf(s, u));
               Place(p2, c) == Place(p, c) || (Place(p, c) == Armed && Place(p2, c).Slot?)
    ensures ThreadOk(s2, p2, u)
  {
  }

  lemma PollKeepsThreads(s: Sys, p: Places, s2: Sys, p2: Places, t: nat, events: seq<Event>)
    requires ThreadsOk(s, p) && Polled(s, p, s2, p2, t, events) && PcOf(s, t) == Polling
    ensures ThreadsOk(s2, p2)
  {
    hide Reported, HasSubject, Subject;
    forall u | 0 <= u < |s2.threads|
      ensures ThreadOk(s2, p2, u)
    {
      assert ThreadOk(s, p, u);
      if u != t {
        if HasSubject(PcOf(s, u)) {
          PollPlace(s, p, s2, p2, t, events, Subject(PcOf(s, u)));
        }
        ThreadBesidePoll(s, p, s2, p2, u);
      }
    }
  }

  lemma PollKeepsSlots(s: Sys, p: Places, s2: Sys, p2: Places, t: nat, events: seq<Event>)
    requires SlotsOk(s, p) && Polled(s, p, s2, p2, t, events)
    ensures SlotsOk(s2, p2)
  {
    forall u, k | 0 <= u < |s2.threads| && 0 <= k && Pending(s2.threads[u], k)
      ensures SlotOk(s2, p2, u, k)
    {
      if u == t {
        assert Reported(events, events[k].armer);
      } else {
        assert SlotOk(s, p, u, k);
        PollPlace(s, p, s2, p2, t, events, s.threads[u].batch[k].armer);
      }
    }
  }

  lemma PollKeepsFds(s: Sys, p: Places, s2: Sys, p2: Places, t: nat, events: seq<Event>, fd: Fd)
    requires At(s, 0) && FdOk(s, p, fd) && Polled(s, p, s2, p2, t, events) && PcOf(s, t) == Polling
    ensures FdOk(s2, p2, fd)
  {
    if fd in s.conns {
      PollPlace(s, p, s2, p2, t, events, s.conns[fd]);
    }
    if fd in s2.interest && s2.interest[fd].armed {
      var c := s.interest[fd].armer;
      PollPlace(s, p, s2, p2, t, events, c);
      assert !Reported(events, c);
    }
  }

  lemma PollKeepsPlaces(s: Sys, p: Places, s2: Sys, p2: Places, t: nat, events: seq<Event>, c: Conn)
    requires WhereOk(s, p, c) && Polled(s, p, s2, p2, t, events)
    requires PcOf(s, t) == Polling && s.threads[t].next == |s.threads[t].batch| && CanReport(s, events)
    ensures WhereOk(s2, p2, c)
  {
    if Reported(events, c) {
      var i :| 0 <= i < |events| && events[i].armer == c;
      assert PendingAt(s2, t, i, c);
    } else if ArmedAt(s, c) {
      assert forall i :: 0 <= i < |events| && events[i].fd == c.fd ==> events[i].armer == c;
    }
  }

  lemma PollKeeps(s: Sys, p: Places, e: Step)
    requires Inv(s, p) && Enabled(s, e) && e.Poll?
    ensures Inv(Next(s, e), NextPlaces(s, p, e))
  {
    hide ThreadsOk, SlotsOk, FdOk, WhereOk, CanReport, Slots;
    var s2, p2 := Next(s, e), NextPlaces(s, p, e);
    PollIsPolled(s, p, e.t, e.events);
    PollKeepsThreads(s, p, s2, p2, e.t, e.events);
    PollKeepsSlots(s, p, s2, p2, e.t, e.events);
    forall fd
      ensures FdOk(s2, p2, fd)
    {
      assert FdOk(s, p, fd);
      PollKeepsFds(s, p, s2, p2, e.t, e.events, fd);
    }
    forall c
      ensures WhereOk(s2, p2, c)
    {
      assert WhereOk(s, p, c);
      PollKeepsPlaces(s, p, s2, p2, e.t, e.events, c);
    }
  }

  // ---------------------------------------- steps of one thread on one connection

  function Accepted(s: Sys, c: Conn): Sys
    requires At(s, 0)
  {
    Move(s, 0, SettingUp(c)).(open := s.open[c.fd := c], nextId := s.nextId + 1, accepted := s.accepted + 1)
  }

  lemma AcceptShare(s: Sys, p: Places, c: Conn)
    requires Inv(s, p) && At(s, 0) && PcOf(s, 0) == Admitted && c.fd !in s.open && c.id == s.nextId
    ensures Kept(s, p, Accepted(s, c), p[c := AtThread(0)], 0, c)
  {
    hide Inv, ThreadsOk, SlotsOk, FdsOk, PlacesOk;
    Known(s, p, 0, c);
  }

  lemma AcceptStep(s: Sys, p: Places, c: Conn)
    requires Inv(s, p) && At(s, 0) && PcOf(s, 0) == Admitted && c.fd !in s.open && c.id == s.nextId
    ensures Inv(Accepted(s, c), p[c := AtThread(0)])
  {
    hide Inv, ThreadsOk, SlotsOk, FdsOk, PlacesOk, FdOk, WhereOk, CountOk, Compatible;
    if Place(p, c) != Gone {
      AtMostOnePerFd(s, p, c);
    }
    AcceptShare(s, p, c);
    Known(s, p, 0, c);
    Assemble(s, p, Accepted(s, c), p[c := AtThread(0)], 0, c);
  }

  lemma AcceptKeeps(s: Sys, p: Places, e: Step)
    requires Inv(s, p) && Enabled(s, e) && e.Accept?
    ensures Inv(Next(s, e), NextPlaces(s, p, e))
  {
    hide Inv, RefsBut, Refs, Expired;
    AcceptStep(s, p, Conn(s.nextId, e.fd));
  }

  lemma InsertShare(s: Sys, p: Places, c: Conn)
    requires Inv(s, p) && At(s, 0) && PcOf(s, 0) == SettingUp(c)
    ensures Kept(s, p, Move(s, 0, RegLook(c, In)).(conns := s.conns[c.fd := c]), p, 0, c)
  {
    hide Inv, ThreadsOk, SlotsOk, FdsOk, PlacesOk;
    Known(s, p, 0, c);
    SizeAfterInsert(s.conns, c.fd, c);
  }

  lemma InsertStep(s: Sys, p: Places, c: Conn)
    requires Inv(s, p) && At(s, 0) && PcOf(s, 0) == SettingUp(c)
    ensures Inv(Move(s, 0, RegLook(c, In)).(conns := s.conns[c.fd := c]), p)
  {
    hide Inv, ThreadsOk, SlotsOk, FdsOk, PlacesOk, FdOk, WhereOk, CountOk, Compatible;
    InsertShare(s, p, c);
    Known(s, p, 0, c);
    Assemble(s, p, Move(s, 0, RegLook(c, In)).(conns := s.conns[c.fd := c]), p, 0, c);
  }

  lemma InsertKeeps(s: Sys, p: Places, e: Step)
    requires Inv(s, p) && Enabled(s, e) && e.Insert?
    ensures Inv(Next(s, e), NextPlaces(s, p, e))
  {
    hide Inv, RefsBut, Refs, Expired;
    InsertStep(s, p, PcOf(s, 0).c);
  }

  lemma LookShare(s: Sys, p: Places, t: nat, c: Conn, mask: Mask)
    requires Inv(s, p) && At(s, t) && PcOf(s, t) == RegLook(c, mask)
    ensures Kept(s, p, Move(LookedUp(s, c.fd), t, RegCtl(c, mask, if t == 0 then Add else Mod)), p, t, c)
  {
    hide Inv, ThreadsOk, SlotsOk, FdsOk, PlacesOk;
    Known(s, p, t, c);
  }

  lemma LookStep(s: Sys, p: Places, t: nat, c: Conn, mask: Mask)
    requires Inv(s, p) && At(s, t) && PcOf(s, t) == RegLook(c, mask)
    ensures Inv(Move(LookedUp(s, c.fd), t, RegCtl(c, mask, if t == 0 then Add else Mod)), p)
  {
    hide Inv, ThreadsOk, SlotsOk, FdsOk, PlacesOk, FdOk, WhereOk, CountOk, Compatible;
    LookShare(s, p, t, c, mask);
    Known(s, p, t, c);
    Assemble(s, p, Move(LookedUp(s, c.fd), t, RegCtl(c, mask, if t == 0 then Add else Mod)), p, t, c);
  }

  lemma LookKeeps(s: Sys, p: Places, e: Step)
    requires Inv(s, p) && Enabled(s, e) && e.Look?
    ensures Inv(Next(s, e), NextPlaces(s, p, e))
  {
    hide Inv, RefsBut, Refs, Expired;
    LookVerdict(s, p, e.t);
    LookStep(s, p, e.t, PcOf(s, e.t).c, PcOf(s, e.t).mask);
  }

  lemma ArmShare(s: Sys, p: Places, t: nat, c: Conn, mask: Mask)
    requires Inv(s, p) && At(s, t) && PcOf(s, t).RegCtl? && PcOf(s, t).c == c
    ensures Kept(s, p, Move(s, t, RegStore(c)).(interest := s.interest[c.fd := Interest(true, mask, c)]), p[c := Armed], t, c)
  {
    hide Inv, ThreadsOk, SlotsOk, FdsOk, PlacesOk;
    Known(s, p, t, c);
  }

  lemma ArmStep(s: Sys, p: Places, t: nat, c: Conn, mask: Mask)
    requires Inv(s, p) && At(s, t) && PcOf(s, t).RegCtl? && PcOf(s, t).c == c
    ensures Inv(Move(s, t, RegStore(c)).(interest := s.interest[c.fd := Interest(true, mask, c)]), p[c := Armed])
  {
    hide Inv, ThreadsOk, SlotsOk, FdsOk, PlacesOk, FdOk, WhereOk, CountOk, Compatible;
    ArmShare(s, p, t, c, mask);
    Known(s, p, t, c);
    Assemble(s, p, Move(s, t, RegStore(c)).(interest := s.interest[c.fd := Interest(true, mask, c)]), p[c := Armed], t, c);
  }

  lemma FailShare(s: Sys, p: Places, t: nat, c: Conn)
    requires Inv(s, p) && At(s, t) && PcOf(s, t).RegCtl? && PcOf(s, t).c == c
    ensures Kept(s, p, Move(s, t, Leaving(c)).(lost := s.lost[c := CtlFailed]), p[c := Lost], t, c)
  {
    hide Inv, ThreadsOk, SlotsOk, FdsOk, PlacesOk;
    Known(s, p, t, c);
  }

  lemma FailStep(s: Sys, p: Places, t: nat, c: Conn)
    requires Inv(s, p) && At(s, t) && PcOf(s, t).RegCtl? && PcOf(s, t).c == c
    ensures Inv(Move(s, t, Leaving(c)).(lost := s.lost[c := CtlFailed]), p[c := Lost])
  {
    hide Inv, ThreadsOk, SlotsOk, FdsOk, PlacesOk, FdOk, WhereOk, CountOk, Compatible;
    FailShare(s, p, t, c);
    Known(s, p, t, c);
    Assemble(s, p, Move(s, t, Leaving(c)).(lost := s.lost[c := CtlFailed]), p[c := Lost], t, c);
  }

  lemma CtlKeeps(s: Sys, p: Places, e: Step)
    requires Inv(s, p) && Enabled(s, e) && e.Ctl?
    ensures Inv(Next(s, e), NextPlaces(s, p, e))
  {
    hide Inv, RefsBut, Refs, Expired;
    if e.ok {
      ArmStep(s, p, e.t, PcOf(s, e.t).c, PcOf(s, e.t).mask);
    } else {
      FailStep(s, p, e.t, PcOf(s, e.t).c);
    }
  }

  lemma StoreShare(s: Sys, p: Places, t: nat, c: Conn)
    requires Inv(s, p) && At(s, t) && PcOf(s, t) == RegStore(c)
    ensures Kept(s, p, Move(s, t, Leaving(c)).(events := s.events[c.fd := Ref(c)]), p, t, c)
  {
    hide Inv, ThreadsOk, SlotsOk, FdsOk, PlacesOk;
    Known(s, p, t, c);
  }

  lemma StoreStep(s: Sys, p: Places, t: nat, c: Conn)
    requires Inv(s, p) && At(s, t) && PcOf(s, t) == RegStore(c)
    ensures Inv(Move(s, t, Leaving(c)).(events := s.events[c.fd := Ref(c)]), p)
  {
    hide Inv, ThreadsOk, SlotsOk, FdsOk, PlacesOk, FdOk, WhereOk, CountOk, Compatible;
    StoreShare(s, p, t, c);
    Known(s, p, t, c);
    Assemble(s, p, Move(s, t, Leaving(c)).(events := s.events[c.fd := Ref(c)]), p, t, c);
  }

  lemma StoreKeeps(s: Sys, p: Places, e: Step)
    requires Inv(s, p) && Enabled(s, e) && e.Store?
    ensures Inv(Next(s, e), NextPlaces(s, p, e))
  {
    hide Inv, RefsBut, Refs, Expired;
    StoreStep(s, p, e.t, PcOf(s, e.t).c);
  }

  lemma DoneFields(s: Sys, t: nat)
    requires At(s, t)
    ensures var r := Done(s, t);
            && |r.threads| == |s.threads| && r == s.(threads := s.threads[t := r.threads[t]])
            && r.threads[t].pc == if t == 0 then Waiting else Polling
  {
  }

  lemma DoneSlots(s: Sys, p: Places, s2: Sys, p2: Places, t: nat, c: Conn)
    requires At(s, t) && !PcOf(s, t).Polling? && s2.threads == Done(s, t).threads
    requires Place(p, c).Slot? ==> p2 == p
    ensures OwnSlots(s, p, s2, p2, t, c)
  {
  }

  lemma LeaveToOthersShare(s: Sys, p: Places, t: nat, c: Conn)
    requires Inv(s, p) && At(s, t) && PcOf(s, t) == Leaving(c)
    ensures Kept(s, p, Done(s, t), p, t, c)
  {
    hide Inv, ThreadsOk, SlotsOk, FdsOk, PlacesOk;
    Known(s, p, t, c);
  }

  lemma LeaveToOthersKeeps(s: Sys, p: Places, t: nat, c: Conn)
    requires Inv(s, p) && At(s, t) && PcOf(s, t) == Leaving(c)
    ensures Inv(Done(s, t), p)
  {
    hide Inv, ThreadsOk, SlotsOk, FdsOk, PlacesOk, FdOk, WhereOk, CountOk, Compatible, OwnSlots;
    Known(s, p, t, c);
    LeaveToOthersShare(s, p, t, c);
    DoneSlots(s, p, Done(s, t), p, t, c);
    Assemble(s, p, Done(s, t), p, t, c);
  }

  lemma WaitingIsHeld(s: Sys, p: Places, c: Conn)
    requires Inv(s, p) && Place(p, c).Slot?
    ensures InConns(s, c)
  {
    hide ThreadsOk, FdsOk, CountOk;
    PlaceHere(s, p, c);
    PendingIsOk(s, p, Place(p, c).t, Place(p, c).k);
  }

  lemma LastLeaveShare(s: Sys, p: Places, t: nat, c: Conn)
    requires Inv(s, p) && At(s, t) && PcOf(s, t) == Leaving(c) && !RefsBut(s, c, t)
    ensures Kept(s, p, Move(s, t, Closing(c)), p[c := Shut(t)], t, c)
  {
    hide Inv, ThreadsOk, SlotsOk, FdsOk, PlacesOk;
    Known(s, p, t, c);
  }

  lemma LastLeaveKeeps(s: Sys, p: Places, t: nat, c: Conn)
    requires Inv(s, p) && At(s, t) && PcOf(s, t) == Leaving(c) && !RefsBut(s, c, t)
    ensures Inv(Move(s, t, Closing(c)), p[c := Shut(t)])
  {
    hide Inv, ThreadsOk, SlotsOk, FdsOk, PlacesOk, FdOk, WhereOk, CountOk, Compatible;
    LastLeaveShare(s, p, t, c);
    Known(s, p, t, c);
    if Place(p, c).Slot? {
      WaitingIsHeld(s, p, c);
    }
    Assemble(s, p, Move(s, t, Closing(c)), p[c := Shut(t)], t, c);
  }

  lemma LeaveKeeps(s: Sys, p: Places, e: Step)
    requires Inv(s, p) && Enabled(s, e) && e.Leave?
    ensures Inv(Next(s, e), NextPlaces(s, p, e))
  {
    hide Inv, RefsBut;
    var c := PcOf(s, e.t).c;
    if RefsBut(s, c, e.t) {
      LeaveToOthersKeeps(s, p, e.t, c);
    } else {
      LastLeaveKeeps(s, p, e.t, c);
    }
  }

  /** Nothing is left under the descriptor but what events_ remembers. */
  lemma CloseFd(s: Sys, p: Places, t: nat, c: Conn)
    requires Inv(s, p) && At(s, t) && PcOf(s, t) == Closing(c)
    ensures FdOk(Closed(s, t, c), p[c := Gone], c.fd)
  {
    hide Inv, ThreadsOk, SlotsOk, FdsOk, PlacesOk, Done;
    DoneFields(s, t);
    Known(s, p, t, c);
  }

  lemma CloseKeepsShare(s: Sys, p: Places, t: nat, c: Conn)
    requires Inv(s, p) && At(s, t) && PcOf(s, t) == Closing(c)
    ensures Place(p, c) == Shut(t) && Kept(s, p, Closed(s, t, c), p[c := Gone], t, c)
  {
    hide Inv, ThreadsOk, SlotsOk, FdsOk, PlacesOk, Done, FdOk;
    DoneFields(s, t);
    CloseFd(s, p, t, c);
    Known(s, p, t, c);
  }

  function Closed(s: Sys, t: nat, c: Conn): Sys
    requires At(s, t)
  {
    Done(s, t).(open := s.open - {c.fd}, interest := s.interest - {c.fd})
  }

  lemma CloseIsLocal(s: Sys, p: Places, t: nat, c: Conn)
    requires At(s, t) && PcOf(s, t) == Closing(c)
    ensures Local(s, p, Closed(s, t, c), p[c := Gone], t, c)
  {
    hide Done;
    DoneFields(s, t);
    forall fd | fd != c.fd
      ensures SameFd(s, Closed(s, t, c), fd)
    {
    }
  }

  lemma ClosedKeeps(s: Sys, p: Places, t: nat, c: Conn)
    requires Inv(s, p) && At(s, t) && PcOf(s, t) == Closing(c)
    ensures Inv(Closed(s, t, c), p[c := Gone])
  {
    hide Inv, FdOk, WhereOk, CountOk, Compatible, OwnSlots, Local, Place, SlotsOk, FdsOk, PlacesOk, ThreadsOk;
    CloseKeepsShare(s, p, t, c);
    CloseIsLocal(s, p, t, c);
    DoneSlots(s, p, Closed(s, t, c), p[c := Gone], t, c);
    Known(s, p, t, c);
    Assemble(s, p, Closed(s, t, c), p[c := Gone], t, c);
  }

  lemma CloseKeeps(s: Sys, p: Places, e: Step)
    requires Inv(s, p) && Enabled(s, e) && e.Close?
    ensures Inv(Next(s, e), NextPlaces(s, p, e))
  {
    hide Inv;
    ClosedKeeps(s, p, e.t, PcOf(s, e.t).c);
  }

  lemma GetShare(s: Sys, p: Places, t: nat, e: Event)
    requires Inv(s, p) && At(s, t) && PcOf(s, t) == Polling && s.threads[t].next < |s.threads[t].batch|
    requires s.threads[t].batch[s.threads[t].next] == e
    ensures Kept(s, p, Move(LookedUp(s, e.fd), t, Got(e, Lookup(s, e.fd))), p[e.armer := AtThread(t)], t, e.armer)
  {
    hide Inv, ThreadsOk, SlotsOk, FdsOk, PlacesOk;
    PendingIsOk(s, p, t, s.threads[t].next);
    Known(s, p, t, e.armer);
  }

  lemma GetStep(s: Sys, p: Places, t: nat, e: Event)
    requires Inv(s, p) && At(s, t) && PcOf(s, t) == Polling && s.threads[t].next < |s.threads[t].batch|
    requires s.threads[t].batch[s.threads[t].next] == e
    ensures Inv(Move(LookedUp(s, e.fd), t, Got(e, Lookup(s, e.fd))), p[e.armer := AtThread(t)])
  {
    hide Inv, ThreadsOk, SlotsOk, FdsOk, PlacesOk, FdOk, WhereOk, CountOk, Compatible;
    PendingIsOk(s, p, t, s.threads[t].next);
    GetShare(s, p, t, e);
    Known(s, p, t, e.armer);
    Assemble(s, p, Move(LookedUp(s, e.fd), t, Got(e, Lookup(s, e.fd))), p[e.armer := AtThread(t)], t, e.armer);
  }

  lemma GetKeeps(s: Sys, p: Places, e: Step)
    requires Inv(s, p) && Enabled(s, e) && e.Get?
    ensures Inv(Next(s, e), NextPlaces(s, p, e))
  {
    hide Inv, RefsBut, Refs, Expired;
    GetStep(s, p, e.t, s.threads[e.t].batch[s.threads[e.t].next]);
  }

  function Dropped(s: Sys, t: nat, c: Conn): Sys
    requires At(s, t)
  {
    Done(s, t).(lost := s.lost[c := DroppedInWindow])
  }

  lemma DropShare(s: Sys, p: Places, t: nat, c: Conn)
    requires Inv(s, p) && At(s, t) && PcOf(s, t).Got? && PcOf(s, t).e.armer == c
    ensures Kept(s, p, Dropped(s, t, c), p[c := Lost], t, c)
  {
    hide Inv, ThreadsOk, SlotsOk, FdsOk, PlacesOk, Done;
    DoneFields(s, t);
    Known(s, p, t, c);
  }

  lemma DropIsLocal(s: Sys, p: Places, t: nat, c: Conn)
    requires At(s, t) && PcOf(s, t).Got? && PcOf(s, t).e.armer == c
    ensures Local(s, p, Dropped(s, t, c), p[c := Lost], t, c)
  {
    hide Done;
    DoneFields(s, t);
  }

  lemma DropStep(s: Sys, p: Places, t: nat, c: Conn)
    requires Inv(s, p) && At(s, t) && PcOf(s, t).Got? && PcOf(s, t).e.armer == c
    ensures Inv(Dropped(s, t, c), p[c := Lost])
  {
    hide Inv, ThreadsOk, SlotsOk, FdsOk, PlacesOk, FdOk, WhereOk, CountOk, Compatible, Local, OwnSlots, Dropped;
    DropShare(s, p, t, c);
    DropIsLocal(s, p, t, c);
    Known(s, p, t, c);
    DropSlots(s, p, t, c);
    Assemble(s, p, Dropped(s, t, c), p[c := Lost], t, c);
  }

  lemma DropSlots(s: Sys, p: Places, t: nat, c: Conn)
    requires At(s, t) && PcOf(s, t).Got? && PcOf(s, t).e.armer == c && ThreadOk(s, p, t)
    ensures OwnSlots(s, p, Dropped(s, t, c), p[c := Lost], t, c)
  {
    hide InConns, Registered, Points;
    DoneSlots(s, p, Dropped(s, t, c), p[c := Lost], t, c);
  }

  lemma ResolveShare(s: Sys, p: Places, t: nat, e: Event, w: Weak)
    requires Inv(s, p) && At(s, t) && PcOf(s, t) == Got(e, w) && w == Ref(e.armer)
    ensures Kept(s, p, Move(s, t, Live(e, e.armer)), p, t, e.armer)
  {
    hide Inv, ThreadsOk, SlotsOk, FdsOk, PlacesOk;
    Known(s, p, t, e.armer);
  }

  lemma ResolveStep(s: Sys, p: Places, t: nat, e: Event, w: Weak)
    requires Inv(s, p) && At(s, t) && PcOf(s, t) == Got(e, w) && w == Ref(e.armer)
    ensures Inv(Move(s, t, Live(e, e.armer)), p)
  {
    hide Inv, ThreadsOk, SlotsOk, FdsOk, PlacesOk, FdOk, WhereOk, CountOk, Compatible;
    ResolveShare(s, p, t, e, w);
    Known(s, p, t, e.armer);
    Assemble(s, p, Move(s, t, Live(e, e.armer)), p, t, e.armer);
  }

  lemma CheckKeeps(s: Sys, p: Places, e: Step)
    requires Inv(s, p) && Enabled(s, e) && e.Check?
    ensures Inv(Next(s, e), NextPlaces(s, p, e))
  {
    hide Inv, RefsBut, Refs, Expired, Done;
    var Got(ev, w) := PcOf(s, e.t);
    if Expired(s, w) {
      DropStep(s, p, e.t, ev.armer);
    } else {
      CheckVerdict(s, p, e.t);
      ResolveStep(s, p, e.t, ev, w);
    }
  }

  lemma EnterShare(s: Sys, p: Places, t: nat, e: Event, c: Conn)
    requires Inv(s, p) && At(s, t) && PcOf(s, t) == Live(e, c)
    ensures Kept(s, p, Move(s, t, Running(c, e.ready)), p, t, c)
  {
    hide Inv, ThreadsOk, SlotsOk, FdsOk, PlacesOk;
    Known(s, p, t, c);
  }

  lemma EnterStep(s: Sys, p: Places, t: nat, e: Event, c: Conn)
    requires Inv(s, p) && At(s, t) && PcOf(s, t) == Live(e, c)
    ensures Inv(Move(s, t, Running(c, e.ready)), p)
  {
    hide Inv, ThreadsOk, SlotsOk, FdsOk, PlacesOk, FdOk, WhereOk, CountOk, Compatible;
    EnterShare(s, p, t, e, c);
    Known(s, p, t, c);
    Assemble(s, p, Move(s, t, Running(c, e.ready)), p, t, c);
  }

  lemma LiveIsHeld(s: Sys, p: Places, t: nat, e: Event, c: Conn)
    requires Inv(s, p) && At(s, t) && PcOf(s, t) == Live(e, c)
    ensures Refs(s, c)
  {
    hide Inv, ThreadsOk, SlotsOk, FdsOk, PlacesOk, FdOk, WhereOk, CountOk;
    Known(s, p, t, c);
  }

  lemma LockKeeps(s: Sys, p: Places, e: Step)
    requires Inv(s, p) && Enabled(s, e) && e.Lock?
    ensures Inv(Next(s, e), NextPlaces(s, p, e))
  {
    hide Inv, RefsBut, Refs, Expired;
    var Live(ev, c) := PcOf(s, e.t);
    LiveIsHeld(s, p, e.t, ev, c);
    EnterStep(s, p, e.t, ev, c);
  }

  lemma AgainShare(s: Sys, p: Places, t: nat, c: Conn, mask: Mask)
    requires Inv(s, p) && At(s, t) && PcOf(s, t).Running? && PcOf(s, t).c == c
    ensures Kept(s, p, Move(s, t, RegLook(c, mask)), p, t, c)
  {
    hide Inv, ThreadsOk, SlotsOk, FdsOk, PlacesOk;
    Known(s, p, t, c);
  }

  lemma AgainStep(s: Sys, p: Places, t: nat, c: Conn, mask: Mask)
    requires Inv(s, p) && At(s, t) && PcOf(s, t).Running? && PcOf(s, t).c == c
    ensures Inv(Move(s, t, RegLook(c, mask)), p)
  {
    hide Inv, ThreadsOk, SlotsOk, FdsOk, PlacesOk, FdOk, WhereOk, CountOk, Compatible;
    AgainShare(s, p, t, c, mask);
    Known(s, p, t, c);
    Assemble(s, p, Move(s, t, RegLook(c, mask)), p, t, c);
  }

  lemma RearmKeeps(s: Sys, p: Places, e: Step)
    requires Inv(s, p) && Enabled(s, e) && e.Rearm?
    ensures Inv(Next(s, e), NextPlaces(s, p, e))
  {
    hide Inv, RefsBut, Refs, Expired;
    AgainStep(s, p, e.t, PcOf(s, e.t).c, e.mask);
  }

  lemma EraseShare(s: Sys, p: Places, t: nat, c: Conn)
    requires Inv(s, p) && At(s, t) && PcOf(s, t).Running? && PcOf(s, t).c == c
    ensures Kept(s, p, Move(s, t, Erased(c)).(conns := s.conns - {c.fd}, erased := s.erased + 1), p, t, c)
  {
    hide Inv, ThreadsOk, SlotsOk, FdsOk, PlacesOk;
    Known(s, p, t, c);
    SizeAfterErase(s.conns, c.fd);
  }

  lemma EraseStep(s: Sys, p: Places, t: nat, c: Conn)
    requires Inv(s, p) && At(s, t) && PcOf(s, t).Running? && PcOf(s, t).c == c
    ensures Inv(Move(s, t, Erased(c)).(conns := s.conns - {c.fd}, erased := s.erased + 1), p)
  {
    hide Inv, ThreadsOk, SlotsOk, FdsOk, PlacesOk, FdOk, WhereOk, CountOk, Compatible;
    EraseShare(s, p, t, c);
    Known(s, p, t, c);
    Assemble(s, p, Move(s, t, Erased(c)).(conns := s.conns - {c.fd}, erased := s.erased + 1), p, t, c);
  }

  lemma EraseKeeps(s: Sys, p: Places, e: Step)
    requires Inv(s, p) && Enabled(s, e) && e.Erase?
    ensures Inv(Next(s, e), NextPlaces(s, p, e))
  {
    hide Inv, RefsBut, Refs, Expired;
    EraseStep(s, p, e.t, PcOf(s, e.t).c);
  }

  lemma IgnoreShare(s: Sys, p: Places, t: nat, c: Conn)
    requires Inv(s, p) && At(s, t) && PcOf(s, t).Running? && PcOf(s, t).c == c
    ensures Kept(s, p, Move(s, t, Leaving(c)).(lost := s.lost[c := NotHandled]), p[c := Lost], t, c)
  {
    hide Inv, ThreadsOk, SlotsOk, FdsOk, PlacesOk;
    Known(s, p, t, c);
  }

  lemma IgnoreStep(s: Sys, p: Places, t: nat, c: Conn)
    requires Inv(s, p) && At(s, t) && PcOf(s, t).Running? && PcOf(s, t).c == c
    ensures Inv(Move(s, t, Leaving(c)).(lost := s.lost[c := NotHandled]), p[c := Lost])
  {
    hide Inv, ThreadsOk, SlotsOk, FdsOk, PlacesOk, FdOk, WhereOk, CountOk, Compatible;
    IgnoreShare(s, p, t, c);
    Known(s, p, t, c);
    Assemble(s, p, Move(s, t, Leaving(c)).(lost := s.lost[c := NotHandled]), p[c := Lost], t, c);
  }

  lemma IgnoreKeeps(s: Sys, p: Places, e: Step)
    requires Inv(s, p) && Enabled(s, e) && e.Ignore?
    ensures Inv(Next(s, e), NextPlaces(s, p, e))
  {
    hide Inv, RefsBut, Refs, Expired;
    IgnoreStep(s, p, e.t, PcOf(s, e.t).c);
  }

  lemma NotifyShare(s: Sys, p: Places, t: nat, c: Conn)
    requires Inv(s, p) && At(s, t) && PcOf(s, t) == Erased(c)
    ensures Kept(s, p, Move(s, t, Leaving(c)), p[c := Gone], t, c)
  {
    hide Inv, ThreadsOk, SlotsOk, FdsOk, PlacesOk;
    Known(s, p, t, c);
  }

  lemma NotifyStep(s: Sys, p: Places, t: nat, c: Conn)
    requires Inv(s, p) && At(s, t) && PcOf(s, t) == Erased(c)
    ensures Inv(Move(s, t, Leaving(c)), p[c := Gone])
  {
    hide Inv, ThreadsOk, SlotsOk, FdsOk, PlacesOk, FdOk, WhereOk, CountOk, Compatible;
    NotifyShare(s, p, t, c);
    Known(s, p, t, c);
    Assemble(s, p, Move(s, t, Leaving(c)), p[c := Gone], t, c);
  }

  lemma NotifyKeeps(s: Sys, p: Places, e: Step)
    requires Inv(s, p) && Enabled(s, e) && e.Notify?
    ensures Inv(Next(s, e), NextPlaces(s, p, e))
  {
    hide Inv, RefsBut, Refs, Expired;
    NotifyStep(s, p, e.t, PcOf(s, e.t).c);
  }

  // --------------------------------------------------------------- every step

  lemma StepKeeps(s: Sys, p: Places, e: Step)
    requires Inv(s, p) && Enabled(s, e)
    ensures Inv(Next(s, e), NextPlaces(s, p, e))
  {
    hide *;
    match e
    case Admit => AdmitKeeps(s, p, e);
    case Accept(_) => AcceptKeeps(s, p, e);
    case Insert => InsertKeeps(s, p, e);
    case Look(_) => LookKeeps(s, p, e);
    case Ctl(_, _) => CtlKeeps(s, p, e);
    case Store(_) => StoreKeeps(s, p, e);
    case Leave(_) => LeaveKeeps(s, p, e);
    case Close(_) => CloseKeeps(s, p, e);
    case Poll(_, _) => PollKeeps(s, p, e);
    case Get(_) => GetKeeps(s, p, e);
    case Check(_) => CheckKeeps(s, p, e);
    case Lock(_) => LockKeeps(s, p, e);
    case Rearm(_, _) => RearmKeeps(s, p, e);
    case Erase(_) => EraseKeeps(s, p, e);
    case Ignore(_) => IgnoreKeeps(s, p, e);
    case Notify(_) => NotifyKeeps(s, p, e);
  }

  lemma InitIsOk(workers: nat, cap: nat)
    ensures Inv(Init(workers, cap), map[])
  {
  }
}
