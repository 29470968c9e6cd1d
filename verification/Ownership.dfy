/** What every state of the connection protocol satisfies, and how a step of one
    thread on one connection leaves everybody else's share of it alone. */
module Ownership {
  import opened Protocol

  /** Who has charge of a connection. */
  datatype Loc =
    | AtThread(t: nat)       // a thread that sets it up, resolved its event or is in its callback
    | Armed                  // the interest set
    | Slot(t: nat, k: nat)   // an event not yet looked at in the batch of a worker
    | Lost                   // nobody: no event will come for it
    | Shut(t: nat)           // the thread about to close its socket
    | Gone                   // nobody: it does not exist yet, or has been erased

  type Places = map<Conn, Loc>

  function Place(p: Places, c: Conn): Loc {
    if c in p then p[c] else Gone
  }

  predicate IsOpen(s: Sys, c: Conn) {
    c.fd in s.open && s.open[c.fd] == c
  }

  predicate Points(s: Sys, c: Conn) {
    Lookup(s, c.fd) == Ref(c)
  }

  predicate Registered(s: Sys, c: Conn) {
    c.fd in s.interest && Points(s, c)
  }

  /** Event k of the thread's batch has not been looked at yet. */
  predicate Pending(th: Thread, k: nat) {
    k < |th.batch| && (if th.pc == Polling then th.next <= k else th.next < k)
  }

  predicate Owns(pc: Pc, c: Conn) {
    match pc
    case SettingUp(d) => c == d
    case Got(e, _) => c == e.armer
    case Live(e, _) => c == e.armer
    case Running(d, _) => c == d
    case Erased(d) => c == d
    case RegLook(d, _) => c == d
    case RegCtl(d, _, _) => c == d
    case _ => false
  }

  predicate Mine(s: Sys, p: Places, t: nat, c: Conn) {
    Place(p, c) == AtThread(t) && IsOpen(s, c)
  }

  /** The acceptor registers a descriptor for the first time, a worker again. */
  predicate FirstOrAgain(s: Sys, t: nat, c: Conn) {
    if t == 0 then c.fd !in s.interest else Registered(s, c)
  }

  predicate ThreadOk(s: Sys, p: Places, t: nat)
    requires At(s, t)
  {
    match PcOf(s, t)
    case Waiting => t == 0
    case Admitted => t == 0
    case SettingUp(c) => t == 0 && Mine(s, p, t, c) && c.fd !in s.conns && c.fd !in s.interest
    case Polling => t > 0
    case Got(e, w) =>
      && t > 0 && Mine(s, p, t, e.armer) && e.fd == e.armer.fd && InConns(s, e.armer) && e.fd in s.interest
      && (w.Ref? ==> w.c.fd == e.fd && (w.c == e.armer ==> Points(s, e.armer)))
    case Live(e, c) => t > 0 && c == e.armer && Mine(s, p, t, c) && InConns(s, c) && Registered(s, c)
    case Running(c, _) => t > 0 && Mine(s, p, t, c) && InConns(s, c) && Registered(s, c)
    case NullConn => false
    case Erased(c) => t > 0 && Mine(s, p, t, c) && !InConns(s, c)
    case RegLook(c, _) => Mine(s, p, t, c) && InConns(s, c) && FirstOrAgain(s, t, c)
    case RegCtl(c, _, op) => Mine(s, p, t, c) && InConns(s, c) && FirstOrAgain(s, t, c) && (op == Add <==> t == 0)
    case RegStore(c) => IsOpen(s, c) && !Place(p, c).Shut? && c.fd in s.interest && (t == 0 <==> !Points(s, c))
    case Leaving(c) => IsOpen(s, c) && !Place(p, c).Shut?
    case Closing(c) => IsOpen(s, c) && Place(p, c) == Shut(t)
  }

  predicate SlotOk(s: Sys, p: Places, t: nat, k: nat)
    requires At(s, t) && k < |s.threads[t].batch|
  {
    var e := s.threads[t].batch[k];
    Place(p, e.armer) == Slot(t, k) && e.fd == e.armer.fd && IsOpen(s, e.armer) && InConns(s, e.armer)
    && e.fd in s.interest
  }

  predicate OpenOk(s: Sys, fd: Fd) {
    fd in s.open ==> s.open[fd].fd == fd && s.open[fd].id < s.nextId
  }

  predicate ConnOk(s: Sys, p: Places, fd: Fd) {
    fd in s.conns ==>
      && s.conns[fd].fd == fd && IsOpen(s, s.conns[fd])
      && !Place(p, s.conns[fd]).Shut? && !Place(p, s.conns[fd]).Gone?
  }

  predicate EventOk(s: Sys, fd: Fd) {
    fd in s.events && s.events[fd].Ref? ==>
      && s.events[fd].c.fd == fd && s.events[fd].c.id < s.nextId
      && (IsOpen(s, s.events[fd].c) ==> fd in s.interest)
  }

  predicate InterestOk(s: Sys, p: Places, fd: Fd)
    requires At(s, 0)
  {
    fd in s.interest ==>
      var c := s.interest[fd].armer;
      && c.fd == fd && IsOpen(s, c)
      && (Points(s, c) || PcOf(s, 0) == RegStore(c))
      && (s.interest[fd].armed ==> Place(p, c) == Armed && InConns(s, c))
  }

  predicate FdOk(s: Sys, p: Places, fd: Fd)
    requires At(s, 0)
  {
    OpenOk(s, fd) && ConnOk(s, p, fd) && EventOk(s, fd) && InterestOk(s, p, fd)
  }

  predicate ArmedAt(s: Sys, c: Conn) {
    c.fd in s.interest && s.interest[c.fd].armed && s.interest[c.fd].armer == c
  }

  predicate PendingAt(s: Sys, t: nat, k: nat, c: Conn) {
    At(s, t) && Pending(s.threads[t], k) && s.threads[t].batch[k].armer == c
  }

  /** The place of c is what its name says. */
  predicate WhereOk(s: Sys, p: Places, c: Conn) {
    && (c in s.lost ==> Place(p, c) == Lost)
    && match Place(p, c)
       case AtThread(t) => At(s, t) && Owns(PcOf(s, t), c)
       case Armed => ArmedAt(s, c)
       case Slot(t, k) => PendingAt(s, t, k, c)
       case Lost => c in s.lost && InConns(s, c)
       case Shut(t) => At(s, t) && PcOf(s, t) == Closing(c)
       case Gone => true
  }

  predicate CountOk(s: Sys)
    requires At(s, 0)
  {
    && s.accepted == s.erased + |s.conns| + (if PcOf(s, 0).SettingUp? then 1 else 0)
    && |s.conns| + (if PcOf(s, 0).SettingUp? || PcOf(s, 0) == Admitted then 1 else 0) <= s.cap
  }

  ghost predicate ThreadsOk(s: Sys, p: Places) {
    forall t :: 0 <= t < |s.threads| ==> ThreadOk(s, p, t)
  }

  ghost predicate SlotsOk(s: Sys, p: Places) {
    forall t, k :: 0 <= t < |s.threads| && 0 <= k && Pending(s.threads[t], k) ==> SlotOk(s, p, t, k)
  }

  ghost predicate FdsOk(s: Sys, p: Places)
    requires At(s, 0)
  {
    forall fd :: FdOk(s, p, fd)
  }

  ghost predicate PlacesOk(s: Sys, p: Places) {
    forall c :: WhereOk(s, p, c)
  }

  ghost predicate Inv(s: Sys, p: Places) {
    At(s, 0) && ThreadsOk(s, p) && SlotsOk(s, p) && FdsOk(s, p) && PlacesOk(s, p) && CountOk(s)
  }

  // ------------------------------------------------------------- consequences

  lemma AtMostOnePerFd(s: Sys, p: Places, c: Conn)
    requires Inv(s, p) && Place(p, c) != Gone
    ensures IsOpen(s, c)
  {
    hide ThreadsOk, SlotsOk, FdsOk, CountOk;
    assert WhereOk(s, p, c);
    match Place(p, c)
    case AtThread(t) => OwnerIsOpen(s, p, t, c);
    case Armed => ArmedIsOpen(s, p, c);
    case Slot(t, k) => SlotIsOpen(s, p, t, k);
    case Lost => ConnIsOpen(s, p, c);
    case Shut(t) => OwnerIsOpen(s, p, t, c);
  }

  lemma OwnerIsOpen(s: Sys, p: Places, t: nat, c: Conn)
    requires At(s, t) && ThreadsOk(s, p)
    requires Owns(PcOf(s, t), c) || PcOf(s, t) == Closing(c)
    ensures IsOpen(s, c)
    ensures Owns(PcOf(s, t), c) ==> Place(p, c) == AtThread(t)
  {
    hide FirstOrAgain, Registered, InConns;
    assert ThreadOk(s, p, t);
  }

  lemma HolderIsOpen(s: Sys, p: Places, t: nat, c: Conn)
    requires At(s, t) && ThreadsOk(s, p) && Holds(PcOf(s, t), c)
    ensures IsOpen(s, c) && !Place(p, c).Shut?
  {
    hide FirstOrAgain, Registered, InConns;
    assert ThreadOk(s, p, t);
  }

  lemma SlotIsOpen(s: Sys, p: Places, t: nat, k: nat)
    requires At(s, t) && SlotsOk(s, p) && Pending(s.threads[t], k)
    ensures SlotOk(s, p, t, k)
  {
  }

  lemma ConnIsOpen(s: Sys, p: Places, c: Conn)
    requires At(s, 0) && FdsOk(s, p) && InConns(s, c)
    ensures IsOpen(s, c) && !Place(p, c).Shut? && !Place(p, c).Gone?
  {
    hide OpenOk, EventOk, InterestOk;
    assert FdOk(s, p, c.fd);
  }

  lemma ArmedIsOpen(s: Sys, p: Places, c: Conn)
    requires At(s, 0) && FdsOk(s, p) && ArmedAt(s, c)
    ensures IsOpen(s, c) && InConns(s, c) && Place(p, c) == Armed
  {
    hide OpenOk, EventOk, ConnOk;
    assert FdOk(s, p, c.fd);
  }

  lemma RefsAreOpen(s: Sys, p: Places, c: Conn, t: nat)
    requires Inv(s, p) && RefsBut(s, c, t)
    ensures IsOpen(s, c) && !Place(p, c).Shut?
  {
    hide SlotsOk, PlacesOk, CountOk;
    if InConns(s, c) {
      ConnIsOpen(s, p, c);
    } else {
      var i :| 0 <= i < |s.threads| && i != t && Holds(s.threads[i].pc, c);
      HolderIsOpen(s, p, i, c);
    }
  }

  // ------------------------------------------------------------------- frames

  /** The tables agree on fd. */
  predicate SameFd(s: Sys, s2: Sys, fd: Fd) {
    && (fd in s.conns <==> fd in s2.conns) && (fd in s.conns ==> s.conns[fd] == s2.conns[fd])
    && (fd in s.interest <==> fd in s2.interest) && (fd in s.interest ==> s.interest[fd] == s2.interest[fd])
    && (fd in s.events <==> fd in s2.events) && (fd in s.events ==> s.events[fd] == s2.events[fd])
    && (fd in s.open <==> fd in s2.open) && (fd in s.open ==> s.open[fd] == s2.open[fd])
  }

  predicate SamePlace(s: Sys, p: Places, s2: Sys, p2: Places, c: Conn) {
    Place(p, c) == Place(p2, c) && (c in s.lost <==> c in s2.lost)
  }

  predicate HasSubject(pc: Pc) {
    match pc
    case Waiting => false
    case Admitted => false
    case Polling => false
    case NullConn => false
    case _ => true
  }

  /** The connection the thread is concerned with. */
  function Subject(pc: Pc): Conn
    requires HasSubject(pc)
  {
    match pc
    case SettingUp(c) => c
    case Got(e, _) => e.armer
    case Live(e, _) => e.armer
    case Running(c, _) => c
    case Erased(c) => c
    case RegLook(c, _) => c
    case RegCtl(c, _, _) => c
    case RegStore(c) => c
    case Leaving(c) => c
    case Closing(c) => c
  }

  /** A step of thread t0 alone, concerned with connection c0 alone. */
  ghost predicate Local(s: Sys, p: Places, s2: Sys, p2: Places, t0: nat, c0: Conn) {
    && At(s, t0) && |s2.threads| == |s.threads|
    && (forall t :: 0 <= t < |s.threads| && t != t0 ==> s2.threads[t] == s.threads[t])
    && s.nextId <= s2.nextId
    && (forall fd :: fd != c0.fd ==> SameFd(s, s2, fd))
    && (forall c :: c != c0 ==> SamePlace(s, p, s2, p2, c))
    && (PcOf(s, t0).RegStore? ==> PcOf(s, t0).c == c0)
  }

  lemma OtherFd(s: Sys, p: Places, s2: Sys, p2: Places, t0: nat, c0: Conn, fd: Fd)
    requires At(s, 0) && At(s2, 0) && Local(s, p, s2, p2, t0, c0) && fd != c0.fd && FdOk(s, p, fd)
    ensures FdOk(s2, p2, fd)
  {
    assert SameFd(s, s2, fd);
    if fd in s.conns {
      assert SamePlace(s, p, s2, p2, s.conns[fd]);
    }
    if fd in s.interest {
      assert SamePlace(s, p, s2, p2, s.interest[fd].armer);
    }
  }

  /** A thread's share depends only on its subject. */
  lemma SameShare(s: Sys, p: Places, s2: Sys, p2: Places, t: nat)
    requires At(s, t) && At(s2, t) && s2.threads[t] == s.threads[t] && ThreadOk(s, p, t)
    requires HasSubject(PcOf(s, t)) ==>
               SameFd(s, s2, Subject(PcOf(s, t)).fd) && SamePlace(s, p, s2, p2, Subject(PcOf(s, t)))
    ensures ThreadOk(s2, p2, t)
  {
  }

  lemma OtherThread(s: Sys, p: Places, s2: Sys, p2: Places, t0: nat, c0: Conn, t: nat)
    requires Local(s, p, s2, p2, t0, c0) && At(s, t) && t != t0 && ThreadOk(s, p, t)
    requires HasSubject(PcOf(s, t)) ==> Subject(PcOf(s, t)).fd != c0.fd
    ensures ThreadOk(s2, p2, t)
  {
    hide ThreadOk, SameFd, SamePlace;
    if HasSubject(PcOf(s, t)) {
      assert SameFd(s, s2, Subject(PcOf(s, t)).fd);
      assert SamePlace(s, p, s2, p2, Subject(PcOf(s, t)));
    }
    SameShare(s, p, s2, p2, t);
  }

  lemma SubjectIsOpen(s: Sys, p: Places, t: nat)
    requires At(s, t) && ThreadOk(s, p, t) && HasSubject(PcOf(s, t))
    ensures IsOpen(s, Subject(PcOf(s, t)))
  {
  }

  /** A slot's share depends only on the connection that armed its descriptor. */
  lemma OtherSlot(s: Sys, p: Places, s2: Sys, p2: Places, t0: nat, c0: Conn, t: nat, k: nat)
    requires Local(s, p, s2, p2, t0, c0) && At(s, t) && s2.threads[t].batch == s.threads[t].batch
    requires k < |s.threads[t].batch| && SlotOk(s, p, t, k) && s.threads[t].batch[k].armer.fd != c0.fd
    ensures SlotOk(s2, p2, t, k)
  {
    var c := s.threads[t].batch[k].armer;
    assert SameFd(s, s2, c.fd);
    assert SamePlace(s, p, s2, p2, c);
  }

  // The ways a step on c0 can be compatible with other threads concerned with c0.

  /** The thread has charge of c0, and keeps it open and registered as it was. */
  predicate InCharge(s: Sys, p: Places, s2: Sys, p2: Places, t0: nat, c0: Conn) {
    && IsOpen(s, c0) && IsOpen(s2, c0)
    && (Place(p, c0) == AtThread(t0)
        || (Place(p, c0).Slot? && Place(p, c0).t == t0 && Place(p2, c0) == AtThread(t0)))
    && !Place(p2, c0).Shut?
    && (c0.fd in s.interest ==> c0.fd in s2.interest)
    && (Points(s, c0) <==> Points(s2, c0))
  }

  /** No connection has the descriptor, or this thread is closing the one that has. */
  predicate Alone(s: Sys, p: Places, t0: nat, c0: Conn) {
    c0.fd !in s.open || (IsOpen(s, c0) && Place(p, c0) == Shut(t0))
  }

  /** The tables stay as they were, but events_ may come to point to c0. */
  predicate OnlyPoints(s: Sys, p: Places, s2: Sys, p2: Places, t0: nat, c0: Conn) {
    && At(s, t0) && PcOf(s, t0) == RegStore(c0) && p2 == p && Points(s2, c0)
    && s2.conns == s.conns && s2.interest == s.interest && s2.open == s.open
  }

  /** The tables stay as they were. */
  predicate NoTable(s: Sys, s2: Sys) {
    s2.conns == s.conns && s2.interest == s.interest && s2.open == s.open && s2.events == s.events && s2.lost == s.lost
  }

  /** Nobody else refers to c0 any more. */
  predicate LastRef(s: Sys, p: Places, s2: Sys, p2: Places, t0: nat, c0: Conn) {
    NoTable(s, s2) && !RefsBut(s, c0, t0) && IsOpen(s, c0) && p2 == p[c0 := Shut(t0)] && !Place(p, c0).Shut?
  }

  lemma ThreadBesideOwner(s: Sys, p: Places, s2: Sys, p2: Places, t0: nat, c0: Conn, t: nat)
    requires At(s, t) && At(s2, t) && t != t0 && s2.threads[t] == s.threads[t] && ThreadOk(s, p, t)
    requires HasSubject(PcOf(s, t)) && Subject(PcOf(s, t)).fd == c0.fd
    requires InCharge(s, p, s2, p2, t0, c0)
    ensures ThreadOk(s2, p2, t)
  {
    SubjectIsOpen(s, p, t);
    assert Subject(PcOf(s, t)) == c0;
  }

  lemma ThreadBesideStore(s: Sys, p: Places, s2: Sys, p2: Places, t0: nat, c0: Conn, t: nat)
    requires At(s, t) && At(s2, t) && t != t0 && s2.threads[t] == s.threads[t] && ThreadOk(s, p, t)
    requires HasSubject(PcOf(s, t)) && Subject(PcOf(s, t)).fd == c0.fd
    requires OnlyPoints(s, p, s2, p2, t0, c0) && ThreadOk(s, p, t0)
    ensures ThreadOk(s2, p2, t)
  {
    SubjectIsOpen(s, p, t);
    assert Subject(PcOf(s, t)) == c0;
  }

  lemma NotLastBeside(s: Sys, p: Places, s2: Sys, p2: Places, t0: nat, c0: Conn, t: nat)
    requires At(s, t) && t != t0 && ThreadOk(s, p, t)
    requires HasSubject(PcOf(s, t)) && Subject(PcOf(s, t)).fd == c0.fd
    ensures !LastRef(s, p, s2, p2, t0, c0)
  {
    if LastRef(s, p, s2, p2, t0, c0) {
      SubjectIsOpen(s, p, t);
      assert false;
    }
  }

  predicate Left(p: Places, p2: Places, c: Conn, l: Loc) {
    Place(p, c) == l && Place(p2, c) != l
  }

  /** What t0 has left to look at is what it had, less the slot c0 has left. */
  ghost predicate OwnSlots(s: Sys, p: Places, s2: Sys, p2: Places, t0: nat, c0: Conn)
    requires At(s, t0) && At(s2, t0)
  {
    && s2.threads[t0].batch == s.threads[t0].batch
    && forall k :: 0 <= k && (Pending(s2.threads[t0], k) <==> Pending(s.threads[t0], k) && !Left(p, p2, c0, Slot(t0, k)))
  }

  ghost predicate Compatible(s: Sys, p: Places, s2: Sys, p2: Places, t0: nat, c0: Conn) {
    || InCharge(s, p, s2, p2, t0, c0)
    || Alone(s, p, t0, c0)
    || OnlyPoints(s, p, s2, p2, t0, c0)
    || LastRef(s, p, s2, p2, t0, c0)
    || (NoTable(s, s2) && p2 == p)
  }

  lemma ThreadBeside(s: Sys, p: Places, s2: Sys, p2: Places, t0: nat, c0: Conn, t: nat)
    requires Local(s, p, s2, p2, t0, c0) && ThreadsOk(s, p) && At(s, t) && t != t0
    requires Compatible(s, p, s2, p2, t0, c0)
    ensures ThreadOk(s2, p2, t)
  {
    hide ThreadOk, InCharge, Alone, OnlyPoints, LastRef, SameFd, SamePlace, Subject, HasSubject;
    assert ThreadOk(s, p, t) && ThreadOk(s, p, t0);
    if !HasSubject(PcOf(s, t)) || Subject(PcOf(s, t)).fd != c0.fd {
      OtherThread(s, p, s2, p2, t0, c0, t);
    } else if InCharge(s, p, s2, p2, t0, c0) {
      ThreadBesideOwner(s, p, s2, p2, t0, c0, t);
    } else if Alone(s, p, t0, c0) {
      ThreadNotAlone(s, p, t0, c0, t);
    } else if OnlyPoints(s, p, s2, p2, t0, c0) {
      ThreadBesideStore(s, p, s2, p2, t0, c0, t);
    } else if LastRef(s, p, s2, p2, t0, c0) {
      NotLastBeside(s, p, s2, p2, t0, c0, t);
    } else {
      SameTables(s, p, s2, t);
    }
  }

  lemma SameTables(s: Sys, p: Places, s2: Sys, t: nat)
    requires At(s, t) && At(s2, t) && s2.threads[t] == s.threads[t] && ThreadOk(s, p, t) && NoTable(s, s2)
    ensures ThreadOk(s2, p, t)
  {
    SameShare(s, p, s2, p, t);
  }

  lemma ThreadNotAlone(s: Sys, p: Places, t0: nat, c0: Conn, t: nat)
    requires At(s, t) && t != t0 && ThreadOk(s, p, t)
    requires HasSubject(PcOf(s, t)) && Subject(PcOf(s, t)).fd == c0.fd
    ensures !Alone(s, p, t0, c0)
  {
    SubjectIsOpen(s, p, t);
  }

  lemma SlotBeside(s: Sys, p: Places, s2: Sys, p2: Places, t0: nat, c0: Conn, t: nat, k: nat)
    requires Local(s, p, s2, p2, t0, c0) && At(s, t) && s2.threads[t].batch == s.threads[t].batch
    requires k < |s.threads[t].batch| && SlotOk(s, p, t, k)
    requires Compatible(s, p, s2, p2, t0, c0)
    requires t == t0 ==> !Left(p, p2, c0, Slot(t, k))
    ensures SlotOk(s2, p2, t, k)
  {
    hide SameFd, SamePlace;
    var c := s.threads[t].batch[k].armer;
    if c.fd != c0.fd {
      OtherSlot(s, p, s2, p2, t0, c0, t, k);
    }
  }

  lemma OnlyOneAlive(s: Sys, p: Places, c0: Conn, c: Conn)
    requires Inv(s, p) && (IsOpen(s, c0) || c0.fd !in s.open) && c != c0 && c.fd == c0.fd
    ensures Place(p, c) == Gone
  {
    hide Inv;
    if Place(p, c) != Gone {
      AtMostOnePerFd(s, p, c);
    }
  }

  lemma PlaceBeside(s: Sys, p: Places, s2: Sys, p2: Places, t0: nat, c0: Conn, c: Conn)
    requires Inv(s, p) && Local(s, p, s2, p2, t0, c0) && c != c0 && At(s2, 0)
    requires IsOpen(s, c0) || c0.fd !in s.open
    requires !HasSubject(PcOf(s, t0)) || Subject(PcOf(s, t0)) == c0
    requires OwnSlots(s, p, s2, p2, t0, c0)
    ensures WhereOk(s2, p2, c)
  {
    hide Inv, ThreadsOk, FdsOk, SlotsOk, SameFd, CountOk;
    if c.fd == c0.fd {
      OnlyOneAlive(s, p, c0, c);
      assert SamePlace(s, p, s2, p2, c);
      assert WhereOk(s, p, c) by { PlaceHere(s, p, c); }
    } else {
      PlaceHere(s, p, c);
      PlaceHere(s, p, c0);
      PlaceElsewhere(s, p, s2, p2, t0, c0, c);
    }
  }

  lemma PlaceHere(s: Sys, p: Places, c: Conn)
    requires Inv(s, p)
    ensures WhereOk(s, p, c)
  {
  }

  lemma PlaceElsewhere(s: Sys, p: Places, s2: Sys, p2: Places, t0: nat, c0: Conn, c: Conn)
    requires Local(s, p, s2, p2, t0, c0) && c.fd != c0.fd && WhereOk(s, p, c) && WhereOk(s, p, c0) && At(s2, 0)
    requires !HasSubject(PcOf(s, t0)) || Subject(PcOf(s, t0)) == c0
    requires OwnSlots(s, p, s2, p2, t0, c0)
    ensures WhereOk(s2, p2, c)
  {
    assert SamePlace(s, p, s2, p2, c) && SameFd(s, s2, c.fd);
    if Place(p, c).Slot? && Place(p, c).t == t0 {
      assert Pending(s2.threads[t0], Place(p, c).k);
    }
  }

  /** A step of t0 on c0 keeps the invariant if it keeps the shares of t0 and c0 and
      is compatible with everybody else. */
  lemma Assemble(s: Sys, p: Places, s2: Sys, p2: Places, t0: nat, c0: Conn)
    requires Inv(s, p) && Local(s, p, s2, p2, t0, c0)
    requires Compatible(s, p, s2, p2, t0, c0)
    requires IsOpen(s, c0) || c0.fd !in s.open
    requires !HasSubject(PcOf(s, t0)) || Subject(PcOf(s, t0)) == c0
    requires OwnSlots(s, p, s2, p2, t0, c0)
    requires ThreadOk(s2, p2, t0) && FdOk(s2, p2, c0.fd) && WhereOk(s2, p2, c0) && CountOk(s2)
    ensures Inv(s2, p2)
  {
    hide ThreadOk, FdOk, WhereOk, CountOk, Compatible, Pending, SlotOk, Subject, HasSubject;
    hide SameFd, SamePlace, IsOpen;
    forall t | 0 <= t < |s2.threads|
      ensures ThreadOk(s2, p2, t)
    {
      if t != t0 {
        ThreadBeside(s, p, s2, p2, t0, c0, t);
      }
    }
    SlotsBeside(s, p, s2, p2, t0, c0);
    forall fd
      ensures FdOk(s2, p2, fd)
    {
      if fd != c0.fd {
        assert FdOk(s, p, fd);
        OtherFd(s, p, s2, p2, t0, c0, fd);
      }
    }
    forall c
      ensures WhereOk(s2, p2, c)
    {
      if c != c0 {
        PlaceBeside(s, p, s2, p2, t0, c0, c);
      }
    }
  }

  lemma SlotsBeside(s: Sys, p: Places, s2: Sys, p2: Places, t0: nat, c0: Conn)
    requires SlotsOk(s, p) && Local(s, p, s2, p2, t0, c0)
    requires Compatible(s, p, s2, p2, t0, c0) && OwnSlots(s, p, s2, p2, t0, c0)
    ensures SlotsOk(s2, p2)
  {
    hide Compatible, SlotOk, SameFd, SamePlace;
    forall t, k | 0 <= t < |s2.threads| && 0 <= k && Pending(s2.threads[t], k)
      ensures SlotOk(s2, p2, t, k)
    {
      assert Pending(s.threads[t], k);
      SlotIsOpen(s, p, t, k);
      SlotBeside(s, p, s2, p2, t0, c0, t, k);
    }
  }
}
