/** The socket as an oracle, and the fixed buffers bytes move through. */
module Transport {
  import opened Keywords

  const DEFAULT_BUF_LEN := 1024
  const SOCKET_ERROR := -1

  // ------------------------------------------------------------- strncpy

  /** What strncpy leaves behind of s: everything up to the first NUL, and NULs
      from there on. */
  function Padded(s: string): (r: string)
    ensures |r| == |s|
  {
    if s == "" then ""
    else if s[0] == NUL then seq(|s|, _ => NUL)
    else [s[0]] + Padded(s[1..])
  }

  predicate IsPadded(s: string) { Padded(s) == s }

  /** Nothing but NULs behind a NUL. */
  predicate NulTail(s: string) {
    forall i, j :: 0 <= i < j < |s| && s[i] == NUL ==> s[j] == NUL
  }

  lemma {:induction false} PaddedAt(s: string, i: nat)
    requires i < |s|
    ensures Padded(s)[i] == if NUL in s[..i + 1] then NUL else s[i]
  {
    if s[0] == NUL {
      assert s[..i + 1][0] == NUL;
    } else if i > 0 {
      PaddedAt(s[1..], i - 1);
      assert s[..i + 1] == [s[0]] + s[1..][..i];
    } else {
      assert s[..1] == [s[0]];
    }
  }

  /** A string survives the copy if and only if it has nothing but NULs behind its
      first NUL; in particular if it has none. */
  lemma PaddedIff(s: string)
    ensures IsPadded(s) <==> NulTail(s)
  {
    if IsPadded(s) {
      forall i, j | 0 <= i < j < |s| && s[i] == NUL ensures s[j] == NUL {
        PaddedAt(s, j);
        assert s[..j + 1][i] == NUL;
      }
    } else {
      var k := FirstDifference(Padded(s), s);
      PaddedAt(s, k);
      var i :| 0 <= i < k + 1 && s[..k + 1][i] == NUL;
      assert s[i] == NUL && s[k] != NUL;
    }
  }

  lemma {:induction false} FirstDifference(a: string, b: string) returns (k: nat)
    requires |a| == |b| && a != b
    ensures k < |a| && a[k] != b[k]
  {
    if a[0] != b[0] {
      k := 0;
    } else {
      assert a == [a[0]] + a[1..] && b == [b[0]] + b[1..];
      k := FirstDifference(a[1..], b[1..]);
      k := k + 1;
    }
  }

  /** A copy, and any end of one, is not changed by being copied again. */
  lemma {:induction false} PaddedAgain(s: string, k: nat)
    requires k <= |s|
    ensures IsPadded(Padded(s)) && IsPadded(Padded(s)[k..])
  {
    var p := Padded(s);
    forall i, j | 0 <= i < j < |p| && p[i] == NUL ensures p[j] == NUL {
      PaddedAt(s, i);
      PaddedAt(s, j);
      assert s[..i + 1][i] == s[i];
      var l :| 0 <= l < i + 1 && s[..i + 1][l] == NUL;
      assert s[..j + 1][l] == NUL;
    }
    PaddedIff(p);
    PaddedIff(p[k..]);
  }

  // --------------------------------------------------------------- socket

  /** What one send or receive meets: send takes some bytes, receive finds some. */
  datatype TxEvent = Takes(n: nat) | TxBlocks | TxFails
  datatype RxEvent = Bytes(data: string) | Eof | RxBlocks | RxFails

  predicate IsRxPlan(plan: seq<RxEvent>) {
    forall i :: 0 <= i < |plan| && plan[i].Bytes? ==> plan[i].data != ""
  }

  /** An upper bound on the calls a receive plan can answer. */
  function Work(plan: seq<RxEvent>): nat {
    if plan == [] then 0
    else (if plan[0].Bytes? then |plan[0].data| else 0) + 1 + Work(plan[1..])
  }

  /** What reading a plan on delivers before it meets anything but bytes, and what
      it meets then. */
  function Arrived(plan: seq<RxEvent>): string {
    if plan == [] || !plan[0].Bytes? then "" else plan[0].data + Arrived(plan[1..])
  }

  function Ahead(plan: seq<RxEvent>): (r: seq<RxEvent>)
    ensures r != [] ==> !r[0].Bytes?
  {
    if plan == [] || !plan[0].Bytes? then plan else Ahead(plan[1..])
  }

  /** Whether the next receive on a plan blocks, meets the end of the stream, or fails. */
  predicate Blocked(plan: seq<RxEvent>) { plan == [] || plan[0].RxBlocks? }

  predicate AtEof(plan: seq<RxEvent>) { plan != [] && plan[0].Eof? }

  predicate Broken(plan: seq<RxEvent>) { plan != [] && plan[0].RxFails? }

  /** The plan behind its first event, and a plan n bytes of whose first event have
      been taken. */
  function Behind(plan: seq<RxEvent>): seq<RxEvent> {
    if plan == [] then [] else plan[1..]
  }

  function Taken(plan: seq<RxEvent>, n: nat): seq<RxEvent>
    requires plan != [] && plan[0].Bytes? && n <= |plan[0].data|
  {
    if n == |plan[0].data| then plan[1..] else [Bytes(plan[0].data[n..])] + plan[1..]
  }

  lemma PlanCons(data: string, rest: seq<RxEvent>)
    ensures var plan := [Bytes(data)] + rest;
            && Work(plan) == |data| + 1 + Work(rest)
            && Arrived(plan) == data + Arrived(rest) && Ahead(plan) == Ahead(rest)
  {
    assert ([Bytes(data)] + rest)[1..] == rest;
  }

  lemma TakenArrives(plan: seq<RxEvent>, n: nat)
    requires IsRxPlan(plan) && plan != [] && plan[0].Bytes? && 0 < n <= |plan[0].data|
    ensures IsRxPlan(Taken(plan, n)) && Work(Taken(plan, n)) < Work(plan)
    ensures Arrived(plan) == plan[0].data[..n] + Arrived(Taken(plan, n)) && Ahead(Taken(plan, n)) == Ahead(plan)
  {
    hide Work, Arrived, Ahead;
    var data, rest := plan[0].data, plan[1..];
    assert plan == [Bytes(data)] + rest;
    PlanCons(data, rest);
    PlanCons(data[n..], rest);
    assert data[..n] + data[n..] == data;
    assert data[..n] + (data[n..] + Arrived(rest)) == data + Arrived(rest);
  }

  lemma NothingArrives(plan: seq<RxEvent>)
    requires Blocked(plan) || AtEof(plan) || Broken(plan)
    ensures Arrived(plan) == "" && Ahead(plan) == plan
  {
  }

  lemma {:induction false} PlanStays(plan: seq<RxEvent>)
    requires IsRxPlan(plan)
    ensures IsRxPlan(Ahead(plan)) && IsRxPlan(Behind(plan)) && IsRxPlan(Behind(Ahead(plan)))
    ensures Work(Behind(plan)) <= Work(plan)
  {
    if plan != [] {
      PlanStays(plan[1..]);
    }
  }

  function Clamp(n: nat, room: nat): (r: nat)
    requires room > 0
    ensures 1 <= r <= room
  {
    if n == 0 then 1 else if n > room then room else n
  }

  /** One connected socket. The plans say how the kernel will answer; past their
      end every call would block. */
  class Socket {
    const handle: nat
    var txPlan: seq<TxEvent>
    var rxPlan: seq<RxEvent>
    var wouldBlock: bool
    /** The bytes send has accepted and receive has delivered, in order. */
    var wire: string
    var delivered: string

    constructor (handle: nat, txPlan: seq<TxEvent>, rxPlan: seq<RxEvent>)
      requires IsRxPlan(rxPlan)
      ensures this.handle == handle && this.txPlan == txPlan && this.rxPlan == rxPlan
      ensures wire == "" && delivered == ""
    {
      this.handle, this.txPlan, this.rxPlan := handle, txPlan, rxPlan;
      wouldBlock, wire, delivered := false, "", "";
    }

    /** send: 1 to all of the bytes in [from, to), or an error. */
    method Tx(buf: array<char>, from: nat, to: nat) returns (n: int)
      requires from < to <= buf.Length
      modifies this`txPlan, this`wire, this`wouldBlock
      ensures n == SOCKET_ERROR || 1 <= n <= to - from
      ensures n == SOCKET_ERROR ==> wire == old(wire)
      ensures n != SOCKET_ERROR ==> wire == old(wire) + buf[from..from + n] && |txPlan| < |old(txPlan)|
    {
      n := SOCKET_ERROR;
      if txPlan == [] {
        wouldBlock := true;
        return;
      }
      match txPlan[0] {
        case TxBlocks => wouldBlock := true;
        case TxFails => wouldBlock := false;
        case Takes(k) =>
          n := Clamp(k, to - from);
          wire := wire + buf[from..from + n];
      }
      txPlan := txPlan[1..];
    }

    /** recv into buf from index `from` on: as many of the bytes that have come as
        there is room for, 0 at the end of the stream, or an error. */
    method Rx(buf: array<char>, from: nat) returns (n: int)
      requires from < buf.Length && IsRxPlan(rxPlan)
      modifies this`rxPlan, this`delivered, this`wouldBlock, buf
      ensures IsRxPlan(rxPlan)
      ensures n == SOCKET_ERROR || 0 <= n <= buf.Length - from
      ensures buf[..from] == old(buf[..from])
      ensures n == SOCKET_ERROR <==> Blocked(old(rxPlan)) || Broken(old(rxPlan))
      ensures n == SOCKET_ERROR ==> delivered == old(delivered) && (wouldBlock <==> Blocked(old(rxPlan)))
      ensures n == 0 <==> AtEof(old(rxPlan))
      ensures n <= 0 ==> rxPlan == Behind(old(rxPlan))
      ensures n != SOCKET_ERROR ==> delivered == old(delivered) + buf[from..from + n] && Work(rxPlan) < Work(old(rxPlan))
      ensures n > 0 ==>
                var data := old(rxPlan)[0].data;
                && n == (if |data| <= buf.Length - from then |data| else buf.Length - from)
                && buf[from..from + n] == data[..n] && rxPlan == Taken(old(rxPlan), n)
                && buf[from..from + n] + Arrived(rxPlan) == Arrived(old(rxPlan))
                && Ahead(rxPlan) == Ahead(old(rxPlan))
    {
      n := SOCKET_ERROR;
      if rxPlan == [] {
        wouldBlock := true;
        return;
      }
      PlanStays(rxPlan);
      match rxPlan[0] {
        case RxBlocks => wouldBlock := true;
        case RxFails => wouldBlock := false;
        case Eof => n := 0;
        case Bytes(data) =>
          n := if |data| <= buf.Length - from then |data| else buf.Length - from;
          forall i | 0 <= i < n {
            buf[from + i] := data[i];
          }
          assert buf[from..from + n] == data[..n];
          delivered := delivered + buf[from..from + n];
          TakenArrives(rxPlan, n);
          if n < |data| {
            rxPlan := [Bytes(data[n..])] + rxPlan[1..];
            return;
          }
      }
      assert n == 0 ==> buf[from..from + n] == [];
      rxPlan := rxPlan[1..];
    }
  }

  // --------------------------------------------------------------- buffer

  class IoBuf {
    const isTx: bool
    const buf: array<char>
    var bytesTx: nat
    var bytesToTx: nat
    var bytesRx: nat

    constructor (isTx: bool, bufLen: nat)
      ensures this.isTx == isTx && fresh(buf) && buf.Length == bufLen
      ensures bytesTx == 0 && bytesToTx == 0 && bytesRx == 0
    {
      this.isTx := isTx;
      buf := new char[bufLen](_ => NUL);
      bytesTx, bytesToTx, bytesRx := 0, 0, 0;
    }

    predicate Valid()
      reads this
    {
      bytesTx <= bytesToTx <= buf.Length && bytesRx <= buf.Length
    }

    /** The bytes still to be sent. */
    function Unsent(): string
      requires Valid()
      reads this, buf
    {
      buf[bytesTx..bytesToTx]
    }

    /** write_buf of text held elsewhere: as much of it as fits. */
    method WriteBuf(data: string)
      requires Valid() && isTx
      modifies this, buf
      ensures Valid() && bytesTx == 0 && bytesRx == 0
      ensures bytesToTx == if |data| <= buf.Length then |data| else buf.Length
      ensures Unsent() == Padded(data[..bytesToTx])
    {
      var n := if |data| <= buf.Length then |data| else buf.Length;
      var i := 0;
      while i < n && data[i] != NUL
        invariant 0 <= i <= n
        invariant buf[..i] == data[..i] && NUL !in data[..i]
        decreases n - i
      {
        buf[i] := data[i];
        i := i + 1;
      }
      PaddedStops(data[..n], i);
      Fill(i, n);
      bytesToTx, bytesTx, bytesRx := n, 0, 0;
    }

    /** write_buf of a view into this very buffer, as the re-prepare after a partial
        send passes it: source and destination overlap, and the copy runs forward. */
    method WriteBufView(from: nat, len: nat)
      requires Valid() && isTx && from + len <= buf.Length
      modifies this, buf
      ensures Valid() && bytesTx == 0 && bytesRx == 0 && bytesToTx == len
      ensures Unsent() == Padded(old(buf[from..from + len]))
    {
      var i := 0;
      ghost var data := buf[from..from + len];
      while i < len && buf[from + i] != NUL
        invariant 0 <= i <= len
        invariant buf[..i] == data[..i] && NUL !in data[..i]
        invariant forall k :: i <= k < buf.Length ==> buf[k] == old(buf[k])
        decreases len - i
      {
        assert buf[from + i] == data[i];
        assert buf[..i] + [data[i]] == data[..i + 1];
        buf[i] := buf[from + i];
        assert buf[..i + 1] == buf[..i] + [data[i]];
        i := i + 1;
      }
      assert i < len ==> data[i] == buf[from + i];
      assert data[..len] == data;
      PaddedStops(data, i);
      Fill(i, len);
      bytesToTx, bytesTx, bytesRx := len, 0, 0;
    }

    /** The rest of strncpy: NULs up to n. */
    method Fill(i: nat, n: nat)
      requires i <= n <= buf.Length
      modifies buf
      ensures buf[..n] == old(buf[..i]) + seq(n - i, _ => NUL)
    {
      var k := i;
      while k < n
        invariant i <= k <= n
        invariant buf[..i] == old(buf[..i])
        invariant forall j :: i <= j < k ==> buf[j] == NUL
      {
        buf[k] := NUL;
        k := k + 1;
      }
      assert buf[..n] == buf[..i] + buf[i..n];
    }
  }

  lemma {:induction false} PaddedStops(s: string, i: nat)
    requires i <= |s| && NUL !in s[..i] && (i < |s| ==> s[i] == NUL)
    ensures Padded(s) == s[..i] + seq(|s| - i, _ => NUL)
  {
    if i > 0 {
      assert s[..i][0] == s[0];
      assert s[..i] == [s[0]] + s[1..][..i - 1];
      PaddedStops(s[1..], i - 1);
    }
  }
}
