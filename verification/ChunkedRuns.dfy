/** Whole runs of the chunk decoder: any arrival schedule, and the round trip. */
module ChunkedRuns {
  import opened Strings
  import opened Chunked
  import opened ChunkedLoop
  import opened ChunkedProof

  predicate Fits(ps: seq<Piece>) {
    IsBody(ps) && |EncodeAll(ps)| + 3 < U32
  }

  /** The first n bytes of the body leave the decoder at a torn header. */
  predicate TornCut(ps: seq<Piece>, n: nat)
    requires n <= |EncodeAll(ps)|
  {
    !StateAt(ps, n).ended && Torn(EncodeAll(ps)[..n], StateAt(ps, n).cursor)
  }

  lemma {:induction false} CompleteAll(ps: seq<Piece>)
    ensures CompleteIn(ps, |EncodeAll(ps)|) == |ps|
    ensures forall n :: n >= |EncodeAll(ps)| - 2 ==> CompleteIn(ps, n) == |ps|
  {
    if ps != [] {
      CompleteAll(ps[1..]);
    }
  }

  lemma StateAtCursor(ps: seq<Piece>, n: nat)
    requires n <= |EncodeAll(ps)|
    ensures StateAt(ps, n).cursor <= n + 2
    ensures StateAt(ps, n).ended ==> StateAt(ps, n).cursor == |EncodeAll(ps)|
    ensures n == |EncodeAll(ps)| ==> StateAt(ps, n).ended
  {
    CursorBound(ps, n);
    CompleteAll(ps);
    assert ps[..|ps|] == ps;
  }

  /** The state part of StateAt, seen from an earlier state. */
  lemma StateAtAfter(ps: seq<Piece>, m: nat, n: nat)
    requires m <= n
    ensures var k := CompleteIn(ps, m);
            && k <= CompleteIn(ps, n)
            && CompleteIn(ps, n) == k + CompleteIn(ps[k..], n - |EncodeAll(ps[..k])|)
            && StateAt(ps, n) == AfterPieces(StateAt(ps, m), EncodeAll(ps[..k]), ps[k..], CompleteIn(ps, n) - k)
  {
    hide EncodeAll, Data, CompleteIn;
    var k, l := CompleteIn(ps, m), CompleteIn(ps, n);
    CompleteMonotone(ps, m, n);
    CompleteSplit(ps, n, k);
    PrefixSplit(ps, k, l);
  }

  lemma PrefixSplit(ps: seq<Piece>, k: nat, l: nat)
    requires k <= l <= |ps|
    ensures EncodeAll(ps[..l]) == EncodeAll(ps[..k]) + EncodeAll(ps[k..][..l - k])
    ensures Data(ps[..l]) == Data(ps[..k]) + Data(ps[k..][..l - k])
  {
    hide EncodeAll, Data;
    assert ps[..l] == ps[..k] + ps[k..][..l - k];
    EncodeAllAppend(ps[..k], ps[k..][..l - k]);
  }

  lemma RestIsBody(ps: seq<Piece>, k: nat)
    requires Fits(ps) && k < |ps|
    ensures IsBody(ps[k..])
    ensures EncodeAll(ps[..k]) + EncodeAll(ps[k..]) == EncodeAll(ps)
    ensures |Data(ps[..k])| <= |EncodeAll(ps[..k])|
  {
    assert ps[..k] + ps[k..] == ps;
    EncodeAllAppend(ps[..k], ps[k..]);
    DataFits(ps[..k]);
  }

  /** The loop started at an earlier state of the body is the loop started at the
      state of the bytes received, and that is left unless the cut is torn. */
  lemma {:induction false} ChunksFrom(ps: seq<Piece>, m: nat, n: nat)
    requires Fits(ps) && m <= n <= |EncodeAll(ps)| && !StateAt(ps, m).ended
    ensures var raw := EncodeAll(ps)[..n];
            Chunks(raw, StateAt(ps, m)) == if StateAt(ps, n).ended then Ends(StateAt(ps, n)) else Chunks(raw, StateAt(ps, n))
  {
    hide Chunks, Torn, CompleteIn, EncodeAll, Data, IsBody, AfterPieces;
    var raw, k := EncodeAll(ps)[..n], CompleteIn(ps, m);
    StateAtAfter(ps, m, n);
    RestIsBody(ps, k);
    SmallPrefix(raw, EncodeAll(ps[..k]), ps[k..], EncodeAll(ps));
    ChunksReach(raw, EncodeAll(ps[..k]), ps[k..], StateAt(ps, m));
  }

  /** The piece the bytes received end in. */
  function PieceAt(ps: seq<Piece>, n: nat): Piece
    requires !StateAt(ps, n).ended
  {
    ps[CompleteIn(ps, n)]
  }

  lemma {:induction false} ChunksAt(ps: seq<Piece>, n: nat)
    requires Fits(ps) && n <= |EncodeAll(ps)| && !StateAt(ps, n).ended
    ensures var raw, d, size := EncodeAll(ps)[..n], StateAt(ps, n), |PieceAt(ps, n).data|;
            if TornCut(ps, n) then size < n && OneTurn(raw, d) == Take(size, TornNext(raw, d, size))
            else Chunks(raw, d) == Asks(d)
  {
    hide Chunks, Torn, EncodeAll, Data, IsBody, OneTurn, TornNext;
    var raw, k := EncodeAll(ps)[..n], CompleteIn(ps, n);
    RestIsBody(ps, k);
    SmallPrefix(raw, EncodeAll(ps[..k]), ps[k..], EncodeAll(ps));
    CompleteSplit(ps, n, k);
    WaitsAt(raw, EncodeAll(ps[..k]), ps[k..], StateAt(ps, n));
  }

  lemma SmallPrefix(raw: string, pre: string, ps: seq<Piece>, full: string)
    requires raw <= full && full == pre + EncodeAll(ps) && |full| + 3 < U32
    ensures Prefix(raw, pre, ps)
  {
    hide EncodeAll;
  }

  /** What a call on the first n bytes of a body should find. */
  function At(ps: seq<Piece>, n: nat): Loop {
    if StateAt(ps, n).ended then Ends(StateAt(ps, n)) else Asks(StateAt(ps, n))
  }

  /** What a call on a torn cut finds: a turn that takes as many bytes as the chunk
      has, but from the start of the buffer, and then whatever the loop makes of the
      same buffer from a position that has nothing to do with the body. */
  function TornAt(ps: seq<Piece>, n: nat): Loop
    requires n <= |EncodeAll(ps)| && !StateAt(ps, n).ended && |PieceAt(ps, n).data| < n
  {
    var raw, size := EncodeAll(ps)[..n], |PieceAt(ps, n).data|;
    var next := TornNext(raw, StateAt(ps, n), size);
    if size == 0 then Ends(next.(ended := true)) else Chunks(raw, next)
  }

  /** One call of the decoder on the first n bytes, from the state any m <= n of
      them left behind: what it finds depends on n alone. Without a torn cut it is
      the state of n bytes; with one, the torn turn and what follows it. */
  lemma {:induction false} DecodePrefix(ps: seq<Piece>, m: nat, n: nat)
    requires Fits(ps) && m <= n <= |EncodeAll(ps)|
    ensures TornCut(ps, n) ==> !StateAt(ps, n).ended && |PieceAt(ps, n).data| < n
    ensures Decode(EncodeAll(ps)[..n], StateAt(ps, m)) == if TornCut(ps, n) then TornAt(ps, n) else At(ps, n)
  {
    hide Chunks, Torn, StateAt, EncodeAll, OneTurn, TornNext;
    if StateAt(ps, m).ended {
      EndedStays(ps, m, n);
    } else {
      ChunksFrom(ps, m, n);
      if !StateAt(ps, n).ended {
        ChunksAt(ps, n);
        LoopUnfolds(EncodeAll(ps)[..n], StateAt(ps, n));
      }
    }
  }

  lemma EndedStays(ps: seq<Piece>, m: nat, n: nat)
    requires m <= n && StateAt(ps, m).ended
    ensures StateAt(ps, n) == StateAt(ps, m)
  {
    CompleteMonotone(ps, m, n);
  }

  // ------------------------------------------------------------ schedules

  /** Calls on longer and longer beginnings of the body. */
  predicate Schedule(body: string, cuts: seq<nat>) {
    && (forall i :: 0 <= i < |cuts| ==> cuts[i] <= |body|)
    && (forall i, j :: 0 <= i < j < |cuts| ==> cuts[i] <= cuts[j])
  }

  /** What the calls find, up to one that is never left. */
  function Feed(body: string, cuts: seq<nat>, d: Dec): (ls: seq<Loop>)
    requires Schedule(body, cuts)
    ensures |ls| <= |cuts| && (cuts != [] ==> ls != [])
    decreases |cuts|
  {
    if cuts == [] then []
    else
      var l := Decode(body[..cuts[0]], d);
      if l == Endless then [l] else [l] + Feed(body, cuts[1..], l.d)
  }

  predicate SomeTorn(ps: seq<Piece>, cuts: seq<nat>)
    requires Schedule(EncodeAll(ps), cuts)
  {
    exists i :: 0 <= i < |cuts| && TornCut(ps, cuts[i])
  }

  /** Every call finds the state of the bytes it is given. */
  predicate CleanRun(ps: seq<Piece>, cuts: seq<nat>, ls: seq<Loop>) {
    |ls| == |cuts| && forall i :: 0 <= i < |cuts| ==> ls[i] == At(ps, cuts[i])
  }

  lemma {:induction false} TornTail(ps: seq<Piece>, cuts: seq<nat>)
    requires Schedule(EncodeAll(ps), cuts) && cuts != []
    ensures Schedule(EncodeAll(ps), cuts[1..])
    ensures SomeTorn(ps, cuts) <==> TornCut(ps, cuts[0]) || SomeTorn(ps, cuts[1..])
  {
    hide TornCut, EncodeAll;
    if i :| 0 < i < |cuts| && TornCut(ps, cuts[i]) {
      assert TornCut(ps, cuts[1..][i - 1]);
    }
  }

  lemma {:induction false} CleanCons(ps: seq<Piece>, cuts: seq<nat>, ls: seq<Loop>)
    requires cuts != [] && CleanRun(ps, cuts[1..], ls)
    ensures CleanRun(ps, cuts, [At(ps, cuts[0])] + ls)
  {
    hide At;
  }

  lemma {:induction false} FeedCons(body: string, cuts: seq<nat>, d: Dec)
    requires Schedule(body, cuts) && cuts != []
    ensures Schedule(body, cuts[1..])
    ensures var l := Decode(body[..cuts[0]], d);
            Feed(body, cuts, d) == if l == Endless then [l] else [l] + Feed(body, cuts[1..], l.d)
  {
    hide Decode;
  }

  lemma {:induction false} FeedFrom(ps: seq<Piece>, m: nat, cuts: seq<nat>)
    requires Fits(ps) && Schedule(EncodeAll(ps), cuts) && m <= |EncodeAll(ps)|
    requires cuts != [] ==> m <= cuts[0]
    requires !SomeTorn(ps, cuts)
    ensures CleanRun(ps, cuts, Feed(EncodeAll(ps), cuts, StateAt(ps, m)))
    decreases |cuts|
  {
    if cuts != [] {
      hide Feed, Decode, TornCut, StateAt, EncodeAll, SomeTorn, CleanRun;
      FeedCons(EncodeAll(ps), cuts, StateAt(ps, m));
      TornTail(ps, cuts);
      DecodePrefix(ps, m, cuts[0]);
      FeedFrom(ps, cuts[0], cuts[1..]);
      CleanCons(ps, cuts, Feed(EncodeAll(ps), cuts[1..], StateAt(ps, cuts[0])));
    }
  }

  /** Any schedule without a torn cut: what each call finds depends only on the bytes
      received so far, and exactly the calls on the full body find it complete. */
  lemma {:induction false} ScheduleDoesNotMatter(ps: seq<Piece>, cuts: seq<nat>)
    requires Fits(ps) && Schedule(EncodeAll(ps), cuts) && !SomeTorn(ps, cuts)
    ensures var ls := Feed(EncodeAll(ps), cuts, START);
            CleanRun(ps, cuts, ls)
            && forall i :: 0 <= i < |ls| ==>
                 (ls[i].Ends? && ls[i].d.cursor == cuts[i] <==> cuts[i] == |EncodeAll(ps)|)
  {
    StartState(ps);
    hide Feed, TornCut, StateAt, EncodeAll;
    FeedFrom(ps, 0, cuts);
    forall i | 0 <= i < |cuts|
      ensures At(ps, cuts[i]).Ends? && At(ps, cuts[i]).d.cursor == cuts[i] <==> cuts[i] == |EncodeAll(ps)|
    {
      StateAtCursor(ps, cuts[i]);
    }
  }

  lemma StartState(ps: seq<Piece>)
    requires IsBody(ps)
    ensures StateAt(ps, 0) == START
  {
    assert IsPiece(ps[0]);
  }

  /** Bodies whose extensions hold no space have no torn cut. */
  lemma NoSpaceNoTear(ps: seq<Piece>, n: nat)
    requires Fits(ps) && n <= |EncodeAll(ps)|
    requires forall i :: 0 <= i < |ps| ==> ' ' !in ps[i].ext
    ensures !TornCut(ps, n)
  {
    var raw, k := EncodeAll(ps)[..n], CompleteIn(ps, n);
    if !StateAt(ps, n).ended {
      var pre, p := EncodeAll(ps[..k]), ps[k];
      RestIsBody(ps, k);
      BodyCons(pre, ps[k..]);
      assert IsPiece(p);
      hide Torn, IsBody, EncodeAll, CompleteIn;
      NoSpaceInHeader(raw, pre, p, EncodeAll(ps[k..][1..]));
    }
  }

  lemma NoSpaceInHeader(raw: string, pre: string, p: Piece, rest: string)
    requires HoldsPiece(raw, pre, p, rest) && IsPiece(p) && ' ' !in p.ext
    ensures !Torn(raw, |pre|)
  {
    HeaderCrlf(raw, pre, p, rest);
    HeaderChars(raw, pre, p, rest);
    forall i | |pre| <= i < |raw| && i < |pre| + |Header(p)| ensures raw[i] != ' ' {
      var j := i - |pre|;
      assert raw[|pre| + j] == Header(p)[j];
      assert Header(p)[j] == if j < |p.size| then p.size[j] else (p.ext + "\r\n")[j - |p.size|];
      assert j >= |p.size| && j - |p.size| < |p.ext| ==> p.ext[j - |p.size|] in p.ext;
    }
  }

  // ----------------------------------------------------------- round trip

  function HexChar(d: nat): (c: char)
    requires d < 16
    ensures IsHex(c) && HexDigit(c) == d
  {
    if d < 10 then ('0' as int + d) as char else ('a' as int + d - 10) as char
  }

  /** A size in hexadecimal, without leading zeros. */
  function HexPrint(n: nat): (s: string)
    ensures s != "" && All(s, IsHex) && HexVal(s) == n
  {
    if n < 16 then
      assert [HexChar(n)][..0] == "";
      [HexChar(n)]
    else
      var s := HexPrint(n / 16) + [HexChar(n % 16)];
      assert s[..|s| - 1] == HexPrint(n / 16);
      s
  }

  /** One piece for each datum, and the last chunk. */
  function Pieces(data: seq<string>): seq<Piece> {
    if data == [] then [Piece("0", "", "")]
    else [Piece(HexPrint(|data[0]|), "", data[0])] + Pieces(data[1..])
  }

  function Concat(data: seq<string>): string {
    if data == [] then "" else data[0] + Concat(data[1..])
  }

  lemma {:induction false} PiecesAreBody(data: seq<string>)
    requires forall i :: 0 <= i < |data| ==> data[i] != ""
    ensures IsBody(Pieces(data)) && Data(Pieces(data)) == Concat(data) && |Pieces(data)| == |data| + 1
    ensures forall i :: 0 <= i < |Pieces(data)| ==> Pieces(data)[i].ext == ""
  {
    if data == [] {
      assert "0"[..0] == "";
      assert Pieces(data)[1..] == [];
      assert IsPiece(Piece("0", "", ""));
    } else {
      var p, rest := Piece(HexPrint(|data[0]|), "", data[0]), Pieces(data[1..]);
      PiecesAreBody(data[1..]);
      assert IsPiece(p);
      hide IsPiece, Pieces;
      EncodeAllCons(p, rest);
      PiecesCons(data);
      ConsIsBody(p, rest);
    }
  }

  lemma PiecesCons(data: seq<string>)
    requires data != []
    ensures Pieces(data) == [Piece(HexPrint(|data[0]|), "", data[0])] + Pieces(data[1..])
  {
  }

  lemma ConsIsBody(p: Piece, ps: seq<Piece>)
    requires IsPiece(p) && p.data != "" && IsBody(ps)
    ensures IsBody([p] + ps)
  {
    hide IsPiece;
  }

  /** Printing any data in chunks and decoding the print gives the data back,
      whatever spaces, line ends or digits it contains, in one call or in any
      sequence of them. */
  lemma {:induction false} ChunkedRoundTrip(data: seq<string>, cuts: seq<nat>)
    requires forall i :: 0 <= i < |data| ==> data[i] != ""
    requires var body := EncodeAll(Pieces(data));
             |body| + 3 < U32 && Schedule(body, cuts) && cuts != [] && cuts[|cuts| - 1] == |body|
    ensures var body := EncodeAll(Pieces(data));
            var ls := Feed(body, cuts, START);
            && |ls| == |cuts| && ls[|ls| - 1] == Ends(Dec(Concat(data), |Concat(data)|, |body|, true))
            && forall i :: 0 <= i < |ls| && cuts[i] < |body| ==> !(ls[i].Ends? && ls[i].d.cursor == cuts[i])
  {
    hide Pieces, EncodeAll, TornCut, Feed, Data;
    var ps := Pieces(data);
    PiecesAreBody(data);
    forall i | 0 <= i < |cuts| ensures !TornCut(ps, cuts[i]) {
      NoSpaceNoTear(ps, cuts[i]);
    }
    ScheduleDoesNotMatter(ps, cuts);
    CompleteAll(ps);
    assert ps[..|ps|] == ps;
  }
}
