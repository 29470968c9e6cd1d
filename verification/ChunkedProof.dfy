/** Decoding a chunked body in instalments computes what the bytes received so
    far stand for, and printing then decoding gives the data back. */
module ChunkedProof {
  import opened Strings
  import opened Chunked
  import opened ChunkedLoop

  /** The buffer holds a beginning of `pre`, piece p and whatever follows. */
  predicate HoldsPiece(raw: string, pre: string, p: Piece, rest: string) {
    raw <= pre + Encode(p) + rest
  }

  lemma HeaderChars(raw: string, pre: string, p: Piece, rest: string)
    requires HoldsPiece(raw, pre, p, rest) && IsPiece(p)
    ensures forall j :: 0 <= j < |Header(p)| && |pre| + j < |raw| ==> raw[|pre| + j] == Header(p)[j]
    ensures forall j :: 0 <= j < |p.size| ==> Header(p)[j] == p.size[j] && IsHex(p.size[j])
    ensures forall j :: 0 <= j < |Header(p)| - 2 ==> Header(p)[j] != '\r'
    ensures Header(p)[|Header(p)| - 2] == '\r' && Header(p)[|Header(p)| - 1] == '\n'
    ensures var c := Header(p)[|p.size|]; !IsHex(c) && c != 'x' && c != 'X'
  {
    var full := pre + Encode(p) + rest;
    forall j | 0 <= j < |Header(p)| && |pre| + j < |raw| ensures raw[|pre| + j] == Header(p)[j] {
      assert raw[|pre| + j] == full[|pre| + j];
    }
    forall j | 0 <= j < |Header(p)| - 2 ensures Header(p)[j] != '\r' {
      assert Header(p)[j] == (p.size + p.ext)[j];
      assert j >= |p.size| ==> p.ext[j - |p.size|] in p.ext;
    }
    assert Header(p)[|p.size|] == (p.ext + "\r\n")[0];
  }

  /** The header's CRLF is found where the header ends, or not at all yet. */
  lemma HeaderCrlf(raw: string, pre: string, p: Piece, rest: string)
    requires HoldsPiece(raw, pre, p, rest) && IsPiece(p)
    ensures FindCrlf(raw, |pre|) ==
            if |pre| + |Header(p)| <= |raw| then Some(|pre| + |Header(p)| - 2) else None
  {
    HeaderChars(raw, pre, p, rest);
    forall i | |pre| <= i < |pre| + |Header(p)| - 2 ensures !CrlfAt(raw, i) {
      assert i < |raw| ==> raw[i] == Header(p)[i - |pre|];
    }
    if |pre| + |Header(p)| <= |raw| {
      assert CrlfAt(raw, |pre| + |Header(p)| - 2);
      FindCrlfIs(raw, |pre|, |pre| + |Header(p)| - 2);
    }
  }

  /** Whichever space the search lands on, inside the extension or far inside the
      data, the size read is the size of the chunk. */
  lemma SizeIsTheSize(raw: string, pre: string, p: Piece, rest: string)
    requires HoldsPiece(raw, pre, p, rest) && IsPiece(p) && |p.data| < U32
    requires SizeEnd(raw, |pre|).Some?
    ensures SizeAt(raw, |pre|) == |p.data|
  {
    HeaderChars(raw, pre, p, rest);
    var e := SizeEnd(raw, |pre|).value;
    assert raw[e] == ' ' || CrlfAt(raw, e);
    forall i | |pre| <= i < |pre| + |p.size| && i < |raw| ensures raw[i] != ' ' && raw[i] != '\r' {
      assert raw[|pre| + (i - |pre|)] == p.size[i - |pre|];
    }
    assert |pre| + |p.size| <= e;
    var text := raw[|pre|..e];
    assert text[..|p.size|] == p.size;
    var tail := text[|p.size|..];
    assert text == p.size + tail;
    assert tail != "" ==> tail[0] == raw[|pre| + |p.size|] == Header(p)[|p.size|];
    HexReadDigits(p.size, tail);
  }

  /** A piece whose header and data are in is taken whole. */
  lemma TurnTakesPiece(raw: string, pre: string, p: Piece, rest: string, d: Dec)
    requires HoldsPiece(raw, pre, p, rest) && IsPiece(p) && Addressable(raw) && d.cursor == |pre|
    requires |pre| + |Header(p)| + |p.data| <= |raw| && d.contentLen <= |pre|
    ensures OneTurn(raw, d) == Take(|p.data|, d.(content := d.content + p.data,
                                                contentLen := d.contentLen + |p.data|,
                                                cursor := |pre| + |Encode(p)|))
  {
    hide *;
    CompleteHeader(raw, pre, p, rest);
    SizeIsTheSize(raw, pre, p, rest);
    DataChars(raw, pre, p, rest);
    TurnIs(raw, d, |pre| + |Header(p)| - 2, |p.data|);
  }

  lemma CompleteHeader(raw: string, pre: string, p: Piece, rest: string)
    requires HoldsPiece(raw, pre, p, rest) && IsPiece(p) && Addressable(raw)
    requires |pre| + |Header(p)| + |p.data| <= |raw|
    ensures FindCrlf(raw, |pre|) == Some(|pre| + |Header(p)| - 2) && SizeEnd(raw, |pre|).Some?
    ensures |Encode(p)| == |Header(p)| + |p.data| + 2 && |Header(p)| >= 2 && |raw| + 3 < U32
  {
    hide IsPiece, FindCrlf;
    HeaderCrlf(raw, pre, p, rest);
  }

  lemma TurnIs(raw: string, d: Dec, h: nat, n: nat)
    requires Addressable(raw) && FindCrlf(raw, d.cursor) == Some(h)
    requires SizeEnd(raw, d.cursor).Some? && SizeAt(raw, d.cursor) == n && h + 2 + n <= |raw|
    requires d.contentLen + n < U32
    ensures OneTurn(raw, d) == Take(n, d.(content := d.content + raw[h + 2..h + 2 + n],
                                          contentLen := d.contentLen + n,
                                          cursor := h + 4 + n))
  {
    hide SizeAt, SizeEnd;
  }

  lemma DataChars(raw: string, pre: string, p: Piece, rest: string)
    requires HoldsPiece(raw, pre, p, rest) && |pre| + |Header(p)| + |p.data| <= |raw|
    ensures var b := |pre| + |Header(p)|; raw[b..b + |p.data|] == p.data
  {
    var b := |pre| + |Header(p)|;
    var full := pre + Encode(p) + rest;
    assert full[b..b + |p.data|] == p.data;
    assert raw[b..b + |p.data|] == full[b..b + |p.data|];
  }

  /** Otherwise the loop asks for more, unless the header is torn at a space: then it
      takes as many bytes as the chunk has, from the start of the buffer. */
  lemma TurnWaits(raw: string, pre: string, p: Piece, rest: string, d: Dec)
    requires HoldsPiece(raw, pre, p, rest) && IsPiece(p) && d.cursor == |pre|
    requires |raw| < |pre| + |Header(p)| + |p.data| && |p.data| < U32 && |raw| + 3 < U32
    ensures if Torn(raw, |pre|) then |p.data| < |raw| && OneTurn(raw, d) == Take(|p.data|, TornNext(raw, d, |p.data|))
            else OneTurn(raw, d).Stop?
  {
    hide *;
    HeaderCrlf(raw, pre, p, rest);
    if SizeEnd(raw, |pre|).None? {
      NoSizeStops(raw, d);
    } else {
      SizeIsTheSize(raw, pre, p, rest);
      ShortTurn(raw, d, |p.data|);
    }
  }

  lemma NoSizeStops(raw: string, d: Dec)
    requires SizeEnd(raw, d.cursor).None?
    ensures OneTurn(raw, d).Stop? && !Torn(raw, d.cursor)
  {
  }

  lemma ShortTurn(raw: string, d: Dec, n: nat)
    requires SizeEnd(raw, d.cursor).Some? && SizeAt(raw, d.cursor) == n && |raw| + 3 < U32
    requires FindCrlf(raw, d.cursor).Some? ==> |raw| < FindCrlf(raw, d.cursor).value + 2 + n
    ensures if Torn(raw, d.cursor) then n < |raw| && OneTurn(raw, d) == Take(n, TornNext(raw, d, n))
            else OneTurn(raw, d).Stop?
  {
    hide SizeAt;
  }

  lemma {:induction false} EncodeAllCons(p: Piece, ps: seq<Piece>)
    ensures EncodeAll([p] + ps) == Encode(p) + EncodeAll(ps)
    ensures Data([p] + ps) == p.data + Data(ps)
  {
    assert ([p] + ps)[1..] == ps;
  }

  /** The state k pieces further on than d. */
  function AfterPieces(d: Dec, pre: string, ps: seq<Piece>, k: nat): Dec
    requires k <= |ps|
  {
    Dec(d.content + Data(ps[..k]), d.contentLen + |Data(ps[..k])|, |pre| + |EncodeAll(ps[..k])|, k == |ps|)
  }

  predicate IsNext(pre: string, p: Piece, d: Dec, d1: Dec) {
    d1 == d.(content := d.content + p.data, contentLen := d.contentLen + |p.data|, cursor := |pre| + |Encode(p)|)
  }

  lemma AfterCons(d: Dec, pre: string, ps: seq<Piece>, k: nat, d1: Dec)
    requires k < |ps| && IsNext(pre, ps[0], d, d1)
    ensures AfterPieces(d, pre, ps, k + 1) == AfterPieces(d1, pre + Encode(ps[0]), ps[1..], k)
  {
    assert ps[..k + 1] == [ps[0]] + ps[1..][..k];
    EncodeAllCons(ps[0], ps[1..][..k]);
  }

  lemma AfterNone(d: Dec, pre: string, ps: seq<Piece>)
    requires d.cursor == |pre|
    ensures AfterPieces(d, pre, ps, 0) == d.(ended := ps == [])
  {
  }

  lemma BodyCons(pre: string, ps: seq<Piece>)
    requires ps != []
    ensures pre + EncodeAll(ps) == pre + Encode(ps[0]) + EncodeAll(ps[1..])
    ensures |ps[0].data| + 2 <= |Encode(ps[0])|
  {
  }

  lemma {:induction false} DataFits(ps: seq<Piece>)
    ensures |Data(ps)| <= |EncodeAll(ps)|
  {
    if ps != [] {
      DataFits(ps[1..]);
    }
  }

  /** The buffer is a beginning of the pieces after |pre|, small enough to address. */
  predicate Prefix(raw: string, pre: string, ps: seq<Piece>) {
    raw <= pre + EncodeAll(ps) && |pre| + |EncodeAll(ps)| + 3 < U32
  }

  /** What the loop should make of the pieces from |pre| on. */
  predicate TakesPieces(raw: string, pre: string, ps: seq<Piece>, d: Dec) {
    var k := CompleteIn(ps, |raw| - |pre|);
    var d' := AfterPieces(d, pre, ps, k);
    Chunks(raw, d) == if k == |ps| then Ends(d') else Chunks(raw, d')
  }

  lemma {:induction false} ReachesNow(raw: string, pre: string, ps: seq<Piece>, d: Dec)
    requires IsBody(ps) && d.cursor == |pre| && !d.ended && CompleteIn(ps, |raw| - |pre|) == 0
    ensures TakesPieces(raw, pre, ps, d)
  {
    hide Chunks, CompleteIn, IsPiece;
    AfterNone(d, pre, ps);
  }

  /** At the first piece that is not all in. */
  lemma {:induction false} WaitsAt(raw: string, pre: string, ps: seq<Piece>, d: Dec)
    requires IsBody(ps) && Prefix(raw, pre, ps)
    requires d.cursor == |pre| && CompleteIn(ps, |raw| - |pre|) == 0
    ensures var n := |ps[0].data|;
            if Torn(raw, |pre|) then n < |raw| && OneTurn(raw, d) == Take(n, TornNext(raw, d, n))
            else Chunks(raw, d) == Asks(d)
  {
    var p, rest := ps[0], EncodeAll(ps[1..]);
    assert IsPiece(p);
    BodyCons(pre, ps);
    hide OneTurn, Torn, IsPiece, EncodeAll, Encode, Header, TornNext;
    TurnWaits(raw, pre, p, rest, d);
  }

  /** The loop run over the part of the body that has arrived, from any piece
      boundary on. */
  lemma {:induction false} ChunksReach(raw: string, pre: string, ps: seq<Piece>, d: Dec)
    requires IsBody(ps) && Prefix(raw, pre, ps)
    requires d.cursor == |pre| && !d.ended && d.contentLen <= |pre|
    ensures TakesPieces(raw, pre, ps, d)
    decreases |ps|
  {
    hide *;
    if CompleteIn(ps, |raw| - |pre|) == 0 {
      ReachesNow(raw, pre, ps, d);
    } else {
      var d1 := FirstPiece(raw, pre, ps, d);
      if |ps| == 1 {
        ReachesLast(raw, pre, ps, d, d1);
      } else {
        BodyTail(raw, pre, ps);
        ChunksReach(raw, pre + Encode(ps[0]), ps[1..], d1);
        ReachesLater(raw, pre, ps, d, d1);
      }
    }
  }

  lemma ReachesLater(raw: string, pre: string, ps: seq<Piece>, d: Dec, d1: Dec)
    requires |ps| > 1 && ps[0].data != ""
    requires CompleteIn(ps, |raw| - |pre|) > 0 && IsNext(pre, ps[0], d, d1)
    requires OneTurn(raw, d) == Take(|ps[0].data|, d1)
    requires TakesPieces(raw, pre + Encode(ps[0]), ps[1..], d1)
    ensures TakesPieces(raw, pre, ps, d)
  {
    hide *;
    var k := CompleteIn(ps, |raw| - |pre|) - 1;
    AfterCons(d, pre, ps, k, d1);
    ChunksCons(raw, d, |ps[0].data|, d1);
    CompleteCons(ps, |raw| - |pre|, |raw| - |pre + Encode(ps[0])|);
    ReachesShift(raw, pre, ps, d, pre + Encode(ps[0]), ps[1..], d1);
  }

  lemma {:induction false} ReachesShift(raw: string, pre: string, ps: seq<Piece>, d: Dec, pre1: string, ps1: seq<Piece>, d1: Dec)
    requires |ps| == |ps1| + 1 && Chunks(raw, d) == Chunks(raw, d1)
    requires CompleteIn(ps, |raw| - |pre|) == 1 + CompleteIn(ps1, |raw| - |pre1|)
    requires var k := CompleteIn(ps1, |raw| - |pre1|); AfterPieces(d, pre, ps, k + 1) == AfterPieces(d1, pre1, ps1, k)
    requires TakesPieces(raw, pre1, ps1, d1)
    ensures TakesPieces(raw, pre, ps, d)
  {
    hide Chunks, CompleteIn, AfterPieces;
  }

  lemma ChunksCons(raw: string, d: Dec, n: nat, d1: Dec)
    requires OneTurn(raw, d) == Take(n, d1)
    ensures Chunks(raw, d) == if n > 0 then Chunks(raw, d1) else Ends(d1.(ended := true))
  {
    hide OneTurn, Chunks;
    LoopUnfolds(raw, d);
  }

  lemma CompleteCons(ps: seq<Piece>, n: int, m: int)
    requires ps != [] && CompleteIn(ps, n) > 0 && m == n - |Encode(ps[0])|
    ensures CompleteIn(ps, n) == 1 + CompleteIn(ps[1..], m)
  {
    hide Encode, Header;
  }

  lemma ReachesLast(raw: string, pre: string, ps: seq<Piece>, d: Dec, d1: Dec)
    requires |ps| == 1 && IsBody(ps) && d1.cursor == |pre + Encode(ps[0])|
    requires CompleteIn(ps, |raw| - |pre|) > 0 && IsNext(pre, ps[0], d, d1) && !d.ended
    requires OneTurn(raw, d) == Take(|ps[0].data|, d1)
    ensures TakesPieces(raw, pre, ps, d)
  {
    LastIsEmpty(ps);
    hide Chunks, CompleteIn, AfterPieces, IsBody, OneTurn, Prefix, Torn, EncodeAll, Encode;
    AfterCons(d, pre, ps, 0, d1);
    AfterNone(d1, pre + Encode(ps[0]), ps[1..]);
    CompleteCons(ps, |raw| - |pre|, |raw| - |pre + Encode(ps[0])|);
    ChunksCons(raw, d, 0, d1);
  }

  lemma LastIsEmpty(ps: seq<Piece>)
    requires |ps| == 1 && IsBody(ps)
    ensures ps[0].data == "" && forall m :: CompleteIn(ps[1..], m) == 0
  {
  }

  lemma BodyTail(raw: string, pre: string, ps: seq<Piece>)
    requires IsBody(ps) && |ps| > 1 && Prefix(raw, pre, ps)
    ensures IsBody(ps[1..]) && ps[0].data != "" && Prefix(raw, pre + Encode(ps[0]), ps[1..])
  {
    BodyCons(pre, ps);
  }

  lemma {:induction false} FirstPiece(raw: string, pre: string, ps: seq<Piece>, d: Dec) returns (d1: Dec)
    requires IsBody(ps) && Prefix(raw, pre, ps)
    requires d.cursor == |pre| && !d.ended && d.contentLen <= |pre|
    requires CompleteIn(ps, |raw| - |pre|) > 0
    ensures IsNext(pre, ps[0], d, d1) && OneTurn(raw, d) == Take(|ps[0].data|, d1)
    ensures d1.cursor == |pre + Encode(ps[0])| && !d1.ended && d1.contentLen <= |pre + Encode(ps[0])|
  {
    var p, rest := ps[0], EncodeAll(ps[1..]);
    d1 := d.(content := d.content + p.data, contentLen := d.contentLen + |p.data|, cursor := |pre| + |Encode(p)|);
    assert IsPiece(p);
    BodyCons(pre, ps);
    hide OneTurn, Torn, IsPiece, EncodeAll, Header;
    TurnTakesPiece(raw, pre, p, rest, d);
  }

  // ------------------------------------------------------ calls in sequence

  lemma {:induction false} EncodeAllAppend(a: seq<Piece>, b: seq<Piece>)
    ensures EncodeAll(a + b) == EncodeAll(a) + EncodeAll(b)
    ensures Data(a + b) == Data(a) + Data(b)
  {
    if a == [] {
      assert a + b == b;
    } else {
      assert (a + b)[1..] == a[1..] + b;
      EncodeAllAppend(a[1..], b);
    }
  }

  lemma CompleteShift(ps: seq<Piece>, n: int, m: int, k: nat)
    requires ps != [] && 0 < k <= |ps| && m == n - |EncodeAll(ps[1..][..k - 1])|
    ensures m - |Encode(ps[0])| == n - |EncodeAll(ps[..k])| && ps[1..][k - 1..] == ps[k..]
  {
    hide Encode;
    assert ps[..k] == [ps[0]] + ps[1..][..k - 1];
    EncodeAllCons(ps[0], ps[1..][..k - 1]);
  }

  lemma CompleteStep(ps: seq<Piece>, n: int)
    requires CompleteIn(ps, n) > 0
    ensures ps != [] && CompleteIn(ps, n) == 1 + CompleteIn(ps[1..], n - |Encode(ps[0])|)
  {
    hide Encode, Header;
  }

  lemma {:induction false} CompleteSplit(ps: seq<Piece>, n: int, k: nat)
    requires k <= CompleteIn(ps, n)
    ensures CompleteIn(ps, n) == k + CompleteIn(ps[k..], n - |EncodeAll(ps[..k])|)
    decreases k
  {
    hide CompleteIn, EncodeAll, Encode;
    if k == 0 {
      NoPieces(ps);
    } else {
      CompleteStep(ps, n);
      CompleteSplit(ps[1..], n - |Encode(ps[0])|, k - 1);
      CompleteShift(ps, n, n - |EncodeAll(ps[1..][..k - 1])|, k);
    }
  }

  lemma NoPieces(ps: seq<Piece>)
    ensures ps[0..] == ps && EncodeAll(ps[..0]) == ""
  {
  }

  lemma {:induction false} CompleteMonotone(ps: seq<Piece>, m: int, n: int)
    requires m <= n
    ensures CompleteIn(ps, m) <= CompleteIn(ps, n)
  {
    if CompleteIn(ps, m) > 0 {
      CompleteMonotone(ps[1..], m - |Encode(ps[0])|, n - |Encode(ps[0])|);
    }
  }

  /** The cursor never gets further than 2 past the bytes received. */
  lemma {:induction false} CursorBound(ps: seq<Piece>, n: int)
    requires 0 <= n
    ensures |EncodeAll(ps[..CompleteIn(ps, n)])| <= n + 2
  {
    if CompleteIn(ps, n) > 0 {
      var k := CompleteIn(ps, n);
      assert ps[..k] == [ps[0]] + ps[1..][..k - 1];
      EncodeAllCons(ps[0], ps[1..][..k - 1]);
      if n - |Encode(ps[0])| >= 0 {
        CursorBound(ps[1..], n - |Encode(ps[0])|);
      }
    }
  }
}
