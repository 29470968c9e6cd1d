/** The chunk loop of decode_chunked as a function, RFC 9112 section 7.1 bodies,
    and what decoding a growing buffer in instalments computes. */
module Chunked {
  import opened Strings

  /** What the chunk loop keeps between calls: the bytes decoded so far, their
      count, and the 32-bit cursor into the raw content. `ended` says that the
      last chunk has been seen. */
  datatype Dec = Dec(content: string, contentLen: nat, cursor: nat, ended: bool)

  const START := Dec("", 0, 0, false)

  /** One turn of the loop: ask for more bytes, or take `size` of them. */
  datatype Turn = Stop | Take(size: nat, next: Dec)

  /** How the loop is left: by asking for more, behind a chunk of size 0, or never. */
  datatype Loop = Asks(d: Dec) | Ends(d: Dec) | Endless

  /** Where the size is taken to end: the first space from the cursor on, however
      far away, and the header's CRLF only when there is none. */
  function SizeEnd(raw: string, cursor: nat): Option<nat> {
    match FindChar(raw, ' ', cursor)
    case Some(e) => Some(e)
    case None => FindCrlf(raw, cursor)
  }

  /** The size read from the cursor on. */
  function SizeAt(raw: string, cursor: nat): (n: nat)
    requires SizeEnd(raw, cursor).Some?
    ensures n < U32
  {
    HexRead(raw[cursor..SizeEnd(raw, cursor).value])
  }

  /** The guard of the branch that takes bytes without a CRLF in sight: a space but no
      CRLF from the cursor on, and a size the bytes received would already cover. */
  predicate Torn(raw: string, cursor: nat) {
    && FindChar(raw, ' ', cursor).Some? && FindCrlf(raw, cursor).None?
    && SizeAt(raw, cursor) <= |raw| - 1
  }

  /** Without a CRLF its position is npos: size - npos - 2 is size - 1, npos + 2 is 1,
      and npos narrowed to 32 bits is 2^32 - 1. */
  function OneTurn(raw: string, d: Dec): Turn {
    if SizeEnd(raw, d.cursor).None? then Stop
    else
      var n := SizeAt(raw, d.cursor);
      match FindCrlf(raw, d.cursor)
      case None =>
        if n > |raw| - 1 then Stop
        else Take(n, d.(content := d.content + raw[1..1 + n],
                        contentLen := (d.contentLen + n) % U32,
                        cursor := (U32 - 1 + 2 + n + 2) % U32))
      case Some(h) =>
        if n > |raw| - h - 2 then Stop
        else Take(n, d.(content := d.content + raw[h + 2..h + 2 + n],
                        contentLen := (d.contentLen + n) % U32,
                        cursor := (h % U32 + 2 + n + 2) % U32))
  }

  /** What a torn turn of size n leaves behind. */
  function TornNext(raw: string, d: Dec, n: nat): Dec
    requires n < |raw|
  {
    d.(content := d.content + raw[1..1 + n], contentLen := (d.contentLen + n) % U32, cursor := (n + 3) % U32)
  }

  /** The do-while loop, of which at most limit + 1 turns are taken. */
  function Turns(raw: string, d: Dec, limit: nat): Loop
    decreases limit
  {
    match OneTurn(raw, d)
    case Stop => Asks(d)
    case Take(n, next) =>
      if n == 0 then Ends(next.(ended := true))
      else if limit == 0 then Endless
      else Turns(raw, next, limit - 1)
  }

  /** The do-while loop. A turn that is not the last starts inside the buffer, and
      where the next one starts depends on where it did; so a loop that has not been
      left after as many turns as the buffer has bytes is never left. */
  function Chunks(raw: string, d: Dec): Loop {
    Turns(raw, d, |raw|)
  }

  /** A buffer the 32-bit cursor can address, up to 2 bytes past its end. */
  predicate Addressable(raw: string) {
    |raw| + 3 < U32
  }

  /** A turn that is not torn moves the cursor on, and not far past the buffer. */
  lemma TurnAdvances(raw: string, d: Dec)
    requires Addressable(raw) && OneTurn(raw, d).Take? && !Torn(raw, d.cursor)
    ensures d.cursor + 4 <= OneTurn(raw, d).next.cursor <= |raw| + 2
  {
    hide HexRead, FindChar;
    var h := FindCrlf(raw, d.cursor).value;
    var n := SizeAt(raw, d.cursor);
    assert h + 4 + n <= |raw| + 2;
  }

  /** The loop and the test for the full body behind it, on a decoder that may have
      seen the last chunk before. Whether it then goes on to trailers is not part of
      its state. */
  function Decode(raw: string, d: Dec): Loop {
    if d.ended then Ends(d) else Chunks(raw, d)
  }

  // ------------------------------------------------- RFC 9112 section 7.1

  /** chunk-size, chunk-ext and chunk-data; the last chunk has no data. */
  datatype Piece = Piece(size: string, ext: string, data: string)

  predicate IsExt(ext: string) {
    && '\r' !in ext
    && (ext != "" ==> ext[0] == ';' || ext[0] == ' ' || ext[0] == '\t')
  }

  predicate IsPiece(p: Piece) {
    && p.size != "" && All(p.size, IsHex) && HexVal(p.size) == |p.data|
    && IsExt(p.ext)
  }

  predicate IsBody(ps: seq<Piece>) {
    && ps != []
    && (forall i :: 0 <= i < |ps| ==> IsPiece(ps[i]))
    && (forall i :: 0 <= i < |ps| ==> (ps[i].data == "" <==> i == |ps| - 1))
  }

  function Header(p: Piece): string { p.size + p.ext + "\r\n" }

  function Encode(p: Piece): string { Header(p) + p.data + "\r\n" }

  function EncodeAll(ps: seq<Piece>): string {
    if ps == [] then "" else Encode(ps[0]) + EncodeAll(ps[1..])
  }

  function Data(ps: seq<Piece>): string {
    if ps == [] then "" else ps[0].data + Data(ps[1..])
  }

  /** How many pieces have header and data within the first n bytes. */
  function CompleteIn(ps: seq<Piece>, n: int): (k: nat)
    ensures k <= |ps|
  {
    if ps == [] || n < |Header(ps[0])| + |ps[0].data| then 0
    else 1 + CompleteIn(ps[1..], n - |Encode(ps[0])|)
  }

  /** The decoder state that n bytes of the body stand for, whatever calls they
      arrived in. */
  function StateAt(ps: seq<Piece>, n: int): Dec {
    var k := CompleteIn(ps, n);
    Dec(Data(ps[..k]), |Data(ps[..k])|, |EncodeAll(ps[..k])|, k == |ps|)
  }
}
