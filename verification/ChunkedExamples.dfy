/** Torn cuts, from harmless to endless. Each body is cut behind the first space of a
    chunk header. */
module ChunkedExamples {
  import opened Strings
  import opened Chunked
  import opened ChunkedLoop
  import opened ChunkedRuns
  import opened ChunkedTorn

  const LAST := Piece("0", "", "")

  /** A turn at a known header. */
  lemma TurnHere(raw: string, d: Dec, e: nat, h: nat, digits: string, n: nat)
    requires FindCrlf(raw, d.cursor) == Some(h) && SizeEnd(raw, d.cursor) == Some(e)
    requires d.cursor <= e <= |raw| && raw[d.cursor..e] == digits && HexRead(digits) == n
    requires |raw| + 3 < U32 && d.contentLen + n < U32
    ensures if h + 2 + n <= |raw| then
              OneTurn(raw, d) == Take(n, Dec(d.content + raw[h + 2..h + 2 + n], d.contentLen + n, h + 4 + n, d.ended))
            else OneTurn(raw, d) == Stop
  {
    hide FindCrlf, SizeEnd, HexRead;
  }

  lemma TornHere(raw: string, d: Dec, e: nat, digits: string, n: nat)
    requires FindCrlf(raw, d.cursor) == None && FindChar(raw, ' ', d.cursor) == Some(e)
    requires raw[d.cursor..e] == digits && HexRead(digits) == n && n < |raw| && |raw| + 3 < U32 && d.contentLen + n < U32
    ensures Torn(raw, d.cursor)
    ensures OneTurn(raw, d) == Take(n, Dec(d.content + raw[1..1 + n], d.contentLen + n, n + 3, d.ended))
  {
    hide FindCrlf, FindChar, HexRead;
  }

  lemma NothingHere(raw: string, d: Dec)
    requires d.cursor >= |raw|
    ensures Chunks(raw, d) == Asks(d)
  {
    LoopUnfolds(raw, d);
  }

  lemma Digit(c: char, rest: string)
    requires IsHex(c) && (rest != "" ==> !IsHex(rest[0]) && rest[0] != 'x' && rest[0] != 'X')
    ensures HexRead([c] + rest) == HexDigit(c) && HexVal([c]) == HexDigit(c)
  {
    assert [c][..0] == "";
    HexReadDigits([c], rest);
  }

  lemma DigitBehindLine(c: char)
    requires IsHex(c)
    ensures HexRead("\n" + [c]) == HexDigit(c)
  {
    hide Span, HexVal;
    var s := "\n" + [c];
    Digit(c, "");
    SpanIs(s, IsSpace, 0, 1);
    SpanIs(s, IsHex, 1, 2);
    assert s[1..2] == [c];
  }

  lemma NoDigit()
    ensures HexRead("") == 0
  {
  }

  // ------------------------------------------------------------ it waits

  const WAITS := [Piece("1", " x", "A"), LAST]

  lemma WaitsBody()
    ensures Fits(WAITS) && EncodeAll(WAITS) == "1 x\r\nA\r\n0\r\n\r\n" && StateAt(WAITS, 2) == START
  {
    Digit('1', "");
    Digit('0', "");
    var p := WAITS[0];
    assert WAITS[1..] == [LAST] && [LAST][1..] == [];
    assert Encode(p) == "1 x\r\nA\r\n" && Encode(LAST) == "0\r\n\r\n";
    assert EncodeAll([LAST]) == Encode(LAST) + "";
    assert EncodeAll(WAITS) == Encode(p) + EncodeAll([LAST]);
  }

  lemma WaitsTurn()
    ensures Torn("1 ", 0) && Chunks("1 ", START) == Asks(Dec(" ", 1, 4, false))
  {
    hide FindCrlf, FindChar, HexRead, OneTurn, Torn, Chunks;
    var raw := "1 ";
    FindCharIs(raw, ' ', 0, 1);
    FindCrlfNot(raw, 0);
    Digit('1', "");
    assert raw[0..1] == ['1'] + "" && "" + raw[1..2] == " ";
    TornHere(raw, START, 1, "1", 1);
    LoopUnfolds(raw, START);
    NothingHere(raw, Dec(" ", 1, 4, false));
  }

  lemma WaitsTurnAgain()
    ensures Chunks("1 x\r\nA\r\n0\r\n\r\n", Dec(" ", 1, 4, false)) == Asks(Dec(" ", 1, 4, false))
  {
    hide FindCrlf, FindChar, HexRead, OneTurn, Chunks;
    var raw, d := "1 x\r\nA\r\n0\r\n\r\n", Dec(" ", 1, 4, false);
    FindCharNot(raw, ' ', 4);
    FindCrlfIs(raw, 4, 6);
    DigitBehindLine('A');
    assert raw[4..6] == "\n" + ['A'];
    TurnHere(raw, d, 6, 6, "\nA", 10);
    LoopUnfolds(raw, d);
  }

  /** With "1 " received a byte of the header is stored as content. The size read next
      is more than is left of the body, so the decoder goes on asking for ever. */
  lemma TornCutExample()
    ensures var body, d := EncodeAll(WAITS), Dec(" ", 1, 4, false);
            && Fits(WAITS) && 2 <= |body| && TornCut(WAITS, 2) && StateAt(WAITS, 2) == START
            && Chunks(body[..2], START) == Asks(d) && Chunks(body, d) == Asks(d)
  {
    hide Chunks, EncodeAll, Torn, StateAt, Fits;
    WaitsBody();
    WaitsTurn();
    WaitsTurnAgain();
    assert EncodeAll(WAITS)[..2] == "1 ";
    NotEndedAtStart();
  }

  lemma NotEndedAtStart()
    ensures !START.ended && START.cursor == 0
  {
  }

  // ------------------------------------------- the same content, another place

  const ELSEWHERE := [Piece("1", " ", " "), LAST]

  lemma ElsewhereBody()
    ensures Fits(ELSEWHERE) && EncodeAll(ELSEWHERE) == "1 \r\n \r\n0\r\n\r\n" && StateAt(ELSEWHERE, 2) == START
  {
    Digit('1', "");
    Digit('0', "");
    var p := ELSEWHERE[0];
    assert ELSEWHERE[1..] == [LAST] && [LAST][1..] == [];
    assert Encode(p) == "1 \r\n \r\n" && Encode(LAST) == "0\r\n\r\n";
    assert EncodeAll([LAST]) == Encode(LAST) + "";
    assert EncodeAll(ELSEWHERE) == Encode(p) + EncodeAll([LAST]);
  }

  lemma ElsewhereEnd()
    ensures StateAt(ELSEWHERE, 12) == Dec(" ", 1, 12, true) && |EncodeAll(ELSEWHERE)| == 12
  {
    hide EncodeAll, CompleteIn;
    ElsewhereBody();
    CompleteAll(ELSEWHERE);
    assert ELSEWHERE[..2] == ELSEWHERE && ELSEWHERE[1..] == [LAST] && [LAST][1..] == [];
    assert Data([LAST]) == "";
  }

  lemma ElsewhereTurn()
    ensures Chunks("1 \r\n \r\n0\r\n\r\n", Dec(" ", 1, 4, false)) == Ends(Dec(" ", 1, 9, true))
  {
    hide FindCrlf, FindChar, HexRead, OneTurn, Chunks;
    var raw, d := "1 \r\n \r\n0\r\n\r\n", Dec(" ", 1, 4, false);
    FindCharIs(raw, ' ', 4, 4);
    FindCrlfIs(raw, 4, 5);
    NoDigit();
    assert raw[4..4] == "" && " " + raw[7..7] == " ";
    TurnHere(raw, d, 4, 5, "", 0);
    LoopUnfolds(raw, d);
  }

  /** The byte stored is by chance the data of the chunk. The content comes out right,
      but the last chunk is taken to end before it does. */
  lemma TornElsewhere()
    ensures var body, d := EncodeAll(ELSEWHERE), Dec(" ", 1, 4, false);
            && Fits(ELSEWHERE) && |body| == 12 && TornCut(ELSEWHERE, 2) && Coincides(ELSEWHERE, 2)
            && Chunks(body[..2], START) == Asks(d) && Chunks(body, d) == Ends(Dec(" ", 1, 9, true))
            && At(ELSEWHERE, 12) == Ends(Dec(" ", 1, 12, true))
  {
    hide Chunks, EncodeAll, Torn, Fits;
    ElsewhereBody();
    WaitsTurn();
    ElsewhereTurn();
    ElsewhereEnd();
    assert EncodeAll(ELSEWHERE)[..2] == "1 " && EncodeAll(ELSEWHERE)[1..2] == " ";
  }

  // ------------------------------------------------------------- harmless

  const HARMLESS := [Piece("01", " x9", "1"), Piece("A", "", "1\r\nA\r\n1\r\nZ"), LAST]
  const HARMLESS_BODY := "01 x9\r\n1\r\nA\r\n1\r\nA\r\n1\r\nZ\r\n0\r\n\r\n"
  const HARMLESS_DATA := "11\r\nA\r\n1\r\nZ"

  lemma Sizes()
    ensures HexVal("01") == 1 && HexVal("A") == 10 && HexVal("0") == 0 && HexVal("1") == 1 && HexRead("01") == 1
  {
    Digit('0', "");
    Digit('1', "");
    Digit('A', "");
    assert "01"[..1] == "0";
    HexReadDigits("01", "");
    assert "01" + "" == "01";
  }

  lemma HarmlessPieces()
    ensures IsBody(HARMLESS)
  {
    hide HexVal;
    Sizes();
  }

  lemma ThreePieces(p: Piece, q: Piece, r: Piece)
    ensures EncodeAll([p, q, r]) == Encode(p) + Encode(q) + Encode(r) && Data([p, q, r]) == p.data + q.data + r.data
  {
    hide Encode;
    assert [p, q, r][1..] == [q, r] && [q, r][1..] == [r] && [r][1..] == [];
    assert EncodeAll([r]) == Encode(r) + "" && Data([r]) == r.data + "";
    assert EncodeAll([q, r]) == Encode(q) + EncodeAll([r]) && Data([q, r]) == q.data + Data([r]);
    assert EncodeAll([p, q, r]) == Encode(p) + (Encode(q) + Encode(r));
  }

  lemma HarmlessTexts()
    ensures Encode(HARMLESS[0]) == "01 x9\r\n1\r\n" && Encode(LAST) == "0\r\n\r\n"
    ensures Encode(HARMLESS[1]) == "A\r\n1\r\nA\r\n1\r\nZ\r\n"
  {
  }

  lemma HarmlessText()
    ensures EncodeAll(HARMLESS) == HARMLESS_BODY && |HARMLESS_BODY| == 30 && Data(HARMLESS) == HARMLESS_DATA
  {
    hide Encode, EncodeAll, Data;
    HarmlessTexts();
    ThreePieces(HARMLESS[0], HARMLESS[1], LAST);
    assert "01 x9\r\n1\r\n" + "A\r\n1\r\nA\r\n1\r\nZ\r\n" + "0\r\n\r\n" == HARMLESS_BODY;
  }

  lemma HarmlessFirst()
    ensures Torn("01 ", 0) && Chunks("01 ", START) == Asks(Dec("1", 1, 4, false))
  {
    hide FindCrlf, FindChar, HexRead, OneTurn, Torn, Chunks, HexVal;
    var raw := "01 ";
    FindCharIs(raw, ' ', 0, 2);
    FindCrlfNot(raw, 0);
    Sizes();
    assert raw[0..2] == "01" && "" + raw[1..2] == "1";
    TornHere(raw, START, 2, "01", 1);
    LoopUnfolds(raw, START);
    NothingHere(raw, Dec("1", 1, 4, false));
  }

  lemma Middle(a: string, b: string, c: string)
    ensures (a + b + c)[|a|..|a| + |b|] == b
  {
  }

  lemma HarmlessMiddle()
    ensures HARMLESS_BODY[7..16] == "1\r\nA\r\n1\r\n" && |HARMLESS_BODY| == 30 && HARMLESS_BODY[4] == '9'
    ensures CrlfAt(HARMLESS_BODY, 5) && forall i :: 4 <= i < 30 ==> HARMLESS_BODY[i] != ' '
  {
    Middle("01 x9\r\n", "1\r\nA\r\n1\r\n", "A\r\n1\r\nZ\r\n0\r\n\r\n");
    assert HARMLESS_BODY == "01 x9\r\n" + "1\r\nA\r\n1\r\n" + "A\r\n1\r\nZ\r\n0\r\n\r\n";
  }

  lemma NineBytes(raw: string, d: Dec)
    requires |raw| == 30 && raw[4] == '9' && CrlfAt(raw, 5) && forall i :: 4 <= i < 30 ==> raw[i] != ' '
    requires d.cursor == 4 && d.contentLen == 1
    ensures Chunks(raw, d) == Chunks(raw, Dec(d.content + raw[7..16], 10, 18, d.ended))
  {
    hide FindCrlf, FindChar, HexRead, OneTurn, Chunks, HexVal;
    FindCharNot(raw, ' ', 4);
    FindCrlfIs(raw, 4, 5);
    Digit('9', "");
    assert raw[4..5] == ['9'] + "";
    TurnHere(raw, d, 5, 5, "9", 9);
    LoopUnfolds(raw, d);
  }

  lemma HarmlessSecond()
    ensures Chunks(HARMLESS_BODY, Dec("1", 1, 4, false))
            == Chunks(HARMLESS_BODY, Dec("11\r\nA\r\n1\r\n", 10, 18, false))
  {
    hide FindCrlf, FindChar, HexRead, OneTurn, Chunks, HexVal;
    HarmlessMiddle();
    NineBytes(HARMLESS_BODY, Dec("1", 1, 4, false));
    assert "1" + "1\r\nA\r\n1\r\n" == "11\r\nA\r\n1\r\n";
  }

  lemma HarmlessThird()
    ensures Chunks(HARMLESS_BODY, Dec("11\r\nA\r\n1\r\n", 10, 18, false))
            == Chunks(HARMLESS_BODY, Dec(HARMLESS_DATA, 11, 25, false))
  {
    hide FindCrlf, FindChar, HexRead, OneTurn, Chunks, HexVal;
    var raw, d := HARMLESS_BODY, Dec("11\r\nA\r\n1\r\n", 10, 18, false);
    FindCharNot(raw, ' ', 18);
    FindCrlfIs(raw, 18, 20);
    DigitBehindLine('1');
    assert raw[18..20] == "\n" + ['1'] && d.content + raw[22..23] == HARMLESS_DATA;
    TurnHere(raw, d, 20, 20, "\n1", 1);
    LoopUnfolds(raw, d);
  }

  lemma HarmlessLast()
    ensures Chunks(HARMLESS_BODY, Dec(HARMLESS_DATA, 11, 25, false)) == Ends(Dec(HARMLESS_DATA, 11, 30, true))
  {
    hide FindCrlf, FindChar, HexRead, OneTurn, Chunks, HexVal;
    var raw, d := HARMLESS_BODY, Dec(HARMLESS_DATA, 11, 25, false);
    FindCharNot(raw, ' ', 25);
    FindCrlfIs(raw, 25, 26);
    Digit('0', "");
    assert raw[25..26] == ['0'] + "" && d.content + raw[28..28] == HARMLESS_DATA;
    TurnHere(raw, d, 26, 26, "0", 0);
    LoopUnfolds(raw, d);
  }

  lemma HarmlessEnd()
    ensures StateAt(HARMLESS, 30) == Dec(HARMLESS_DATA, 11, 30, true)
  {
    hide EncodeAll, CompleteIn, Data;
    HarmlessText();
    CompleteAll(HARMLESS);
    assert HARMLESS[..3] == HARMLESS;
  }

  lemma HarmlessStart()
    ensures StateAt(HARMLESS, 3) == START && PieceAt(HARMLESS, 3) == HARMLESS[0]
  {
  }

  /** The decoder falls back into step: it takes the rest of the header for one of its
      own, the header behind it and a part of the data for data, and ends up where one
      call on the whole body does, content, count and cursor. */
  lemma TornHarmless()
    ensures var body := EncodeAll(HARMLESS);
            && Fits(HARMLESS) && |body| == 30 && TornCut(HARMLESS, 3) && Coincides(HARMLESS, 3)
            && Chunks(body[..3], START) == Asks(Dec("1", 1, 4, false)) && StateAt(HARMLESS, 3) == START
            && Chunks(body, Dec("1", 1, 4, false)) == At(HARMLESS, 30)
  {
    hide Chunks, EncodeAll, Torn, IsBody, StateAt, Data, PieceAt;
    HarmlessPieces();
    HarmlessText();
    HarmlessStart();
    HarmlessFirst();
    HarmlessSecond();
    HarmlessThird();
    HarmlessLast();
    HarmlessEnd();
    assert HARMLESS_BODY[..3] == "01 " && HARMLESS_BODY[1..2] == "1";
  }

  // --------------------------------------------------------------- endless

  const ENDLESS := [Piece("2", "", "AB"), Piece("4", " ", "wxyz"), LAST]

  lemma EndlessPieces()
    ensures IsBody(ENDLESS)
  {
    hide HexVal;
    Digit('2', "");
    Digit('4', "");
    Digit('0', "");
  }

  lemma EndlessTexts()
    ensures Encode(ENDLESS[0]) == "2\r\nAB\r\n" && Encode(LAST) == "0\r\n\r\n"
    ensures Encode(ENDLESS[1]) == "4 \r\nwxyz\r\n" && |Header(ENDLESS[1])| == 4
  {
  }

  lemma EndlessText()
    ensures |EncodeAll(ENDLESS)| == 22 && EncodeAll(ENDLESS)[..9] == "2\r\nAB\r\n4 "
  {
    hide Encode, EncodeAll, Data, Header;
    EndlessTexts();
    ThreePieces(ENDLESS[0], ENDLESS[1], LAST);
    assert "2\r\nAB\r\n" + "4 \r\nwxyz\r\n" + "0\r\n\r\n" == "2\r\nAB\r\n4 \r\nwxyz\r\n0\r\n\r\n";
  }

  lemma EndlessStart()
    ensures StateAt(ENDLESS, 9) == Dec("AB", 2, 7, false)
  {
    hide Encode;
    EndlessTexts();
    var p := ENDLESS[0];
    assert ENDLESS[1..][0] == ENDLESS[1];
    assert CompleteIn(ENDLESS[1..], 2) == 0;
    assert CompleteIn(ENDLESS, 9) == 1;
    assert ENDLESS[..1] == [p] && [p][1..] == [];
    assert EncodeAll([p]) == Encode(p) + "" && Data([p]) == "AB" + "";
  }

  lemma {:induction false} SameCursor(raw: string, cursor: nat, k: nat)
    requires Goes(raw, cursor) && NextCursor(raw, cursor) == cursor
    ensures GoesOn(raw, cursor, k)
    decreases k
  {
    hide Goes, NextCursor;
    if k > 0 {
      SameCursor(raw, cursor, k - 1);
    }
  }

  lemma EndlessTurn(d: Dec)
    requires d == Dec("AB", 2, 7, false)
    ensures Torn("2\r\nAB\r\n4 ", 7) && Chunks("2\r\nAB\r\n4 ", d) == Endless
  {
    hide FindCrlf, FindChar, HexRead, OneTurn, Chunks, HexVal, Torn, GoesOn;
    var raw := "2\r\nAB\r\n4 ";
    FindCharIs(raw, ' ', 7, 8);
    FindCrlfNot(raw, 7);
    Digit('4', "");
    assert raw[7..8] == ['4'] + "";
    TornHere(raw, d, 8, "4", 4);
    TurnByCursor(raw, d);
    EndlessForEver(raw, d);
    forall k: nat
      ensures GoesOn(raw, 7, k)
    {
      SameCursor(raw, 7, k);
    }
  }

  /** The torn turn sends the decoder back to where it started: it is never left. */
  lemma TornEndless()
    ensures Fits(ENDLESS) && 9 <= |EncodeAll(ENDLESS)| && TornCut(ENDLESS, 9)
    ensures Chunks(EncodeAll(ENDLESS)[..9], StateAt(ENDLESS, 9)) == Endless
  {
    hide Chunks, EncodeAll, Torn, IsBody, StateAt;
    EndlessPieces();
    EndlessText();
    EndlessStart();
    EndlessTurn(StateAt(ENDLESS, 9));
  }
}
