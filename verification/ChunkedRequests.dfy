/** Chunked requests from end to end, torn in a header; and one whose transfer encoding
    is an empty list. */
module ChunkedRequests {
  import opened Strings
  import opened Message
  import opened Headers
  import opened Content
  import opened Chunked
  import opened ChunkedRuns
  import opened ChunkedTorn
  import opened ChunkedExamples
  import opened Receive
  import opened Segmentation
  import opened HeadersProof
  import opened Arrivals
  import opened Decoding
  import opened BlankCuts
  import opened TornCuts
  import opened Cuts
  import opened Example
  import opened Codings
  import opened FramedRuns
  import opened Transport
  import opened ReceiveRuns
  import Keywords
  import Lists

  /** A transfer encoding that is read as chunked, whatever it says. */
  predicate ReadAsChunked(v: string) {
    v != "" && v[0] != ' ' && '\r' !in v && Lists.Values(Lists.Tokens(v, 0)) == ([CHUNKED], true)
  }

  function EncodingLine(v: string): string { "transfer-encoding:" + v }

  const ENCODING_LINE := EncodingLine("chunked")

  function Head(r: ReqV, v: string): ReqV {
    var h := HostRead(LineRead(r));
    h.(fields := h.fields[TRANSFER_ENCODING := v], parseState := ParseState.Content)
  }

  lemma EncodingLineRead(r: ReqV, v: string)
    requires !Dead(r) && TRANSFER_ENCODING !in r.fields && v != "" && v[0] != ' '
    ensures WithFieldLine(r, EncodingLine(v)) == r.(fields := r.fields[TRANSFER_ENCODING := v])
  {
    hide FindChar, Span, WithHostField;
    var line := EncodingLine(v);
    assert line[..17] == TRANSFER_ENCODING && line[18..] == v && line[17] == ':' && line[18] == v[0];
    FindCharIs(line, ':', 0, 17);
    SpanIs(line, c => c == ' ', 18, 18);
    assert Lowercase(TRANSFER_ENCODING) == TRANSFER_ENCODING;
  }

  lemma StartIs(v: string)
    requires v != "" && '\r' !in v
    ensures Start([EncodingLine(v)]) == 60 + |v|
    ensures forall i :: 0 <= i < |[EncodingLine(v)]| ==> IsLine([EncodingLine(v)][i])
  {
    var line := EncodingLine(v);
    var lines := [HOST_LINE] + [line];
    assert lines[1..] == [line] && lines[1..][1..] == [];
    assert Text([line]) == line + "\r\n" + Text([]);
    assert Text(lines) == HOST_LINE + "\r\n" + Text([line]);
    PlainLine(v);
  }

  lemma PlainLine(v: string)
    requires '\r' !in v
    ensures IsLine(EncodingLine(v))
  {
    var line := EncodingLine(v);
    forall i | 0 <= i < |line|
      ensures line[i] != '\r'
    {
      assert line[i] == if i < 18 then "transfer-encoding:"[i] else v[i - 18];
    }
  }

  lemma HeadIsRead(r: ReqV, v: string, body: string)
    requires IsFresh(r) && v != "" && v[0] != ' ' && '\r' !in v && body != "" && |v| + |body| + 60 < U32
    ensures HeaderStep(ConnV(0, r), Post([EncodingLine(v)], body)) == ConnV(60 + |v|, Head(r, v))
    ensures |Post([EncodingLine(v)], body)| == 60 + |v| + |body|
  {
    hide WithFieldLine, HeaderStep, EncodingLine;
    var line, h := EncodingLine(v), HostRead(LineRead(r));
    StartIs(v);
    RequestParts([line], body);
    EncodingLineRead(h, v);
    ApplyOne(h, line);
    RequestRead(r, [line], body);
  }

  /** A list of one word, and a list that an empty element cuts behind its first word. */
  lemma WordIsRead(word: string, rest: string)
    requires Lists.IsToken(word) && Keywords.KeywordVal(word) == CHUNKED && (rest == "" || ",," <= rest)
    ensures Lists.Values(Lists.Tokens(word + rest, 0)) == ([CHUNKED], true)
  {
    hide Lists.Tokens, Keywords.KeywordVal;
    var list := [word];
    assert Lists.Join(list, [false]) == word;
    if rest == "" {
      Lists.ListIsKeptExactlyWhen(list, [false]);
      assert word + rest == word;
      assert Lists.Tokens(word, 0) == list;
    } else {
      Lists.EmptyElementCutsTheList(list, [false], rest[2..]);
      assert rest == ",," + rest[2..];
      assert word + ",," + rest[2..] == word + rest;
    }
    assert list[1..] == [] && Lists.Values([]) == ([], true);
    assert Lists.Values(list) == ([CHUNKED] + [], true);
    assert [CHUNKED] + [] == [CHUNKED];
  }

  lemma ListIsChunked()
    ensures ReadAsChunked("chunked")
  {
    hide Lists.Tokens, Keywords.KeywordVal;
    Keywords.ProbeHits("chunked", 17);
    WordIsRead("chunked", "");
    assert "chunked" + "" == "chunked";
  }

  function Passed(r: ReqV, v: string): ReqV {
    var h := Head(r, v);
    h.(transferEncodings := [CHUNKED], contentEncodings := [],
       fields := h.fields[CONTENT_TYPE := DEFAULT_CONTENT_TYPE],
       mediaType := Keywords.KeywordVal("application"), mediaSubtype := Keywords.KeywordVal("json"))
  }

  lemma HeadPasses(r: ReqV, v: string)
    requires IsFresh(r) && ReadAsChunked(v)
    ensures Checked(Head(r, v), CONFIG) == Passed(r, v)
  {
    hide Keywords.KeywordVal, WithContentType, Lists.Values, Lists.Tokens;
    DefaultType(Head(r, v).(transferEncodings := [CHUNKED], contentEncodings := []));
  }

  lemma PassedIsReady(r: ReqV, v: string)
    requires IsFresh(r)
    ensures var p := Passed(r, v);
            && ChunkedFraming(p) && !p.HasErr() && !p.Faulted() && DecOf(p) == START && p.parseState == ParseState.Content
            && p.contentEncodings == []
  {
    hide Keywords.KeywordVal;
    var p := Passed(r, v);
    assert [CHUNKED][1..] == [];
    assert Count([CHUNKED], CHUNKED) == 1 + Count([], CHUNKED);
    assert CONTENT_LENGTH !in p.fields;
    assert !BadFraming(p);
  }

  /** Any chunked body behind such an encoding is routed with its data. */
  lemma EncodedIsRouted(r: ReqV, v: string, ps: seq<Piece>)
    requires IsFresh(r) && ReadAsChunked(v) && IsBody(ps) && |v| + |EncodeAll(ps)| + 63 < U32
    ensures var full := Post([EncodingLine(v)], EncodeAll(ps));
            var g := GoalOf(r, full, ps, CONFIG);
            && Received(ConnV(0, r), full, CONFIG).1 == Route && g.end.req.content == Data(ps)
            && GoalOk(g) && g.b == 60 + |v| && g.h == Head(r, v) && Checked(g.h, CONFIG) == Passed(r, v)
            && FindCrlf(full, 0) == Some(15) && |full| == g.b + |EncodeAll(ps)| && full[g.b..] == EncodeAll(ps)
  {
    hide HeaderStep, Checked, EncodeAll, StateAt, Data, WithBody, DecOf, WithDec, ChunkedFraming, FindCrlf, IsBody, Passed, Head;
    hide Text, Lines, LinesEnd, BlankAt, BodyStart, EncodingLine, Lists.Values, Lists.Tokens;
    var body := EncodeAll(ps);
    var full, p := Post([EncodingLine(v)], body), Passed(r, v);
    LongBody(ps);
    StartIs(v);
    RequestParts([EncodingLine(v)], body);
    HeadIsRead(r, v, body);
    HeadPasses(r, v);
    PassedIsReady(r, v);
    StartState(ps);
    ChunkedWhole(p, ps, 0);
    EndState(ps);
    DecKeeps(p, StateAt(ps, |body|));
    HeadIsClosed(r, v);
    PassedHas(r, v);
  }

  lemma HeadIsClosed(r: ReqV, v: string)
    requires IsFresh(r)
    ensures !Head(r, v).Faulted() && !Head(r, v).IsParsingHeaders() && !Head(r, v).HasErr()
  {
  }

  lemma PassedHas(r: ReqV, v: string)
    ensures var p := Passed(r, v);
            && p.transferEncodings == [CHUNKED] && p.contentEncodings == []
            && TRANSFER_ENCODING in p.fields && p.fields[TRANSFER_ENCODING] == v
  {
  }

  /** In particular one that says chunked. */
  lemma ChunkedIsRouted(r: ReqV, ps: seq<Piece>)
    requires IsFresh(r) && IsBody(ps) && |EncodeAll(ps)| + 70 < U32
    ensures var full := Post([ENCODING_LINE], EncodeAll(ps));
            var g := GoalOf(r, full, ps, CONFIG);
            && Received(ConnV(0, r), full, CONFIG).1 == Route && g.end.req.content == Data(ps)
            && GoalOk(g) && g.b == 67 && Checked(g.h, CONFIG).contentEncodings == []
            && CHUNKED in Checked(g.h, CONFIG).transferEncodings
            && FindCrlf(full, 0) == Some(15) && |full| == 67 + |EncodeAll(ps)| && full[67..] == EncodeAll(ps)
  {
    hide Checked, EncodeAll, Data, FindCrlf, IsBody, Passed, Head, Received, GoalOf, GoalOk, Post;
    ListIsChunked();
    EncodedIsRouted(r, "chunked", ps);
    PassedHas(r, "chunked");
  }

  // ------------------------------------------------------- torn, and spared

  const EMPTY := [Piece("0", " ", "")]

  lemma EmptyIs()
    ensures IsBody(EMPTY) && Fits(EMPTY) && EncodeAll(EMPTY) == "0 \r\n\r\n" && Data(EMPTY) == ""
    ensures StateAt(EMPTY, 2) == START && PieceAt(EMPTY, 2).data == ""
  {
    Digit('0', "");
    assert EMPTY[1..] == [] && EMPTY[..0] == [];
    assert Encode(EMPTY[0]) == "0 \r\n\r\n";
    assert EncodeAll(EMPTY) == Encode(EMPTY[0]) + "";
  }

  lemma EmptyTears()
    ensures TornCut(EMPTY, 2)
  {
    hide FindCrlf, FindChar, HexRead, EncodeAll, StateAt;
    EmptyIs();
    var raw := "0 ";
    assert EncodeAll(EMPTY)[..2] == raw;
    FindCharIs(raw, ' ', 0, 1);
    FindCrlfNot(raw, 0);
    Digit('0', "");
    assert raw[0..1] == ['0'] + "";
  }

  /** Two arrivals, the first of which ends n bytes into the body. */
  function TwoPieces(ps: seq<Piece>, n: nat): seq<nat> {
    [67 + n, 67 + |EncodeAll(ps)|]
  }

  /** The premises of the theorem, and what it then says of two arrivals, the first of
      which is torn. */
  lemma TornPremises(r: ReqV, ps: seq<Piece>, n: nat)
    requires IsFresh(r) && Fits(ps) && |EncodeAll(ps)| + 70 < U32
    requires 0 < n < |EncodeAll(ps)| && TornCut(ps, n)
    ensures var full, cuts := Post([ENCODING_LINE], EncodeAll(ps)), TwoPieces(ps, n);
            var g := GoalOf(r, full, ps, CONFIG);
            && GoalOk(g) && g.b == 67 && g.full == full && g.ps == ps && BehindStart(g, cuts) && TearsHeader(g, cuts[0])
            && Checked(g.h, g.config).contentEncodings == [] && CHUNKED in Checked(g.h, g.config).transferEncodings
            && full[67..] == EncodeAll(ps)
            && var f := Arrivals.Feed(ConnV(0, r), full, cuts, CONFIG);
            && (SameOutcome(f, g.end) <==> TornSpared(g, cuts))
            && (SameState(f, g.end) <==> Repairs(g, cuts))
            && g.end.req.content == Data(ps)
  {
    hide Received, HeaderStep, Checked, EncodeAll, GoalOf, GoalOk, Post, FindCrlf, Data, TornCut, Arrivals.Feed, IsBody;
    hide TornSpared, Repairs, SameOutcome, SameState;
    var full, cuts := Post([ENCODING_LINE], EncodeAll(ps)), TwoPieces(ps, n);
    FitsIsBody(ps);
    ChunkedIsRouted(r, ps);
    GoalIs(r, full, ps, CONFIG);
    var g := GoalOf(r, full, ps, CONFIG);
    LineInFirst(full, cuts[0]);
    assert TearsHeader(g, cuts[0]);
    NotFair(g, cuts);
    SegmentationMattersExactlyWhen(r, full, cuts, ps, CONFIG);
    StateMattersExactlyWhen(r, full, cuts, ps, CONFIG);
  }

  lemma LineInFirst(full: string, n: nat)
    requires FindCrlf(full, 0) == Some(15) && 17 <= n <= |full|
    ensures FindCrlf(full[..n], 0).Some?
  {
    hide FindCrlf;
    FindCrlfPrefix(full, n, 0);
  }

  lemma NotFair(g: Goal, cuts: seq<nat>)
    requires GoalOk(g) && |cuts| == 2 && TearsHeader(g, cuts[0]) && cuts[0] != g.b && BehindStart(g, cuts)
    ensures !FairCuts(g, cuts) && (Spared(g, cuts) <==> TornSpared(g, cuts)) && (Repaired(g, cuts) <==> Repairs(g, cuts))
  {
    hide GoalOk, TearsHeader, TornSpared, Repairs;
    assert cuts[0] != g.b && TearsHeader(g, cuts[0]);
  }

  /** An empty chunked body cut behind "0 ": the decoder ends there with its cursor in
      the wrong place, and still the request routed is the one that one arrival routes. */
  lemma EmptySurvives(r: ReqV)
    requires IsFresh(r)
    ensures var full, cuts := Post([ENCODING_LINE], "0 \r\n\r\n"), [69, 73];
            && |full| == 73
            && var f, end := Arrivals.Feed(ConnV(0, r), full, cuts, CONFIG), Received(ConnV(0, r), full, CONFIG).0;
            SameOutcome(f, end) && !SameState(f, end)
  {
    hide Received, HeaderStep, Checked, EncodeAll, GoalOf, GoalOk, Post, FindCrlf, Data, TornCut, Arrivals.Feed, IsBody, Fits;
    hide SameOutcome, SameState, StateAt, Repairs, PieceAt, TearsHeader;
    var full, cuts := Post([ENCODING_LINE], EncodeAll(EMPTY)), TwoPieces(EMPTY, 2);
    EmptyIs();
    EmptyTears();
    TornPremises(r, EMPTY, 2);
    GoalIs(r, full, EMPTY, CONFIG);
    var g := GoalOf(r, full, EMPTY, CONFIG);
    HeadIsRead(r, "chunked", EncodeAll(EMPTY));
    EmptyRun(g, cuts);
    NotRepaired(g, cuts);
    BodyAt(g, 4);
  }

  lemma BodyAt(g: Goal, k: nat)
    requires g.b <= |g.full| && CrlfAt(g.full[g.b..], k)
    ensures CrlfAt(g.full, g.b + k)
  {
  }

  lemma NotRepaired(g: Goal, cuts: seq<nat>)
    requires GoalOk(g) && cuts != [] && forall i :: 0 <= i < |cuts| ==> g.b <= cuts[i] <= |g.full|
    requires DecoderRun(StateAt(g.ps, cuts[0] - g.b), g.b, g.full, cuts) != Some(StateAt(g.ps, |EncodeAll(g.ps)|))
    ensures !Repairs(g, cuts)
  {
    hide GoalOk, DecoderRun, StateAt, EncodeAll;
  }

  /** A body whose torn turn takes the right byte by chance: the request comes out the
      same, the cursor does not. */
  lemma ElsewhereSurvives(r: ReqV)
    requires IsFresh(r)
    ensures var full, cuts := Post([ENCODING_LINE], "1 \r\n \r\n0\r\n\r\n"), [69, 79];
            && |full| == 79
            && var f, end := Arrivals.Feed(ConnV(0, r), full, cuts, CONFIG), Received(ConnV(0, r), full, CONFIG).0;
            SameOutcome(f, end) && !SameState(f, end) && end.req.content == " "
  {
    hide Received, HeaderStep, Checked, EncodeAll, GoalOf, GoalOk, Post, FindCrlf, Data, TornCut, Arrivals.Feed, IsBody, Fits;
    hide SameOutcome, SameState, StateAt, PieceAt, TearsHeader, Coincides, DecoderRun;
    var full, cuts := Post([ENCODING_LINE], EncodeAll(ELSEWHERE)), TwoPieces(ELSEWHERE, 2);
    ElsewhereBody();
    ElsewhereEnd();
    ElsewhereTears();
    TornPremises(r, ELSEWHERE, 2);
    GoalIs(r, full, ELSEWHERE, CONFIG);
    HeadIsRead(r, "chunked", EncodeAll(ELSEWHERE));
    var g := GoalOf(r, full, ELSEWHERE, CONFIG);
    ElsewhereRun(full, cuts);
  }

  lemma ElsewhereTears()
    ensures |EncodeAll(ELSEWHERE)| == 12 && TornCut(ELSEWHERE, 2) && Coincides(ELSEWHERE, 2) && Data(ELSEWHERE) == " "
    ensures PieceAt(ELSEWHERE, 2).data == " "
  {
    hide EncodeAll, Torn, Fits, Chunks;
    TornElsewhere();
    ElsewhereEnd();
    EndState(ELSEWHERE);
    CompleteIsNone();
  }

  lemma CompleteIsNone()
    ensures CompleteIn(ELSEWHERE, 2) == 0
  {
  }

  lemma ElsewhereRun(full: string, cuts: seq<nat>)
    requires |full| == 79 && full[67..] == EncodeAll(ELSEWHERE) && cuts == [69, 79]
    ensures DecoderRun(StateAt(ELSEWHERE, 2), 67, full, cuts) == Some(Dec(" ", 1, 9, true))
  {
    hide EncodeAll, Chunks, FindCrlf, Fits;
    var body, d, e := full[67..], Dec(" ", 1, 4, false), Dec(" ", 1, 9, true);
    ElsewhereBody();
    TornElsewhere();
    assert full[..69][67..] == body[..2] && full[..79][67..] == body;
    assert cuts[1..] == [79];
    FindCrlfIs(body, 10, 10);
    assert DecoderRun(d, 67, full, [79]) == Some(e);
  }

  /** A body whose torn turn takes a byte of the header for data: nothing the peer sends
      afterwards makes it the same request. */
  lemma WaitsIsLost(r: ReqV)
    requires IsFresh(r)
    ensures var full, cuts := Post([ENCODING_LINE], "1 x\r\nA\r\n0\r\n\r\n"), [69, 80];
            && |full| == 80
            && !SameOutcome(Arrivals.Feed(ConnV(0, r), full, cuts, CONFIG), Received(ConnV(0, r), full, CONFIG).0)
  {
    hide *;
    var full := Post([ENCODING_LINE], EncodeAll(WAITS));
    WaitsBody();
    WaitsIsShort();
    TornCutExample();
    TornPremises(r, WAITS, 2);
    GoalIs(r, full, WAITS, CONFIG);
    PiecesAre(WAITS, 2);
    LineIsEncoding();
    ListIsChunked();
    HeadIsRead(r, "chunked", EncodeAll(WAITS));
    WaitsDiffers();
    NotSpared(GoalOf(r, full, WAITS, CONFIG), TwoPieces(WAITS, 2));
  }

  lemma WaitsIsShort()
    ensures |EncodeAll(WAITS)| + 70 < U32 && |"chunked"| + |EncodeAll(WAITS)| + 60 < U32
  {
    hide EncodeAll;
    WaitsBody();
  }

  lemma PiecesAre(ps: seq<Piece>, n: nat)
    ensures TwoPieces(ps, n) == [67 + n, 67 + |EncodeAll(ps)|]
  {
  }

  lemma LineIsEncoding()
    ensures ENCODING_LINE == EncodingLine("chunked")
  {
  }

  lemma NotSpared(g: Goal, cuts: seq<nat>)
    requires GoalOk(g) && cuts != [] && TearsHeader(g, cuts[0]) && forall i :: 0 <= i < |cuts| ==> g.b <= cuts[i] <= |g.full|
    requires cuts[0] - g.b <= |EncodeAll(g.ps)| && !StateAt(g.ps, cuts[0] - g.b).ended
    requires PieceAt(g.ps, cuts[0] - g.b).data != "" && !Coincides(g.ps, cuts[0] - g.b)
    ensures !TornSpared(g, cuts)
  {
    hide GoalOk, TearsHeader, EncodeAll, StateAt, PieceAt, Coincides;
  }

  lemma WaitsDiffers()
    ensures 2 <= |EncodeAll(WAITS)| && !Coincides(WAITS, 2) && !StateAt(WAITS, 2).ended && PieceAt(WAITS, 2).data == "A"
  {
    hide EncodeAll, Torn, Fits, Chunks;
    WaitsBody();
    assert EncodeAll(WAITS)[1..2] == " ";
    WaitsNone();
  }

  lemma WaitsNone()
    ensures CompleteIn(WAITS, 2) == 0
  {
  }

  // --------------------------------------------------------- over the socket

  /** A socket that delivers s in two events, split at n. */
  function TwoEvents(s: string, n: nat): seq<RxEvent>
    requires n <= |s|
  {
    [Bytes(s[..n]), RxBlocks, Bytes(s[n..])]
  }

  lemma TwoEventsAre(s: string, n: nat)
    requires 0 < n < |s|
    ensures var plan := TwoEvents(s, n);
            IsRxPlan(plan) && Stream(plan, 2) == s && Lengths(0, plan, 2) == [n, |s|] && Delivers(plan, 2)
  {
    var plan, rest := TwoEvents(s, n), [Bytes(s[n..])];
    assert plan[1..] == [RxBlocks] + rest && plan[1..][1..] == rest && rest[1..] == [];
    assert Arrived(plan[1..]) == "" && Ahead(plan[1..]) == plan[1..];
    assert Arrived(plan) == s[..n] + "" && Ahead(plan) == plan[1..] && Behind(Ahead(plan)) == rest;
    assert Arrived(rest) == s[n..] + Arrived([]) && Ahead(rest) == [];
    assert Stream(rest, 1) == s[n..] + Stream([], 0);
    assert s[..n] + s[n..] == s;
    assert Lengths(n, rest, 1) == [|s|] + [];
    assert PlanAfter(plan, 1) == rest;
  }

  lemma ElsewhereIsFair(full: string)
    requires |full| == 79 && full[67..] == EncodeAll(ELSEWHERE)
    ensures 4 <= |EncodeAll(ELSEWHERE)| && !TornCut(ELSEWHERE, 4)
  {
    hide EncodeAll, FindCrlf, Fits;
    ElsewhereBody();
    assert CrlfAt(EncodeAll(ELSEWHERE)[..4], 2);
    ElsewhereNone();
  }

  lemma ElsewhereNone()
    ensures CompleteIn(ELSEWHERE, 4) == 0
  {
  }

  /** A chunked request, with a space in an extension, that two events deliver behind
      the chunk's header: the premises of the exchange are met. */
  lemma ChunkedIsFair(r: ReqV)
    requires IsFresh(r)
    ensures var full := Post([ENCODING_LINE], "1 \r\n \r\n0\r\n\r\n");
            |full| == 79 && FairRequest(r, TwoEvents(full, 71), 2, ELSEWHERE, CONFIG)
  {
    hide Received, HeaderStep, Checked, EncodeAll, GoalOf, GoalOk, Post, FindCrlf, Data, TornCut, IsBody, Fits, Stream, Lengths;
    hide Delivers, TwoEvents;
    var full, cuts := Post([ENCODING_LINE], EncodeAll(ELSEWHERE)), [71, 79];
    ElsewhereBody();
    FitsIsBody(ELSEWHERE);
    ChunkedIsRouted(r, ELSEWHERE);
    GoalIs(r, full, ELSEWHERE, CONFIG);
    TwoEventsAre(full, 71);
    ElsewhereIsFair(full);
    LineInFirst(full, 71);
    assert FairCuts(GoalOf(r, full, ELSEWHERE, CONFIG), cuts);
    assert Arrivals.Arrivals(full, cuts);
  }

  // ------------------------------------- encodings that are not what they say

  lemma HtmlIsRead()
    ensures ReadAsChunked("html") && Names(Elements("html", 0)) == ["html"]
  {
    hide Lists.Tokens, Keywords.KeywordVal;
    Keywords.ProbeHits("html", 9);
    WordIsRead("html", "");
    assert "html" + "" == "html";
    OneElement("html", 0);
    OneName("html");
  }

  lemma OneElement(s: string, i: nat)
    requires i < |s| && (forall k :: i <= k < |s| ==> s[k] != ',') && !IsOws(s[i]) && !IsOws(s[|s| - 1])
    ensures Elements(s, i) == [s[i..]]
  {
    hide FindChar;
    Lists.TokenEndIs(s, i, |s|);
    assert s[i..|s|] == s[i..];
  }

  lemma OneName(s: string)
    requires s != ""
    ensures Names([s]) == [Lowercase(s)]
    ensures s == "html" || s == "gzip" ==> Lowercase(s) == s
  {
    assert [s][1..] == [];
  }

  const CUT_LIST := "chunked,,gzip"

  lemma CutListIsChunked()
    ensures ReadAsChunked(CUT_LIST)
  {
    hide Lists.Tokens, Lists.Values, Keywords.KeywordVal;
    Keywords.ProbeHits("chunked", 17);
    WordIsRead("chunked", ",,gzip");
    assert "chunked" + ",,gzip" == CUT_LIST;
  }

  lemma CutListEnd()
    ensures Elements(CUT_LIST, 8) == [""] + ["gzip"]
  {
    hide Elements, FindChar;
    OneElement(CUT_LIST, 9);
    assert CUT_LIST[9..] == "gzip";
    Lists.TokenEndIs(CUT_LIST, 8, 8);
    ElementsCons(CUT_LIST, 8, "");
  }

  lemma CutListIsRead()
    ensures ReadAsChunked(CUT_LIST) && Names(Elements(CUT_LIST, 0)) == ["chunked", "gzip"]
  {
    hide Elements, FindChar, ReadAsChunked, Names;
    CutListIsChunked();
    CutListEnd();
    Lists.TokenEndIs(CUT_LIST, 0, 7);
    assert CUT_LIST[0..7] == "chunked";
    ElementsCons(CUT_LIST, 0, "chunked");
    CutNames();
  }

  lemma ElementsCons(s: string, i: nat, element: string)
    requires i <= |s| && TrimmedIs(s[i..Lists.TokenEnd(s, i)], element) && Lists.TokenEnd(s, i) < |s|
    ensures Elements(s, i) == [element] + Elements(s, Lists.TokenEnd(s, i) + 1)
  {
    hide Trim, FindChar;
  }

  predicate TrimmedIs(s: string, element: string) { Trim(s) == element }

  lemma CutNames()
    ensures Names(["chunked"] + ([""] + ["gzip"])) == ["chunked", "gzip"]
  {
    var all := ["chunked"] + ([""] + ["gzip"]);
    assert all[1..] == ["", "gzip"] && all[1..][1..] == ["gzip"] && ["gzip"][1..] == [];
    assert Names(["gzip"]) == ["gzip"] by { OneName("gzip"); }
    assert Lowercase("chunked") == "chunked";
  }

  /** A list read as chunked that does not say so: the body is decoded all the same, and
      what the fields say does not hold. */
  lemma MisreadIsRouted(r: ReqV, v: string, ps: seq<Piece>)
    requires IsFresh(r) && ReadAsChunked(v) && IsBody(ps) && |v| + |EncodeAll(ps)| + 63 < U32
    requires var names := Names(Elements(v, 0)); names != [] && names[|names| - 1] != "chunked"
    ensures var full := Post([EncodingLine(v)], EncodeAll(ps));
            var c1 := HeaderStep(ConnV(0, r), full);
            var (c, verdict) := Received(ConnV(0, r), full, CONFIG);
            && verdict == Route && c.req.content == Data(ps)
            && !FieldsHold(Checked(c1.req, CONFIG), c.req, EncodeAll(ps), ps, 0)
  {
    hide Checked, EncodeAll, Data, FindCrlf, IsBody, Passed, Head, Received, GoalOk, Post, Elements, Names, ReadAsChunked;
    EncodedIsRouted(r, v, ps);
    PassedHas(r, v);
  }

  /** A body behind `transfer-encoding: html`, and one behind a list that ends in gzip. */
  lemma HtmlIsRouted(r: ReqV, ps: seq<Piece>)
    requires IsFresh(r) && IsBody(ps) && |EncodeAll(ps)| + 70 < U32
    ensures var full := Post(["transfer-encoding:html"], EncodeAll(ps));
            var (c, v) := Received(ConnV(0, r), full, CONFIG);
            v == Route && c.req.content == Data(ps)
  {
    hide EncodeAll, Data, IsBody, Received, Post, Elements, Names, ReadAsChunked, HeaderStep, FieldsHold;
    HtmlIsRead();
    MisreadIsRouted(r, "html", ps);
    assert EncodingLine("html") == "transfer-encoding:html";
  }

  lemma CutListIsRouted(r: ReqV, ps: seq<Piece>)
    requires IsFresh(r) && IsBody(ps) && |EncodeAll(ps)| + 80 < U32
    ensures var full := Post(["transfer-encoding:chunked,,gzip"], EncodeAll(ps));
            var (c, v) := Received(ConnV(0, r), full, CONFIG);
            v == Route && c.req.content == Data(ps)
  {
    hide EncodeAll, Data, IsBody, Received, Post, Elements, Names, ReadAsChunked, HeaderStep, FieldsHold;
    CutListIsRead();
    MisreadIsRouted(r, CUT_LIST, ps);
    assert EncodingLine(CUT_LIST) == "transfer-encoding:chunked,,gzip";
  }

  // ------------------------------------------- an encoding that is no encoding

  const COMMA_LINE := "transfer-encoding:,"
  const FIVE_LINE := "content-length:5"

  function CommaHead(r: ReqV): ReqV {
    var h := HostRead(LineRead(r));
    h.(fields := h.fields[TRANSFER_ENCODING := ","][CONTENT_LENGTH := "5"], parseState := ParseState.Content)
  }

  lemma CommaLinesRead(r: ReqV)
    requires !Dead(r) && TRANSFER_ENCODING !in r.fields && CONTENT_LENGTH !in r.fields
    ensures WithFieldLine(r, COMMA_LINE) == r.(fields := r.fields[TRANSFER_ENCODING := ","])
    ensures var s := r.(fields := r.fields[TRANSFER_ENCODING := ","]);
            WithFieldLine(s, FIVE_LINE) == s.(fields := s.fields[CONTENT_LENGTH := "5"])
  {
    hide FindChar, Span, WithHostField;
    FindCharIs(COMMA_LINE, ':', 0, 17);
    SpanIs(COMMA_LINE, c => c == ' ', 18, 18);
    assert COMMA_LINE[..17] == TRANSFER_ENCODING && Lowercase(TRANSFER_ENCODING) == TRANSFER_ENCODING;
    assert COMMA_LINE[18..] == ",";
    FindCharIs(FIVE_LINE, ':', 0, 14);
    SpanIs(FIVE_LINE, c => c == ' ', 15, 15);
    assert FIVE_LINE[..14] == CONTENT_LENGTH && Lowercase(CONTENT_LENGTH) == CONTENT_LENGTH;
    assert FIVE_LINE[15..] == "5";
  }

  lemma CommaStart()
    ensures Start([COMMA_LINE, FIVE_LINE]) == 79
    ensures forall i :: 0 <= i < |[COMMA_LINE, FIVE_LINE]| ==> IsLine([COMMA_LINE, FIVE_LINE][i])
  {
    var lines := [HOST_LINE] + [COMMA_LINE, FIVE_LINE];
    assert lines[1..] == [COMMA_LINE, FIVE_LINE] && [COMMA_LINE, FIVE_LINE][1..] == [FIVE_LINE] && [FIVE_LINE][1..] == [];
    assert Text([FIVE_LINE]) == FIVE_LINE + "\r\n" + Text([]);
    assert Text([COMMA_LINE, FIVE_LINE]) == COMMA_LINE + "\r\n" + Text([FIVE_LINE]);
    assert Text(lines) == HOST_LINE + "\r\n" + Text([COMMA_LINE, FIVE_LINE]);
  }

  lemma ApplyBoth(r: ReqV, a: string, b: string)
    requires !Dead(r) && !Dead(WithFieldLine(r, a))
    ensures Apply(r, [a, b]) == WithFieldLine(WithFieldLine(r, a), b)
  {
    hide WithFieldLine;
    assert [a, b][1..] == [b];
    ApplyOne(WithFieldLine(r, a), b);
  }

  lemma CommaHeadIsRead(r: ReqV)
    requires IsFresh(r)
    ensures var full := Post([COMMA_LINE, FIVE_LINE], "hello");
            && |full| == 84 && full[79..] == "hello" && HeaderStep(ConnV(0, r), full) == ConnV(79, CommaHead(r))
  {
    hide WithFieldLine, HeaderStep;
    var extra, h := [COMMA_LINE, FIVE_LINE], HostRead(LineRead(r));
    CommaStart();
    RequestParts(extra, "hello");
    CommaLinesRead(h);
    ApplyBoth(h, COMMA_LINE, FIVE_LINE);
    RequestRead(r, extra, "hello");
  }

  lemma CommaIsNoList()
    ensures Lists.Values(Lists.Tokens(",", 0)) == ([], true)
  {
    Lists.TokensNil(",", 0);
  }

  lemma CommaPasses(r: ReqV)
    requires IsFresh(r)
    ensures var p := Checked(CommaHead(r), CONFIG);
            && p == CommaHead(r).(transferEncodings := [], contentEncodings := [],
                                  fields := CommaHead(r).fields[CONTENT_TYPE := DEFAULT_CONTENT_TYPE],
                                  mediaType := Keywords.KeywordVal("application"),
                                  mediaSubtype := Keywords.KeywordVal("json"))
  {
    hide Keywords.KeywordVal, WithContentType, Lists.Values, Lists.Tokens;
    CommaIsNoList();
    DefaultType(CommaHead(r).(transferEncodings := [], contentEncodings := []));
  }

  lemma CommaBody(r: ReqV)
    requires IsFresh(r)
    ensures var p := Checked(CommaHead(r), CONFIG);
            && !p.HasErr() && !p.Faulted()
            && WithBody(p, "hello") == p.(content := "", parseState := Complete)
            && CONTENT_LENGTH in p.fields && p.fields[CONTENT_LENGTH] == "5"
            && TRANSFER_ENCODING in p.fields && p.fields[TRANSFER_ENCODING] == ","
  {
    hide Keywords.KeywordVal, Checked;
    CommaPasses(r);
    assert "hello"[..0] == "";
  }

  lemma CommaHeadIsClosed(r: ReqV)
    requires IsFresh(r)
    ensures !CommaHead(r).Faulted() && !CommaHead(r).IsParsingHeaders() && !CommaHead(r).HasErr()
  {
  }

  /** A request with both fields, the one an empty list, the other 5, and five bytes of
      content: it is routed without them. */
  lemma CommaIsRouted(r: ReqV)
    requires IsFresh(r)
    ensures var full := Post([COMMA_LINE, FIVE_LINE], "hello");
            var (c, v) := Received(ConnV(0, r), full, CONFIG);
            && v == Route && c.req.content == "" && |full| == 84 && full[79..] == "hello"
            && CONTENT_LENGTH in c.req.fields && c.req.fields[CONTENT_LENGTH] == "5"
            && TRANSFER_ENCODING in c.req.fields && c.req.fields[TRANSFER_ENCODING] == ","
  {
    hide HeaderStep, Checked, Post, Text, WithBody, CommaHead;
    CommaHeadIsRead(r);
    CommaBody(r);
    CommaHeadIsClosed(r);
  }
}
