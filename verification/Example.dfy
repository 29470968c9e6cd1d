/** Requests from end to end: the premises of the theorem about arrivals can be met,
    and a cut right behind the blank line changes what is routed. */
module Example {
  import opened Strings
  import opened Message
  import opened Uri
  import opened Headers
  import opened Content
  import opened Receive
  import opened HeadersProof
  import opened Arrivals
  import opened Decoding
  import opened BlankRuns
  import opened Cuts
  import opened Response
  import opened Lists
  import Addressed
  import Keywords
  import UriProof

  const REQUEST_LINE := "POST / HTTP/1.1"
  const HOST_VALUE := "localhost:9000"
  const HOST_LINE := "host:" + HOST_VALUE
  const LENGTH_LINE := "content-length:1"

  /** Lines, each with its end. */
  function Text(lines: seq<string>): string {
    if lines == [] then "" else lines[0] + "\r\n" + Text(lines[1..])
  }

  /** A POST to the server below, with further field lines and a body. */
  function Post(extra: seq<string>, body: string): string {
    REQUEST_LINE + "\r\n" + Text([HOST_LINE] + extra) + "\r\n" + body
  }

  /** Where its body starts. */
  function Start(extra: seq<string>): nat {
    |REQUEST_LINE| + 2 + |Text([HOST_LINE] + extra)| + 2
  }

  const REQUEST := REQUEST_LINE + "\r\n" + HOST_LINE + "\r\n" + LENGTH_LINE + "\r\n" + "\r\n" + "X"

  const CONFIG := Config(9000, "127.0.0.1", "localhost", "http")

  function LineRead(r: ReqV): ReqV {
    r.(method_ := 2, targetForm := Origin, uri := r.uri.(path := "/"), major := 1, minor := 1, parseState := ParseState.Headers)
  }

  lemma Methods()
    ensures Keywords.KeywordVal("POST") == 2
    ensures Keywords.KeywordVal("application") != 0 && Keywords.KeywordVal("json") != 0
  {
    hide Keywords.KeywordVal;
    Keywords.ProbeHits("POST", 4);
    Keywords.ProbeHits("application", 11);
    Keywords.ProbeHits("json", 34);
  }

  lemma OneIsOne()
    ensures Stoi("1") == Some(1)
  {
    assert "1"[..0] == "";
    StoiDigits("1");
  }

  lemma VersionRead(r: ReqV)
    ensures WithVersion(r, "HTTP/1.1") == r.(major := 1, minor := 1)
  {
    hide Stoi;
    OneIsOne();
    assert "HTTP/1.1"[5..6] == "1" && "HTTP/1.1"[7..8] == "1";
  }

  lemma TargetRead(r: ReqV)
    requires IsFresh(r)
    ensures WithTarget(r, "/") == r.(targetForm := Origin, uri := r.uri.(path := "/"))
  {
    hide Parsed;
    assert "/" + "" == "/";
    UriProof.OriginRecovered(r.uri, "/", "");
  }

  lemma RequestLineRead(r: ReqV)
    requires IsFresh(r)
    ensures WithReqLine(r, REQUEST_LINE) == LineRead(r)
  {
    hide WithTarget, WithVersion, Keywords.KeywordVal, FindChar;
    var line := REQUEST_LINE;
    FindCharIs(line, ' ', 0, 4);
    FindCharIs(line, ' ', 5, 6);
    assert line[..4] == "POST" && line[5..6] == "/" && line[7..] == "HTTP/1.1";
    Methods();
    TargetRead(r.(method_ := 2));
    VersionRead(r.(method_ := 2, targetForm := Origin, uri := r.uri.(path := "/")));
  }

  function HostStored(u: UriV): UriV {
    u.(ipv4 := "localhost", regName := "localhost", port := 9000)
  }

  function HostRead(r: ReqV): ReqV {
    r.(fields := r.fields[HOST := HOST_VALUE], uri := HostStored(r.uri.(scheme := "")))
  }

  lemma PortDigits()
    ensures All("9000", IsDigit) && DecVal("9000") == 9000
  {
    assert "9000"[..3] == "900" && "900"[..2] == "90" && "90"[..1] == "9" && "9"[..0] == "";
    assert DecVal("9") == 9;
    assert DecVal("90") == 90;
    assert DecVal("900") == 900;
  }

  lemma AuthorityRead(u: UriV)
    requires !u.hasErr && u.fault == NoFault
    ensures WithAuthority(u, HOST_VALUE) == HostStored(u)
  {
    hide WithAuthority, DecVal;
    PortDigits();
    var h, port := UriProof.RegName("localhost"), Some("9000");
    assert UriProof.PrintAuthority(None, h, port) == HOST_VALUE;
    UriProof.AuthorityRecovered(u, None, h, port);
  }

  lemma NoMarks()
    ensures FindPair(HOST_VALUE, '/', '/', 0) == None && FindChar(HOST_VALUE, '/', 0) == None
    ensures FindChar(HOST_VALUE, '?', 0) == None && FindSchemeMark(HOST_VALUE, 0) == None
  {
    hide FindPair, FindChar, FindSchemeMark;
    FindCharNot(HOST_VALUE, '/', 0);
    FindCharNot(HOST_VALUE, '?', 0);
  }

  lemma HostParsed(u: UriV)
    requires !u.hasErr && u.fault == NoFault
    ensures Parsed(u, HOST_VALUE, HOST_FLAGS) == HostStored(u.(scheme := ""))
  {
    hide WithAuthority, WithScheme, FindPair, FindChar, FindSchemeMark, HostStored;
    NoMarks();
    assert HOST_VALUE[0..|HOST_VALUE|] == HOST_VALUE;
    AuthorityRead(u.(scheme := ""));
  }

  lemma HostLineRead(r: ReqV)
    requires r.targetForm == Origin && !Dead(r) && !r.uri.hasErr && HOST !in r.fields
    ensures WithFieldLine(r, HOST_LINE) == HostRead(r)
  {
    hide Parsed, FindChar, Span;
    FindCharIs(HOST_LINE, ':', 0, 4);
    SpanIs(HOST_LINE, c => c == ' ', 5, 5);
    assert HOST_LINE[..4] == "host" && Lowercase("host") == HOST && HOST_LINE[5..] == HOST_VALUE;
    HostParsed(r.uri);
  }

  function LengthHeld(r: ReqV): ReqV {
    r.(fields := r.fields[CONTENT_LENGTH := "1"])
  }

  lemma LengthLineRead(r: ReqV)
    requires !Dead(r) && CONTENT_LENGTH !in r.fields
    ensures WithFieldLine(r, LENGTH_LINE) == LengthHeld(r)
  {
    hide FindChar, Span, WithHostField;
    FindCharIs(LENGTH_LINE, ':', 0, 14);
    SpanIs(LENGTH_LINE, c => c == ' ', 15, 15);
    assert LENGTH_LINE[..14] == CONTENT_LENGTH && Lowercase(CONTENT_LENGTH) == CONTENT_LENGTH;
    assert LENGTH_LINE[15..] == "1";
  }

  predicate IsLine(line: string) {
    line != "" && '\r' !in line
  }

  lemma {:induction false} LinesOfText(pre: string, lines: seq<string>, body: string)
    requires forall i :: 0 <= i < |lines| ==> IsLine(lines[i])
    ensures var s := pre + Text(lines) + "\r\n" + body;
            var e := |pre| + |Text(lines)|;
            Lines(s, |pre|) == lines && LinesEnd(s, |pre|) == e && BlankAt(s, e)
    decreases |lines|
  {
    hide FindCrlf;
    var s := pre + Text(lines) + "\r\n" + body;
    if lines == [] {
      FirstLine(pre, "", body);
      assert s == pre + "" + "\r\n" + body;
    } else {
      var line, rest := lines[0], Text(lines[1..]);
      var pre' := pre + line + "\r\n";
      FirstLine(pre, line, rest + "\r\n" + body);
      assert s == pre + line + "\r\n" + (rest + "\r\n" + body);
      assert s == pre' + rest + "\r\n" + body;
      LinesOfText(pre', lines[1..], body);
      assert IsLine(line) && [line] + lines[1..] == lines;
    }
  }

  /** Where the parts of the request lie. */
  lemma RequestParts(extra: seq<string>, body: string)
    requires forall i :: 0 <= i < |extra| ==> IsLine(extra[i])
    ensures var s := Post(extra, body);
            && FindCrlf(s, 0) == Some(15) && s[..15] == REQUEST_LINE
            && |s| == Start(extra) + |body| && s[Start(extra)..] == body
            && Lines(s, 17) == [HOST_LINE] + extra && LinesEnd(s, 17) == Start(extra) - 2 && BlankAt(s, Start(extra) - 2)
            && BodyStart(s) == Start(extra)
  {
    hide FindCrlf, Lines, LinesEnd, BlankAt;
    var s, lines, pre := Post(extra, body), [HOST_LINE] + extra, REQUEST_LINE + "\r\n";
    FirstLine("", REQUEST_LINE, Text(lines) + "\r\n" + body);
    assert s == "" + REQUEST_LINE + "\r\n" + (Text(lines) + "\r\n" + body);
    assert IsLine(HOST_LINE);
    LinesOfText(pre, lines, body);
  }

  /** What the header phase makes of the request: the line, the host, the rest. */
  lemma RequestRead(r: ReqV, extra: seq<string>, body: string)
    requires IsFresh(r) && (forall i :: 0 <= i < |extra| ==> IsLine(extra[i])) && body != ""
    requires |Post(extra, body)| < U32 && !Dead(Apply(HostRead(LineRead(r)), extra))
    ensures HeaderStep(ConnV(0, r), Post(extra, body)) ==
            ConnV(Start(extra), Apply(HostRead(LineRead(r)), extra).(parseState := ParseState.Content))
  {
    hide FindCrlf, FieldLoop, Lines, LinesEnd, BlankAt, WithReqLine, WithFieldLine, Text;
    var s := Post(extra, body);
    RequestParts(extra, body);
    RequestLineRead(r);
    HostLineRead(LineRead(r));
    LoopIsApply(LineRead(r), s, 17, 0);
    assert ([HOST_LINE] + extra)[1..] == extra;
  }

  lemma ApplyOne(r: ReqV, line: string)
    requires !Dead(r)
    ensures Apply(r, [line]) == WithFieldLine(r, line)
  {
    hide WithFieldLine;
    assert [line][1..] == [];
  }

  // --------------------------------------------------- a body of known length

  lemma RequestLines()
    ensures FindCrlf(REQUEST, 0) == Some(15) && |REQUEST| == 59 && BodyStart(REQUEST) == 58 && REQUEST[58..] == "X"
    ensures forall i :: 0 <= i < |[LENGTH_LINE]| ==> IsLine([LENGTH_LINE][i])
    ensures Start([LENGTH_LINE]) == 58 && REQUEST == Post([LENGTH_LINE], "X")
  {
    hide FindCrlf, Lines, LinesEnd, BlankAt;
    var lines := [HOST_LINE] + [LENGTH_LINE];
    assert lines[1..] == [LENGTH_LINE] && lines[1..][1..] == [];
    assert Text([LENGTH_LINE]) == LENGTH_LINE + "\r\n" + Text([]);
    assert Text(lines) == HOST_LINE + "\r\n" + Text([LENGTH_LINE]);
    assert REQUEST == Post([LENGTH_LINE], "X");
    RequestParts([LENGTH_LINE], "X");
  }

  function HeadersRead(r: ReqV): ReqV {
    LengthHeld(HostRead(LineRead(r))).(parseState := ParseState.Content)
  }

  lemma HeadersAreRead(r: ReqV)
    requires IsFresh(r)
    ensures HeaderStep(ConnV(0, r), REQUEST) == ConnV(58, HeadersRead(r))
  {
    hide WithFieldLine, HeaderStep;
    RequestLines();
    LengthLineRead(HostRead(LineRead(r)));
    ApplyOne(HostRead(LineRead(r)), LENGTH_LINE);
    RequestRead(r, [LENGTH_LINE], "X");
  }

  function ChecksPassed(r: ReqV): ReqV {
    r.(transferEncodings := [], contentEncodings := [], contentLen := 1,
       fields := r.fields[CONTENT_TYPE := DEFAULT_CONTENT_TYPE],
       mediaType := Keywords.KeywordVal("application"), mediaSubtype := Keywords.KeywordVal("json"))
  }

  lemma DefaultType(r: ReqV)
    requires CONTENT_TYPE !in r.fields
    ensures WithContentType(r) == r.(fields := r.fields[CONTENT_TYPE := DEFAULT_CONTENT_TYPE],
                                     mediaType := Keywords.KeywordVal("application"),
                                     mediaSubtype := Keywords.KeywordVal("json"))
  {
    hide Keywords.KeywordVal, FindChar;
    Methods();
    var ct := DEFAULT_CONTENT_TYPE;
    FindCharIs(ct, '/', 0, 11);
    FindCharNot(ct, ';', 11);
    assert ct[..11] == "application" && ct[12..] == "json";
  }

  lemma LengthIsOne(r: ReqV)
    requires CONTENT_LENGTH in r.fields && r.fields[CONTENT_LENGTH] == "1" && TRANSFER_ENCODING !in r.fields
    ensures WithContentLen(r) == r.(contentLen := 1)
  {
    hide Stoi;
    OneIsOne();
  }

  lemma ChecksPass(r: ReqV)
    requires IsFresh(r)
    ensures Checked(HeadersRead(r), CONFIG) == ChecksPassed(HeadersRead(r))
  {
    hide Keywords.KeywordVal, WithContentLen, WithContentType, Values, Tokens;
    var h := HeadersRead(r);
    var r1 := h.(transferEncodings := [], contentEncodings := []);
    LengthIsOne(r1);
    DefaultType(r1.(contentLen := 1));
  }

  function Answered(r: ReqV): ConnV {
    ConnV(58, ChecksPassed(HeadersRead(r)).(content := "X", parseState := Complete))
  }

  /** The request arriving whole is routed with the content X. */
  lemma RequestIsRouted(r: ReqV)
    requires IsFresh(r)
    ensures Received(ConnV(0, r), REQUEST, CONFIG) == (Answered(r), Route)
  {
    hide HeaderStep, Checked, FindCrlf, Lines, LinesEnd;
    RequestLines();
    HeadersAreRead(r);
    ChecksPass(r);
    assert "X"[..1] == "X";
  }

  /** So the theorem about arrivals speaks about it. */
  lemma RequestIsGoal(r: ReqV)
    requires IsFresh(r)
    ensures var g := GoalOf(r, REQUEST, [], CONFIG);
            GoalOk(g) && g.b == 58 && g.h == HeadersRead(r) && g.end == Answered(r)
  {
    hide HeaderStep, Checked, FindCrlf, Lines, LinesEnd, Received, BlankAt;
    RequestLines();
    RequestIsRouted(r);
    HeadersAreRead(r);
    ChecksPass(r);
  }

  /** Any arrivals of it route the same request, from the same index, as long as the
      request line comes first and no arrival but the last ends at byte 58; no others
      do. */
  lemma RequestInPieces(r: ReqV, cuts: seq<nat>)
    requires IsFresh(r) && Arrivals.Arrivals(REQUEST, cuts) && forall i :: 0 <= i < |cuts| ==> cuts[i] <= |REQUEST|
    ensures var f := Arrivals.Feed(ConnV(0, r), REQUEST, cuts, CONFIG);
            var fair := cuts[0] >= 17 && forall i :: 0 <= i < |cuts| - 1 ==> cuts[i] != 58;
            (SameOutcome(f, Answered(r)) <==> fair) && (SameState(f, Answered(r)) <==> fair)
  {
    hide Received, HeaderStep, Checked, Arrivals.Feed, FindCrlf, GoalOf, GoalOk, Lines, LinesEnd, SameOutcome, Spared, BodyStart;
    var g := GoalOf(r, REQUEST, [], CONFIG);
    RequestLines();
    RequestIsRouted(r);
    RequestIsGoal(r);
    UnspacedMattersExactlyWhen(r, REQUEST, cuts, [], CONFIG);
    LineIsIn(cuts[0]);
    NotChunked(r);
    NeverSpared(g, cuts);
    SegmentationMattersExactlyWhen(r, REQUEST, cuts, [], CONFIG);
  }

  lemma NotChunked(r: ReqV)
    requires IsFresh(r)
    ensures var g := GoalOf(r, REQUEST, [], CONFIG);
            GoalOk(g) && (forall n :: !TearsHeader(g, n)) && forall cs :: !BlankSpared(g, cs)
  {
    hide Received, HeaderStep, Checked, GoalOf, FindCrlf, BodyStart;
    RequestLines();
    RequestIsGoal(r);
    ChecksPass(r);
    GoalIs(r, REQUEST, [], CONFIG);
    assert "X"[0] != '\r';
  }

  lemma LineIsIn(n: nat)
    requires n <= |REQUEST|
    ensures FindCrlf(REQUEST[..n], 0).Some? <==> n >= 17
  {
    hide FindCrlf;
    RequestLines();
    FindCrlfPrefix(REQUEST, n, 0);
    if n >= 17 {
      assert CrlfAt(REQUEST[..n], 15);
    }
  }

  /** An arrival that ends there routes a request whose content is a carriage return,
      before its one byte of content has come. */
  lemma RoutedTooEarly(r: ReqV)
    requires IsFresh(r)
    ensures var (c, v) := Received(ConnV(0, r), REQUEST[..58], CONFIG); v == Route && c.req.content == "\r"
  {
    hide Received, HeaderStep, Checked, FindCrlf, GoalOf, GoalOk, Lines, LinesEnd;
    RequestLines();
    RequestIsRouted(r);
    RequestIsGoal(r);
    ChecksPass(r);
    GoalIs(r, REQUEST, [], CONFIG);
    BlankCutShiftsFresh(r, REQUEST, [], CONFIG);
    assert "\r\n"[..1] == "\r";
  }

  /** Sent to a server with another port or other names, it is misdirected. */
  lemma RequestElsewhere(r: ReqV, config: Config)
    requires IsFresh(r)
    ensures var (c, v) := Received(ConnV(0, r), REQUEST, config);
            v == Reject && c.req.err == MisdirectedRequest <==>
              config.listeningPort != 9000 || (config.listeningIp != "localhost" && config.listeningRegName != "localhost")
  {
    hide Received, HeaderStep, UriProof.PrintAuthority, DecVal, Addressed.HeadersIn, HeadersRead, Post, Text, Start;
    var h, port := UriProof.RegName("localhost"), Some("9000");
    HeadersAreIn(r);
    PortDigits();
    HostIsPrinted();
    assert REQUEST[..|REQUEST|] == REQUEST;
    Addressed.MisdirectedExactlyWhen(r, REQUEST, [], |REQUEST|, config, None, h, port);
  }

  lemma HeadersAreIn(r: ReqV)
    requires IsFresh(r)
    ensures Addressed.HeadersIn(ConnV(0, r), REQUEST)
    ensures var h := HeaderStep(ConnV(0, r), REQUEST).req;
            h.targetForm == Origin && HOST in h.fields && h.fields[HOST] == HOST_VALUE
  {
    hide HeaderStep;
    HeadersAreRead(r);
    RequestLines();
  }

  lemma HostIsPrinted()
    ensures UriProof.PrintAuthority(None, UriProof.RegName("localhost"), Some("9000")) == HOST_VALUE
  {
  }
}
