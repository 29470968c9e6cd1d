/** What the request line must say for the request to go on, on its text. */
module RequestLines {
  import opened Strings
  import opened Keywords
  import opened Uri
  import opened UriProof
  import opened UriRefusals
  import opened Message
  import opened Headers
  import opened HeadersProof
  import opened Receive

  predicate IsSupported(v: string) {
    |v| == 8 && v[5] == '1' && v[7] == '1'
  }

  /** stoi throws on the places of the numbers. */
  predicate Unreadable(v: string) {
    |v| == 8 && !(IsDigit(v[5]) && IsDigit(v[7]))
  }

  lemma StoiOfOne(c: char)
    ensures Stoi([c]) == if IsDigit(c) then Some(c as int - '0' as int) else None
  {
    var s := [c];
    if IsDigit(c) {
      assert s[..0] == "";
      StoiDigits(s);
    } else {
      SpanIs(s, IsSpace, 0, if IsSpace(c) then 1 else 0);
      SpanIs(s, IsDigit, 1, 1);
      SpanIs(s, IsDigit, 0, 0);
    }
  }

  /** A version is accepted exactly if it has 8 characters, the sixth and the eighth
      of which are 1; one of another length, or with other digits there, is an error. */
  lemma VersionTaken(r: ReqV, v: string)
    requires !Dead(r)
    ensures var s := WithVersion(r, v);
            if Unreadable(v) then s.fault == Throws
            else s == r.(major := s.major, minor := s.minor, err := if IsSupported(v) then NoErr else BadRequest)
    ensures |v| == 8 && !Unreadable(v) ==>
              var s := WithVersion(r, v);
              s.major == v[5] as int - '0' as int && s.minor == v[7] as int - '0' as int
  {
    hide Stoi;
    if |v| == 8 {
      assert v[5..6] == [v[5]] && v[7..8] == [v[7]];
      StoiOfOne(v[5]);
      StoiOfOne(v[7]);
    }
  }

  /** line is a method, a target and a version, with a space behind each of the first
      two. */
  predicate IsCut(line: string, m: string, t: string, v: string) {
    line == m + " " + t + " " + v && ' ' !in m && ' ' !in t
  }

  lemma CutMarks(line: string, m: string, t: string, v: string)
    requires IsCut(line, m, t, v)
    ensures var i, j := |m|, |m| + 1 + |t|;
            && FindChar(line, ' ', 0) == Some(i) && FindChar(line, ' ', i + 1) == Some(j) && j < |line|
            && line[..i] == m && line[i + 1..j] == t && line[j + 1..] == v
  {
    hide FindChar;
    var i, j := |m|, |m| + 1 + |t|;
    assert forall k :: 0 <= k < i ==> line[k] == m[k];
    assert forall k :: i < k < j ==> line[k] == t[k - i - 1];
    assert line[i] == ' ' && line[j] == ' ';
    FindCharIs(line, ' ', 0, i);
    FindCharIs(line, ' ', i + 1, j);
  }

  /** The request line as its parts. */
  lemma CutRead(r: ReqV, line: string, m: string, t: string, v: string)
    requires IsCut(line, m, t, v)
    ensures var r1 := r.(method_ := KeywordVal(m));
            var r2 := WithTarget(r1, t);
            var r3 := WithVersion(r2, v);
            WithReqLine(r, line) ==
              if KeywordVal(m) == 0 then r1.(err := NotImplemented)
              else if r2.Faulted() then r2
              else if v == "" then r2.(err := BadRequest)
              else if r3.Faulted() then r3 else r3.(parseState := ParseState.Headers)
  {
    hide FindChar, KeywordVal, WithTarget, WithVersion;
    CutMarks(line, m, t, v);
  }

  /** A target in origin form goes on, or is a bad request. */
  lemma TargetTaken(r: ReqV, t: string)
    requires IsOriginTarget(t) && !Dead(r) && !r.uri.hasErr
    ensures var s := WithTarget(r, t);
            && s == r.(targetForm := Origin, uri := s.uri, err := if IsTaken(t) then NoErr else BadRequest)
            && s.uri == Parsed(r.uri, t, ORIGIN_FLAGS) && s.uri.fault == NoFault && s.uri.hasErr == !IsTaken(t)
  {
    hide Parsed, IsTaken, NoDoubleSlash;
    OriginTaken(r.uri, t);
  }

  lemma VersionMore(r: ReqV, v: string)
    ensures var s := WithVersion(r, v);
            s.Faulted() || (s == r.(major := s.major, minor := s.minor, err := s.err) && (s.err == r.err || s.err == BadRequest))
  {
    hide Stoi;
  }

  /** For a known method and a target in origin form without "//": the line is accepted
      exactly if the target and the version are, and else a bad request, unless stoi
      throws. */
  lemma LineTaken(r: ReqV, line: string, m: string, t: string, v: string)
    requires IsFresh(r) && IsCut(line, m, t, v) && KeywordVal(m) != 0 && IsOriginTarget(t)
    ensures var s := WithReqLine(r, line);
            if Unreadable(v) then s.Faulted()
            else
              && !s.Faulted() && s.err == (if IsTaken(t) && IsSupported(v) then NoErr else BadRequest)
              && (IsTaken(t) && IsSupported(v) ==>
                    && s.parseState == ParseState.Headers && s.method_ == KeywordVal(m) && s.targetForm == Origin
                    && s.fields == map[] && s.uri == Parsed(r.uri, t, ORIGIN_FLAGS) && !s.uri.hasErr
                    && s.major == 1 && s.minor == 1)
  {
    hide FindChar, KeywordVal, WithTarget, WithVersion, IsOriginTarget, IsTaken, Parsed, IsCut;
    CutRead(r, line, m, t, v);
    var r1 := r.(method_ := KeywordVal(m));
    TargetTaken(r1, t);
    var r2 := WithTarget(r1, t);
    VersionMore(r2, v);
    VersionTaken(r2.(err := NoErr), v);
    VersionErr(r2, v);
  }

  /** An error in front of the version stays. */
  lemma VersionErr(r: ReqV, v: string)
    ensures var s, q := WithVersion(r, v), WithVersion(r.(err := NoErr), v);
            s == q.(err := if q.err == NoErr then r.err else q.err)
  {
    hide Stoi;
  }

  /** The same for a target that starts with an asterisk: it must be nothing else. */
  lemma StarTaken(r: ReqV, line: string, m: string, t: string, v: string)
    requires IsFresh(r) && IsCut(line, m, t, v) && KeywordVal(m) != 0 && t != "" && t[0] == '*' && !Unreadable(v)
    ensures var s := WithReqLine(r, line);
            && !s.Faulted() && s.err == (if t == "*" && IsSupported(v) then NoErr else BadRequest)
            && s.targetForm == Asterik && s.uri == r.uri.(asterik := t == "*")
  {
    hide FindChar, KeywordVal, WithVersion, IsCut;
    CutRead(r, line, m, t, v);
    var r2 := WithTarget(r.(method_ := KeywordVal(m)), t);
    VersionMore(r2, v);
    VersionTaken(r2.(err := NoErr), v);
    VersionErr(r2, v);
  }

  /** And an empty one throws. */
  lemma EmptyTargetThrows(r: ReqV, line: string, m: string, v: string)
    requires IsCut(line, m, "", v) && KeywordVal(m) != 0
    ensures WithReqLine(r, line).fault == Throws
  {
    hide KeywordVal, WithVersion, IsCut;
    CutRead(r, line, m, "", v);
  }

  /** The request line: the text in front of the first line end. */
  function LineOf(raw: string): string {
    match FindCrlf(raw, 0) case Some(e) => raw[..e] case None => ""
  }

  /** So a call on it answers with a bad request. */
  lemma LineRefused(r: ReqV, raw: string, config: Config, m: string, t: string, v: string)
    requires IsFresh(r) && FindCrlf(raw, 0).Some? && IsCut(LineOf(raw), m, t, v)
    requires KeywordVal(m) != 0 && IsOriginTarget(t)
    ensures var (c, verdict) := Received(ConnV(0, r), raw, config);
            if Unreadable(v) then verdict == Crash
            else !(IsTaken(t) && IsSupported(v)) ==> verdict == Reject && c.req.err == BadRequest
  {
    hide FindCrlf, FindChar, KeywordVal, WithReqLine, IsOriginTarget, IsTaken, Parsed, IsCut, ContentStep, IsSupported, Unreadable;
    var e := FindCrlf(raw, 0).value;
    LineTaken(r, raw[..e], m, t, v);
    if Dead(WithReqLine(r, raw[..e])) {
      DeadLine(r, raw, e, config);
    }
  }

  lemma DeadLine(r: ReqV, raw: string, e: nat, config: Config)
    requires IsFresh(r) && FindCrlf(raw, 0) == Some(e) && Dead(WithReqLine(r, raw[..e]))
    ensures var s := WithReqLine(r, raw[..e]);
            Received(ConnV(0, r), raw, config) == (ConnV(0, s), if s.Faulted() then Crash else Reject)
  {
    hide FindCrlf, WithReqLine, ContentStep, FieldLoop;
    var s := WithReqLine(r, raw[..e]);
    FieldLoopTurn(s, raw, e + 2, 0);
  }

  /** A method that is none of the words is answered as not implemented, whatever
      stands behind it. */
  lemma MethodRefused(r: ReqV, raw: string, config: Config, m: string, rest: string)
    requires IsFresh(r) && FindCrlf(raw, 0).Some? && LineOf(raw) == m + " " + rest && ' ' !in m && KeywordVal(m) == 0
    ensures var (c, verdict) := Received(ConnV(0, r), raw, config); verdict == Reject && c.req.err == NotImplemented
  {
    hide FindCrlf, FindChar, KeywordVal, WithTarget, WithVersion, ContentStep;
    var e, line := FindCrlf(raw, 0).value, LineOf(raw);
    assert forall k :: 0 <= k < |m| ==> line[k] == m[k];
    FindCharIs(line, ' ', 0, |m|);
    assert line[..|m|] == m;
    DeadLine(r, raw, e, config);
  }

  // ------------------------------------------------------------ what goes on

  /** A line that goes on has the three parts, a known method and the version; and a
      target in origin form without "//" is accepted. */
  ghost predicate GoodLine(line: string) {
    exists m, t, v :: GoodCut(line, m, t, v)
  }

  predicate GoodCut(line: string, m: string, t: string, v: string) {
    IsCut(line, m, t, v) && KeywordVal(m) != 0 && IsSupported(v) && (IsOriginTarget(t) ==> IsTaken(t))
  }

  lemma CutFound(line: string, i: nat, j: nat)
    requires FindChar(line, ' ', 0) == Some(i) && FindChar(line, ' ', i + 1) == Some(j)
    ensures IsCut(line, line[..i], line[i + 1..j], line[j + 1..])
  {
  }

  lemma LineIsGood(r: ReqV, line: string)
    requires IsFresh(r) && !Dead(WithReqLine(r, line))
    ensures GoodLine(line)
  {
    hide FindChar, KeywordVal, WithTarget, WithVersion, IsOriginTarget, IsTaken, IsCut, IsSupported;
    var i := FindChar(line, ' ', 0).value;
    var j := FindChar(line, ' ', i + 1).value;
    var m, t, v := line[..i], line[i + 1..j], line[j + 1..];
    CutFound(line, i, j);
    CutRead(r, line, m, t, v);
    var r2 := WithTarget(r.(method_ := KeywordVal(m)), t);
    VersionMore(r2, v);
    NoErrBefore(r2, v);
    VersionTaken(r2, v);
    if IsOriginTarget(t) {
      LineTaken(r, line, m, t, v);
    }
    assert GoodCut(line, m, t, v);
  }

  lemma NoErrBefore(r: ReqV, v: string)
    requires !Dead(WithVersion(r, v))
    ensures !Dead(r)
  {
    hide Stoi;
  }

  /** Whatever a first call does not refuse has such a line. */
  lemma FirstCallLine(r: ReqV, raw: string, config: Config)
    requires IsFresh(r)
    requires var v := Received(ConnV(0, r), raw, config).1; v == NeedMore || v == Route
    ensures FindCrlf(raw, 0).Some? && !Dead(WithReqLine(r, LineOf(raw))) && GoodLine(LineOf(raw))
  {
    hide FindCrlf, WithReqLine, ContentStep, FieldLoop, GoodLine;
    if FindCrlf(raw, 0).Some? {
      var e := FindCrlf(raw, 0).value;
      if Dead(WithReqLine(r, raw[..e])) {
        DeadLine(r, raw, e, config);
      }
      LineIsGood(r, raw[..e]);
    }
  }

  /** Where the body is read from: behind the blank line, but counted in 32 bits, so that
      a section of 4 GiB or more leaves the index short of it. */
  lemma IndexWraps(r: ReqV, raw: string, e: nat)
    requires IsFresh(r) && FindCrlf(raw, 0) == Some(e) && Open(WithReqLine(r, raw[..e]))
    requires var end := LinesEnd(raw, e + 2);
             && BlankAt(raw, end) && end + 2 < |raw|
             && !Dead(Apply(WithReqLine(r, raw[..e]), Lines(raw, e + 2)))
    ensures var b, j := LinesEnd(raw, e + 2) + 2, HeaderStep(ConnV(0, r), raw).parsedTo;
            (b < U32 ==> j == b) && (U32 <= b < 2 * U32 ==> j == b - U32)
  {
    hide FindCrlf, WithReqLine, FieldLoop, Lines, LinesEnd, BlankAt, Apply;
    LoopIsApply(WithReqLine(r, raw[..e]), raw, e + 2, 0);
  }
}
