/** Whole runs of parse_headers over an arrival schedule, and reading back the
    field section a response prints. */
module HeadersRuns {
  import opened Strings
  import opened Message
  import opened Headers
  import opened HeadersProof

  /** Longer and longer beginnings of the message. */
  predicate Cuts(full: string, cuts: seq<nat>) {
    && (forall i :: 0 <= i < |cuts| ==> cuts[i] <= |full|)
    && (forall i, j :: 0 <= i < j < |cuts| ==> cuts[i] <= cuts[j])
  }

  /** parse_headers called on each of them with the index it returned before, as
      long as it is still reading headers. */
  function Feed(r: ReqV, full: string, cuts: seq<nat>, idx: nat): (ReqV, nat)
    requires Cuts(full, cuts)
    decreases |cuts|
  {
    if cuts == [] || !r.IsParsingHeaders() || r.Faulted() then (r, idx)
    else
      var (r1, j) := WithHeaders(r, full[..cuts[0]], idx);
      Feed(r1, full, cuts[1..], j)
  }

  /** Some cut falls right behind the blank line of a message that goes on. */
  predicate CutBehindBlank(full: string, cuts: seq<nat>, i: nat) {
    var b := LinesEnd(full, i);
    BlankAt(full, b) && b + 2 < |full| && exists k :: 0 <= k < |cuts| && cuts[k] == b + 2
  }

  lemma {:induction false} FeedOpen(r: ReqV, full: string, cuts: seq<nat>, i: nat)
    requires Cuts(full, cuts) && cuts != [] && cuts[|cuts| - 1] == |full| && Open(r)
    ensures Feed(r, full, cuts, i).0 == FieldLoop(r, full, i, i).0
    ensures !Dead(FieldLoop(r, full, i, i).0) ==>
              (Feed(r, full, cuts, i).1 == FieldLoop(r, full, i, i).1 <==> !CutBehindBlank(full, cuts, i))
    decreases |cuts|
  {
    hide FieldLoop, LinesEnd, BlankAt, WithReqLine, FindCrlf;
    var n := cuts[0];
    var (r1, j) := FieldLoop(r, full[..n], i, i);
    assert full[..|full|] == full;
    LoopMeaning(r, full, n, i);
    if Open(r1) {
      if |cuts| > 1 {
        LoopResumes(r, full, n, i, i);
        FeedOpen(r1, full, cuts[1..], j);
        TailCuts(full, cuts, i);
      }
    } else {
      LoopSettles(r, full, n, i, i);
      assert Feed(r, full, cuts, i) == (r1, j);
      if !Dead(r1) && CutBehindBlank(full, cuts, i) {
        var k :| 0 <= k < |cuts| && cuts[k] == LinesEnd(full, i) + 2;
      }
    }
  }

  lemma TailCuts(full: string, cuts: seq<nat>, i: nat)
    requires |cuts| > 1 && !(BlankAt(full, LinesEnd(full, i)) && cuts[0] == LinesEnd(full, i) + 2)
    ensures CutBehindBlank(full, cuts, i) <==> CutBehindBlank(full, cuts[1..], i)
  {
    hide LinesEnd, BlankAt;
    var b := LinesEnd(full, i);
    if k :| 0 <= k < |cuts| && cuts[k] == b + 2 && BlankAt(full, b) {
      assert cuts[1..][k - 1] == b + 2;
    }
    if k :| 0 <= k < |cuts[1..]| && cuts[1..][k] == b + 2 {
      assert cuts[k + 1] == b + 2;
    }
  }

  /** Open after n bytes: the blank line is not in yet, and the later lines start
      at j. Closed alive: it is. */
  lemma {:induction false} LoopMeaning(r: ReqV, full: string, n: nat, i: nat)
    requires n <= |full| && Open(r)
    ensures var (r1, j) := FieldLoop(r, full[..n], i, i);
            && (r1.parseState == ParseState.Headers || r1.parseState == Content)
            && (Open(r1) ==>
                  && LinesEnd(full, i) == LinesEnd(full, j)
                  && !(BlankAt(full, LinesEnd(full, i)) && n == LinesEnd(full, i) + 2)
                  && (n == |full| ==> !BlankAt(full, LinesEnd(full, i))))
            && (!Open(r1) && !Dead(r1) ==> BlankAt(full, LinesEnd(full, i)) && LinesEnd(full, i) + 2 <= n)
  {
    hide FieldLoop, LinesEnd, FindCrlf, Apply;
    LoopIsApply(r, full[..n], i, i);
    ApplyKeepsState(r, Lines(full[..n], i));
    LinesGrow(full, n, i);
    LinesEndStops(full[..n], i);
    FindCrlfPrefix(full, n, LinesEnd(full[..n], i));
    var e := LinesEnd(full[..n], i);
    assert BlankAt(full, LinesEnd(full, i)) && n == LinesEnd(full, i) + 2 ==> CrlfAt(full[..n], LinesEnd(full, i));
  }

  lemma ReqLineResult(r: ReqV, line: string)
    requires !Dead(r)
    ensures Open(WithReqLine(r, line)) || Dead(WithReqLine(r, line))
  {
    hide WithTarget, WithVersion, FindChar;
  }

  lemma DeadLoop(r: ReqV, raw: string, i: nat, done: nat)
    requires Dead(r)
    ensures FieldLoop(r, raw, i, done) == (r, done)
  {
  }

  /** The index to report on a failure is the only use of `done`. */
  lemma {:induction false} DoneIsForFailure(r: ReqV, raw: string, i: nat, d: nat, d': nat)
    requires Open(r)
    ensures FieldLoop(r, raw, i, d).0 == FieldLoop(r, raw, i, d').0
    ensures !Dead(FieldLoop(r, raw, i, d).0) ==> FieldLoop(r, raw, i, d) == FieldLoop(r, raw, i, d')
  {
    hide FieldLoop, Apply, FindCrlf;
    LoopIsApply(r, raw, i, d);
    LoopIsApply(r, raw, i, d');
  }

  /** The first call is the request line and then the loop. */
  lemma {:induction false} FirstCall(r: ReqV, full: string, cuts: seq<nat>, e: nat)
    requires r.parseState == StartLine && !Dead(r) && Cuts(full, cuts) && cuts != []
    requires FindCrlf(full[..cuts[0]], 0) == Some(e) && Open(WithReqLine(r, full[..cuts[0]][..e]))
    ensures var r0 := WithReqLine(r, full[..cuts[0]][..e]);
            && Feed(r, full, cuts, 0).0 == Feed(r0, full, cuts, e + 2).0
            && (!Dead(Feed(r, full, cuts, 0).0) ==> Feed(r, full, cuts, 0) == Feed(r0, full, cuts, e + 2))
  {
    hide WithReqLine, FieldLoop, FindCrlf;
    var r0, raw := WithReqLine(r, full[..cuts[0]][..e]), full[..cuts[0]];
    DoneIsForFailure(r0, raw, e + 2, 0, e + 2);
    assert Feed(r, full, cuts, 0) == Feed(FieldLoop(r0, raw, e + 2, 0).0, full, cuts[1..], FieldLoop(r0, raw, e + 2, 0).1);
    assert Feed(r0, full, cuts, e + 2) == Feed(FieldLoop(r0, raw, e + 2, e + 2).0, full, cuts[1..], FieldLoop(r0, raw, e + 2, e + 2).1);
  }

  /** Any arrival schedule whose first part holds the request line: the request
      ends up as one call on everything would leave it, and so does the index,
      unless a cut falls right behind the blank line of a message that goes on. */
  lemma {:induction false} HeadersScheduleDoesNotMatter(r: ReqV, full: string, cuts: seq<nat>)
    requires r.parseState == StartLine && !Dead(r)
    requires Cuts(full, cuts) && cuts != [] && cuts[|cuts| - 1] == |full|
    requires FindCrlf(full[..cuts[0]], 0).Some?
    ensures var (one, idx) := WithHeaders(r, full, 0);
            var (fed, fedIdx) := Feed(r, full, cuts, 0);
            && FindCrlf(full, 0).Some? && fed == one
            && (!Dead(one) ==> (fedIdx == idx <==> !CutBehindBlank(full, cuts, FindCrlf(full, 0).value + 2)))
  {
    hide WithReqLine, FieldLoop, FindCrlf, LinesEnd, BlankAt, Feed, Cuts, CutBehindBlank;
    var n := cuts[0];
    CutsBound(full, cuts);
    FindCrlfPrefix(full, n, 0);
    var e := FindCrlf(full, 0).value;
    assert full[..n][..e] == full[..e];
    var r0 := WithReqLine(r, full[..e]);
    ReqLineResult(r, full[..e]);
    if Dead(r0) {
      DeadLoop(r0, full[..n], e + 2, 0);
      DeadLoop(r0, full, e + 2, 0);
      FeedDead(r, full, cuts, r0);
    } else {
      FirstCall(r, full, cuts, e);
      FeedOpen(r0, full, cuts, e + 2);
      DoneIsForFailure(r0, full, e + 2, 0, e + 2);
    }
  }

  lemma CutsBound(full: string, cuts: seq<nat>)
    requires Cuts(full, cuts) && cuts != []
    ensures cuts[0] <= |full|
  {
  }

  lemma FeedDead(r: ReqV, full: string, cuts: seq<nat>, r0: ReqV)
    requires Cuts(full, cuts) && cuts != [] && r.parseState == StartLine && !Dead(r) && Dead(r0)
    requires WithHeaders(r, full[..cuts[0]], 0) == (r0, 0)
    ensures Feed(r, full, cuts, 0) == (r0, 0)
  {
    hide WithHeaders;
  }
}
