/** Reading the header section from a growing buffer gives what one call on the
    last buffer would, each field line read once. */
module HeadersProof {
  import opened Strings
  import opened Message
  import opened Headers

  /** More header bytes may still be read. */
  predicate Open(r: ReqV) {
    r.parseState == ParseState.Headers && !r.HasErr() && !r.Faulted()
  }

  /** The parse was ended by an error or a fault; then the index means nothing. */
  predicate Dead(r: ReqV) {
    r.HasErr() || r.Faulted()
  }

  // ---------------------------------------------- the lines, independently

  /** The complete non-empty lines from i on, up to the blank line if there is one. */
  function Lines(raw: string, i: nat): seq<string>
    decreases |raw| - i
  {
    match FindCrlf(raw, i)
    case None => []
    case Some(e) => if e == i then [] else [raw[i..e]] + Lines(raw, e + 2)
  }

  /** Where those lines end: at the blank line, or at the first unfinished one. */
  function LinesEnd(raw: string, i: nat): (e: nat)
    ensures i <= e
    decreases |raw| - i
  {
    match FindCrlf(raw, i)
    case None => i
    case Some(e) => if e == i then i else LinesEnd(raw, e + 2)
  }

  predicate BlankAt(raw: string, i: nat) { CrlfAt(raw, i) }

  /** The lines applied in order, each once, until one of them ends the parse. */
  function Apply(r: ReqV, lines: seq<string>): ReqV
    decreases |lines|
  {
    if lines == [] || Dead(r) then r else Apply(WithFieldLine(r, lines[0]), lines[1..])
  }

  lemma {:induction false} ApplyKeepsState(r: ReqV, lines: seq<string>)
    ensures Apply(r, lines).parseState == r.parseState
    decreases |lines|
  {
    hide WithFieldLine;
    if lines != [] && !Dead(r) {
      FieldLineKeepsState(r, lines[0]);
      ApplyKeepsState(WithFieldLine(r, lines[0]), lines[1..]);
    }
  }

  lemma {:induction false} LinesEndStops(raw: string, i: nat)
    ensures FindCrlf(raw, LinesEnd(raw, i)).None? || BlankAt(raw, LinesEnd(raw, i))
    decreases |raw| - i
  {
    hide FindCrlf;
    if FindCrlf(raw, i).Some? && FindCrlf(raw, i).value != i {
      LinesEndStops(raw, FindCrlf(raw, i).value + 2);
    }
  }

  /** The loop is the lines applied in order: it stays open exactly while no blank
      line has arrived, and then reports where the first unfinished line starts. */
  lemma {:induction false} LoopIsApply(r: ReqV, raw: string, i: nat, done: nat)
    requires r.parseState == ParseState.Headers
    ensures var r1, e := Apply(r, Lines(raw, i)), LinesEnd(raw, i);
            FieldLoop(r, raw, i, done)
            == if Dead(r1) then (r1, done)
               else if BlankAt(raw, e) then (r1.(parseState := Content), if e + 2 < |raw| then e + 2 else e)
               else (r1, e)
    decreases |raw| - i
  {
    hide WithFieldLine, FindCrlf;
    if !Dead(r) && FindCrlf(raw, i).Some? && FindCrlf(raw, i).value != i {
      var e := FindCrlf(raw, i).value;
      FieldLineKeepsState(r, raw[i..e]);
      LoopIsApply(WithFieldLine(r, raw[i..e]), raw, e + 2, done);
    }
  }

  // ------------------------------------------------- growing the buffer

  /** What is complete in the first n bytes stays; the rest continues from where
      the complete lines end. */
  lemma {:induction false} LinesGrow(full: string, n: nat, i: nat)
    requires n <= |full|
    ensures var e := LinesEnd(full[..n], i);
            && (BlankAt(full[..n], e) ==> Lines(full, i) == Lines(full[..n], i) && LinesEnd(full, i) == e && BlankAt(full, e))
            && (!BlankAt(full[..n], e) ==>
                  Lines(full, i) == Lines(full[..n], i) + Lines(full, e) && LinesEnd(full, i) == LinesEnd(full, e))
    decreases n - i
  {
    hide FindCrlf, BlankAt;
    LinesGrowHere(full, n, i);
    if FindCrlf(full[..n], i).Some? && FindCrlf(full[..n], i).value != i {
      var k := FindCrlf(full[..n], i).value;
      LinesGrow(full, n, k + 2);
      var e := LinesEnd(full[..n], i);
      assert [full[i..k]] + (Lines(full[..n], k + 2) + Lines(full, e)) == [full[i..k]] + Lines(full[..n], k + 2) + Lines(full, e);
    }
  }

  lemma LinesGrowHere(full: string, n: nat, i: nat)
    requires n <= |full|
    ensures match FindCrlf(full[..n], i)
            case None => !BlankAt(full[..n], i)
            case Some(k) =>
              && FindCrlf(full, i) == Some(k) && k + 2 <= n
              && full[..n][i..k] == full[i..k]
              && (k == i ==> BlankAt(full[..n], i) && BlankAt(full, i))
  {
    FindCrlfPrefix(full, n, i);
    if FindCrlf(full[..n], i).Some? {
      var k := FindCrlf(full[..n], i).value;
      assert full[..n][i..k] == full[i..k];
    }
  }

  lemma {:induction false} ApplyAppend(r: ReqV, a: seq<string>, b: seq<string>)
    ensures Apply(r, a + b) == Apply(Apply(r, a), b)
    decreases |a|
  {
    hide WithFieldLine;
    if a == [] {
      assert a + b == b;
    } else if !Dead(r) {
      assert (a + b)[1..] == a[1..] + b;
      ApplyAppend(WithFieldLine(r, a[0]), a[1..], b);
    }
  }

  /** A call that left the section open, then a call on a longer buffer from the
      index it returned, is one call on the longer buffer. */
  lemma {:induction false} LoopResumes(r: ReqV, full: string, n: nat, i: nat, done: nat)
    requires n <= |full| && r.parseState == ParseState.Headers
    requires Open(FieldLoop(r, full[..n], i, done).0)
    ensures var (r1, j) := FieldLoop(r, full[..n], i, done);
            && i <= j && FindCrlf(full[..n], j) == None
            && FieldLoop(r, full, i, done).0 == FieldLoop(r1, full, j, j).0
            && (Dead(FieldLoop(r, full, i, done).0) || FieldLoop(r, full, i, done) == FieldLoop(r1, full, j, j))
  {
    hide WithFieldLine, FindCrlf, FieldLoop, Apply;
    LoopIsApply(r, full[..n], i, done);
    ApplyKeepsState(r, Lines(full[..n], i));
    var (r1, j) := FieldLoop(r, full[..n], i, done);
    LinesEndStops(full[..n], i);
    LinesGrow(full, n, i);
    LoopIsApply(r, full, i, done);
    LoopIsApply(r1, full, j, j);
    ApplyAppend(r, Lines(full[..n], i), Lines(full, j));
  }

  /** The lines that ended the parse end it on any longer buffer. */
  lemma {:induction false} DeadSettles(r: ReqV, full: string, n: nat, i: nat)
    requires n <= |full| && Dead(Apply(r, Lines(full[..n], i)))
    ensures Apply(r, Lines(full, i)) == Apply(r, Lines(full[..n], i))
  {
    hide FindCrlf, Apply, Lines, LinesEnd, BlankAt, Dead;
    LinesGrow(full, n, i);
    var e := LinesEnd(full[..n], i);
    if !BlankAt(full[..n], e) {
      ApplyAppend(r, Lines(full[..n], i), Lines(full, e));
      ApplyDead(Apply(r, Lines(full[..n], i)), Lines(full, e));
    }
  }

  /** A call that closed the section decides it: the same request on any longer
      buffer. The index agrees too, except after a cut right behind the blank line
      of a message that goes on. */
  lemma {:induction false} LoopSettles(r: ReqV, full: string, n: nat, i: nat, done: nat)
    requires n <= |full| && r.parseState == ParseState.Headers
    requires !Open(FieldLoop(r, full[..n], i, done).0)
    ensures var (r1, j) := FieldLoop(r, full[..n], i, done);
            && FieldLoop(r, full, i, done).0 == r1
            && (!Dead(r1) ==>
                  (FieldLoop(r, full, i, done).1 == j <==> !(LinesEnd(full, i) + 2 == n < |full|)))
  {
    hide WithFieldLine, FindCrlf, FieldLoop, Apply, Lines, LinesEnd, BlankAt;
    LoopIsApply(r, full[..n], i, done);
    ApplyKeepsState(r, Lines(full[..n], i));
    LoopIsApply(r, full, i, done);
    var p := Apply(r, Lines(full[..n], i));
    if Dead(p) {
      DeadSettles(r, full, n, i);
    } else {
      assert p.parseState == ParseState.Headers;
      LinesGrow(full, n, i);
      BlankInside(full, n, LinesEnd(full[..n], i));
    }
  }

  lemma BlankInside(full: string, n: nat, e: nat)
    requires n <= |full| && BlankAt(full[..n], e)
    ensures e + 2 <= n
  {
  }

  lemma ApplyDead(r: ReqV, lines: seq<string>)
    requires Dead(r)
    ensures Apply(r, lines) == r
  {
  }
}
