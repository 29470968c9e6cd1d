/** What a torn cut does to the chunks behind it: as a rule the content is wrong for
    good, but not always, and not always in the same way. */
module ChunkedTorn {
  import opened Strings
  import opened Chunked
  import opened ChunkedProof
  import opened ChunkedRuns

  /** The bytes that the torn turn takes happen to be the data of the chunk. */
  predicate Coincides(ps: seq<Piece>, n: nat)
    requires n <= |EncodeAll(ps)|
  {
    && TornCut(ps, n)
    && var data := PieceAt(ps, n).data;
    data != "" && |data| < |EncodeAll(ps)| && EncodeAll(ps)[1..1 + |data|] == data
  }

  /** A decoder that piece k has put off the body: past the last chunk at a place that
      is not its end, or with other bytes in the place of the data up to piece k. */
  predicate Off(ps: seq<Piece>, k: nat, d: Dec)
    requires k < |ps|
  {
    if ps[k].data == "" then d.ended && d.cursor == 3
    else |Data(ps[..k + 1])| <= |d.content| && d.content[..|Data(ps[..k + 1])|] != Data(ps[..k + 1])
  }

  lemma {:induction false} TurnsGrow(raw: string, d: Dec, limit: nat)
    requires Turns(raw, d, limit) != Endless
    ensures d.content <= Turns(raw, d, limit).d.content
    decreases limit
  {
    hide FindCrlf, SizeAt, SizeEnd;
    if OneTurn(raw, d).Take? && OneTurn(raw, d).size > 0 {
      TurnsGrow(raw, OneTurn(raw, d).next, limit - 1);
    }
  }

  /** No later call puts it right. */
  lemma StaysOff(ps: seq<Piece>, k: nat, d: Dec, raw: string)
    requires k < |ps| && Off(ps, k, d) && Decode(raw, d) != Endless
    ensures Off(ps, k, Decode(raw, d).d)
  {
    hide Turns, Data;
    if !d.ended {
      TurnsGrow(raw, d, |raw|);
    }
  }

  lemma DataSnoc(ps: seq<Piece>, k: nat)
    requires k < |ps|
    ensures Data(ps[..k + 1]) == Data(ps[..k]) + ps[k].data
  {
    hide Data;
    assert ps[..k + 1] == ps[..k] + [ps[k]];
    EncodeAllAppend(ps[..k], [ps[k]]);
    DataOne(ps[k]);
  }

  lemma DataOne(p: Piece)
    ensures Data([p]) == p.data
  {
    assert [p][1..] == [];
  }

  /** A torn cut puts the decoder off, unless its turn takes the right bytes. */
  lemma TornIsOff(ps: seq<Piece>, n: nat, l: Loop)
    requires Fits(ps) && n <= |EncodeAll(ps)| && !StateAt(ps, n).ended && |PieceAt(ps, n).data| < n
    requires l == TornAt(ps, n) && TornCut(ps, n) && !Coincides(ps, n) && l != Endless
    ensures Off(ps, CompleteIn(ps, n), l.d)
  {
    hide Data, EncodeAll, Turns, Torn, CompleteIn;
    var k, raw := CompleteIn(ps, n), EncodeAll(ps)[..n];
    var size := |ps[k].data|;
    DataSnoc(ps, k);
    if size > 0 {
      var next := TornNext(raw, StateAt(ps, n), size);
      TurnsGrow(raw, next, |raw|);
      assert raw[1..1 + size] == EncodeAll(ps)[1..1 + size];
      OtherBytes(Data(ps[..k]), raw[1..1 + size], ps[k].data, l.d.content);
    }
  }

  lemma OtherBytes(a: string, b: string, c: string, s: string)
    requires a + b <= s && |b| == |c| && b != c
    ensures |a + c| <= |s| && s[..|a + c|] != a + c
  {
    assert s[..|a + b|] == a + b;
    assert (a + b)[|a|..] == b && (a + c)[|a|..] == c;
  }

  /** A decoder that is off is in no state of the body. */
  lemma OffIsNotAt(ps: seq<Piece>, n: nat, l: nat, d: Dec)
    requires Fits(ps) && n <= l <= |EncodeAll(ps)| && CompleteIn(ps, n) < |ps| && Off(ps, CompleteIn(ps, n), d)
    ensures d != StateAt(ps, l)
  {
    hide Data, EncodeAll, CompleteIn;
    var k := CompleteIn(ps, n);
    CompleteMonotone(ps, n, l);
    StateAtCursor(ps, l);
    if ps[k].data == "" {
      LongBody(ps);
    } else {
      DataSnoc(ps, k);
      if CompleteIn(ps, l) > k {
        PrefixSplit(ps, k + 1, CompleteIn(ps, l));
      }
    }
  }

  lemma LongBody(ps: seq<Piece>)
    requires IsBody(ps)
    ensures |EncodeAll(ps)| > 3
  {
    assert IsPiece(ps[0]);
  }

  // ------------------------------------------------------------- schedules

  /** The first torn cut of the schedule coincides. */
  predicate Excused(ps: seq<Piece>, cuts: seq<nat>)
    requires Schedule(EncodeAll(ps), cuts)
    decreases |cuts|
  {
    cuts != [] && if TornCut(ps, cuts[0]) then Coincides(ps, cuts[0]) else Excused(ps, cuts[1..])
  }

  lemma {:induction false} OffRun(ps: seq<Piece>, n: nat, cuts: seq<nat>, d: Dec)
    requires Fits(ps) && Schedule(EncodeAll(ps), cuts) && cuts != [] && n <= cuts[0]
    requires CompleteIn(ps, n) < |ps| && Off(ps, CompleteIn(ps, n), d)
    ensures var ls := Feed(EncodeAll(ps), cuts, d); ls[|ls| - 1] != At(ps, cuts[|cuts| - 1])
    decreases |cuts|
  {
    hide Decode, EncodeAll, Off, StateAt, CompleteIn, Feed;
    FeedCons(EncodeAll(ps), cuts, d);
    var raw := EncodeAll(ps)[..cuts[0]];
    var l := Decode(raw, d);
    if l != Endless {
      StaysOff(ps, CompleteIn(ps, n), d, raw);
      if |cuts| > 1 {
        OffRun(ps, n, cuts[1..], l.d);
        LastOf(l, Feed(EncodeAll(ps), cuts[1..], l.d));
      } else {
        OffIsNotAt(ps, n, cuts[0], l.d);
        NoMoreFeed(EncodeAll(ps), cuts, l);
      }
    }
  }

  lemma LastOf(l: Loop, ls: seq<Loop>)
    requires ls != []
    ensures var all := [l] + ls; all[|all| - 1] == ls[|ls| - 1]
  {
  }

  lemma NoMoreFeed(body: string, cuts: seq<nat>, l: Loop)
    requires Schedule(body, cuts) && |cuts| == 1 && l != Endless
    ensures Schedule(body, cuts[1..]) && [l] + Feed(body, cuts[1..], l.d) == [l]
  {
  }

  lemma {:induction false} TornRun(ps: seq<Piece>, m: nat, cuts: seq<nat>)
    requires Fits(ps) && Schedule(EncodeAll(ps), cuts) && m <= |EncodeAll(ps)|
    requires cuts != [] && m <= cuts[0] && SomeTorn(ps, cuts) && !Excused(ps, cuts)
    ensures var ls := Feed(EncodeAll(ps), cuts, StateAt(ps, m)); ls[|ls| - 1] != At(ps, cuts[|cuts| - 1])
    decreases |cuts|
  {
    hide Decode, EncodeAll, Off, StateAt, CompleteIn, Feed, TornCut, Coincides, SomeTorn, TornAt;
    FeedCons(EncodeAll(ps), cuts, StateAt(ps, m));
    TornTail(ps, cuts);
    DecodePrefix(ps, m, cuts[0]);
    if TornCut(ps, cuts[0]) {
      var l := TornAt(ps, cuts[0]);
      if l != Endless {
        TornIsOff(ps, cuts[0], l);
      }
      NotEnded(ps, cuts[0]);
      OffAtOnce(ps, cuts, StateAt(ps, m), l);
    } else {
      NotLast(ps, cuts);
      TornRun(ps, cuts[0], cuts[1..]);
      LastOf(At(ps, cuts[0]), Feed(EncodeAll(ps), cuts[1..], StateAt(ps, cuts[0])));
    }
  }

  lemma NotLast(ps: seq<Piece>, cuts: seq<nat>)
    requires Schedule(EncodeAll(ps), cuts) && cuts != [] && Schedule(EncodeAll(ps), cuts[1..]) && SomeTorn(ps, cuts[1..])
    ensures |cuts| > 1 && cuts[0] <= cuts[1]
  {
    hide TornCut, EncodeAll;
  }

  lemma OffAtOnce(ps: seq<Piece>, cuts: seq<nat>, d: Dec, l: Loop)
    requires Fits(ps) && Schedule(EncodeAll(ps), cuts) && cuts != [] && CompleteIn(ps, cuts[0]) < |ps|
    requires l == Decode(EncodeAll(ps)[..cuts[0]], d) && (l != Endless ==> Off(ps, CompleteIn(ps, cuts[0]), l.d))
    ensures var ls := Feed(EncodeAll(ps), cuts, d); ls[|ls| - 1] != At(ps, cuts[|cuts| - 1])
  {
    hide Decode, EncodeAll, Off, CompleteIn, Feed, StateAt;
    FeedCons(EncodeAll(ps), cuts, d);
    if l != Endless {
      if |cuts| > 1 {
        OffRun(ps, cuts[0], cuts[1..], l.d);
        LastOf(l, Feed(EncodeAll(ps), cuts[1..], l.d));
      } else {
        OffIsNotAt(ps, cuts[0], cuts[0], l.d);
        NoMoreFeed(EncodeAll(ps), cuts, l);
      }
    }
  }

  lemma NotEnded(ps: seq<Piece>, n: nat)
    requires !StateAt(ps, n).ended
    ensures CompleteIn(ps, n) < |ps|
  {
  }

  /** Unless the first torn cut coincides, the last call of a schedule finds what one
      call would find if and only if no cut is torn. */
  lemma {:induction false} ScheduleMattersExactlyWhen(ps: seq<Piece>, cuts: seq<nat>)
    requires Fits(ps) && Schedule(EncodeAll(ps), cuts) && cuts != [] && !Excused(ps, cuts)
    ensures var ls := Feed(EncodeAll(ps), cuts, START);
            ls[|ls| - 1] == At(ps, cuts[|cuts| - 1]) <==> !SomeTorn(ps, cuts)
  {
    hide Feed, StateAt, EncodeAll, SomeTorn, At, Excused;
    StartState(ps);
    if SomeTorn(ps, cuts) {
      TornRun(ps, 0, cuts);
    } else {
      ScheduleDoesNotMatter(ps, cuts);
    }
  }
}
