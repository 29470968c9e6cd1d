/** What the bound on the chunk loop stands for: the loop of the code, taken turn by
    turn for as long as it runs. */
module ChunkedLoop {
  import opened Strings
  import opened Chunked

  /** The turn at the cursor takes bytes and is followed by another. */
  predicate Goes(raw: string, cursor: nat) {
    var t := OneTurn(raw, Dec("", 0, cursor, false));
    t.Take? && t.size > 0
  }

  /** Where the one that follows starts. */
  function NextCursor(raw: string, cursor: nat): nat
    requires Goes(raw, cursor)
  {
    OneTurn(raw, Dec("", 0, cursor, false)).next.cursor
  }

  /** k turns from the cursor on each take bytes and are followed by another. */
  predicate GoesOn(raw: string, cursor: nat, k: nat)
    decreases k
  {
    k == 0 || (Goes(raw, cursor) && GoesOn(raw, NextCursor(raw, cursor), k - 1))
  }

  /** Content and count make no difference to where a turn leads. */
  lemma TurnByCursor(raw: string, d: Dec)
    ensures var t := OneTurn(raw, d);
            && (Goes(raw, d.cursor) <==> t.Take? && t.size > 0)
            && (Goes(raw, d.cursor) ==> t.next.cursor == NextCursor(raw, d.cursor) && t.next.ended == d.ended)
  {
    hide FindCrlf, SizeAt, SizeEnd;
  }

  lemma {:induction false} TurnsByCursor(raw: string, d: Dec, limit: nat)
    ensures Turns(raw, d, limit) == Endless <==> GoesOn(raw, d.cursor, limit + 1)
    decreases limit
  {
    hide OneTurn, Goes, NextCursor;
    TurnByCursor(raw, d);
    if Goes(raw, d.cursor) && limit > 0 {
      TurnsByCursor(raw, OneTurn(raw, d).next, limit - 1);
    }
  }

  lemma {:induction false} GoesOnLess(raw: string, cursor: nat, j: nat, k: nat)
    requires GoesOn(raw, cursor, k) && j <= k
    ensures GoesOn(raw, cursor, j)
    decreases j
  {
    hide Goes, NextCursor;
    if j > 0 {
      GoesOnLess(raw, NextCursor(raw, cursor), j - 1, k - 1);
    }
  }

  lemma GoesInside(raw: string, cursor: nat)
    requires Goes(raw, cursor)
    ensures cursor < |raw|
  {
  }

  /** Exactly k turns from the cursor on are followed by another. */
  predicate Lasts(raw: string, cursor: nat, k: nat) {
    GoesOn(raw, cursor, k) && !GoesOn(raw, cursor, k + 1)
  }

  /** The turns of a loop that is left after k of them start at k different places,
      since each is followed by one turn less than the one before. */
  lemma {:induction false} StartsDiffer(raw: string, cursor: nat, k: nat) returns (starts: set<nat>)
    requires Lasts(raw, cursor, k)
    ensures |starts| == k
    ensures forall c :: c in starts ==> c < |raw| && exists j :: 1 <= j <= k && Lasts(raw, c, j)
    decreases k
  {
    hide Goes, NextCursor;
    if k == 0 {
      starts := {};
    } else {
      var rest := StartsDiffer(raw, NextCursor(raw, cursor), k - 1);
      forall j | 1 <= j <= k - 1
        ensures !Lasts(raw, cursor, j)
      {
        GoesOnLess(raw, cursor, j + 1, k);
      }
      GoesInside(raw, cursor);
      starts := rest + {cursor};
    }
  }

  lemma {:induction false} SizeBound(s: set<nat>, n: nat)
    requires forall c :: c in s ==> c < n
    ensures |s| <= n
  {
    if n > 0 {
      SizeBound(s - {n - 1}, n - 1);
      assert |s| <= |s - {n - 1}| + 1 by {
        assert s <= (s - {n - 1}) + {n - 1};
        SubsetSize(s, (s - {n - 1}) + {n - 1});
      }
    } else {
      assert s == {};
    }
  }

  lemma {:induction false} SubsetSize(s: set<nat>, t: set<nat>)
    requires s <= t
    ensures |s| <= |t|
  {
    if s != {} {
      var c :| c in s;
      SubsetSize(s - {c}, t - {c});
    }
  }

  /** A loop that takes more turns than the buffer has bytes goes on for ever. */
  lemma {:induction false} GoesOnForEver(raw: string, cursor: nat, k: nat)
    requires GoesOn(raw, cursor, |raw| + 1)
    ensures GoesOn(raw, cursor, k)
    decreases k
  {
    hide GoesOn;
    if k <= |raw| + 1 {
      GoesOnLess(raw, cursor, k, |raw| + 1);
    } else {
      GoesOnForEver(raw, cursor, k - 1);
      if !GoesOn(raw, cursor, k) {
        var starts := StartsDiffer(raw, cursor, k - 1);
        SizeBound(starts, |raw|);
      }
    }
  }

  /** Endless means it: the loop of the code is never left. */
  lemma EndlessForEver(raw: string, d: Dec)
    ensures Chunks(raw, d) == Endless <==> forall k: nat :: GoesOn(raw, d.cursor, k)
  {
    hide GoesOn, Turns;
    TurnsByCursor(raw, d, |raw|);
    if GoesOn(raw, d.cursor, |raw| + 1) {
      forall k: nat
        ensures GoesOn(raw, d.cursor, k)
      {
        GoesOnForEver(raw, d.cursor, k);
      }
    }
  }

  lemma {:induction false} MoreTurns(raw: string, d: Dec, j: nat, k: nat)
    requires j <= k && Turns(raw, d, j) != Endless
    ensures Turns(raw, d, k) == Turns(raw, d, j)
    decreases j
  {
    hide OneTurn;
    if OneTurn(raw, d).Take? && OneTurn(raw, d).size > 0 {
      MoreTurns(raw, OneTurn(raw, d).next, j - 1, k - 1);
    }
  }

  /** The loop is its first turn, and then the loop: the bound shows nowhere. */
  lemma LoopUnfolds(raw: string, d: Dec)
    ensures Chunks(raw, d) == match OneTurn(raw, d)
                              case Stop => Asks(d)
                              case Take(n, next) => if n == 0 then Ends(next.(ended := true)) else Chunks(raw, next)
  {
    hide OneTurn;
    var t := OneTurn(raw, d);
    if t.Take? && t.size > 0 {
      if Turns(raw, t.next, |raw|) == Endless {
        LoopUnfoldsEndless(raw, d);
      } else if |raw| > 0 && Turns(raw, t.next, |raw| - 1) != Endless {
        MoreTurns(raw, t.next, |raw| - 1, |raw|);
      } else {
        EndlessUnfolds(raw, d);
      }
    }
  }

  lemma LoopUnfoldsEndless(raw: string, d: Dec)
    requires OneTurn(raw, d).Take? && OneTurn(raw, d).size > 0 && Chunks(raw, OneTurn(raw, d).next) == Endless
    ensures Chunks(raw, d) == Endless
  {
    hide OneTurn, Turns, Goes, NextCursor;
    TurnByCursor(raw, d);
    EndlessForEver(raw, OneTurn(raw, d).next);
    EndlessForEver(raw, d);
    forall k: nat
      ensures GoesOn(raw, d.cursor, k)
    {
      if k > 0 {
        assert GoesOn(raw, NextCursor(raw, d.cursor), k - 1);
      }
    }
  }

  lemma EndlessUnfolds(raw: string, d: Dec)
    requires OneTurn(raw, d).Take? && OneTurn(raw, d).size > 0 && Chunks(raw, d) == Endless
    ensures Chunks(raw, OneTurn(raw, d).next) == Endless
  {
    hide OneTurn, Turns, Goes, NextCursor;
    TurnByCursor(raw, d);
    EndlessForEver(raw, OneTurn(raw, d).next);
    EndlessForEver(raw, d);
    forall k: nat
      ensures GoesOn(raw, NextCursor(raw, d.cursor), k)
    {
      assert GoesOn(raw, d.cursor, k + 1);
    }
  }

  // ----------------------------------------------------------- why it ends

  /** Where no turn is torn, each one that is not the last starts further on. */
  lemma {:induction false} UntornTurns(raw: string, d: Dec, limit: nat)
    requires Addressable(raw) && (forall c :: d.cursor <= c < |raw| ==> !Torn(raw, c)) && |raw| <= d.cursor + limit
    ensures Turns(raw, d, limit) != Endless
    decreases limit
  {
    hide OneTurn, Torn;
    TurnByCursor(raw, d);
    if Goes(raw, d.cursor) {
      GoesInside(raw, d.cursor);
      TurnAdvances(raw, d);
      if limit > 0 {
        UntornTurns(raw, OneTurn(raw, d).next, limit - 1);
      }
    }
  }

  /** Only a torn turn can keep the loop from ending. */
  lemma EndlessIsTorn(raw: string, d: Dec)
    requires Addressable(raw) && Chunks(raw, d) == Endless
    ensures exists c :: d.cursor <= c < |raw| && Torn(raw, c)
  {
    hide Turns, Torn;
    if forall c :: d.cursor <= c < |raw| ==> !Torn(raw, c) {
      UntornTurns(raw, d, |raw|);
    }
  }
}
