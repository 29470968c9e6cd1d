/** utils::parse_list and the token values parse_field_list makes of it. */
module Lists {
  import opened Strings
  import opened Keywords

  /** Where the token starting at i ends: the next comma, or the end. */
  function TokenEnd(s: string, i: nat): (e: nat)
    requires i <= |s|
    ensures i <= e <= |s| && (e < |s| ==> s[e] == ',')
    ensures forall k :: i <= k < e ==> s[k] != ','
  {
    match FindChar(s, ',', i)
    case Some(e) => e
    case None => |s|
  }

  /** Where the token after the comma at e starts: one space is skipped. */
  function NextToken(s: string, e: nat): (i: nat)
    requires e < |s|
    ensures e < i <= |s|
  {
    if e + 1 < |s| && s[e + 1] == ' ' then e + 2 else e + 1
  }

  /** The tokens from position i on; an empty one ends the list. */
  function Tokens(s: string, i: nat): seq<string>
    requires i <= |s|
    decreases |s| - i
  {
    if i == |s| then []
    else
      var e := TokenEnd(s, i);
      if e == i then []
      else [s[i..e]] + (if e == |s| then [] else Tokens(s, NextToken(s, e)))
  }

  lemma TokenEndIs(s: string, i: nat, e: nat)
    requires i <= e <= |s| && (e < |s| ==> s[e] == ',')
    requires forall k :: i <= k < e ==> s[k] != ','
    ensures TokenEnd(s, i) == e
  {
    assert TokenEnd(s, i) < |s| ==> s[TokenEnd(s, i)] == ',';
  }

  lemma TokensCons(s: string, i: nat, e: nat)
    requires i < e <= |s| && (e < |s| ==> s[e] == ',')
    requires forall k :: i <= k < e ==> s[k] != ','
    ensures Tokens(s, i) == [s[i..e]] + (if e == |s| then [] else Tokens(s, NextToken(s, e)))
  {
    TokenEndIs(s, i, e);
  }

  lemma TokensNil(s: string, i: nat)
    requires i <= |s| && (i < |s| ==> s[i] == ',')
    ensures Tokens(s, i) == []
  {
    TokenEndIs(s, i, i);
  }

  method ParseList(list: string) returns (parsed: seq<string>)
    ensures parsed == Tokens(list, 0)
  {
    parsed := [];
    var it := 0;
    hide Tokens;
    while it != |list|
      invariant 0 <= it <= |list|
      invariant parsed + Tokens(list, it) == Tokens(list, 0)
      decreases |list| - it
    {
      var start := it;
      while it != |list| && list[it] != ','
        invariant start <= it <= |list|
        invariant forall k :: start <= k < it ==> list[k] != ','
      {
        it := it + 1;
      }
      var end := it;
      if start == end {
        TokensNil(list, start);
        return;
      }
      TokensCons(list, start, end);
      parsed := parsed + [list[start..end]];
      if end != |list| {
        it := end + 1;
        if end + 1 != |list| && list[end + 1] == ' ' {
          it := it + 1;
        }
      } else {
        TokensNil(list, it);
      }
    }
    TokensNil(list, it);
  }

  /** The values of the tokens up to the first unknown one, and whether all of
      them were known. */
  function Values(tokens: seq<string>): (r: (seq<nat>, bool)) {
    if tokens == [] then ([], true)
    else
      var v := KeywordVal(tokens[0]);
      if v == 0 then ([], false)
      else
        var rest := Values(tokens[1..]);
        ([v] + rest.0, rest.1)
  }

  // ------------------------------------------------------------ round trip

  /** A token that survives being listed. */
  predicate IsToken(t: string) {
    t != "" && t[0] != ' ' && ',' !in t
  }

  /** Tokens joined by "," or, where spaced says so, by ", ". */
  function Join(tokens: seq<string>, spaced: seq<bool>): string
    requires |spaced| == |tokens|
  {
    if tokens == [] then ""
    else if |tokens| == 1 then tokens[0]
    else tokens[0] + (if spaced[0] then ", " else ",") + Join(tokens[1..], spaced[1..])
  }

  /** An element as a list may hold it, the empty one included. */
  predicate IsElement(t: string) {
    ',' !in t && (t != "" ==> t[0] != ' ')
  }

  /** The elements in front of the first empty one. */
  function BeforeEmpty(elements: seq<string>): (r: seq<string>)
    ensures r <= elements && "" !in r
    ensures r == elements <==> "" !in elements
    ensures r != elements ==> elements[|r|] == ""
  {
    if elements == [] || elements[0] == "" then [] else [elements[0]] + BeforeEmpty(elements[1..])
  }

  lemma JoinHead(elements: seq<string>, spaced: seq<bool>)
    requires |spaced| == |elements| > 0 && IsElement(elements[0])
    ensures var s := Join(elements, spaced);
            && (s != "" ==> s[0] != ' ')
            && (elements[0] == "" && s != "" ==> s[0] == ',')
            && (elements[0] == "" && |elements| > 1 ==> s != "")
  {
  }

  lemma SeparatorSkipped(pre: string, t: string, spaced: bool, rest: string)
    requires ',' !in t && (rest != "" ==> rest[0] != ' ')
    ensures var sep := if spaced then ", " else ",";
            var s := pre + t + sep + rest;
            var e := |pre| + |t|;
            && s[|pre|..e] == t && s[e] == ',' && NextToken(s, e) == e + |sep|
            && forall k :: |pre| <= k < e ==> s[k] != ','
  {
    var sep := if spaced then ", " else ",";
    var s := pre + t + sep + rest;
    var e := |pre| + |t|;
    assert s[e] == sep[0];
    assert e + 1 < |s| ==> s[e + 1] == if spaced then sep[1] else rest[0];
    forall k | |pre| <= k < e ensures s[k] != ',' {
      assert s[k] == t[k - |pre|];
    }
  }

  /** The first element of a list, and where the next one starts. */
  lemma FirstElement(pre: string, t: string, spaced: bool, rest: string)
    requires t != "" && ',' !in t && (rest != "" ==> rest[0] != ' ')
    ensures var sep := if spaced then ", " else ",";
            var s := pre + t + sep + rest;
            Tokens(s, |pre|) == [t] + Tokens(s, |pre + t + sep|)
  {
    hide Tokens, NextToken;
    var s := pre + t + (if spaced then ", " else ",") + rest;
    SeparatorSkipped(pre, t, spaced, rest);
    TokensCons(s, |pre|, |pre| + |t|);
  }

  /** The last element of a list, with a tail that is read on its own. */
  lemma LastElement(pre: string, t: string, tail: string)
    requires ',' !in t && (tail == "" || tail[0] == ',')
    ensures var s := pre + t + tail;
            Tokens(s, |pre|) == if t == "" then [] else if tail == "" then [t] else [t] + Tokens(s, NextToken(s, |pre + t|))
  {
    hide Tokens, NextToken;
    var s, e := pre + t + tail, |pre| + |t|;
    assert s[|pre|..e] == t;
    if t == "" {
      TokensNil(s, |pre|);
    } else {
      TokensCons(s, |pre|, e);
      assert [t] + [] == [t];
    }
  }

  /** Reading a printed list gives back its elements in order up to the first empty
      one, whatever mix of separators was used; if none is empty, what follows the
      last one is read on its own. */
  lemma {:induction false} TokensOfJoin(pre: string, elements: seq<string>, spaced: seq<bool>, tail: string)
    requires |spaced| == |elements| > 0
    requires forall t :: t in elements ==> IsElement(t)
    requires tail == "" || tail[0] == ','
    ensures var s := pre + Join(elements, spaced) + tail;
            Tokens(s, |pre|) ==
            BeforeEmpty(elements) + (if "" in elements || tail == "" then [] else Tokens(s, NextToken(s, |s| - |tail|)))
    decreases |elements|
  {
    hide Tokens, NextToken;
    var t, s := elements[0], pre + Join(elements, spaced) + tail;
    assert IsElement(t);
    if |elements| == 1 {
      LastElement(pre, t, tail);
      assert elements == [t];
    } else if t == "" {
      JoinHead(elements, spaced);
      TokensNil(s, |pre|);
      assert "" in elements;
    } else {
      TokensOfRest(pre, elements, spaced, tail);
      var pre' := pre + t + (if spaced[0] then ", " else ",");
      TokensOfJoin(pre', elements[1..], spaced[1..], tail);
      assert "" in elements <==> "" in elements[1..];
    }
  }

  lemma TokensOfRest(pre: string, elements: seq<string>, spaced: seq<bool>, tail: string)
    requires |spaced| == |elements| > 1
    requires elements[0] != "" && IsElement(elements[0]) && IsElement(elements[1])
    requires tail == "" || tail[0] == ','
    ensures var s := pre + Join(elements, spaced) + tail;
            var pre' := pre + elements[0] + (if spaced[0] then ", " else ",");
            && s == pre' + Join(elements[1..], spaced[1..]) + tail
            && Tokens(s, |pre|) == [elements[0]] + Tokens(s, |pre'|)
  {
    hide Tokens, NextToken;
    JoinHead(elements[1..], spaced[1..]);
    var t, rest := elements[0], Join(elements[1..], spaced[1..]);
    var sep := if spaced[0] then ", " else ",";
    FirstElement(pre, t, spaced[0], rest + tail);
    assert pre + (t + sep + rest) + tail == pre + t + sep + rest + tail == pre + t + sep + (rest + tail);
  }

  /** vals are the linear-search values of the tokens. */
  predicate LinearValues(vals: seq<nat>, tokens: seq<string>) {
    |vals| == |tokens| && forall i :: 0 <= i < |tokens| ==> vals[i] == LinearSearch(tokens[i], 0)
  }

  lemma {:induction false} ValuesAreLinear(tokens: seq<string>)
    requires forall t :: t in tokens ==> |t| < U32 && LinearSearch(t, 0) != 0
    ensures Values(tokens).1 && LinearValues(Values(tokens).0, tokens)
  {
    if tokens != [] {
      hide LinearSearch, KeywordVal;
      assert tokens[0] in tokens;
      PerfectHashIsLinearSearch(tokens[0]);
      ValuesAreLinear(tokens[1..]);
    }
  }

  /** A field list of known keywords reads back as their linear-search values, in
      order and without an error. */
  lemma {:induction false} FieldListRoundTrip(tokens: seq<string>, spaced: seq<bool>)
    requires |spaced| == |tokens| > 0
    requires forall t :: t in tokens ==> IsToken(t) && |t| < U32 && LinearSearch(t, 0) != 0
    ensures var r := Values(Tokens(Join(tokens, spaced), 0));
            r.1 && LinearValues(r.0, tokens)
  {
    hide LinearSearch, Values, Tokens, Join, LinearValues;
    ListIsKeptExactlyWhen(tokens, spaced);
    ValuesAreLinear(tokens);
  }

  // --------------------------------------------------------- empty elements

  /** What becomes of any printed list: its elements in front of the first empty
      one are kept, so it is kept whole if and only if it has no empty element. */
  lemma ListIsKeptExactlyWhen(elements: seq<string>, spaced: seq<bool>)
    requires |spaced| == |elements|
    requires forall t :: t in elements ==> IsElement(t)
    ensures Tokens(Join(elements, spaced), 0) == BeforeEmpty(elements)
    ensures Tokens(Join(elements, spaced), 0) == elements <==> "" !in elements
  {
    hide Tokens, Join;
    if elements == [] {
      JoinNone();
    } else {
      TokensOfJoin("", elements, spaced, "");
      assert "" + Join(elements, spaced) + "" == Join(elements, spaced);
    }
  }

  lemma JoinNone()
    ensures Tokens(Join([], []), 0) == []
  {
  }

  /** The code means to reject an empty list element; it does not. Whatever
      follows the empty element is dropped and the list read so far stands. */
  lemma EmptyElementCutsTheList(tokens: seq<string>, spaced: seq<bool>, dropped: string)
    requires |spaced| == |tokens| > 0
    requires forall t :: t in tokens ==> IsToken(t)
    ensures Tokens(Join(tokens, spaced) + ",," + dropped, 0) == tokens
  {
    hide Tokens, Join;
    var tail := ",," + dropped;
    TokensOfJoin("", tokens, spaced, tail);
    var s := "" + Join(tokens, spaced) + tail;
    assert s == Join(tokens, spaced) + ",," + dropped;
    var e := |Join(tokens, spaced)|;
    assert s[e + 1] == tail[1];
    TokensNil(s, e + 1);
  }
}
