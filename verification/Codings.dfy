/** What the text of a field that lists codings says, and when the numbers the server
    keeps of it say the same. */
module Codings {
  import opened Strings
  import opened Keywords
  import opened Lists

  // ------------------------------------------------------------------- the text

  predicate IsOws(c: char) { c == ' ' || c == '\t' }

  function TrimStart(s: string): (r: string)
    ensures r == "" || !IsOws(r[0])
  {
    if s != "" && IsOws(s[0]) then TrimStart(s[1..]) else s
  }

  function TrimEnd(s: string): (r: string)
    ensures r <= s && (r == "" || !IsOws(r[|r| - 1]))
    ensures |r| < |s| ==> IsOws(s[|r|])
  {
    if s != "" && IsOws(s[|s| - 1]) then TrimEnd(s[..|s| - 1]) else s
  }

  function Trim(s: string): string { TrimEnd(TrimStart(s)) }

  /** The elements of a list from position i on, section 5.6.1 of RFC 9110: what lies
      between the commas, without white space around it. */
  function Elements(s: string, i: nat): (r: seq<string>)
    requires i <= |s|
    ensures r != []
    decreases |s| - i
  {
    var e := TokenEnd(s, i);
    [Trim(s[i..e])] + (if e == |s| then [] else Elements(s, e + 1))
  }

  /** The elements that say something, in lower case; a recipient ignores the empty
      ones. */
  function Names(elements: seq<string>): seq<string> {
    if elements == [] then []
    else (if elements[0] == "" then [] else [Lowercase(elements[0])]) + Names(elements[1..])
  }

  /** Nothing but empty elements behind an empty one. */
  predicate Whole(elements: seq<string>) {
    forall i, j :: 0 <= i < j < |elements| && elements[i] == "" ==> elements[j] == ""
  }

  /** The coding an enumerator stands for. */
  function CodingName(code: nat): string {
    match code
    case 1 => "chunked"
    case 2 => "identity"
    case 3 => "gzip"
    case 4 => "compress"
    case 5 => "deflate"
    case _ => ""
  }

  predicate IsCoding(name: string) {
    name in ["chunked", "identity", "gzip", "compress", "deflate"]
  }

  /** The numbers are the codings the text names, each and in order. */
  predicate NamesMatch(codes: seq<nat>, names: seq<string>) {
    |codes| == |names| && forall i :: 0 <= i < |names| ==> names[i] == CodingName(codes[i])
  }

  function Trimmed(tokens: seq<string>): (r: seq<string>)
    ensures |r| == |tokens| && forall i :: 0 <= i < |tokens| ==> r[i] == Trim(tokens[i])
  {
    if tokens == [] then [] else [Trim(tokens[0])] + Trimmed(tokens[1..])
  }

  function Lowered(elements: seq<string>): (r: seq<string>)
    ensures |r| == |elements| && forall i :: 0 <= i < |elements| ==> r[i] == Lowercase(elements[i])
  {
    if elements == [] then [] else [Lowercase(elements[0])] + Lowered(elements[1..])
  }

  // ------------------------------------------------------- what the server reads

  predicate AllKnown(tokens: seq<string>) {
    forall i :: 0 <= i < |tokens| ==> KeywordVal(tokens[i]) != 0
  }

  lemma {:induction false} ValuesAreAll(tokens: seq<string>)
    requires Values(tokens).1
    ensures AllKnown(tokens) && |Values(tokens).0| == |tokens|
    ensures forall i :: 0 <= i < |tokens| ==> Values(tokens).0[i] == KeywordVal(tokens[i])
  {
    hide KeywordVal;
    if tokens != [] {
      ValuesAreAll(tokens[1..]);
      forall i | 0 <= i < |tokens|
        ensures KeywordVal(tokens[i]) != 0 && Values(tokens).0[i] == KeywordVal(tokens[i])
      {
        assert i > 0 ==> tokens[i] == tokens[1..][i - 1];
      }
    }
  }

  /** A word starts with a letter. */
  lemma WordStarts(slot: nat)
    requires IsKeyword(slot)
    ensures var k := WordAt(slot).key; k != "" && !IsOws(ToLower(k[0]))
  {
  }

  lemma LowerOws(c: char)
    ensures IsOws(ToLower(c)) <==> IsOws(c)
  {
  }

  lemma KnownStarts(s: string)
    requires KeywordVal(s) != 0
    ensures s != "" && !IsOws(s[0]) && Trim(s) != "" && TrimStart(s) == s
  {
    hide KeywordVal, WordAt, ToLower;
    var slot := KnownIsWord(s);
    WordStarts(slot);
    LowerOws(s[0]);
    var k := WordAt(slot).key;
    assert ToLower(s[0]) == ToLower(k[0]);
    NotAllOws(s);
  }

  lemma {:induction false} NotAllOws(s: string)
    requires s != "" && !IsOws(s[0])
    ensures TrimEnd(s) != ""
    decreases |s|
  {
    if IsOws(s[|s| - 1]) {
      NotAllOws(s[..|s| - 1]);
    }
  }

  /** White space in front makes no difference. */
  lemma TrimSpace(s: string)
    ensures Trim(" " + s) == Trim(s)
  {
    assert (" " + s)[1..] == s;
  }

  lemma TrimmedCons(t: string, rest: seq<string>)
    ensures Trimmed([t] + rest) == [Trim(t)] + Trimmed(rest) && Trimmed([]) == []
  {
    hide Trim;
    assert ([t] + rest)[1..] == rest;
  }

  lemma BeforeCons(t: string, rest: seq<string>)
    ensures BeforeEmpty([t] + rest) == (if t == "" then [] else [t] + BeforeEmpty(rest)) && BeforeEmpty([]) == []
  {
    assert ([t] + rest)[1..] == rest;
  }

  /** The element from j on is the token from i on, trimmed. */
  lemma ElementAt(s: string, j: nat, i: nat)
    requires j <= i <= |s| && (i == j || (i == j + 1 && s[j] == ' '))
    ensures var e := TokenEnd(s, i);
            Elements(s, j) == [Trim(s[i..e])] + (if e == |s| then [] else Elements(s, e + 1))
  {
    hide Trim, FindChar;
    var e := TokenEnd(s, i);
    SameEnd(s, j, i);
    assert s[j..e] == if i == j then s[i..e] else " " + s[i..e];
    TrimSpace(s[i..e]);
  }

  /** What the server takes for a list are the elements in front of the first empty
      one, if it knows them. */
  lemma {:induction false} TokensAreElements(s: string, j: nat, i: nat)
    requires j <= i <= |s| && (i == j || (i == j + 1 && s[j] == ' '))
    requires AllKnown(Tokens(s, i))
    ensures Trimmed(Tokens(s, i)) == BeforeEmpty(Elements(s, j))
    decreases |s| - i
  {
    hide KeywordVal, Trim, Tokens, Elements, BeforeEmpty, Trimmed, AllKnown;
    var e := TokenEnd(s, i);
    var t, more := s[i..e], if e == |s| then [] else Elements(s, e + 1);
    ElementAt(s, j, i);
    BeforeCons(Trim(t), more);
    if e == i {
      TrimNothing();
      TokensNil(s, i);
      TrimmedCons("", []);
    } else {
      var rest := if e == |s| then [] else Tokens(s, NextToken(s, e));
      TokensCons(s, i, e);
      TrimmedCons(t, rest);
      KnownTail(t, rest);
      KnownStarts(t);
      if e < |s| {
        TokensAreElements(s, e + 1, NextToken(s, e));
      }
    }
  }

  lemma TrimNothing()
    ensures Trim("") == ""
  {
  }

  lemma KnownTail(t: string, rest: seq<string>)
    requires AllKnown([t] + rest)
    ensures KeywordVal(t) != 0 && AllKnown(rest)
  {
    hide KeywordVal;
    assert ([t] + rest)[0] == t;
    forall i | 0 <= i < |rest|
      ensures KeywordVal(rest[i]) != 0
    {
      assert ([t] + rest)[i + 1] == rest[i];
    }
  }

  lemma SameEnd(s: string, j: nat, i: nat)
    requires j <= i <= |s| && (i == j || (i == j + 1 && s[j] == ' '))
    ensures TokenEnd(s, j) == TokenEnd(s, i)
  {
    hide FindChar;
    TokenEndIs(s, j, TokenEnd(s, i));
  }

  // ------------------------------------------------------------ read and meant

  lemma {:induction false} NamesNone(elements: seq<string>)
    ensures Names(elements) == [] <==> forall i :: 0 <= i < |elements| ==> elements[i] == ""
  {
    if elements != [] {
      NamesNone(elements[1..]);
      assert forall i :: 0 < i < |elements| ==> elements[i] == elements[1..][i - 1];
    }
  }

  lemma WholeCons(elements: seq<string>)
    requires elements != []
    ensures Whole(elements) <==>
            if elements[0] == "" then forall i :: 0 <= i < |elements[1..]| ==> elements[1..][i] == "" else Whole(elements[1..])
  {
    assert forall i :: 0 < i < |elements| ==> elements[i] == elements[1..][i - 1];
  }

  /** The names begin with the elements in front of the first empty one; they are no
      more if and only if the list is whole. */
  lemma {:induction false} NamesBegin(elements: seq<string>)
    ensures Lowered(BeforeEmpty(elements)) <= Names(elements)
    ensures Whole(elements) <==> |Names(elements)| == |BeforeEmpty(elements)|
  {
    hide Whole;
    if elements == [] {
      WholeNone();
    } else {
      WholeCons(elements);
      if elements[0] == "" {
        NamesNone(elements[1..]);
      } else {
        NamesBegin(elements[1..]);
      }
    }
  }

  lemma WholeNone()
    ensures Whole([])
  {
  }

  lemma {:induction false} NamesSaySomething(elements: seq<string>)
    ensures forall i :: 0 <= i < |Names(elements)| ==> Names(elements)[i] != ""
  {
    if elements != [] {
      NamesSaySomething(elements[1..]);
    }
  }

  predicate Plain(s: string) {
    forall i :: 0 <= i < |s| ==> !IsOws(s[i])
  }

  lemma MethodsArePlain()
    ensures Plain("PUT") && Plain("POST") && Plain("OPTIONS") && Plain("TRACE") && Plain("CONNECT")
    ensures Plain("GET") && Plain("HEAD") && Plain("DELETE") && Plain("EXTENSION")
  {
  }

  lemma OthersArePlain()
    ensures Plain("utf-8") && Plain("html") && Plain("application") && Plain("text") && Plain("json")
    ensures Plain("close") && Plain("keep-alive")
    ensures Plain("chunked") && Plain("compress") && Plain("deflate") && Plain("identity") && Plain("gzip")
  {
  }

  lemma WordIsPlain(slot: nat)
    requires IsKeyword(slot)
    ensures Plain(WordAt(slot).key)
  {
    hide Plain;
    MethodsArePlain();
    OthersArePlain();
  }

  lemma WordNoOws(slot: nat, j: nat)
    requires IsKeyword(slot) && j < |WordAt(slot).key|
    ensures !IsOws(ToLower(WordAt(slot).key[j]))
  {
    hide WordAt, ToLower;
    WordIsPlain(slot);
    LowerOws(WordAt(slot).key[j]);
  }

  /** The slot of a coding's word. */
  lemma CodingSlot(name: string) returns (slot: nat)
    requires IsCoding(name)
    ensures IsKeyword(slot) && Lowercase(WordAt(slot).key) == name && CodingName(WordAt(slot).value) == name
  {
    slot := match |name| case 4 => 24 case 8 => (if name[0] == 'c' then 13 else 23) case _ => if name[0] == 'c' then 17 else 22;
  }

  lemma NulIsLower(c: char)
    ensures ToLower(c) == NUL <==> c == NUL
  {
  }

  lemma CodingNoNul(name: string)
    requires IsCoding(name)
    ensures forall i :: 0 <= i < |name| ==> name[i] != NUL
  {
  }

  lemma SpelledNoNul(t: string)
    requires IsCoding(Lowercase(t))
    ensures forall i :: 0 <= i < |t| ==> t[i] != NUL
  {
    hide ToLower, IsCoding;
    CodingNoNul(Lowercase(t));
    forall i | 0 <= i < |t|
      ensures t[i] != NUL
    {
      NulIsLower(t[i]);
      assert Lowercase(t)[i] != NUL;
    }
  }

  /** A known token that spells a coding is that word and no more. */
  lemma SpelledOut(s: string, t: string, slot: nat)
    requires t <= s && (|t| < |s| ==> IsOws(s[|t|])) && IsCoding(Lowercase(t)) && IsKeyword(slot)
    requires var k := WordAt(slot).key;
             && |k| <= |s| && (|k| < |s| ==> s[|k|] == NUL)
             && forall j :: 0 <= j < |k| ==> ToLower(s[j]) == ToLower(k[j])
    ensures t == s && EqualIgnoringCase(s, WordAt(slot).key)
  {
    hide WordAt, ToLower;
    var k := WordAt(slot).key;
    SpelledNoNul(t);
    if |t| < |s| {
      LowerOws(s[|t|]);
      if |k| > |t| {
        WordNoOws(slot, |t|);
      }
    }
  }

  lemma CodingIsShort(name: string)
    requires IsCoding(name)
    ensures |name| <= 8
  {
  }

  lemma CodingIsRead(s: string)
    requires KeywordVal(s) != 0 && IsCoding(Lowercase(Trim(s)))
    ensures CodingName(KeywordVal(s)) == Lowercase(Trim(s))
  {
    hide KeywordVal, WordAt, Lowercase, EqualIgnoringCase, CodingName, IsCoding, ToLower;
    KnownStarts(s);
    var slot := KnownIsWord(s);
    SpelledOut(s, Trim(s), slot);
    var hit := CodingSlot(Lowercase(s));
    EqualLowercase(s, WordAt(hit).key);
    CodingIsShort(Lowercase(s));
    ProbeHits(s, hit);
  }

  /** The numbers kept of a list whose tokens are all known are the codings its text
      names if and only if no empty element hides one, and every name is a coding's,
      not another word's with the same number. */
  lemma {:induction false} NamesMatchExactlyWhen(t: string)
    requires Values(Tokens(t, 0)).1
    ensures var codes, elements := Values(Tokens(t, 0)).0, Elements(t, 0);
            NamesMatch(codes, Names(elements)) <==>
            Whole(elements) && forall i :: 0 <= i < |Names(elements)| ==> IsCoding(Names(elements)[i])
  {
    hide KeywordVal, Tokens, Elements, Names, Whole, Trim, Lowercase, CodingName, IsCoding;
    var tokens, elements := Tokens(t, 0), Elements(t, 0);
    var codes, names := Values(tokens).0, Names(elements);
    ValuesAreAll(tokens);
    TokensAreElements(t, 0, 0);
    NamesBegin(elements);
    NamesSaySomething(elements);
    if |names| == |tokens| {
      forall i | 0 <= i < |names|
        ensures names[i] == Lowercase(Trim(tokens[i]))
        ensures names[i] == CodingName(codes[i]) <==> IsCoding(names[i])
      {
        assert Lowered(BeforeEmpty(elements))[i] == names[i];
        NamedCoding(codes[i]);
        if IsCoding(names[i]) {
          CodingIsRead(tokens[i]);
        }
      }
    }
  }

  lemma NamedCoding(code: nat)
    ensures CodingName(code) != "" <==> IsCoding(CodingName(code))
  {
  }

  /** In a text short enough to be looked up, the last element that counts is read as
      chunked if and only if it is one of the six words numbered so. */
  lemma LastIsOne(t: string)
    requires Values(Tokens(t, 0)).1 && |t| < U32 && Tokens(t, 0) != []
    ensures var codes, read := Values(Tokens(t, 0)).0, BeforeEmpty(Elements(t, 0));
            |codes| == |read| > 0 && (codes[|codes| - 1] == 1 <==> Lowercase(read[|read| - 1]) in ONES)
  {
    hide KeywordVal, Tokens, Elements, Trim, Lowercase;
    var tokens := Tokens(t, 0);
    ValuesAreAll(tokens);
    TokensAreElements(t, 0, 0);
    var last := tokens[|tokens| - 1];
    TokensAreShort(t, 0);
    KnownIsTrimmed(last);
    OneIsAnyOf(last);
  }

  lemma {:induction false} TokensAreShort(s: string, i: nat)
    requires i <= |s|
    ensures forall k :: 0 <= k < |Tokens(s, i)| ==> |Tokens(s, i)[k]| <= |s|
    decreases |s| - i
  {
    hide FindChar;
    if i < |s| {
      var e := TokenEnd(s, i);
      if i < e < |s| {
        TokensAreShort(s, NextToken(s, e));
      }
    }
  }

  lemma KnownIsTrimmed(s: string)
    requires KeywordVal(s) != 0 && |s| < U32
    ensures Trim(s) == s
  {
    hide KeywordVal, WordAt, EqualIgnoringCase, ToLower;
    KnownStarts(s);
    if hit: nat :| IsKeyword(hit) && EqualIgnoringCase(s, WordAt(hit).key) {
      LastNoOws(s, hit);
    } else {
      ProbeMisses(s);
    }
  }

  lemma LastNoOws(s: string, slot: nat)
    requires IsKeyword(slot) && EqualIgnoringCase(s, WordAt(slot).key) && s != "" && TrimStart(s) == s
    ensures Trim(s) == s
  {
    hide WordAt, ToLower;
    WordNoOws(slot, |s| - 1);
    LowerOws(s[|s| - 1]);
  }
}
