/** The generated perfect-hash keyword table. */
module Keywords {
  import opened Strings

  datatype Kvp = Kvp(key: string, value: nat)

  const NUL: char := 0 as char
  const MIN_WORD_LENGTH := 3
  const MAX_WORD_LENGTH := 11
  const MAX_HASH_VALUE := 34

  /** The C view of a string: its terminator can be read. */
  function Ch(s: string, i: nat): char {
    if i < |s| then s[i] else NUL
  }

  /** asso_values, which is blind to the case of a letter. */
  function Asso(c: char): nat {
    match ToLower(c)
    case 'a' | 'k' | 'o' | 'p' | 't' | 'u' => 0
    case 'c' | 'd' | 'g' | 'h' | 'l' | 'r' => 5
    case 'e' | 'i' | 'x' => 10
    case 'j' | 's' | 'z' => 15
    case _ => 35
  }

  function Hash(s: string, len: nat): nat {
    len + Asso(Ch(s, 1)) + Asso(Ch(s, 0))
  }

  /** wordlist; a value stands for each of the enumerators that share it. */
  function WordAt(slot: nat): Kvp {
    match slot
    case 3 => Kvp("PUT", 5)
    case 4 => Kvp("POST", 2)
    case 5 => Kvp("utf-8", 1)
    case 7 => Kvp("OPTIONS", 3)
    case 9 => Kvp("html", 1)
    case 10 => Kvp("TRACE", 7)
    case 11 => Kvp("application", 1)
    case 12 => Kvp("CONNECT", 8)
    case 13 => Kvp("compress", 4)
    case 14 => Kvp("text", 2)
    case 15 => Kvp("close", 2)
    case 17 => Kvp("chunked", 1)
    case 18 => Kvp("GET", 1)
    case 19 => Kvp("HEAD", 4)
    case 20 => Kvp("keep-alive", 1)
    case 21 => Kvp("DELETE", 6)
    case 22 => Kvp("deflate", 5)
    case 23 => Kvp("identity", 2)
    case 24 => Kvp("gzip", 3)
    case 29 => Kvp("EXTENSION", 9)
    case 34 => Kvp("json", 2)
    case _ => Kvp("", 0)
  }

  function Diff(a: char, b: char): int {
    ToLower(a) as int - ToLower(b) as int
  }

  /** gperf_case_strcmp from position i on: the first difference, or 0 when both
      strings reach a NUL together. */
  function CaseCmp(s: string, t: string, i: nat): int
    decreases |s| - i
  {
    if i < |s| && Ch(s, i) != NUL && Diff(Ch(s, i), Ch(t, i)) == 0 then CaseCmp(s, t, i + 1)
    else Diff(Ch(s, i), Ch(t, i))
  }

  method CaseStrcmp(s: string, t: string) returns (d: int)
    ensures d == CaseCmp(s, t, 0)
  {
    var i := 0;
    while true
      invariant 0 <= i <= |s|
      invariant CaseCmp(s, t, 0) == CaseCmp(s, t, i)
      decreases |s| - i
    {
      var c1, c2 := ToLower(Ch(s, i)), ToLower(Ch(t, i));
      if c1 != NUL && c1 == c2 {
        i := i + 1;
        continue;
      }
      return c1 as int - c2 as int;
    }
  }

  /** A character with bit 5 cleared. */
  function WithoutBit5(c: char): int {
    c as int - 32 * (c as int / 32 % 2)
  }

  function InWordSet(s: string, len: nat): Option<Kvp> {
    if len <= MAX_WORD_LENGTH && len >= MIN_WORD_LENGTH then
      var key := Hash(s, len);
      if key <= MAX_HASH_VALUE then
        var word := WordAt(key);
        if WithoutBit5(Ch(s, 0)) == WithoutBit5(Ch(word.key, 0)) && CaseCmp(s, word.key, 0) == 0
        then Some(word) else None
      else None
    else None
  }

  function KeywordVal(s: string): nat {
    match InWordSet(s, |s| % U32)
    case Some(kvp) => kvp.value
    case None => 0
  }

  // ------------------------------------------------- the linear-search view

  predicate IsKeyword(slot: nat) {
    slot <= MAX_HASH_VALUE && WordAt(slot).key != ""
  }

  predicate EqualIgnoringCase(s: string, t: string) {
    |s| == |t| && forall i :: 0 <= i < |s| ==> ToLower(s[i]) == ToLower(t[i])
  }

  /** Reference: compare s with every word in turn. */
  function LinearSearch(s: string, slot: nat): nat
    decreases MAX_HASH_VALUE + 1 - slot
  {
    if slot > MAX_HASH_VALUE then 0
    else if IsKeyword(slot) && EqualIgnoringCase(s, WordAt(slot).key) then WordAt(slot).value
    else LinearSearch(s, slot + 1)
  }

  predicate InItsSlot(k: string, slot: nat) {
    && Hash(k, |k|) == slot
    && MIN_WORD_LENGTH <= |k| <= MAX_WORD_LENGTH
    && forall j :: 0 <= j < |k| ==> k[j] != NUL
  }

  lemma FirstSlotsFit()
    ensures InItsSlot("PUT", 3)
    ensures InItsSlot("POST", 4)
    ensures InItsSlot("utf-8", 5)
  {
    hide CaseCmp, WordAt, Lowercase;
  }

  lemma SecondSlotsFit()
    ensures InItsSlot("OPTIONS", 7)
    ensures InItsSlot("html", 9)
    ensures InItsSlot("TRACE", 10)
  {
    hide CaseCmp, WordAt, Lowercase;
  }

  lemma ThirdSlotsFit()
    ensures InItsSlot("application", 11)
    ensures InItsSlot("CONNECT", 12)
    ensures InItsSlot("compress", 13)
  {
    hide CaseCmp, WordAt, Lowercase;
  }

  lemma FourthSlotsFit()
    ensures InItsSlot("text", 14)
    ensures InItsSlot("close", 15)
    ensures InItsSlot("chunked", 17)
  {
    hide CaseCmp, WordAt, Lowercase;
  }

  lemma FifthSlotsFit()
    ensures InItsSlot("GET", 18)
    ensures InItsSlot("HEAD", 19)
    ensures InItsSlot("keep-alive", 20)
  {
    hide CaseCmp, WordAt, Lowercase;
  }

  lemma SixthSlotsFit()
    ensures InItsSlot("DELETE", 21)
    ensures InItsSlot("deflate", 22)
    ensures InItsSlot("identity", 23)
  {
    hide CaseCmp, WordAt, Lowercase;
  }

  lemma SeventhSlotsFit()
    ensures InItsSlot("gzip", 24)
    ensures InItsSlot("EXTENSION", 29)
    ensures InItsSlot("json", 34)
  {
    hide CaseCmp, WordAt, Lowercase;
  }

  /** Every word hashes to its own slot, is short enough to be looked up, and
      holds no NUL. */
  lemma {:induction false} WordsHashToTheirSlots(slot: nat)
    requires IsKeyword(slot)
    ensures InItsSlot(WordAt(slot).key, slot)
  {
    hide InItsSlot;
    FirstSlotsFit();
    SecondSlotsFit();
    ThirdSlotsFit();
    FourthSlotsFit();
    FifthSlotsFit();
    SixthSlotsFit();
    SeventhSlotsFit();
  }

  lemma {:induction false} CaseCmpEqual(s: string, t: string, i: nat)
    requires EqualIgnoringCase(s, t) && i <= |s|
    ensures CaseCmp(s, t, i) == 0
    decreases |s| - i
  {
    if i < |s| && s[i] != NUL {
      CaseCmpEqual(s, t, i + 1);
    }
  }

  /** A zero comparison with a NUL-free word: s is the word, or continues it with
      a NUL. */
  lemma {:induction false} CaseCmpZero(s: string, t: string, i: nat)
    requires CaseCmp(s, t, i) == 0 && (forall j :: 0 <= j < |t| ==> t[j] != NUL) && i <= |s| && i <= |t|
    ensures |t| <= |s|
    ensures forall j :: i <= j < |t| ==> ToLower(s[j]) == ToLower(t[j])
    ensures |t| < |s| ==> s[|t|] == NUL
    decreases |s| - i
  {
    if i < |t| {
      assert t[i] != NUL;
      CaseCmpZero(s, t, i + 1);
    }
  }

  lemma {:induction false} LinearSearchFinds(s: string, slot: nat, hit: nat)
    requires slot <= hit && IsKeyword(hit) && EqualIgnoringCase(s, WordAt(hit).key)
    requires forall k: nat :: IsKeyword(k) && EqualIgnoringCase(s, WordAt(k).key) ==> k == hit
    ensures LinearSearch(s, slot) == WordAt(hit).value
    decreases hit - slot
  {
    if slot < hit {
      LinearSearchFinds(s, slot + 1, hit);
    }
  }

  lemma {:induction false} LinearSearchMisses(s: string, slot: nat)
    requires forall k: nat :: IsKeyword(k) ==> !EqualIgnoringCase(s, WordAt(k).key)
    ensures LinearSearch(s, slot) == 0
    decreases MAX_HASH_VALUE + 1 - slot
  {
    if slot <= MAX_HASH_VALUE {
      LinearSearchMisses(s, slot + 1);
    }
  }

  lemma EqualHashEqual(s: string, slot: nat)
    requires IsKeyword(slot) && EqualIgnoringCase(s, WordAt(slot).key)
    ensures Hash(s, |s|) == slot && MIN_WORD_LENGTH <= |s| <= MAX_WORD_LENGTH
    ensures WithoutBit5(Ch(s, 0)) == WithoutBit5(Ch(WordAt(slot).key, 0))
  {
    hide WordAt, Asso, WithoutBit5, ToLower;
    var k := WordAt(slot).key;
    WordsHashToTheirSlots(slot);
    CaseBlind(s[0], k[0]);
    CaseBlind(s[1], k[1]);
  }

  lemma CaseBlind(a: char, b: char)
    requires ToLower(a) == ToLower(b)
    ensures Asso(a) == Asso(b) && WithoutBit5(a) == WithoutBit5(b)
  {
  }

  /** A longer string that compares equal up to a NUL hashes to a later slot. */
  lemma CollisionIsEqual(s: string, k: string)
    requires InItsSlot(k, Hash(s, |s|)) && CaseCmp(s, k, 0) == 0
    ensures EqualIgnoringCase(s, k)
  {
    CaseCmpZero(s, k, 0);
    assert ToLower(s[0]) == ToLower(k[0]) && ToLower(s[1]) == ToLower(k[1]);
  }

  lemma ProbeHits(s: string, hit: nat)
    requires |s| < U32 && IsKeyword(hit) && EqualIgnoringCase(s, WordAt(hit).key)
    ensures KeywordVal(s) == WordAt(hit).value
  {
    hide WordAt, Hash, CaseCmp, EqualIgnoringCase;
    EqualHashEqual(s, hit);
    CaseCmpEqual(s, WordAt(hit).key, 0);
  }

  lemma ProbeMisses(s: string)
    requires |s| < U32
    requires forall k: nat :: IsKeyword(k) ==> !EqualIgnoringCase(s, WordAt(k).key)
    ensures KeywordVal(s) == 0
  {
    hide WordAt;
    var key := Hash(s, |s|);
    if InWordSet(s, |s|).Some? {
      if IsKeyword(key) {
        WordsHashToTheirSlots(key);
        CollisionIsEqual(s, WordAt(key).key);
      } else {
        EmptySlotIsZero(key);
      }
    }
  }

  lemma EmptySlotIsZero(slot: nat)
    requires !IsKeyword(slot)
    ensures WordAt(slot).value == 0
  {
  }

  /** One probe of the perfect hash finds exactly what comparing with all 21
      words would, NULs inside the string included. The length is narrowed to 32
      bits before it is hashed, hence the bound. */
  lemma {:induction false} PerfectHashIsLinearSearch(s: string)
    requires |s| < U32
    ensures KeywordVal(s) == LinearSearch(s, 0)
  {
    if hit: nat :| IsKeyword(hit) && EqualIgnoringCase(s, WordAt(hit).key) {
      forall k: nat | IsKeyword(k) && EqualIgnoringCase(s, WordAt(k).key) ensures k == hit {
        EqualHashEqual(s, k);
        EqualHashEqual(s, hit);
      }
      ProbeHits(s, hit);
      LinearSearchFinds(s, 0, hit);
    } else {
      ProbeMisses(s);
      LinearSearchMisses(s, 0);
    }
  }

  /** A string with a value goes on, if at all, with a NUL behind a word. */
  lemma KnownIsWord(s: string) returns (slot: nat)
    requires KeywordVal(s) != 0
    ensures IsKeyword(slot) && KeywordVal(s) == WordAt(slot).value
    ensures var k := WordAt(slot).key;
            && |k| <= |s| && (|k| < |s| ==> s[|k|] == NUL)
            && forall j :: 0 <= j < |k| ==> ToLower(s[j]) == ToLower(k[j])
  {
    hide WordAt, Asso, ToLower;
    slot := Hash(s, |s| % U32);
    if !IsKeyword(slot) {
      EmptySlotIsZero(slot);
    } else {
      WordsHashToTheirSlots(slot);
      CaseCmpZero(s, WordAt(slot).key, 0);
    }
  }

  /** The six words whose enumerators are all numbered 1. */
  const ONES := ["utf-8", "html", "application", "chunked", "get", "keep-alive"]

  lemma OneSlots(slot: nat)
    requires IsKeyword(slot)
    ensures WordAt(slot).value == 1 <==> slot == 5 || slot == 9 || slot == 11 || slot == 17 || slot == 18 || slot == 20
  {
  }

  lemma OneWords()
    ensures Lowercase(WordAt(5).key) == ONES[0] && Lowercase(WordAt(9).key) == ONES[1]
    ensures Lowercase(WordAt(11).key) == ONES[2] && Lowercase(WordAt(17).key) == ONES[3]
    ensures Lowercase(WordAt(18).key) == ONES[4] && Lowercase(WordAt(20).key) == ONES[5]
  {
  }

  /** Equal but for case is equal in lower case. */
  lemma EqualLowercase(s: string, t: string)
    ensures EqualIgnoringCase(s, t) <==> Lowercase(s) == Lowercase(t)
  {
    hide ToLower;
    if Lowercase(s) == Lowercase(t) {
      forall i | 0 <= i < |s|
        ensures ToLower(s[i]) == ToLower(t[i])
      {
        assert Lowercase(s)[i] == Lowercase(t)[i];
      }
    }
  }

  lemma HasOne(s: string, slot: nat)
    requires slot == 5 || slot == 9 || slot == 11 || slot == 17 || slot == 18 || slot == 20
    requires |s| < U32 && Lowercase(s) == Lowercase(WordAt(slot).key)
    ensures KeywordVal(s) == 1
  {
    hide KeywordVal, Lowercase;
    EqualLowercase(s, WordAt(slot).key);
    ProbeHits(s, slot);
  }

  /** What the number 1 stands for: any of these words, whatever the context. */
  lemma {:induction false} OneIsAnyOf(s: string)
    requires |s| < U32
    ensures KeywordVal(s) == 1 <==> Lowercase(s) in ONES
  {
    hide KeywordVal, Lowercase, WordAt, EqualIgnoringCase, IsKeyword;
    OneWords();
    if KeywordVal(s) == 1 {
      if hit: nat :| IsKeyword(hit) && EqualIgnoringCase(s, WordAt(hit).key) {
        ProbeHits(s, hit);
        OneSlots(hit);
        EqualLowercase(s, WordAt(hit).key);
      } else {
        ProbeMisses(s);
      }
    } else if i :| 0 <= i < 6 && Lowercase(s) == ONES[i] {
      HasOne(s, [5, 9, 11, 17, 18, 20][i]);
    }
  }

  // ----------------------------------------------------------- the enumerations

  /** The enumerators in order, behind the invalid one. */
  const METHODS := ["GET", "POST", "OPTIONS", "HEAD", "PUT", "DELETE", "TRACE", "CONNECT", "EXTENSION"]
  const CODINGS := ["chunked", "identity", "gzip", "compress", "deflate"]
  const CONNECTIONS := ["keep-alive", "close"]
  const MEDIA_TYPES := ["application", "text"]
  const MEDIA_SUBTYPES := ["html", "json"]
  const CHARSETS := ["utf-8"]

  const METHOD_SLOTS: seq<nat> := [18, 4, 7, 19, 3, 21, 10, 12, 29]
  const CODING_SLOTS: seq<nat> := [17, 23, 24, 13, 22]
  const CONNECTION_SLOTS: seq<nat> := [20, 15]
  const MEDIA_TYPE_SLOTS: seq<nat> := [11, 14]
  const MEDIA_SUBTYPE_SLOTS: seq<nat> := [9, 34]

  /** The names lie in these slots, numbered from 1 on. */
  predicate Numbers(names: seq<string>, slots: seq<nat>) {
    |names| == |slots| && forall i :: 0 <= i < |names| ==>
      IsKeyword(slots[i]) && WordAt(slots[i]) == Kvp(names[i], i + 1)
  }

  lemma MethodNumbers()
    ensures Numbers(METHODS, METHOD_SLOTS)
  {
  }

  lemma CodingNumbers()
    ensures Numbers(CODINGS, CODING_SLOTS)
  {
  }

  lemma OtherNumbers()
    ensures Numbers(CONNECTIONS, CONNECTION_SLOTS) && Numbers(MEDIA_TYPES, MEDIA_TYPE_SLOTS)
    ensures Numbers(MEDIA_SUBTYPES, MEDIA_SUBTYPE_SLOTS) && Numbers(CHARSETS, [5])
  {
  }

  predicate IsEnumeration(names: seq<string>) {
    || names == METHODS || names == CODINGS || names == CONNECTIONS
    || names == MEDIA_TYPES || names == MEDIA_SUBTYPES || names == CHARSETS
  }

  lemma SlotsOf(names: seq<string>) returns (slots: seq<nat>)
    requires IsEnumeration(names)
    ensures Numbers(names, slots)
  {
    hide Numbers, METHODS, CODINGS, CONNECTIONS, MEDIA_TYPES, MEDIA_SUBTYPES, CHARSETS, METHOD_SLOTS, CODING_SLOTS;
    hide CONNECTION_SLOTS, MEDIA_TYPE_SLOTS, MEDIA_SUBTYPE_SLOTS;
    MethodNumbers();
    CodingNumbers();
    OtherNumbers();
    slots := if names == METHODS then METHOD_SLOTS else if names == CODINGS then CODING_SLOTS
             else if names == CONNECTIONS then CONNECTION_SLOTS else if names == MEDIA_TYPES then MEDIA_TYPE_SLOTS
             else if names == MEDIA_SUBTYPES then MEDIA_SUBTYPE_SLOTS else [5];
  }

  /** A word of an enumeration, in any case, has its enumerator's number. */
  lemma EnumeratorNumber(s: string, names: seq<string>, i: nat)
    requires |s| < U32 && IsEnumeration(names) && i < |names| && EqualIgnoringCase(s, names[i])
    ensures KeywordVal(s) == i + 1
  {
    hide KeywordVal, WordAt, EqualIgnoringCase, IsEnumeration;
    var slots := SlotsOf(names);
    ProbeHits(s, slots[i]);
  }
}
