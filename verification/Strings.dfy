/** The parts of std::string_view the server relies on: searching, whole-string
    character tests, ASCII classification and the integer readers. */
module Strings {

  datatype Option<+T> = None | Some(value: T)

  /** How a C++ call can leave the model: by an exception nobody catches, or by
      undefined or unbounded behaviour. */
  datatype Fault = NoFault | Throws | Wild

  /** Exclusive bound of the 32-bit cursors and counters. */
  const U32 := 0x1_0000_0000
  const INT_MAX := 0x7fff_ffff

  // ---------------------------------------------------------------- search

  function FindChar(s: string, c: char, from: nat): (r: Option<nat>)
    ensures r.Some? ==> from <= r.value < |s| && s[r.value] == c
    ensures r.Some? ==> forall i :: from <= i < r.value ==> s[i] != c
    ensures r.None? ==> forall i :: from <= i < |s| ==> s[i] != c
    decreases |s| - from
  {
    if from >= |s| then None
    else if s[from] == c then Some(from)
    else FindChar(s, c, from + 1)
  }

  predicate PairAt(s: string, a: char, b: char, i: int) {
    0 <= i && i + 1 < |s| && s[i] == a && s[i + 1] == b
  }

  function FindPair(s: string, a: char, b: char, from: nat): (r: Option<nat>)
    ensures r.Some? ==> from <= r.value && PairAt(s, a, b, r.value)
    ensures r.Some? ==> forall i :: from <= i < r.value ==> !PairAt(s, a, b, i)
    ensures r.None? ==> forall i :: from <= i ==> !PairAt(s, a, b, i)
    decreases |s| - from
  {
    if from + 1 >= |s| then None
    else if PairAt(s, a, b, from) then Some(from)
    else FindPair(s, a, b, from + 1)
  }

  predicate CrlfAt(s: string, i: int) {
    PairAt(s, '\r', '\n', i)
  }

  function FindCrlf(s: string, from: nat): (r: Option<nat>)
    ensures r.Some? ==> from <= r.value && CrlfAt(s, r.value)
    ensures r.Some? ==> forall i :: from <= i < r.value ==> !CrlfAt(s, i)
    ensures r.None? ==> forall i :: from <= i ==> !CrlfAt(s, i)
  {
    FindPair(s, '\r', '\n', from)
  }

  /** A search that succeeds on a prefix of the buffer succeeds at the same place
      on the whole buffer; one that fails on the buffer fails on the prefix. */
  lemma FindCrlfPrefix(s: string, n: nat, from: nat)
    requires n <= |s|
    ensures FindCrlf(s[..n], from).Some? ==> FindCrlf(s, from) == FindCrlf(s[..n], from)
    ensures FindCrlf(s[..n], from).None? && FindCrlf(s, from).Some? ==> n < FindCrlf(s, from).value + 2
  {
    var p := s[..n];
    assert forall i :: CrlfAt(p, i) ==> CrlfAt(s, i);
    assert forall i :: CrlfAt(s, i) && i + 1 < n ==> CrlfAt(p, i);
    if FindCrlf(p, from).Some? {
      var k := FindCrlf(p, from).value;
      assert CrlfAt(s, k);
      var q := FindCrlf(s, from).value;
      assert q + 1 < n ==> CrlfAt(p, q);
    }
  }

  /** Where a search must land: nothing before k, a hit at k. */
  lemma FindCrlfIs(s: string, from: nat, k: nat)
    requires from <= k && CrlfAt(s, k)
    requires forall i :: from <= i < k ==> !CrlfAt(s, i)
    ensures FindCrlf(s, from) == Some(k)
  {
  }

  // -------------------------------------------------------- classification

  lemma FindCharIs(s: string, c: char, from: nat, k: nat)
    requires from <= k < |s| && s[k] == c
    requires forall i :: from <= i < k ==> s[i] != c
    ensures FindChar(s, c, from) == Some(k)
  {
  }

  lemma FindCharNot(s: string, c: char, from: nat)
    requires forall i :: from <= i < |s| ==> s[i] != c
    ensures FindChar(s, c, from) == None
  {
  }

  lemma FindCrlfNot(s: string, from: nat)
    requires forall i :: from <= i ==> !CrlfAt(s, i)
    ensures FindCrlf(s, from) == None
  {
  }

  predicate IsDigit(c: char) { '0' <= c <= '9' }

  predicate IsUpper(c: char) { 'A' <= c <= 'Z' }

  predicate IsAlpha(c: char) { IsUpper(c) || 'a' <= c <= 'z' }

  predicate IsHex(c: char) { IsDigit(c) || 'A' <= c <= 'F' || 'a' <= c <= 'f' }

  predicate IsSpace(c: char) {
    c == ' ' || c == '\t' || c == '\n' || c == '\r' || c as int == 11 || c as int == 12
  }

  function ToLower(c: char): char {
    if IsUpper(c) then (c as int + 32) as char else c
  }

  function Lowercase(s: string): (r: string)
    ensures |r| == |s| && forall i :: 0 <= i < |s| ==> r[i] == ToLower(s[i])
  {
    seq(|s|, i requires 0 <= i < |s| => ToLower(s[i]))
  }

  predicate All(s: string, p: char -> bool) {
    forall i :: 0 <= i < |s| ==> p(s[i])
  }

  /** utils::parse_pattern: one pass over the range. */
  method ParsePattern(s: string, p: char -> bool) returns (pass: bool)
    ensures pass == All(s, p)
  {
    for i := 0 to |s|
      invariant forall k :: 0 <= k < i ==> p(s[k])
    {
      if !p(s[i]) {
        return false;
      }
    }
    return true;
  }

  // ------------------------------------------------------- integer readers

  function HexDigit(c: char): (d: nat)
    requires IsHex(c)
    ensures d < 16
  {
    if IsDigit(c) then c as int - '0' as int
    else if IsUpper(c) then c as int - 'A' as int + 10
    else c as int - 'a' as int + 10
  }

  function HexVal(s: string): nat
    requires All(s, IsHex)
  {
    if s == "" then 0 else 16 * HexVal(s[..|s| - 1]) + HexDigit(s[|s| - 1])
  }

  function DecVal(s: string): nat
    requires All(s, IsDigit)
  {
    if s == "" then 0 else 10 * DecVal(s[..|s| - 1]) + (s[|s| - 1] as int - '0' as int)
  }

  /** Length of the longest prefix of s[from..] all of whose characters satisfy p. */
  function Span(s: string, p: char -> bool, from: nat): (e: nat)
    requires from <= |s|
    ensures from <= e <= |s|
    ensures forall i :: from <= i < e ==> p(s[i])
    ensures e < |s| ==> !p(s[e])
    decreases |s| - from
  {
    if from < |s| && p(s[from]) then Span(s, p, from + 1) else from
  }

  /** std::stoi: leading white space, an optional sign, decimal digits, the rest
      ignored; None is an exception (no digits, or out of the range of int). */
  function Stoi(s: string): Option<int> {
    var a := Span(s, IsSpace, 0);
    var neg := a < |s| && s[a] == '-';
    var b := if a < |s| && (s[a] == '-' || s[a] == '+') then a + 1 else a;
    var e := Span(s, IsDigit, b);
    if e == b then None
    else
      var v: int := if neg then 0 - DecVal(s[b..e]) else DecVal(s[b..e]);
      if -INT_MAX - 1 <= v <= INT_MAX then Some(v) else None
  }

  /** `ss << std::hex << s; ss >> n` for an unsigned 32-bit n: leading white
      space, optional sign, optional 0x, hexadecimal digits, the rest ignored;
      no digits read as 0 and an overflow as the largest value. */
  function HexRead(s: string): (n: nat)
    ensures n < U32
  {
    var a := Span(s, IsSpace, 0);
    var neg := a < |s| && s[a] == '-';
    var b := if a < |s| && (s[a] == '-' || s[a] == '+') then a + 1 else a;
    var c := if b + 1 < |s| && s[b] == '0' && (s[b + 1] == 'x' || s[b + 1] == 'X') then b + 2 else b;
    var v := HexVal(s[c..Span(s, IsHex, c)]);
    if v >= U32 then U32 - 1
    else if neg && v > 0 then U32 - v
    else v
  }

  lemma SpanIs(s: string, p: char -> bool, from: nat, e: nat)
    requires from <= e <= |s|
    requires forall i :: from <= i < e ==> p(s[i])
    requires e < |s| ==> !p(s[e])
    ensures Span(s, p, from) == e
  {
    var f := Span(s, p, from);
    assert f < |s| ==> !p(s[f]);
    assert e < |s| ==> !p(s[e]);
  }

  /** Digits followed by anything that is not a digit read as the digits alone. */
  lemma HexReadDigits(digits: string, rest: string)
    requires digits != "" && All(digits, IsHex) && HexVal(digits) < U32
    requires rest != "" ==> !IsHex(rest[0]) && rest[0] != 'x' && rest[0] != 'X'
    ensures HexRead(digits + rest) == HexVal(digits)
  {
    hide Span, HexVal;
    var s := digits + rest;
    assert s[0] == digits[0];
    assert IsHex(digits[0]);
    SpanIs(s, IsSpace, 0, 0);
    if |s| > 1 {
      assert s[1] == if |digits| > 1 then digits[1] else rest[0];
    }
    SpanIs(s, IsHex, 0, |digits|);
    assert s[0..|digits|] == digits;
  }

  lemma StoiDigits(digits: string)
    requires digits != "" && All(digits, IsDigit)
    ensures Stoi(digits) == if DecVal(digits) <= INT_MAX then Some(DecVal(digits)) else None
  {
    assert IsDigit(digits[0]);
    SpanIs(digits, IsSpace, 0, 0);
    SpanIs(digits, IsDigit, 0, |digits|);
    assert digits[0..|digits|] == digits;
  }

  // --------------------------------------------------- what the readers read

  predicate IsSign(sign: string) {
    sign == "" || sign == "-" || sign == "+"
  }

  /** White space, a sign, digits, and what is not one. */
  predicate IsNumeral(space: string, sign: string, digits: string, rest: string, p: char -> bool) {
    All(space, IsSpace) && IsSign(sign) && digits != "" && All(digits, p) && (rest != "" ==> !p(rest[0]))
  }

  lemma NumeralMarks(space: string, sign: string, digits: string, rest: string)
    requires All(space, IsSpace) && IsSign(sign) && digits != "" && !IsSpace(digits[0]) && digits[0] !in "+-"
    ensures var s := space + sign + digits + rest;
            var a, b := |space|, |space| + |sign|;
            && Span(s, IsSpace, 0) == a && a < |s| && (s[a] == '-' <==> sign == "-") && (s[a] == '+' <==> sign == "+")
            && s[b..] == digits + rest
  {
    hide Span;
    var s := space + sign + digits + rest;
    assert s == space + (sign + (digits + rest));
    assert s[|space|] == if sign == "" then digits[0] else sign[0];
    assert forall i :: 0 <= i < |space| ==> s[i] == space[i];
    SpanIs(s, IsSpace, 0, |space|);
  }

  lemma DigitsEnd(s: string, b: nat, digits: string, rest: string, p: char -> bool)
    requires b <= |s| && s[b..] == digits + rest && All(digits, p) && (rest != "" ==> !p(rest[0]))
    ensures Span(s, p, b) == b + |digits| && s[b..b + |digits|] == digits
  {
    hide Span;
    assert forall i :: b <= i < b + |digits| ==> s[i] == s[b..][i - b] == digits[i - b];
    assert rest != "" ==> s[b + |digits|] == s[b..][|digits|] == rest[0];
    SpanIs(s, p, b, b + |digits|);
    assert s[b..b + |digits|] == s[b..][..|digits|];
  }

  /** stoi reads such a text as the number, if an int can hold it, and else throws. */
  lemma StoiReads(space: string, sign: string, digits: string, rest: string)
    requires IsNumeral(space, sign, digits, rest, IsDigit)
    ensures var v: int := if sign == "-" then 0 - DecVal(digits) else DecVal(digits);
            Stoi(space + sign + digits + rest) == if -INT_MAX - 1 <= v <= INT_MAX then Some(v) else None
  {
    hide Span, DecVal;
    assert IsDigit(digits[0]);
    NumeralMarks(space, sign, digits, rest);
    DigitsEnd(space + sign + digits + rest, |space| + |sign|, digits, rest, IsDigit);
  }

  predicate IsPrefixAt(s: string, b: nat) {
    b + 1 < |s| && s[b] == '0' && (s[b + 1] == 'x' || s[b + 1] == 'X')
  }

  function HexValue(sign: string, digits: string): nat
    requires All(digits, IsHex)
  {
    var v := HexVal(digits);
    if v >= U32 then U32 - 1 else if sign == "-" && v > 0 then U32 - v else v
  }

  lemma HexAt(s: string, a: nat, sign: string, c: nat, digits: string)
    requires Span(s, IsSpace, 0) == a < |s| && IsSign(sign) && (s[a] == '-' <==> sign == "-") && (s[a] == '+' <==> sign == "+")
    requires c == (if IsPrefixAt(s, a + |sign|) then a + |sign| + 2 else a + |sign|) && All(digits, IsHex)
    requires c <= |s| && Span(s, IsHex, c) == c + |digits| && s[c..c + |digits|] == digits
    ensures HexRead(s) == HexValue(sign, digits)
  {
    hide Span, HexVal;
  }

  /** The stream reads it as the number, with or without a prefix: one that 32 bits
      cannot hold as the largest, a negative one modulo 2^32. */
  lemma HexReads(space: string, sign: string, prefix: string, digits: string, rest: string)
    requires IsNumeral(space, sign, digits, rest, IsHex) && (prefix == "" || prefix == "0x" || prefix == "0X")
    requires rest != "" ==> rest[0] != 'x' && rest[0] != 'X'
    ensures HexRead(space + sign + (prefix + digits) + rest) == HexValue(sign, digits)
  {
    hide Span, HexVal, HexRead, HexValue, All, IsSign, IsPrefixAt;
    var s, a, b := space + sign + (prefix + digits) + rest, |space|, |space| + |sign|;
    var c := b + |prefix|;
    HexStart(prefix, digits);
    NumeralMarks(space, sign, prefix + digits, rest);
    PrefixSeen(s, b, prefix, digits, rest);
    DigitsEnd(s, c, digits, rest, IsHex);
    HexAt(s, a, sign, c, digits);
  }

  lemma HexStart(prefix: string, digits: string)
    requires digits != "" && All(digits, IsHex) && (prefix == "" || prefix == "0x" || prefix == "0X")
    ensures var t := prefix + digits; t != "" && !IsSpace(t[0]) && t[0] !in "+-"
  {
    assert IsHex(digits[0]);
  }

  lemma PrefixSeen(s: string, b: nat, prefix: string, digits: string, rest: string)
    requires b <= |s| && s[b..] == prefix + digits + rest && digits != "" && All(digits, IsHex)
    requires (prefix == "" || prefix == "0x" || prefix == "0X") && (rest != "" ==> rest[0] != 'x' && rest[0] != 'X')
    ensures IsPrefixAt(s, b) <==> prefix != ""
    ensures b + |prefix| <= |s| && s[b + |prefix|..] == digits + rest
  {
    var t := prefix + digits + rest;
    assert s[b] == t[0] && (b + 1 < |s| ==> s[b + 1] == t[1]);
    assert |digits| > 1 ==> IsHex(digits[1]);
    assert t[|prefix|..] == digits + rest;
    assert s[b + |prefix|..] == s[b..][|prefix|..];
  }
}
