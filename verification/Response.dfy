/** The response record and its printer, and reading a printed field section back. */
module Response {
  import opened Strings
  import opened Message
  import opened Headers
  import opened HeadersProof

  type Field = (string, string)

  function DecPrint(n: nat): string {
    if n < 10 then [('0' as int + n) as char] else DecPrint(n / 10) + [('0' as int + n % 10) as char]
  }

  function StatusLine(statusCode: nat, reason: string): string {
    "HTTP/1.1 " + DecPrint(statusCode) + " " + reason + "\r\n"
  }

  /** s starts with a status line (RFC 9112 section 4) that reads as this code and
      this reason, and goes on with rest. */
  predicate ReadsStatus(s: string, code: nat, reason: string, rest: string) {
    match FindCrlf(s, 0)
    case None => false
    case Some(e) =>
      match FindChar(s, ' ', 9)
      case None => false
      case Some(k) =>
        && 9 < k < e && s[..9] == "HTTP/1.1 "
        && All(s[9..k], IsDigit) && DecVal(s[9..k]) == code
        && s[k + 1..e] == reason && s[e + 2..] == rest
  }

  lemma {:induction false} DecReadBack(n: nat)
    ensures var s := DecPrint(n); s != "" && All(s, IsDigit) && DecVal(s) == n
  {
    if n < 10 {
      OneDigit(n);
    } else {
      DecReadBack(n / 10);
      DigitBehind(DecPrint(n / 10), n % 10);
    }
  }

  lemma OneDigit(d: nat)
    requires d < 10
    ensures var s := [('0' as int + d) as char]; All(s, IsDigit) && DecVal(s) == d
  {
    var s := [('0' as int + d) as char];
    assert s[..0] == "";
  }

  lemma DigitBehind(s: string, d: nat)
    requires All(s, IsDigit) && d < 10
    ensures var t := s + [('0' as int + d) as char]; All(t, IsDigit) && DecVal(t) == 10 * DecVal(s) + d
  {
    var t := s + [('0' as int + d) as char];
    assert t[..|t| - 1] == s;
  }

  /** Where the parts of a status line lie. */
  lemma StatusParts(digits: string, reason: string, rest: string)
    requires digits != "" && All(digits, IsDigit)
    ensures var s := "HTTP/1.1 " + digits + " " + reason + "\r\n" + rest;
            var k, e := 9 + |digits|, 10 + |digits| + |reason|;
            && s[..9] == "HTTP/1.1 " && FindChar(s, ' ', 9) == Some(k) && s[9..k] == digits
            && s[k + 1..e] == reason && CrlfAt(s, e) && s[e + 2..] == rest
            && (forall i :: 0 <= i <= k ==> !CrlfAt(s, i))
            && (forall i :: k < i < e ==> (CrlfAt(s, i) <==> CrlfAt(reason, i - k - 1)))
  {
    var s := "HTTP/1.1 " + digits + " " + reason + "\r\n" + rest;
    var k, e := 9 + |digits|, 10 + |digits| + |reason|;
    assert forall i :: 9 <= i < k ==> s[i] == digits[i - 9] && IsDigit(digits[i - 9]);
    assert forall i :: k < i < e ==> s[i] == reason[i - k - 1];
    assert s[k] == ' ' && s[e] == '\r' && s[e + 1] == '\n';
    FindCharIs(s, ' ', 9, k);
    assert s[..9] == "HTTP/1.1 ";
    assert forall i :: 0 <= i < 9 ==> s[i] == "HTTP/1.1 "[i];
  }

  /** A printed status line reads back, whatever follows it, if and only if its
      reason holds no line end. */
  lemma StatusReadBack(code: nat, reason: string, rest: string)
    ensures ReadsStatus(StatusLine(code, reason) + rest, code, reason, rest) <==> FindCrlf(reason, 0) == None
  {
    hide DecPrint, FindChar, FindCrlf, DecVal;
    var digits := DecPrint(code);
    var s := "HTTP/1.1 " + digits + " " + reason + "\r\n" + rest;
    DecReadBack(code);
    StatusParts(digits, reason, rest);
    assert StatusLine(code, reason) + rest == s;
    var k, e := 9 + |digits|, 10 + |digits| + |reason|;
    match FindCrlf(reason, 0)
    case None => FindCrlfIs(s, 0, e);
    case Some(i) =>
      assert CrlfAt(s, k + 1 + i);
      assert FindCrlf(s, 0).value <= k + 1 + i < e;
  }

  function Line(f: Field): string { f.0 + ": " + f.1 }

  function Section(order: seq<Field>): string {
    if order == [] then "" else Line(order[0]) + "\r\n" + Section(order[1..])
  }

  function Tail(content: string): string {
    if content == "" then "" else "\r\n" + content
  }

  /** order lists the entries of the map, each once. */
  predicate Lists(order: seq<Field>, fields: map<string, string>) {
    && |order| == |fields|
    && (forall i :: 0 <= i < |order| ==> order[i].0 in fields && fields[order[i].0] == order[i].1)
    && (forall i, j :: 0 <= i < j < |order| ==> order[i].0 != order[j].0)
  }

  lemma {:induction false} SectionAppend(order: seq<Field>, f: Field)
    ensures Section(order + [f]) == Section(order) + Line(f) + "\r\n"
  {
    if order == [] {
      assert order + [f] == [f] && [f][1..] == [];
    } else {
      assert (order + [f])[1..] == order[1..] + [f];
      SectionAppend(order[1..], f);
    }
  }

  class Resp {
    var statusCode: nat
    var reason: string
    var fields: map<string, string>
    var content: string

    constructor ()
      ensures fields == map[] && content == ""
    {
      statusCode, reason, fields, content := 0, "", map[], "";
    }

    method PutHeader(header: string, value: string)
      modifies this`fields
      ensures fields == old(fields)[header := value]
    {
      fields := fields[header := value];
    }

    /** Whatever order the hash map is walked in, every entry is printed once. */
    method ToStr() returns (s: string, ghost order: seq<Field>)
      ensures Lists(order, fields)
      ensures s == StatusLine(statusCode, reason) + Section(order) + Tail(content)
      ensures FindCrlf(reason, 0) == None ==> ReadsStatus(s, statusCode, reason, Section(order) + Tail(content))
    {
      hide FindCrlf, ReadsStatus, Tail;
      s := StatusLine(statusCode, reason);
      order := [];
      var left := fields.Keys;
      assert |left| == |fields|;
      while left != {}
        invariant left <= fields.Keys && |order| + |left| == |fields|
        invariant forall i :: 0 <= i < |order| ==>
                    order[i].0 in fields && fields[order[i].0] == order[i].1 && order[i].0 !in left
        invariant forall i, j :: 0 <= i < j < |order| ==> order[i].0 != order[j].0
        invariant s == StatusLine(statusCode, reason) + Section(order)
        decreases |left|
      {
        var name :| name in left;
        var f := (name, fields[name]);
        SectionAppend(order, f);
        s := s + Line(f) + "\r\n";
        order := order + [f];
        left := left - {name};
      }
      if content != "" {
        s := s + "\r\n" + content;
      }
      StatusReadBack(statusCode, reason, Section(order) + Tail(content));
      StatusThen(StatusLine(statusCode, reason), Section(order), content);
    }
  }

  lemma StatusThen(line: string, fields: string, content: string)
    ensures line + fields + Tail(content) == line + (fields + Tail(content))
    ensures Tail(content) == if content == "" then "" else "\r\n" + content
    ensures line + fields + "" == line + fields
    ensures line + fields + "\r\n" + content == line + fields + ("\r\n" + content)
  {
  }

  // ------------------------------------------------------------ round trip

  predicate IsField(f: Field) {
    && ':' !in f.0 && '\r' !in f.0 && '\r' !in f.1
    && f.1 != "" && f.1[0] != ' '
    && Lowercase(f.0) != HOST
  }

  predicate AreFields(order: seq<Field>) {
    && (forall i :: 0 <= i < |order| ==> IsField(order[i]))
    && (forall i, j :: 0 <= i < j < |order| ==> Lowercase(order[i].0) != Lowercase(order[j].0))
  }

  /** The fields with their names in lower case, added to m. */
  function Lowered(m: map<string, string>, order: seq<Field>): map<string, string>
    decreases |order|
  {
    if order == [] then m else Lowered(m[Lowercase(order[0].0) := order[0].1], order[1..])
  }

  function LineTexts(order: seq<Field>): seq<string> {
    if order == [] then [] else [Line(order[0])] + LineTexts(order[1..])
  }

  lemma FieldReadBack(r: ReqV, f: Field)
    requires IsField(f) && Lowercase(f.0) !in r.fields
    ensures WithFieldLine(r, Line(f)) == r.(fields := r.fields[Lowercase(f.0) := f.1])
  {
    hide WithHostField, Lowercase;
    var line, k := Line(f), |f.0|;
    assert line[k] == ':' && line[k + 1] == ' ' && line[k + 2] == f.1[0];
    assert forall i :: 0 <= i < k ==> line[i] == f.0[i] && f.0[i] in f.0;
    assert FindChar(line, ':', 0) == Some(k);
    SpanIs(line, c => c == ' ', k + 1, k + 2);
    assert line[..k] == f.0 && line[k + 2..] == f.1;
  }

  lemma LineHasNoCrlf(f: Field)
    requires IsField(f)
    ensures '\r' !in Line(f) && Line(f) != ""
  {
    var line := Line(f);
    forall i | 0 <= i < |line| ensures line[i] != '\r' {
      assert line[i] == if i < |f.0| then f.0[i] else if i < |f.0| + 2 then ": "[i - |f.0|] else f.1[i - |f.0| - 2];
    }
  }

  lemma FirstLine(pre: string, line: string, rest: string)
    requires '\r' !in line
    ensures var s := pre + line + "\r\n" + rest;
            FindCrlf(s, |pre|) == Some(|pre| + |line|) && s[|pre|..|pre| + |line|] == line
  {
    var s := pre + line + "\r\n" + rest;
    forall i | |pre| <= i < |pre| + |line| ensures !CrlfAt(s, i) {
      assert s[i] == line[i - |pre|];
    }
    assert CrlfAt(s, |pre| + |line|);
    FindCrlfIs(s, |pre|, |pre| + |line|);
    assert s[|pre|..|pre| + |line|] == line;
  }

  lemma {:induction false} LinesOfSection(pre: string, order: seq<Field>, content: string)
    requires AreFields(order)
    ensures var s := pre + Section(order) + Tail(content);
            var e := |pre| + |Section(order)|;
            && Lines(s, |pre|) == LineTexts(order) && LinesEnd(s, |pre|) == e
            && (BlankAt(s, e) <==> content != "")
    decreases |order|
  {
    hide *;
    var s := pre + Section(order) + Tail(content);
    if order == [] {
      NoSection(pre, order, content);
    } else {
      var pre' := pre + Line(order[0]) + "\r\n";
      SectionCons(pre, order, content);
      LinesOfSection(pre', order[1..], content);
    }
  }

  lemma NoSection(pre: string, order: seq<Field>, content: string)
    requires order == []
    ensures var s := pre + Section(order) + Tail(content);
            var e := |pre| + |Section(order)|;
            && Lines(s, |pre|) == LineTexts(order) && LinesEnd(s, |pre|) == e
            && (BlankAt(s, e) <==> content != "")
  {
    hide FindCrlf, Tail, BlankAt;
    NoLine(pre, content);
    assert pre + Section(order) + Tail(content) == pre + Tail(content);
  }

  lemma {:induction false} SectionCons(pre: string, order: seq<Field>, content: string)
    requires order != [] && AreFields(order)
    ensures var s := pre + Section(order) + Tail(content);
            var pre' := pre + Line(order[0]) + "\r\n";
            && s == pre' + Section(order[1..]) + Tail(content)
            && Lines(s, |pre|) == [Line(order[0])] + Lines(s, |pre'|) && LinesEnd(s, |pre|) == LinesEnd(s, |pre'|)
            && LineTexts(order) == [Line(order[0])] + LineTexts(order[1..]) && AreFields(order[1..])
            && |pre| + |Section(order)| == |pre'| + |Section(order[1..])|
  {
    hide FindCrlf, Tail, IsField, Line, Lowercase;
    var line, more := Line(order[0]), Section(order[1..]);
    LineHasNoCrlf(order[0]);
    FirstLine(pre, line, more + Tail(content));
    Regroup(pre, line, more, Tail(content));
  }

  lemma Regroup(pre: string, line: string, more: string, tail: string)
    ensures var s := pre + (line + "\r\n" + more) + tail;
            s == pre + line + "\r\n" + (more + tail) == pre + line + "\r\n" + more + tail
  {
  }

  lemma NoLine(pre: string, content: string)
    ensures var s := pre + Tail(content);
            FindCrlf(s, |pre|) == (if content == "" then None else Some(|pre|)) && (BlankAt(s, |pre|) <==> content != "")
  {
    var s := pre + Tail(content);
    if content != "" {
      assert CrlfAt(s, |pre|);
    }
  }

  lemma {:induction false} ApplyFields(r: ReqV, order: seq<Field>)
    requires AreFields(order) && !Dead(r)
    requires forall i :: 0 <= i < |order| ==> Lowercase(order[i].0) !in r.fields
    ensures Apply(r, LineTexts(order)) == r.(fields := Lowered(r.fields, order))
    decreases |order|
  {
    hide WithFieldLine, Line, Lowercase;
    if order != [] {
      FieldReadBack(r, order[0]);
      var r1 := r.(fields := r.fields[Lowercase(order[0].0) := order[0].1]);
      assert LineTexts(order)[1..] == LineTexts(order[1..]);
      ApplyFields(r1, order[1..]);
    }
  }

  /** What ToStr prints behind the status line, in any order of the fields, is
      read back as the fields with lower-case names and without an error; the
      section is seen to end, with the index at the first content byte, if and only
      if there is content. A response without content prints no blank line. */
  lemma FieldSectionRoundTrip(r: ReqV, pre: string, order: seq<Field>, content: string, done: nat)
    requires AreFields(order) && Open(r) && r.fields == map[]
    ensures var s := pre + Section(order) + Tail(content);
            var e := |pre| + |Section(order)|;
            FieldLoop(r, s, |pre|, done)
            == if content == "" then (r.(fields := Lowered(map[], order)), e)
               else (r.(fields := Lowered(map[], order), parseState := Content), e + 2)
  {
    hide FieldLoop, FindCrlf, Apply, Lines, LinesEnd, BlankAt;
    LinesOfSection(pre, order, content);
    ApplyFields(r, order);
    LoopIsApply(r, pre + Section(order) + Tail(content), |pre|, done);
  }

  /** The map read back is the printed map up to the case of its names. */
  lemma {:induction false} LoweredHolds(m: map<string, string>, order: seq<Field>, name: string)
    requires AreFields(order)
    ensures var l := Lowered(m, order);
            && (name in l <==> name in m || exists i :: 0 <= i < |order| && Lowercase(order[i].0) == name)
            && (forall i :: 0 <= i < |order| && Lowercase(order[i].0) == name ==> l[name] == order[i].1)
            && (name in m && (forall i :: 0 <= i < |order| ==> Lowercase(order[i].0) != name) ==> l[name] == m[name])
    decreases |order|
  {
    hide Lowercase, IsField;
    if order != [] {
      LoweredHolds(m[Lowercase(order[0].0) := order[0].1], order[1..], name);
      assert forall i :: 0 < i < |order| ==> order[i] == order[1..][i - 1];
    }
  }
}
