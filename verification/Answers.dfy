/** What a client reads of the text the server sends: the status line of the answer or
    of the error, and its fields. */
module Answers {
  import opened Strings
  import opened Message
  import opened Headers
  import opened HeadersProof
  import opened Response
  import opened Transport
  import opened Connection

  /** s reads as this status line and, behind it, as these fields in some order and
      this content. */
  ghost predicate ReadsAs(s: string, code: nat, reason: string, fields: map<string, string>, content: string) {
    exists order :: Lists(order, fields) && ReadsStatus(s, code, reason, Section(order) + Tail(content))
  }

  /** Where the fields of such a text start. */
  function FieldsStart(s: string): nat {
    match FindCrlf(s, 0) case Some(e) => e + 2 case None => 0
  }

  /** The code and the words of an error, as they are printed. */
  function Words(e: Err): (string, string) {
    match e
    case BadRequest => ("400", "Bad Request")
    case NotFound => ("404", "Not Found")
    case LengthRequired => ("411", "Length Required")
    case UnsupportedMediaType => ("415", "Unsupported Media Type")
    case MisdirectedRequest => ("421", "Misdirected Request")
    case InternalServer => ("500", "Internal Server Error")
    case NotImplemented => ("501", "Not Implemented")
    case NoErr => ("0", "")
  }

  function ErrorLine(e: Err): string {
    "HTTP/1.1 " + Words(e).0 + " " + Words(e).1 + "\r\n"
  }

  lemma {:induction false} ThreeDigits(s: string)
    requires |s| == 3 && All(s, IsDigit) && s[0] != '0'
    ensures DecPrint(DecVal(s)) == s
  {
    var a, b, c: nat := s[0] as int - '0' as int, s[1] as int - '0' as int, s[2] as int - '0' as int;
    DecOfThree(s);
    var n := 100 * a + 10 * b + c;
    assert n / 10 == 10 * a + b && n % 10 == c;
    assert (n / 10) / 10 == a && (n / 10) % 10 == b;
    assert DecPrint(a) == [s[0]];
    assert DecPrint(n / 10) == DecPrint(a) + [s[1]];
  }

  lemma DecOfThree(s: string)
    requires |s| == 3 && All(s, IsDigit)
    ensures DecVal(s) == 100 * (s[0] as int - '0' as int) + 10 * (s[1] as int - '0' as int) + (s[2] as int - '0' as int)
  {
    assert s[..2][..1] == s[..1] && s[..1][..0] == "";
    assert DecVal(s[..1]) == s[0] as int - '0' as int;
    assert DecVal(s[..2]) == 10 * DecVal(s[..1]) + (s[1] as int - '0' as int);
  }

  /** The response of an error starts with its line. */
  lemma ErrorLineIs(e: Err)
    ensures StatusLine(StatusCode(e), Reason(e)) == ErrorLine(e)
  {
    hide DecPrint, DecVal;
    if e == NoErr {
      Zero();
    } else {
      CodeOf(e);
      ThreeDigits(Words(e).0);
    }
  }

  lemma CodeOf(e: Err)
    requires e != NoErr
    ensures var s := Words(e).0; |s| == 3 && All(s, IsDigit) && s[0] != '0' && DecVal(s) == StatusCode(e)
  {
    hide DecVal;
    DecOfThree(Words(e).0);
  }

  lemma Zero()
    ensures DecPrint(0) == "0"
  {
  }

  lemma ReasonIsPlain(e: Err)
    ensures FindCrlf(Reason(e), 0) == None
  {
    hide FindCrlf;
    assert forall i :: 0 <= i < |Reason(e)| ==> Reason(e)[i] != '\r';
    FindCrlfNot(Reason(e), 0);
  }

  lemma ErrorFieldsAre(order: seq<Field>)
    requires Lists(order, ERROR_FIELDS)
    ensures order == [("Content-Length", "0"), ("Connection", "close")] || order == [("Connection", "close"), ("Content-Length", "0")]
  {
    assert |ERROR_FIELDS| == 2;
    assert order[0].0 in ERROR_FIELDS && order[1].0 in ERROR_FIELDS;
  }

  lemma ErrorNames()
    ensures Lowercase("Content-Length") == CONTENT_LENGTH && Lowercase("Connection") == "connection"
  {
  }

  lemma ErrorFieldsRead(order: seq<Field>)
    requires Lists(order, ERROR_FIELDS)
    ensures AreFields(order) && Lowered(map[], order) == map[CONTENT_LENGTH := "0", "connection" := "close"]
  {
    hide Lowercase, Lists;
    ErrorFieldsAre(order);
    ErrorNames();
    assert order[1..] == [order[1]] && order[1..][1..] == [];
    assert Lowered(map[Lowercase(order[0].0) := order[0].1], order[1..])
           == map[Lowercase(order[0].0) := order[0].1][Lowercase(order[1].0) := order[1].1];
  }

  /** An error's response reads as its code and reason, with no content, a length of 0
      and the connection to be closed. */
  lemma ErrorReadsBack(s: string, e: Err, r: ReqV, done: nat)
    requires IsErrorText(s, e) && Open(r) && r.fields == map[]
    ensures ErrorLine(e) <= s && ReadsAs(s, StatusCode(e), Reason(e), ERROR_FIELDS, "")
    ensures FieldLoop(r, s, FieldsStart(s), done)
            == (r.(fields := map[CONTENT_LENGTH := "0", "connection" := "close"]), |s|)
  {
    hide Lists, StatusLine, Section, FieldLoop, ReadsStatus, AreFields, Lowered, StatusCode, Reason, Words, ERROR_FIELDS;
    var order :| Lists(order, ERROR_FIELDS) && s == StatusLine(StatusCode(e), Reason(e)) + Section(order);
    ErrorLineIs(e);
    ReasonIsPlain(e);
    StatusReadBack(StatusCode(e), Reason(e), Section(order));
    NoTail(Section(order));
    ErrorFieldsRead(order);
    FieldsReadBack(s, StatusCode(e), Reason(e), order, "", r, done);
  }

  lemma NoTail(s: string)
    ensures s + Tail("") == s
  {
  }

  lemma FieldsReadBack(s: string, code: nat, reason: string, order: seq<Field>, content: string, r: ReqV, done: nat)
    requires ReadsStatus(s, code, reason, Section(order) + Tail(content))
    requires AreFields(order) && Open(r) && r.fields == map[]
    ensures FieldLoop(r, s, FieldsStart(s), done)
            == if content == "" then (r.(fields := Lowered(map[], order)), |s|)
               else (r.(fields := Lowered(map[], order), parseState := ParseState.Content), |s| - |content|)
  {
    hide Section, FieldLoop, AreFields, Lowered, FindCrlf, FindChar, DecVal;
    var k := FieldsStart(s);
    var pre := s[..k];
    assert s == pre + Section(order) + Tail(content);
    assert |Tail(content)| == if content == "" then 0 else 2 + |content|;
    FieldSectionRoundTrip(r, pre, order, content, done);
  }

  /** So does the answer to a routed request, unless its text is too long or holds a
      NUL, which cuts it off, or its reason a line end. */
  lemma AnswerReadsBack(s: string, routed: Routed)
    requires IsAnswer(s, routed) && FindCrlf(routed.reason, 0) == None
    requires forall order :: Lists(order, routed.fields) ==>
               |AnswerText(routed, order)| < U32 && Plain(AnswerText(routed, order))
    ensures ReadsAs(s, routed.statusCode, routed.reason, routed.fields, routed.content)
  {
    hide Lists, StatusLine, Section, Tail, ReadsStatus, Padded, Plain;
    var order :| Lists(order, routed.fields)
      && (|AnswerText(routed, order)| < U32 ==> s == Padded(AnswerText(routed, order)));
    var rest := Section(order) + Tail(routed.content);
    PlainIsKept(AnswerText(routed, order));
    StatusReadBack(routed.statusCode, routed.reason, rest);
    JoinBytes(StatusLine(routed.statusCode, routed.reason), Section(order), Tail(routed.content));
  }

  lemma PlainIsKept(s: string)
    requires Plain(s)
    ensures Padded(s) == s
  {
    PaddedIff(s);
  }
}
