/** Which error answers which request, once its headers are in. */
module Refusals {
  import opened Strings
  import opened Keywords
  import opened Message
  import opened Headers
  import opened HeadersProof
  import opened Content
  import opened Receive
  import opened Framing
  import opened FramedRuns
  import opened Addressed
  import Lists

  /** Every word read of a list field is known. */
  predicate AllKnown(r: ReqV, name: string) {
    name in r.fields ==>
      var words := Lists.Tokens(r.fields[name], 0);
      forall i :: 0 <= i < |words| ==> KeywordVal(words[i]) != 0
  }

  /** Nothing is read of it. */
  predicate NoWords(r: ReqV, name: string) {
    name in r.fields ==> Lists.Tokens(r.fields[name], 0) == []
  }

  /** A content type, if there is one, has a known type and a known subtype. */
  predicate TypeKnown(r: ReqV) {
    CONTENT_TYPE in r.fields ==>
      KeywordVal(MediaTypeText(r.fields[CONTENT_TYPE])) != 0 && KeywordVal(MediaSubtypeText(r.fields[CONTENT_TYPE])) != 0
  }

  /** A content length that is looked at is a number. */
  predicate LengthReads(r: ReqV) {
    CONTENT_LENGTH in r.fields && TRANSFER_ENCODING !in r.fields ==> IsLength(r.fields[CONTENT_LENGTH])
  }

  /** A list it cannot follow is not implemented as a transfer encoding; everything
      else wrong with the fields that are read in turn is a bad request, but a content
      type hides all of it. */
  function FieldsError(r: ReqV): Err {
    if !TypeKnown(r) then UnsupportedMediaType
    else if !LengthReads(r) || !AllKnown(r, CONTENT_ENCODING) then BadRequest
    else if !AllKnown(r, TRANSFER_ENCODING) then NotImplemented
    else NoErr
  }

  lemma {:induction false} ValuesKnown(words: seq<string>)
    ensures var (vals, known) := Lists.Values(words);
            && (known <==> forall i :: 0 <= i < |words| ==> KeywordVal(words[i]) != 0)
            && (known ==> |vals| == |words| && forall i :: 0 <= i < |words| ==> vals[i] == KeywordVal(words[i]))
    decreases |words|
  {
    hide KeywordVal;
    if words != [] {
      ValuesKnown(words[1..]);
      assert forall i :: 0 < i < |words| ==> words[i] == words[1..][i - 1];
    }
  }

  lemma ListKnown(r: ReqV, name: string)
    ensures FieldList(r, name).1 <==> AllKnown(r, name)
    ensures AllKnown(r, name) ==> (FieldList(r, name).0 == [] <==> NoWords(r, name))
  {
    hide KeywordVal, Lists.Tokens, Lists.Values;
    if name in r.fields {
      ValuesKnown(Lists.Tokens(r.fields[name], 0));
    }
  }

  lemma DefaultTypeKnown()
    ensures KeywordVal(MediaTypeText(DEFAULT_CONTENT_TYPE)) != 0 && KeywordVal(MediaSubtypeText(DEFAULT_CONTENT_TYPE)) != 0
  {
    hide KeywordVal, FindChar;
    var ct := DEFAULT_CONTENT_TYPE;
    FindCharIs(ct, '/', 0, 11);
    FindCharNot(ct, ';', 11);
    assert ct[..11] == "application" && ct[12..] == "json";
    EnumeratorNumber("application", MEDIA_TYPES, 0);
    EnumeratorNumber("json", MEDIA_SUBTYPES, 1);
  }

  lemma TypeError(r: ReqV)
    ensures WithContentType(r).err == if TypeKnown(r) then r.err else UnsupportedMediaType
  {
    hide KeywordVal, MediaTypeText, MediaSubtypeText;
    DefaultTypeKnown();
  }

  lemma LengthError(r: ReqV)
    ensures WithContentLen(r).err == if LengthReads(r) then r.err else BadRequest
    ensures WithContentLen(r).fields == r.fields
  {
    hide Stoi;
  }

  lemma ListsError(r: ReqV)
    requires !r.HasErr()
    ensures WithLists(r).err == if !AllKnown(r, CONTENT_ENCODING) then BadRequest
                                else if !AllKnown(r, TRANSFER_ENCODING) then NotImplemented else NoErr
    ensures WithLists(r).fields == r.fields && WithLists(r).transferEncodings == FieldList(r, TRANSFER_ENCODING).0
  {
    hide FieldList, AllKnown;
    ListKnown(r, CONTENT_ENCODING);
    ListKnown(r, TRANSFER_ENCODING);
  }

  lemma SameFields(r: ReqV, s: ReqV)
    requires s.fields == r.fields
    ensures TypeKnown(s) == TypeKnown(r) && LengthReads(s) == LengthReads(r)
  {
  }

  lemma ChecksError(r: ReqV, config: Config)
    requires !Dead(r) && IsHere(r.uri, config) && IsPlainTarget(r, config) && !Checked(r, config).Faulted()
    ensures Checked(r, config).err == FieldsError(r)
  {
    hide WithLists, WithContentLen, WithContentType, TypeKnown, LengthReads, AllKnown;
    var r1 := WithLists(r);
    var r2 := WithContentLen(r1);
    ListsError(r);
    LengthError(r1);
    TypeError(r2);
    SameFields(r, r1);
    SameFields(r, r2);
  }

  /** It has no way to tell where its body ends, and its method is not the one that
      need not have a body. */
  predicate LacksLength(r: ReqV) {
    NoWords(r, TRANSFER_ENCODING) && CONTENT_LENGTH !in r.fields && r.method_ != GET
  }

  lemma FramingError(p: ReqV, raw: string)
    requires !Dead(p) && HOST in p.fields
    ensures var s := WithBody(p, raw);
            && (s.err == LengthRequired <==> p.transferEncodings == [] && CONTENT_LENGTH !in p.fields && p.method_ != GET)
            && (s.err == NoErr || s.err == BadRequest || s.err == LengthRequired)
  {
    hide TransferDecoded, Finished, BadFraming;
    var t := TransferDecoded(p, p.transferEncodings, raw).0;
    TransferKeepsAddress(p, p.transferEncodings, raw);
    FinishedKeepsAddress(t, t.contentEncodings);
    FinishedKeepsAddress(p, p.contentEncodings);
    if p.contentLen <= |raw| {
      FinishedKeepsAddress(p.(content := raw[..p.contentLen]), p.contentEncodings);
    }
  }

  /** The error of a request that is for this server and whose target and host are as
      they must be. */
  lemma ContentError(r: ReqV, raw: string, config: Config)
    requires !Dead(r) && IsHere(r.uri, config) && IsPlainTarget(r, config) && !WithContent(r, raw, config).Faulted()
    ensures var s := WithContent(r, raw, config);
            if FieldsError(r) != NoErr then s.err == FieldsError(r)
            else if LacksLength(r) then s.err == LengthRequired
            else s.err == NoErr || s.err == BadRequest
  {
    hide Checked, WithBody, IsHere, IsPlainTarget, FieldsError, NoWords, FieldList, AllKnown;
    var p := Checked(r, config);
    CheckedDecides(r, config);
    CheckedFault(r, raw, config);
    ChecksError(r, config);
    if FieldsError(r) == NoErr {
      NoFieldsError(r);
      ListKnown(r, TRANSFER_ENCODING);
      CheckedReads(r, config);
      HostStays(r, config);
      FramingError(p, raw);
    }
  }

  lemma NoFieldsError(r: ReqV)
    requires FieldsError(r) == NoErr
    ensures AllKnown(r, TRANSFER_ENCODING)
  {
  }

  lemma HostStays(r: ReqV, config: Config)
    requires !Dead(r) && IsHere(r.uri, config) && IsPlainTarget(r, config)
    ensures HOST in Checked(r, config).fields
  {
    hide Checked;
    CheckedDecides(r, config);
  }

  /** A fault of the checks is the end of it. */
  lemma CheckedFault(r: ReqV, raw: string, config: Config)
    ensures Checked(r, config).Faulted() ==> WithContent(r, raw, config) == Checked(r, config)
  {
    hide Checked, WithBody;
  }

  /** So is the answer: a call that finds the headers in and does not crash rejects
      exactly the requests with an error, and with this one. */
  lemma RejectedFor(c: ConnV, raw: string, config: Config)
    requires HeadersIn(c, raw) && Received(c, raw, config).1 != Crash
    ensures var r := HeaderStep(c, raw).req;
            var (d, v) := Received(c, raw, config);
            && (v == Reject <==> d.req.err != NoErr)
            && if !IsHere(r.uri, config) then d.req.err == MisdirectedRequest
               else if !IsPlainTarget(r, config) then d.req.err == BadRequest
               else if FieldsError(r) != NoErr then d.req.err == FieldsError(r)
               else if LacksLength(r) then d.req.err == LengthRequired
               else d.req.err == NoErr || d.req.err == BadRequest
  {
    hide HeaderStep, WithContent, IsHere, IsPlainTarget, FieldsError, LacksLength;
    var c1 := HeaderStep(c, raw);
    var body := raw[c1.parsedTo..];
    ContentDecides(c1.req, body, config);
    if IsHere(c1.req.uri, config) && IsPlainTarget(c1.req, config) {
      ContentError(c1.req, body, config);
    }
  }

  /** Without chunked in the list the decoders throw exactly at a number none has. */
  lemma {:induction false} NoDecoderThrows(r: ReqV, encs: seq<nat>, raw: string)
    requires CHUNKED !in encs && !r.Faulted()
    ensures TransferDecoded(r, encs, raw).0.Faulted()
            <==> exists i :: 0 <= i < |encs| && (encs[i] == 0 || encs[i] > LAST_ENCODING)
    decreases |encs|
  {
    if encs != [] {
      NoDecoderThrows(r, encs[1..], raw);
      assert forall i :: 0 < i < |encs| ==> encs[i] == encs[1..][i - 1];
      assert forall i :: 0 <= i < |encs| - 1 ==> encs[1..][i] == encs[i + 1];
    }
  }

  /** So do the content decoders. */
  lemma {:induction false} NoContentDecoderThrows(r: ReqV, encs: seq<nat>)
    requires CHUNKED !in encs && !r.Faulted()
    ensures Finished(r, encs).Faulted() <==> exists i :: 0 <= i < |encs| && (encs[i] == 0 || encs[i] > LAST_ENCODING)
    decreases |encs|
  {
    if encs != [] {
      NoContentDecoderThrows(r, encs[1..]);
      assert forall i :: 0 < i < |encs| ==> encs[i] == encs[1..][i - 1];
      assert forall i :: 0 <= i < |encs| - 1 ==> encs[1..][i] == encs[i + 1];
    }
  }

  /** The word is a method numbered higher than any coding. */
  predicate HasNoDecoder(word: string) {
    || EqualIgnoringCase(word, METHODS[5]) || EqualIgnoringCase(word, METHODS[6])
    || EqualIgnoringCase(word, METHODS[7]) || EqualIgnoringCase(word, METHODS[8])
  }

  lemma NoDecoderNumber(word: string)
    requires |word| < U32 && HasNoDecoder(word)
    ensures KeywordVal(word) > LAST_ENCODING
  {
    hide KeywordVal, EqualIgnoringCase;
    var k := if EqualIgnoringCase(word, METHODS[5]) then 5 else if EqualIgnoringCase(word, METHODS[6]) then 6
             else if EqualIgnoringCase(word, METHODS[7]) then 7 else 8;
    EnumeratorNumber(word, METHODS, k);
  }

  /** The list is decoded as soon as the checks pass. */
  lemma UndecodedFaults(p: ReqV, raw: string, i: nat)
    requires !Dead(p) && CONTENT_LENGTH !in p.fields && CHUNKED !in p.transferEncodings
    requires i < |p.transferEncodings| && p.transferEncodings[i] > LAST_ENCODING
    ensures WithBody(p, raw).Faulted()
  {
    hide TransferDecoded, Finished;
    Unchunked(p.transferEncodings);
    NoDecoderThrows(p, p.transferEncodings, raw);
    StubsDoNothing(p, p.transferEncodings, raw);
  }

  /** A transfer encoding that names DELETE, TRACE, CONNECT or EXTENSION, and none of the
      six words that pass for chunked, is not refused: it makes the map of decoders
      throw. */
  lemma NoDecoderCrashes(c: ConnV, raw: string, config: Config, i: nat)
    requires HeadersIn(c, raw)
    requires var r := HeaderStep(c, raw).req;
             && IsHere(r.uri, config) && IsPlainTarget(r, config) && FieldsError(r) == NoErr
             && TRANSFER_ENCODING in r.fields && CONTENT_LENGTH !in r.fields
             && var words := Lists.Tokens(r.fields[TRANSFER_ENCODING], 0);
                && i < |words| && |words[i]| < U32 && HasNoDecoder(words[i])
                && forall j :: 0 <= j < |words| ==> KeywordVal(words[j]) != CHUNKED
    ensures Received(c, raw, config).1 == Crash
  {
    hide HeaderStep, Checked, IsHere, IsPlainTarget, FieldsError, HasNoDecoder, KeywordVal, Lists.Tokens, Lists.Values;
    hide WithBody, AllKnown;
    var r := HeaderStep(c, raw).req;
    var p := Checked(r, config);
    NoFieldsError(r);
    ListKnown(r, TRANSFER_ENCODING);
    ValuesKnown(Lists.Tokens(r.fields[TRANSFER_ENCODING], 0));
    NoDecoderNumber(Lists.Tokens(r.fields[TRANSFER_ENCODING], 0)[i]);
    if !p.Faulted() {
      ChecksError(r, config);
      CheckedReads(r, config);
      UndecodedFaults(p, raw[HeaderStep(c, raw).parsedTo..], i);
    }
  }

  lemma Unchunked(te: seq<nat>)
    requires CHUNKED !in te
    ensures Count(te, CHUNKED) == 0
  {
    CountPositive(te, CHUNKED);
  }

  // ------------------------------------------------------------ single fields

  /** A field line: a name in any case, a colon, spaces, and a value that does not start
      with one. It is stored under its lower-case name, unless there is one already or
      the value is empty; then it is a bad request. */
  lemma FieldTaken(r: ReqV, name: string, n: nat, value: string)
    requires !Dead(r) && ':' !in name && (value != "" ==> value[0] != ' ')
    ensures var line := name + ":" + seq(n, _ => ' ') + value;
            var s, key := WithFieldLine(r, line), Lowercase(name);
            if key in r.fields || value == "" then s == r.(err := BadRequest)
            else s.fields == r.fields[key := value] && (key != HOST ==> s == r.(fields := s.fields))
  {
    hide FindChar, Span, WithHostField;
    var spaces := seq(n, _ => ' ');
    var line := name + ":" + spaces + value;
    var i := |name|;
    assert forall j :: 0 <= j < i ==> line[j] == name[j];
    FindCharIs(line, ':', 0, i);
    assert forall j :: i < j < i + 1 + n ==> line[j] == spaces[j - i - 1];
    assert value != "" ==> line[i + 1 + n] == value[0];
    SpanIs(line, c => c == ' ', i + 1, i + 1 + n);
    assert line[..i] == name && line[i + 1 + n..] == value;
    HostKeepsFields(r.(fields := r.fields[Lowercase(name) := value]), value);
  }

  lemma HostKeepsFields(r: ReqV, v: string)
    ensures WithHostField(r, v).fields == r.fields
  {
  }

  lemma ColonlessRefused(r: ReqV, line: string)
    requires ':' !in line
    ensures WithFieldLine(r, line) == r.(err := BadRequest)
  {
    FindCharNot(line, ':', 0);
  }

  /** A content type: known if and only if both its words are; with a parameter, never,
      because the semicolon is taken for a part of the subtype. */
  lemma TypeTaken(r: ReqV, mediaType: string, subtype: string)
    requires '/' !in mediaType && ';' !in subtype && |subtype| + 1 < U32 && CONTENT_TYPE in r.fields
    ensures r.fields[CONTENT_TYPE] == mediaType + "/" + subtype ==>
              (TypeKnown(r) <==> KeywordVal(mediaType) != 0 && KeywordVal(subtype) != 0)
    ensures forall rest :: r.fields[CONTENT_TYPE] == mediaType + "/" + subtype + ";" + rest ==> !TypeKnown(r)
  {
    hide KeywordVal, MediaTypeText, MediaSubtypeText;
    TypeTexts(mediaType, subtype);
    forall rest
      ensures MediaSubtypeText(mediaType + "/" + subtype + ";" + rest) == subtype + ";"
    {
      ParameterTexts(mediaType, subtype, rest);
    }
    SemicolonIsUnknown(subtype);
  }

  lemma TypeTexts(mediaType: string, subtype: string)
    requires '/' !in mediaType && ';' !in subtype
    ensures var ct := mediaType + "/" + subtype; MediaTypeText(ct) == mediaType && MediaSubtypeText(ct) == subtype
  {
    hide FindChar;
    var ct := mediaType + "/" + subtype;
    assert forall i :: 0 <= i < |mediaType| ==> ct[i] == mediaType[i];
    assert forall i :: |mediaType| < i < |ct| ==> ct[i] == subtype[i - |mediaType| - 1];
    FindCharIs(ct, '/', 0, |mediaType|);
    FindCharNot(ct, ';', |mediaType|);
    assert ct[..|mediaType|] == mediaType && ct[|mediaType| + 1..] == subtype;
  }

  lemma ParameterTexts(mediaType: string, subtype: string, rest: string)
    requires '/' !in mediaType && ';' !in subtype
    ensures MediaSubtypeText(mediaType + "/" + subtype + ";" + rest) == subtype + ";"
  {
    hide FindChar;
    var ct := mediaType + "/" + subtype + ";" + rest;
    var i, j := |mediaType|, |mediaType| + 1 + |subtype|;
    assert forall k :: 0 <= k < i ==> ct[k] == mediaType[k];
    assert forall k :: i < k < j ==> ct[k] == subtype[k - i - 1];
    assert ct[i] == '/' && ct[j] == ';';
    FindCharIs(ct, '/', 0, i);
    FindCharIs(ct, ';', i, j);
    assert ct[i + 1..j + 1] == subtype + ";";
  }

  /** No word ends in a semicolon. */
  lemma SemicolonIsUnknown(s: string)
    requires |s| + 1 < U32
    ensures KeywordVal(s + ";") == 0
  {
    hide KeywordVal, WordAt, IsKeyword, ToLower;
    var t := s + ";";
    forall k: nat | IsKeyword(k)
      ensures !EqualIgnoringCase(t, WordAt(k).key)
    {
      LastLetter(k);
      LowerSemicolon();
      LastDiffers(t, WordAt(k).key);
    }
    ProbeMisses(t);
  }

  lemma LastDiffers(s: string, t: string)
    requires s != "" && t != "" && ToLower(s[|s| - 1]) != ToLower(t[|t| - 1])
    ensures !EqualIgnoringCase(s, t)
  {
    hide ToLower;
    if |s| == |t| {
      assert ToLower(s[|s| - 1]) != ToLower(t[|s| - 1]);
    }
  }

  lemma LastLetter(slot: nat)
    requires IsKeyword(slot)
    ensures var k := WordAt(slot).key; k != "" && ToLower(k[|k| - 1]) != ';'
  {
  }

  lemma LowerSemicolon()
    ensures ToLower(';') == ';'
  {
  }
}
