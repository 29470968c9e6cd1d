/** The fields of a request only ever become more: what parse_content keeps of them,
    and what a trailer line does to them. */
module Fields {
  import opened Strings
  import opened Message
  import opened Content
  import opened Chunked
  import Headers
  import Keywords
  import Lists
  import Uri

  /** s has the fields of r. */
  predicate Grows(r: ReqV, s: ReqV) {
    forall k :: k in r.fields ==> k in s.fields && s.fields[k] == r.fields[k]
  }

  lemma FieldLineGrows(r: ReqV, line: string)
    ensures Grows(r, Headers.WithFieldLine(r, line))
  {
    hide FindChar, Headers.FirstNotSpace, Lowercase, Uri.Parsed;
  }

  lemma {:induction false} TrailersGrow(r: ReqV, raw: string, i: nat)
    ensures Grows(r, TrailerLoop(r, raw, i).0)
    decreases |raw| - i
  {
    hide Headers.WithFieldLine, FindCrlf;
    if i < |raw| && FindCrlf(raw, i).Some? && FindCrlf(raw, i).value != i {
      var e := FindCrlf(raw, i).value;
      FieldLineGrows(r, raw[i..e]);
      TrailersGrow(Headers.WithFieldLine(r, raw[i..e]), raw, e + 2);
    }
  }

  lemma DecodedGrows(r: ReqV, raw: string)
    ensures Grows(r, ChunkDecoded(r, raw).0)
  {
    hide Chunks, TrailerLoop;
    var s := BeforeTrailers(r, raw);
    TrailersGrow(s, raw, (s.chunkedContentLen + 1) % U32);
  }

  lemma {:induction false} TransferGrows(r: ReqV, encs: seq<nat>, raw: string)
    ensures Grows(r, TransferDecoded(r, encs, raw).0)
    decreases |encs|
  {
    hide ChunkDecoded;
    if encs != [] {
      DecodedGrows(r, raw);
      TransferGrows(r, encs[1..], raw);
      TransferGrows(ChunkDecoded(r, raw).0, encs[1..], raw);
    }
  }

  lemma {:induction false} FinishedGrows(r: ReqV, encs: seq<nat>)
    ensures Grows(r, Finished(r, encs))
    decreases |encs|
  {
    hide ChunkDecoded, Appends;
    if encs != [] {
      DecodedGrows(r, r.content);
      FinishedGrows(r, encs[1..]);
      FinishedGrows(ChunkDecoded(r, r.content).0, encs[1..]);
    }
  }

  lemma CheckedGrows(r: ReqV, config: Config)
    ensures Grows(r, Checked(r, config))
  {
    hide Lists.Values, Lists.Tokens, Keywords.KeywordVal, Stoi, MediaTypeText, MediaSubtypeText;
  }

  lemma BodyGrows(r: ReqV, raw: string)
    ensures Grows(r, WithBody(r, raw))
  {
    hide TransferDecoded, Finished, BadFraming;
    if r.transferEncodings != [] {
      TransferGrows(r, r.transferEncodings, raw);
      var s := TransferDecoded(r, r.transferEncodings, raw).0;
      FinishedGrows(s, s.contentEncodings);
    } else {
      FinishedGrows(r, r.contentEncodings);
      if r.contentLen <= |raw| {
        FinishedGrows(r.(content := raw[..r.contentLen]), r.contentEncodings);
      }
    }
  }

  lemma ContentGrows(r: ReqV, raw: string, config: Config)
    ensures Grows(r, WithContent(r, raw, config))
  {
    hide Checked, WithBody;
    CheckedGrows(r, config);
    BodyGrows(Checked(r, config), raw);
  }

  // ------------------------------------------------------------ trailer lines

  /** The request has failed, or has a field that p lacks. */
  predicate Spoiled(p: ReqV, r: ReqV) {
    r.HasErr() || r.Faulted() || !(r.fields.Keys <= p.fields.Keys)
  }

  /** A field line is rejected or adds a field. */
  lemma FieldLineSpoils(p: ReqV, r: ReqV, line: string)
    requires p.fields.Keys <= r.fields.Keys
    ensures Spoiled(p, Headers.WithFieldLine(r, line))
  {
    hide FindChar, Lowercase, Headers.WithHostField, Span;
    if FindChar(line, ':', 0).Some? {
      var nameEnd := FindChar(line, ':', 0).value;
      var name, start := Lowercase(line[..nameEnd]), Headers.FirstNotSpace(line, nameEnd + 1);
      if name !in r.fields && start != |line| {
        var q := r.(fields := r.fields[name := line[start..]]);
        HostKeepsFields(q, line[start..]);
        assert name in q.fields.Keys && name !in p.fields.Keys;
        assert Headers.WithFieldLine(r, line).fields == q.fields;
      }
    }
  }

  lemma HostKeepsFields(r: ReqV, v: string)
    ensures Headers.WithHostField(r, v).fields == r.fields
  {
    hide Uri.Parsed;
  }

  lemma FieldLineKeepsErr(r: ReqV, line: string)
    requires r.HasErr()
    ensures Headers.WithFieldLine(r, line).HasErr()
  {
    hide FindChar, Headers.FirstNotSpace, Lowercase, Uri.Parsed;
  }

  lemma {:induction false} TrailersStaySpoiled(p: ReqV, r: ReqV, raw: string, i: nat)
    requires Spoiled(p, r) && !r.Faulted()
    ensures Spoiled(p, TrailerLoop(r, raw, i).0)
    decreases |raw| - i
  {
    hide Headers.WithFieldLine, FindCrlf;
    if i < |raw| && FindCrlf(raw, i).Some? && FindCrlf(raw, i).value != i {
      var e := FindCrlf(raw, i).value;
      var s := Headers.WithFieldLine(r, raw[i..e]);
      FieldLineGrows(r, raw[i..e]);
      if r.HasErr() {
        FieldLineKeepsErr(r, raw[i..e]);
      } else {
        MoreKeys(p, r, s);
      }
      if !s.Faulted() {
        TrailersStaySpoiled(p, s, raw, e + 2);
      }
    }
  }

  lemma MoreKeys(p: ReqV, r: ReqV, s: ReqV)
    requires Grows(r, s) && !(r.fields.Keys <= p.fields.Keys)
    ensures !(s.fields.Keys <= p.fields.Keys)
  {
    var k :| k in r.fields.Keys && k !in p.fields.Keys;
    assert k in s.fields.Keys;
  }

  /** Behind a last chunk that ends at the cursor: nothing more to read yet. */
  predicate Waits(raw: string, cursor: nat) {
    |raw| != cursor && FindCrlf(raw, cursor + 1).None?
  }

  /** Or the end of the body: no more bytes, or an empty line. */
  predicate Closes(raw: string, cursor: nat) {
    |raw| == cursor || FindCrlf(raw, cursor + 1) == Some(cursor + 1)
  }

  /** What follows the last chunk is waited for, or ends the body, or spoils the
      request. */
  lemma BehindCases(r: ReqV, raw: string)
    requires !r.Faulted() && r.chunkedContentLen + 1 < U32
    ensures Waits(raw, r.chunkedContentLen) ==> BehindChunks(r, raw) == (r, false)
    ensures Closes(raw, r.chunkedContentLen) ==> BehindChunks(r, raw) == (r, true)
    ensures Waits(raw, r.chunkedContentLen) || Closes(raw, r.chunkedContentLen) || Spoiled(r, BehindChunks(r, raw).0)
  {
    hide Headers.WithFieldLine, FindCrlf, TrailerLoop;
    var i := r.chunkedContentLen + 1;
    TrailersTurn(r, raw, i);
    if |raw| != r.chunkedContentLen && FindCrlf(raw, i).Some? && FindCrlf(raw, i).value != i {
      var e := FindCrlf(raw, i).value;
      var s := Headers.WithFieldLine(r, raw[i..e]);
      FieldLineSpoils(r, r, raw[i..e]);
      if !s.Faulted() {
        TrailersStaySpoiled(r, s, raw, e + 2);
      }
    }
  }

  lemma TrailersTurn(r: ReqV, raw: string, i: nat)
    ensures TrailerLoop(r, raw, i) ==
            match FindCrlf(raw, i)
            case None => (r, false)
            case Some(e) =>
              if e == i then (r, true)
              else
                var s := Headers.WithFieldLine(r, raw[i..e]);
                if s.Faulted() then (s, false) else TrailerLoop(s, raw, e + 2)
  {
    hide Headers.WithFieldLine;
  }
}
