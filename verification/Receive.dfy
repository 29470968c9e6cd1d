/** on_rx up to its decision: ask for more bytes, route the request, or answer
    with an error. */
module Receive {
  import opened Strings
  import opened Message
  import opened Headers
  import opened Content

  /** The parsing half of a connection. */
  datatype ConnV = ConnV(parsedTo: nat, req: ReqV)

  datatype Verdict = NeedMore | Route | Reject | Crash

  function HeaderStep(c: ConnV, raw: string): ConnV {
    if c.req.IsParsingHeaders() then
      var (r, j) := WithHeaders(c.req, raw, c.parsedTo);
      ConnV(j % U32, r)
    else c
  }

  /** The parser is given everything received from the index on. */
  function ContentStep(c: ConnV, raw: string, config: Config): (ConnV, Verdict)
  {
    if c.parsedTo > |raw| then (c, Crash)
    else
      var r := WithContent(c.req, raw[c.parsedTo..], config);
      (c.(req := r), if r.Faulted() then Crash
                     else if r.IsParsingIncomplete() then NeedMore
                     else if r.HasErr() then Reject else Route)
  }

  function Received(c: ConnV, raw: string, config: Config): (ConnV, Verdict)
  {
    var c1 := HeaderStep(c, raw);
    if c1.req.Faulted() then (c1, Crash)
    else if c1.req.IsParsingHeaders() then (c1, NeedMore)
    else if c1.req.HasErr() then (c1, Reject)
    else ContentStep(c1, raw, config)
  }

  /** The parsing part of a connection object, and its part of on_rx. */
  class Parser {
    var parsedTo: nat
    const req: Request

    constructor ()
      ensures parsedTo == 0 && IsFresh(req.View()) && fresh(req) && fresh(req.uri)
    {
      parsedTo := 0;
      req := new Request();
    }

    function View(): ConnV
      reads this, req, req.uri
    {
      ConnV(parsedTo, req.View())
    }

    method OnRx(raw: string, config: Config) returns (v: Verdict)
      requires !req.View().Faulted()
      modifies this, req, req.uri
      ensures (View(), v) == Received(old(View()), raw, config)
    {
      hide WithHeaders, WithContent;
      if req.View().IsParsingHeaders() {
        var j := ParseHeaders(raw, req, parsedTo);
        parsedTo := j % U32;
      }
      if req.View().Faulted() {
        return Crash;
      }
      if req.View().IsParsingHeaders() {
        return NeedMore;
      }
      if !req.View().HasErr() {
        if parsedTo > |raw| {
          return Crash;
        }
        ParseContent(raw[parsedTo..], req, config);
        if req.View().Faulted() {
          return Crash;
        }
        if req.View().IsParsingIncomplete() {
          return NeedMore;
        }
      }
      return if req.View().HasErr() then Reject else Route;
    }
  }
}
