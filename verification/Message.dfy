/** The request record the parsers fill in, and the server's configuration. */
module Message {
  import opened Strings
  import opened Uri

  datatype ParseState = StartLine | Headers | Content | ChunkTrailers | Complete

  datatype TargetForm = Absolute | Authority | Asterik | Origin

  /** The error builders a request can be given. */
  datatype Err = NoErr | BadRequest | NotFound | LengthRequired | UnsupportedMediaType
               | MisdirectedRequest | InternalServer | NotImplemented

  datatype Config = Config(listeningPort: int, listeningIp: string, listeningRegName: string, defaultScheme: string)

  const HOST := "host"
  const CONTENT_LENGTH := "content-length"
  const TRANSFER_ENCODING := "transfer-encoding"
  const CONTENT_TYPE := "content-type"
  const CONTENT_ENCODING := "content-encoding"

  const GET := 1
  const CHUNKED := 1

  datatype ReqV = ReqV(targetForm: TargetForm, parseState: ParseState, err: Err, fault: Fault,
                       major: int, minor: int, method_: nat, uri: UriV, fields: map<string, string>,
                       chunkedContentLen: nat, contentLen: nat, mediaType: nat, mediaSubtype: nat,
                       contentEncodings: seq<nat>, transferEncodings: seq<nat>, content: string)
  {
    predicate HasErr() { err != NoErr }

    predicate IsParsingHeaders() {
      (parseState == StartLine || parseState == Headers) && !HasErr()
    }

    predicate IsParsingIncomplete() { parseState != Complete && !HasErr() }

    /** An exception or undefined behaviour ended the parse. */
    predicate Faulted() { fault != NoFault || uri.fault != NoFault }
  }

  /** What a fresh request holds; the fields C++ leaves unset are arbitrary. */
  predicate IsFresh(r: ReqV) {
    && r.parseState == StartLine && r.err == NoErr && !r.Faulted()
    && r.fields == map[] && r.content == "" && r.contentLen == 0 && r.chunkedContentLen == 0
    && !r.uri.hasErr && r.uri.scheme == "" && r.uri.userinfo == "" && r.uri.path == "" && r.uri.query == ""
  }

  class Request {
    var targetForm: TargetForm
    var parseState: ParseState
    var err: Err
    var fault: Fault
    var major: int
    var minor: int
    var method_: nat
    const uri: Uri
    var fields: map<string, string>
    var chunkedContentLen: nat
    var contentLen: nat
    var mediaType: nat
    var mediaSubtype: nat
    var contentEncodings: seq<nat>
    var transferEncodings: seq<nat>
    var content: string

    constructor ()
      ensures IsFresh(View()) && fresh(uri)
    {
      targetForm, parseState, err, fault := Absolute, StartLine, NoErr, NoFault;
      major, minor, method_, mediaType, mediaSubtype := 0, 0, 0, 0, 0;
      uri := new Uri(false, 0);
      fields, chunkedContentLen, contentLen, content := map[], 0, 0, "";
      contentEncodings, transferEncodings := [], [];
    }

    function View(): ReqV
      reads this, uri
    {
      ReqV(targetForm, parseState, err, fault, major, minor, method_, uri.View(), fields, chunkedContentLen,
           contentLen, mediaType, mediaSubtype, contentEncodings, transferEncodings, content)
    }
  }
}
