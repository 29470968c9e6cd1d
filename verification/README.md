# Beemo, verified

Beemo is a multithreaded HTTP/1.1 server in C++. An acceptor thread puts each new
connection in a table and arms its descriptor in epoll, one shot at a time; worker
threads dequeue events, resolve them through a table of weak pointers, receive into
a growing buffer, parse the request in instalments, and send the response through a
fixed buffer. This project models that server and proves:

* **Connection ownership** (`Epoll`, `Protocol`, `Ownership`, `OwnershipSteps`,
  `OwnershipRuns`, `ArmedRuns`, `OpenRuns`, `EventLoop`). The acceptor and any number of workers are a step
  system over the interest set, `events_`, `conns_` and the kernel's descriptor table;
  reference counts decide when a descriptor is closed and may be reused. In every
  reachable state no two threads touch a connection or its descriptor, every
  connection is in exactly one place, an event that resolves reaches the connection
  that armed it, `reg` asks the kernel for the right operation, a connection is armed
  for what its handlers asked for last, and a socket is open exactly as long as
  something refers to it. `EventLoop` holds
  the code of the loop and of the server's table operations as a class whose methods
  are proved to do what the steps do.
* **Resumable parsing** (`Message`, `Headers*`, `Chunked*`, `Content`, `Receive`,
  `Framing`, `FramedRuns`, `Segmentation`, `Arrivals`, `Fields`, `Decoding`, `*Cuts`,
  `BlankRuns`, `Example`). The parsers are methods with loops over a mutable request,
  each proved equal to a one-shot function on request values. About those functions the
  main result is an if-and-only-if: which arrivals of a request have the outcome of one
  arrival. `Decoding` reduces what happens behind an unlucky cut to the chunk decoder
  alone. The chunk loop need not end; it is a function with a bound that `ChunkedLoop`
  shows to mean just that. `Example`, `ChunkedRequests` and `ChunkedExamples` follow
  single requests and bodies through.
* **Admission** (`UriRefusals`, `RequestLines`, `Addressed`, `Refusals`). What is read
  and what is refused, on the text: over any run of calls a routed request has a known
  method and version 1.1, the path and query of its line, and the server's own port and
  name in its host field; every other request is answered with a stated error.
* **Bytes** (`Transport`, `Connection`, `Lifecycle`, `ReceiveRuns`). The socket answers
  from a plan that is any sequence of results. Receiving and sending conserve bytes;
  the partial send that moves the buffer onto itself loses none; a request in error is
  answered with exactly its error response and one close. `ReceiveRuns` joins the two
  halves: a request delivered in any fair pieces is answered with the router's answer.
  `Answers` reads the text sent back: code, reason, fields and content.
* **Pool** (`Pool`, `PoolProof`). No wakeup is lost, over all interleavings and spurious wakeups.
* **Supporting parsers** (`Strings`, `Keywords`, `Lists`, `Codings`, `Uri`, `UriProof`,
  `Response`). The perfect hash against a linear search, what a list of codings says
  against what is read of it, and round trips for lists, origin-form targets,
  authorities and field sections.

Strings are sequences of characters, one per byte. Integer widths matter in three
places and are written out: the 32-bit cursors and counters, the width of `int` for
`stoi`, and the 32 bits a keyword's length is narrowed to. A C++ exception nobody
catches, or undefined behaviour, is the explicit outcome `Throws` or `Wild` of a
request or URI, and `Crash` of a call; no precondition hides one.

## Where the code does not do what it is meant to

Each of these is a lemma; the code is modelled as it is.

* A cut right behind the blank line leaves the index in front of it
  (`http/src/parser.cpp:65-70`). A body of known length is then read two bytes early
  (`BlankCuts.BlankCutShiftsBody`), and a chunked body is lost because the blank line
  reads as a last chunk (`BlankCuts.BlankCutLosesChunks`). `Example.RoutedTooEarly` is
  a request so routed with a carriage return for its content. The request comes out
  unharmed exactly if it has nothing to lose and the later cuts are lucky: a body of
  CRLFs, or an empty chunked one (`BlankRuns.BlankRun`).
* The request line must come in the first arrival, or the request is rejected
  (`Arrivals.RequestLineInPieces`).
* A chunk header with a space, cut before its CRLF, makes the decoder take bytes from
  the start of the body for the chunk's (`http/src/encoding.cpp:24-47`). It may then
  wait for ever (`ChunkedExamples.TornCutExample`), never return
  (`ChunkedExamples.TornEndless`), end at the wrong place
  (`ChunkedExamples.TornElsewhere`), or fall into step again
  (`ChunkedExamples.TornHarmless`). If the turn takes bytes, and other ones than the
  chunk's, the request never comes out right. At the last chunk it takes none: the
  decoder ends at the wrong place, and the request still comes out right exactly if an
  empty line follows there and the later cuts avoid it (`TornCuts.RecoversExactlyWhen`,
  `ChunkedRequests.EmptySurvives`).
* Section 6.3 of RFC 9112 asks for a refusal where the server routes on. A transfer
  encoding that is an empty list, such as ",", switches the content length off, and the
  request is routed with no content at all (`ChunkedRequests.CommaIsRouted`). Keywords
  are looked up without regard to what they are for, so six words pass for chunked: a
  body behind `transfer-encoding: html` is decoded in chunks
  (`ChunkedRequests.HtmlIsRouted`), as is one behind "chunked,,gzip", whose last coding
  is never read (`ChunkedRequests.CutListIsRouted`). A routed request holds what its
  fields say exactly if its transfer encoding, if it has one, has nothing behind an empty
  element, names codings only and ends in chunked (`FramedRuns.RunFieldsHold`). For the
  same reason a request without a length may have `html` for its method.
* Each part of a URI overwrites the error of the part in front of it. A path with a
  character it must not have passes if a query follows, and is dropped
  (`UriRefusals.OriginTaken`, `UriRefusals.BadPathPasses`); a host name with one passes
  if a port follows (`UriRefusals.PortDecides`).
* A target in absolute form is never routed: its authority keeps the two slashes, so the
  request is misdirected or a bad one (`Addressed.AbsoluteIsNotRouted`).
* A content type with a parameter is never supported, because the semicolon is taken for
  a part of the subtype (`Refusals.TypeTaken`).
* An exception nobody catches ends the server on an empty target, a version with another
  character in place of a digit (`RequestLines.EmptyTargetThrows`,
  `RequestLines.LineRefused`), or a transfer encoding such as TRACE, which is known as a
  method and has no decoder (`Refusals.NoDecoderCrashes`).
* An event dequeued between the acceptor's `epoll_ctl` and its store is dropped
  (`OwnershipRuns.WindowExample`); the connection then stays in `conns_` for good and
  counts to the cap (`OwnershipRuns.LostForGood`).
* `parse_list` means to reject an empty element but drops the rest of the list
  instead: a list is kept whole if and only if no element of it is empty
  (`Lists.ListIsKeptExactlyWhen`).
* A colon in the userinfo is taken for the port's, and `//` in a query hides the path
  (`UriProof.AuthorityRoundTrip`, `UriProof.OriginRoundTrip`) or, where another slash
  follows it, makes it a range that ends before it starts (`UriRefusals.OriginHidden`);
  so does a question mark in a host field with the authority
  (`UriRefusals.AuthorityReversed`).
* A response without content prints no blank line (`Response.FieldSectionRoundTrip`).

## Model

| member | source | states |
|---|---|---|
| OwnershipSteps.StepKeeps | linux/ev_epoll.cpp:37-143 | Every step of every thread, for any answer of the kernel, keeps the ownership invariant: each connection has one place, each thread and batch slot its share of it, and the tables agree. |
| OwnershipRuns.MutualExclusion | linux/ev_epoll.cpp:13 | In every reachable state two threads that touch connections (setting one up, in a callback up to its arming `epoll_ctl`, or destroying it) touch connections with different descriptors; in particular never the same one. |
| OwnershipRuns.ExactlyOnePlace | linux/ev_epoll.cpp:69-100 | A connection in `conns_` is held by exactly one thread, or armed, or pending exactly once in exactly one batch, or lost; any two of these exclude each other. |
| OwnershipRuns.WaitingMeansLive | linux/ev_epoll.cpp:69-84 | Whatever is armed, pending or lost is still in `conns_` with its descriptor open: no event outlives its connection. |
| OwnershipRuns.EventReachesItsConnection | linux/ev_epoll.cpp:78-83 | A weak pointer read for an event has expired exactly when it is not the connection that armed the event; `lock()` after the check yields that connection and never null. |
| OwnershipRuns.DroppedOnlyInTheWindow | linux/ev_epoll.cpp:37-67 | An event about to be looked up fails to resolve if and only if the acceptor has armed that connection and not stored it yet. |
| OwnershipRuns.AddExactlyWhenAbsent | linux/ev_epoll.cpp:42-45 | At `epoll_ctl` the operation is ADD if and only if the interest set lacks the descriptor, if and only if the acceptor is registering. |
| OwnershipRuns.HeldStaysOpen | http/src/server.cpp:131-139 | The socket of a connection that is in `conns_`, referred to or touched by any thread is open and its number is not another connection's, under descriptor reuse. |
| OwnershipRuns.Accounting | http/src/server.cpp:45-75 | `conns_` has as many entries as connections were accepted and not erased, less one being set up, and never more than the cap although the lock is released before `accept`. |
| OwnershipRuns.OwnEntryOnly | http/src/server.cpp:62-75 | `on_conn` finds no entry to overwrite, and a thread that may erase finds the entry of its own connection. |
| OwnershipRuns.ErasedOnce | http/src/server.cpp:131-137 | After a connection has been erased, no later erase by any thread, whatever happens in between, is of the same connection. |
| OwnershipRuns.DepartedForGood | http/src/server.cpp:131-137 | A connection that has left `conns_` never comes back, over any run. |
| OwnershipRuns.LostForGood | linux/ev_epoll.cpp:79-82 | A connection whose event was dropped, was of no kind the loop handles, or could not be armed stays in `conns_` over every continuation. |
| ArmedRuns.ArmedAsAsked | linux/ev_epoll.cpp:37-143 | Over every run from the start, for any interleaving: an armed connection is armed for the mask last asked for it (IN by `on_conn`, then what its handlers passed to `reg`), and a callback for input or output runs only on a connection for which that was asked last. |
| ArmedRuns.ArmedAsRegistered | http/src/server.cpp:74-129 | So where its handlers have registered it for `regs`, it is armed for the last of them, or for IN while there are none, and output is handled only if they asked for OUT last. |
| ArmedRuns.RearmArms | linux/ev_epoll.cpp:37-62 | From any reachable state a handler's request for a mask, whatever other threads do before the lookup and before `epoll_ctl`, can succeed and then leaves the descriptor armed with that mask by this connection. |
| ArmedRuns.InsertArms | http/src/server.cpp:62-75 | In the same way a new connection ends armed for IN. |
| OpenRuns.OpenIsKept | linux/socket.cpp:9-13 | In every reachable state a socket is open if and only if its connection is in `conns_`, or referred to by a thread, or about to be closed by the thread that dropped the last reference: no descriptor leaks. |
| OwnershipRuns.WindowExample | linux/ev_epoll.cpp:56-66 | A reachable state in which the first event of a connection was dropped in the acceptor's window. |
| EventLoop.Tables.Reg | linux/ev_epoll.cpp:37-67 | `reg` leaves the tables as its lookup, `epoll_ctl` and store steps do; success arms the descriptor with the mask it was given; from a reachable state it fails only if the kernel refuses for a reason of its own. |
| EventLoop.Tables.EpollCtl | linux/ev_epoll.cpp:59-62 | ADD of a present descriptor and MOD of an absent one fail; success arms the descriptor with the mask, failure changes nothing. |
| EventLoop.Tables.GetEvent | ev/include/ev/evloop.h:43-47 | Returns the stored weak pointer, or stores and returns an empty one. |
| EventLoop.Tables.Resolve | linux/ev_epoll.cpp:74-83 | From any reachable state an event resolves to the connection that armed it, or to none if the acceptor is between arming and storing that one. |
| EventLoop.Tables.OnConn | http/src/server.cpp:70-73 | The table after `on_conn`'s insertion is that of the protocol's step. |
| EventLoop.Tables.OnClose | http/src/server.cpp:131-137 | The table after `on_close`'s erase is that of the protocol's step. |
| Cuts.SegmentationMattersExactlyWhen | http/src/server.cpp:77-109 | For a request that one arrival routes, with nothing behind its body: other arrivals, new bytes or none in each, re-arm IN without error on every call but the last and route the same request, all of it but the decoder's own cursor, if and only if the first holds the request line and none ends right behind the blank line of a message with a body or at a torn chunk header, or the first that does is spared, as `BlankRuns.BlankRun` and `TornCuts.RecoversExactlyWhen` say: on the bytes and the cuts, but for a torn turn that takes the right bytes by chance, where what is left is the run of the decoder alone. |
| Cuts.StateMattersExactlyWhen | http/src/server.cpp:77-109 | The same for the index and the cursor of the decoder: they, too, are those of one arrival if and only if no cut is unfair, or the first unfair one is torn and the decoder alone comes out where one call leaves it. |
| Decoding.RunCases | http/src/server.cpp:77-109 | From any state of the chunk decoder the outcome of the remaining calls is the decoder's: each but the last has to wait, the last to complete the body with the right content, and nothing in the content may read as a trailer. |
| BlankRuns.BlankRun | http/src/parser.cpp:65-70 | After a cut right behind the blank line the outcome is that of one arrival if and only if the body is chunked and empty, an empty line follows where the trailers are looked for, and no later arrival but the last shows it or ends at the cursor; or its length is known, it is CR and LF in turn, and no later arrival but the last brings all but two of its bytes. |
| TornCuts.RecoversExactlyWhen | http/src/encoding.cpp:21-78 | After a torn cut at the last chunk the decoder alone comes out right if and only if an empty line follows at the cursor 3 and no arrival but the last shows it or ends there. At a chunk with data it does only if the bytes taken are the chunk's by chance; for those it is a reduction to the decoder's own run over the remaining bytes, and no simpler condition is given. |
| TornCuts.TornBodyRun | http/src/server.cpp:77-109 | Behind a torn cut the outcome of the remaining calls is that of one arrival exactly under that condition, and the whole state exactly if the decoder alone ends where one call does. |
| Cuts.UnspacedMattersExactlyWhen | http/src/server.cpp:77-109 | Without a space in a chunk extension the same request is routed from the same index if and only if the request line comes first and no arrival but the last ends right behind the blank line. |
| BlankCuts.BlankCutShiftsBody | http/src/parser.cpp:65-70 | After such a cut a body of known length arrives as CRLF followed by the body, cut to its length; one of at most 2 bytes is not waited for. Only a content encoding that names chunked can keep it from being routed so. |
| Cuts.BlankCutShiftsFresh | http/src/parser.cpp:65-70 | The same from a fresh connection whose first arrival ends there. |
| BlankCuts.BlankCutLosesChunks | http/src/encoding.cpp:22-53 | After such a cut the chunk decoder has ended before the body: the content stays empty where one arrival decodes all of it. |
| Cuts.BlankCutLosesFresh | http/src/encoding.cpp:22-53 | The same from a fresh connection whose first arrival ends there. |
| Example.RequestIsRouted | http/src/server.cpp:77-109 | A POST to a server on port 9000 with the host field `localhost:9000`, a content length of 1 and one byte of content, arriving whole, is routed with that content, so the premises of the theorem can be met. |
| Example.RequestInPieces | http/src/server.cpp:77-109 | Any arrivals of that request have the same outcome if and only if the first holds the request line and none but the last ends right behind the blank line. |
| Example.RoutedTooEarly | http/src/parser.cpp:65-70 | The arrival that ends right behind the blank line routes it with the content "\r" before its content has come. |
| Example.RequestElsewhere | http/src/parser.cpp:302-306 | The same request is answered as misdirected exactly by a server with another port or without the name `localhost`. |
| TornCuts.TornContent | http/src/encoding.cpp:21-51 | `parse_content` on a chunked body cut at a torn header, unless the bytes taken are by chance the chunk's, never returns or leaves a decoder that has ended at the wrong place or holds other content than the body's. |
| Arrivals.SegmentationDoesNotMatter | http/src/server.cpp:77-109 | The if-direction of the theorem above, over any number of arrivals, some of which may bring nothing new. |
| Arrivals.RequestLineInPieces | http/src/parser.cpp:45-49 | Without the whole request line in the first call a fresh request is rejected as a bad request. |
| Segmentation.BodyResumes | http/src/parser.cpp:297-373 | `parse_content` on part of a body neither fails nor completes, and then on the whole body gives what it would have given without the first call. |
| Framing.RoutedIsFramed | http/src/parser.cpp:315-360 | A request handed to the router is complete and free of errors, and what was stored of its framing is one of: transfer encodings without content-length and chunked at most once and last, the first `content_len` body bytes, or a GET whose content is untouched; whatever its content encodings name. |
| FramedRuns.RoutedFieldsHold | http/src/parser.cpp:232-354 | What the text of its fields says (section 6.3 of RFC 9112) holds of a routed request if and only if its transfer encoding, if it has one, hides nothing behind an empty element, names codings only and ends in chunked. With a transfer encoding that is: no content length, chunked last and only once, decoded by the codings named, and, for a body in chunks of which earlier calls have decoded a beginning, the content their data; with a content length: that many bytes of the body; else no content. Where it does not hold the content is the chunks' data still, or empty, as the last word read is one of the six numbered like chunked or not; a content length beside an encoding holds exactly if it is 0. |
| FramedRuns.WholeFieldsHold | http/src/parser.cpp:232-354 | For a request that arrives whole in front of a chunked body: its content is the data, or empty, exactly so. |
| FramedRuns.RunFieldsHold | http/src/server.cpp:77-109 | The same for the routing call of any run from a fresh request, over any arrivals, where the decoder is in a state of the body; and a request routed with neither field has one of the six words numbered like GET in front of the first space of its request line. |
| Codings.NamesMatchExactlyWhen | http/include/http/parser.h:34-66 | The numbers kept of a list whose tokens are known are the codings its text names (section 5.6.1 of RFC 9110), each and in order, if and only if no empty element hides a name and every name is a coding's, for all texts. |
| Codings.TokensAreElements | utils/src/parsing.cpp:17-43 | If the server knows all tokens it reads of a text, they are the text's elements in front of the first empty one. |
| Codings.LastIsOne | http/include/http/keyword_map.h:141-168 | The last token is numbered like chunked if and only if it is one of six words. |
| ChunkedRequests.MisreadIsRouted | http/src/parser.cpp:315-354 | Any chunked body behind a list that is read as chunked and does not end in it is routed with its data, and what its fields say does not hold. |
| ChunkedRequests.HtmlIsRouted | http/src/parser.cpp:315-354 | So is one behind `transfer-encoding:html`. |
| ChunkedRequests.CutListIsRouted | http/src/parser.cpp:315-354 | So is one behind `transfer-encoding:chunked,,gzip`. |
| ChunkedRequests.CommaIsRouted | http/src/parser.cpp:232-354 | A POST with `transfer-encoding:,`, `content-length:5` and the body "hello" is routed with no content. |
| Framing.CheckedOnce | http/src/parser.cpp:302-324 | The checks in front of the framing, repeated on every receive event, change nothing once they have passed. |
| RequestLines.VersionTaken | http/src/parser.cpp:158-175 | A version is accepted exactly if it has 8 characters of which the sixth and the eighth are 1; one of another length or with other digits there is a bad request, and another character there throws. |
| RequestLines.LineTaken | http/src/parser.cpp:86-127 | A line of a known method, a target in origin form without "//" and a version is accepted, and read as these, if and only if target and version are; else it is a bad request, or throws. |
| RequestLines.StarTaken | http/src/parser.cpp:131-139 | A target that starts with an asterisk must be nothing else. |
| RequestLines.EmptyTargetThrows | http/src/parser.cpp:131 | An empty target throws. |
| RequestLines.LineRefused | http/src/server.cpp:77-119 | A call on a line that is not accepted rejects the request as a bad one, or crashes where a digit of the version is none. |
| RequestLines.MethodRefused | http/src/parser.cpp:97-104 | A method that is none of the words is answered as not implemented, whatever follows it. |
| RequestLines.FirstCallLine | http/src/parser.cpp:45-54 | Whatever a first call does not refuse has a request line of a known method, a target and version 1.1, and a target in origin form without "//" is an accepted one. |
| RequestLines.IndexWraps | http/src/server.cpp:79-81 | The body is read from behind the blank line as long as that is below 4 GiB; from there on the index falls 2^32 short. |
| Addressed.RoutedAsSent | http/src/server.cpp:77-109 | Whatever any run of calls from a fresh request routes: its line is such a line, its URI has the server's port and one of its names, it has a host field, no foreign scheme and no userinfo, and the path and query of a target in origin form without "//" are those of the line, but for a path with other characters in front of a query, which is dropped. |
| Addressed.MisdirectedExactlyWhen | http/src/parser.cpp:302-312 | Over any run of calls, when the headers of a request without an authority in its target are in and its host field is a printed authority: it is answered as misdirected if and only if the port or the name in the text is not the server's, and else as a bad request if it has a userinfo. |
| Addressed.AuthorityDecides | http/src/parser.cpp:148-151 | The same on the text of the target where that is an authority, whatever the host field says. |
| Addressed.AbsoluteIsNotRouted | uri/src/parser.cpp:57-80 | No run routes a request with scheme, host and port in its target, where no name of the server starts with two slashes. |
| Addressed.ContentDecides | http/src/parser.cpp:302-373 | Once the headers are in, the error is misdirected exactly if port and names are not the server's, a bad request if host, scheme or userinfo are not as they must be, and no decoder touches any of these. |
| Addressed.HostTextRead | uri/src/parser.cpp:45-94 | A host field is read as an authority up to its first slash or question mark; what follows is ignored. |
| Refusals.RejectedFor | http/src/parser.cpp:297-373 | Which error answers which request, in order: misdirected, a bad target or host, an unsupported media type, a length that is no number or an unknown content coding (bad request), an unknown transfer coding (not implemented), no length where the method needs one, and else a bad request or none. |
| Refusals.FieldTaken | http/src/parser.cpp:177-208 | A name, a colon, spaces and a value: stored under the lower-case name with the spaces cut off, or a bad request if there is one already or the value is empty. |
| Refusals.ColonlessRefused | http/src/parser.cpp:184-186 | A line without a colon is a bad request. |
| Refusals.TypeTaken | http/src/parser.cpp:262-282 | A content type without a parameter is known if and only if its two words are; one with a parameter never is. |
| Refusals.NoDecoderCrashes | http/src/parser.cpp:339-344 | A transfer encoding that names DELETE, TRACE, CONNECT or EXTENSION and none of the words numbered like chunked makes the call crash. |
| Refusals.NoContentDecoderThrows | http/src/parser.cpp:356-360 | Without chunked among them, content encodings throw if and only if one has a number without a decoder. |
| Receive.Parser.OnRx | http/src/server.cpp:77-119 | The parsing part of `on_rx` over the mutable request is the function `Received` of the connection, the buffer and the configuration, exceptions and undefined behaviour included as `Crash`. |
| ChunkedRuns.DecodePrefix | http/src/encoding.cpp:21-58 | One call on the first n bytes of a body (section 7.1 of RFC 9112), from the state any m <= n of them left, finds what n alone determines: the state of n bytes and whether the last chunk is in, or at a torn cut the torn turn and what the loop does from there. |
| ChunkedRuns.ScheduleDoesNotMatter | http/src/encoding.cpp:17-58 | Over any sequence of growing prefixes without a torn cut each call leaves the state of the bytes received, and exactly the calls on the full body report it complete. |
| ChunkedTorn.ScheduleMattersExactlyWhen | http/src/encoding.cpp:17-58 | Unless the first torn cut takes the right bytes by chance, the last call of a schedule finds what one call would find if and only if no cut is torn. |
| ChunkedRuns.StateAtCursor | http/src/encoding.cpp:47 | The cursor is never more than 2 past the bytes received, and at the end of the body once the last chunk is in. |
| ChunkedRuns.NoSpaceNoTear | http/src/encoding.cpp:24-29 | Bodies whose extensions hold no space have no torn cut. |
| ChunkedExamples.TornCutExample | http/src/encoding.cpp:24-47 | A body and a cut after which a header byte is content and the decoder asks for more for ever. |
| ChunkedExamples.TornEndless | http/src/encoding.cpp:22-50 | A body and a cut at which the do-while loop is never left. |
| ChunkedExamples.TornElsewhere | http/src/encoding.cpp:24-53 | A body and a torn cut after which the content is right but the body is taken to end 3 bytes early. |
| ChunkedExamples.TornHarmless | http/src/encoding.cpp:22-50 | A body and a torn cut after which content, count and cursor come out as in one call. |
| ChunkedRequests.EncodedIsRouted | http/src/server.cpp:77-109 | Any chunked body short enough, behind the headers of a POST whose transfer encoding is read as chunked, is routed with its data and meets the premises of the theorem. |
| ChunkedRequests.ChunkedIsRouted | http/src/server.cpp:77-109 | In particular one whose encoding is chunked. |
| ChunkedRequests.EmptySurvives | http/src/encoding.cpp:22-56 | The body "0 \r\n\r\n" cut behind its space: the same request is routed, from another cursor. |
| ChunkedRequests.ElsewhereSurvives | http/src/encoding.cpp:22-56 | The same for a torn turn that takes the right byte by chance. |
| ChunkedRequests.WaitsIsLost | http/src/encoding.cpp:24-47 | A chunked request that a torn cut keeps from ever having its outcome. |
| ChunkedRequests.ChunkedIsFair | http/src/server.cpp:77-109 | A chunked request with a space in an extension, delivered in two events, meets the premises of `ReceiveRuns.RequestRun`. |
| ChunkedRuns.ChunkedRoundTrip | http/src/encoding.cpp:17-58 | Printing any non-empty data in chunks and decoding it, over any schedule of arrivals, gives the concatenated data, its length and completion, whatever spaces, CRLFs or digits the data holds. |
| ChunkedProof.ChunksReach | http/src/encoding.cpp:22-50 | From any chunk boundary the loop takes exactly the chunks whose header and data are in the buffer. |
| ChunkedProof.SizeIsTheSize | http/src/encoding.cpp:24-38 | Wherever the search for a space lands, in the extension or far inside chunk data, the size read is the chunk's. |
| Chunked.TurnAdvances | http/src/encoding.cpp:41-50 | A turn that is not torn moves the cursor on by at least 4 and to at most 2 past the buffer. |
| ChunkedLoop.EndlessIsTorn | http/src/encoding.cpp:22-50 | So only a torn turn can keep the loop from ending. |
| ChunkedLoop.EndlessForEver | http/src/encoding.cpp:22-50 | The function `Chunks` gives `Endless` if and only if the do-while loop takes more than k turns for every k; its bound of as many turns as there are bytes cuts nothing off. |
| ChunkedLoop.LoopUnfolds | http/src/encoding.cpp:22-50 | `Chunks` is its first turn and then, unless that asks for more or has size 0, `Chunks` from the next cursor, for torn turns too. |
| Content.TakeChunks | http/src/encoding.cpp:21-51 | The do-while loop over the mutable request is the function `Chunks`, for buffers of any length and with the wrapped position of a torn header; it reports a loop that is never left instead of running it. |
| Content.DecodeChunked | http/src/encoding.cpp:17-79 | `decode_chunked` is the function `ChunkDecoded`; only a loop that is never left is a fault. |
| Content.ReadTrailers | http/src/encoding.cpp:60-78 | The trailer loop, from the offset the code starts it at, is the function `TrailerLoop`. |
| Fields.BehindCases | http/src/encoding.cpp:53-78 | Behind the last chunk a call waits, changing nothing, or completes the body, changing nothing, exactly as no line or an empty one follows; any other line rejects the request or gives it a field more. |
| Content.ParseContent | http/src/parser.cpp:297-373 | `parse_content` is the function `WithContent`: checks, framing, decoders, in the code's order. |
| Content.CheckRequest | http/src/parser.cpp:302-324 | The checks in front of the framing are the function `Checked`. |
| Content.DecodeTransfer | http/src/parser.cpp:339-344 | The loop over the transfer encodings, stopping at the first that is not fully decoded. |
| Content.FinishContent | http/src/parser.cpp:356-360 | The loop over the content encodings and the end of the parse; chunked decodes the content itself, which is undefined only if a turn appends to what it reads. |
| Content.CountOf | http/src/parser.cpp:334 | The number of occurrences of an encoding. |
| Content.ParseContentLen | http/src/parser.cpp:232-251 | The content length is taken only without a transfer encoding, rejected unless all digits, and throws outside `int`. |
| Content.ParseContentType | http/src/parser.cpp:253-290 | The media type and subtype looked up, with the default and the two error exits. |
| Content.ParseFieldList | http/include/http/parser.h:34-66 | The values of a list field up to the first unknown token, which sets the given error. |
| HeadersRuns.HeadersScheduleDoesNotMatter | http/src/parser.cpp:36-84 | Feeding growing buffers with the index returned before leaves the request one call would leave; the index agrees if and only if no cut falls right behind the blank line of a message that goes on. |
| HeadersProof.LoopIsApply | http/src/parser.cpp:56-77 | The loop applies each complete line once and in order, stays open exactly while no blank line is in, and then reports the start of the first unfinished line. |
| HeadersProof.LoopResumes | http/src/parser.cpp:59-63 | A call that left the headers open followed by a call on a longer buffer from its index is one call on the longer buffer. |
| HeadersProof.LoopSettles | http/src/parser.cpp:65-71 | A call that ended the headers decides the request for every longer buffer. |
| HeadersProof.LinesGrow | http/src/parser.cpp:56-77 | The complete lines of a longer buffer are those of the shorter one followed by those from where they ended. |
| Headers.ParseHeaders | http/src/parser.cpp:36-84 | The loop over the mutable request, with the index it returns, is the function `WithHeaders`. |
| Headers.ParseReqLine | http/src/parser.cpp:86-127 | The request line read into method, target and version, with its error exits. |
| Headers.ParseReqTarget | http/src/parser.cpp:129-156 | The four target forms and the parser flags each is read with; an empty target throws. |
| Headers.ParseVersion | http/src/parser.cpp:158-175 | Only version 1.1 passes; a character that is no digit throws. |
| Headers.ParseFieldLine | http/src/parser.cpp:177-208 | One field line: lower-case name, duplicate and empty values rejected, the host field parsed. |
| Headers.ParseHost | http/src/parser.cpp:210-230 | The host field parsed with the flags the target form calls for. |
| Connection.Conn.DoRx | http/src/conn.cpp:35-59 | Delivers exactly the bytes at the head of the plan, in order across all internal buffers, and leaves what is behind the event that follows them: COMPLETE at the end of the stream, PARTIAL where the socket blocks, ERROR where it fails. The receive buffer grows by those bytes, on ERROR by whole internal buffers of them only. |
| Connection.Conn.FillBuf | http/src/conn.cpp:39-56 | One internal buffer: filled from the head of the plan, or short of it by the event that stopped it. |
| Connection.Conn.DoTx | http/src/conn.cpp:61-74 | Bytes sent followed by bytes unsent stay the same; COMPLETE if and only if nothing is unsent. |
| Connection.Conn.PrepareTx | http/src/conn.cpp:22-33 | The prepared buffer holds the whole text as `strncpy` copies it, in a longer buffer when needed. |
| Connection.Conn.PrepareTxView | linux/ev_epoll.cpp:130-134 | Re-preparing the unsent end of the buffer keeps the same buffer and exactly the unsent bytes. |
| Connection.Conn.HandleOut | linux/ev_epoll.cpp:124-143 | Conserves sent and unsent bytes, and makes exactly the registration or close request of its outcome. |
| Connection.Conn.HandleIn | linux/ev_epoll.cpp:104-122 | Everything received so far goes to `on_rx`, also when the peer has shut down, and leaves the request, index, registration and response of its decision; a failed connection or one with nothing received is closed once, registered for nothing and parses nothing. |
| Connection.Conn.OnRx | http/src/server.cpp:77-119 | The request and index are those of `Received`, with a router's error as the request's; for each decision the one registration it makes and what it leaves to be sent: nothing yet, the routed answer, or the error's response with keep-alive off. |
| Connection.Conn.Respond | http/src/server.cpp:98-118 | A routed request is answered with the router's response, or fails with the router's error. |
| Connection.Conn.Fail | http/src/server.cpp:111-118 | The error branch leaves exactly the error's response to be sent, clears keep-alive and registers OUT. |
| Connection.Conn.Answer | http/src/server.cpp:100-108 | The routed response, printed in some order of its fields, is what is left to be sent. |
| Connection.Conn.OnTx | http/src/server.cpp:121-129 | A kept-alive connection has a fresh request, response and index and is registered for IN; any other is left as it is and closed once. |
| Connection.Conn.OnClose | http/src/server.cpp:131-139 | Records one more call of `on_close`; what the call does to the table is `EventLoop.Tables.OnClose`. |
| Connection.Conn.ResetState | http/src/conn.cpp:13-20 | A fresh request, response and index. |
| Connection.Conn.constructor | http/src/conn.cpp:5-11 | A new connection is kept alive, has received and sent nothing and parses from the start. |
| Connection.LastBuffer | http/src/conn.cpp:39-48 | What is kept of the bytes before a failure is all of them in whole internal buffers. |
| Connection.ErrorTextPlain | http/src/err.cpp:17-23 | An error's response holds no NUL and fits, so it is copied unchanged. |
| Answers.ErrorReadsBack | http/src/err.cpp:5-23 | Every error's response starts with its line, such as "HTTP/1.1 400 Bad Request", reads back as that code and reason, and its fields, read by the header loop, are a content length of 0 and "connection: close", with nothing behind them. |
| Answers.AnswerReadsBack | http/src/msg.cpp:26-40 | The answer to a routed request reads back as the router's code, reason, fields and content, unless its reason holds a line end or its text a NUL or is too long. |
| Lifecycle.SendRun | linux/ev_epoll.cpp:124-143 | Over any events and any behaviour of the socket: bytes sent followed by bytes left are the prepared response, only OUT is registered until it is sent, and closes are counted exactly. |
| Lifecycle.ErrorRun | http/src/server.cpp:94-129 | After a request rejected by a parser or by the router, on every run: only OUT is ever registered, keep-alive stays off, the bytes sent are a beginning of the error's response, all of it if transmission completes, and exactly one close follows. |
| ReceiveRuns.ReceiveRun | linux/ev_epoll.cpp:104-122 | Over any events and any behaviour of the socket: the verdicts, the request and the index are those of feeding the parsers the plan's bytes at the buffer lengths the plan gives; IN is registered for every call that asks for more, and a run that stops undecided says why. |
| ReceiveRuns.RunRoutesExactlyWhen | linux/ev_epoll.cpp:104-122 | With a socket that delivers, such a run routes at its last event if and only if feeding the parsers at those lengths does, and then leaves the same request. |
| ReceiveRuns.RequestRun | http/src/server.cpp:77-129 | From a new request to its answer, for any fair pieces and any pace of sending: IN until the last piece, OUT until all is sent; what is sent is a beginning of the router's answer to the request one arrival gives; at the end IN on a fresh request if kept alive, else one close. |
| Transport.IoBuf.WriteBuf | linux/io_buf.cpp:21-30 | As much of the text as fits, copied up to its first NUL and padded, and the counters reset. |
| Transport.IoBuf.WriteBufView | linux/io_buf.cpp:21-30 | The same when the source lies in the destination buffer: the forward copy delivers the old bytes. |
| Transport.PaddedIff | linux/io_buf.cpp:25 | Text survives `strncpy` if and only if nothing but NULs follows its first NUL. |
| Transport.PaddedAgain | linux/io_buf.cpp:25 | A copy, and any end of it, survives being copied again. |
| Transport.Socket.Tx | linux/socket.cpp:69-76 | send takes 1 to all bytes offered, in order, or none and an error. |
| Transport.Socket.Rx | linux/socket.cpp:60-67 | recv delivers as many of the bytes at the head of the plan as there is room for, 0 exactly at the end of the stream, and an error exactly where the plan blocks or fails, told apart by `would_block`; the plan left over is stated. |
| PoolProof.PoolIsSafe | http/src/pool.cpp:5-56 | In every reachable state, for any number of workers: no wakeup is lost, jobs start in submission order, and accepted jobs are queued, running or finished. |
| PoolProof.StepLosesNoWakeup | http/src/pool.cpp:15-29 | Each step keeps: while a worker sleeps, queued jobs are covered by pending notifies and woken workers, and after stop by the pending notify-all. |
| PoolProof.StepKeepsAccounts | http/src/pool.cpp:24-29 | Each step keeps the accounts of accepted, started and finished jobs, and nobody leaves before stop. |
| PoolProof.RestMeansDone | http/src/pool.cpp:33-43 | A pool at rest has finished every accepted job, or after stop has been left by every worker. |
| PoolProof.NothingStartsAfterStop | http/src/pool.cpp:20-22 | Once stop is set no job is dequeued or accepted, over every continuation. |
| Pool.JobQueue.Submit | http/src/pool.cpp:45-56 | The critical section of `submit` is the step; it notifies exactly when it has queued. |
| Pool.JobQueue.Take | http/src/pool.cpp:17-26 | A worker's critical section is the step: wait, leave, or take the oldest job. |
| Pool.JobQueue.Stop | http/src/pool.cpp:35-38 | The destructor's critical section is the step. |
| Keywords.PerfectHashIsLinearSearch | http/include/http/keyword_map.h:94-197 | For every string below 2^32 characters, embedded NULs included, the one probe finds what comparing with all 21 words ignoring case finds. |
| Keywords.OneIsAnyOf | http/include/http/keyword_map.h:141-168 | The value 1 is that of six words in any case: utf-8, html, application, chunked, GET and keep-alive. |
| Keywords.EnumeratorNumber | http/include/http/msg.h:27-39 | Every word of the enumerations of methods, codings, media types, subtypes, character sets and connection options, in any case, has the number of its enumerator. |
| Keywords.WordsHashToTheirSlots | http/include/http/keyword_map.h:141-168 | Every word hashes to its own slot, within the length bounds. |
| Keywords.CaseStrcmp | http/include/http/keyword_map.h:71-83 | The pointer loop is the comparison of the strings up to the first difference or NUL. |
| Lists.ParseList | utils/src/parsing.cpp:17-43 | The loop yields the tokens of the list, up to an empty one. |
| Lists.FieldListRoundTrip | http/include/http/parser.h:34-66 | Known keywords joined by any mix of "," and ", " read back as their linear-search values, in order and without error. |
| Lists.ListIsKeptExactlyWhen | utils/src/parsing.cpp:17-43 | Any printed list, with empty elements anywhere and either separator, is read as its elements in front of the first empty one; it is kept whole if and only if none is empty. |
| Lists.EmptyElementCutsTheList | utils/src/parsing.cpp:27-43 | Whatever text follows an empty element is silently dropped. |
| Strings.StoiReads | http/src/parser.cpp:164-165 | White space, a sign, digits and anything else behind them read as the number, or throw if it is no `int`. |
| Strings.HexReads | http/src/encoding.cpp:36-38 | The same for a chunk size, with or without `0x`: a number 32 bits cannot hold reads as the largest, a negative one modulo 2^32. |
| Strings.ParsePattern | utils/include/utils/parsing.h:11-22 | True if and only if all characters satisfy the test. |
| Uri.Uri.ParseUri | uri/src/parser.cpp:45-94 | The record after `parse_uri` is the function `Parsed`; ranges that end before they start are the outcome `Wild`. |
| Uri.Uri.ParsePathAndQuery | uri/src/parser.cpp:81-93 | The path and query part of `parse_uri`. |
| Uri.Uri.ParseScheme | uri/src/parser.cpp:97-120 | A scheme starts with a letter; it is stored even when a later character is wrong. |
| Uri.Uri.ParseAuthority | uri/src/parser.cpp:122-155 | Userinfo, host and port are cut at '@' and at the first ':' behind the closing bracket. |
| Uri.Uri.ParseUserinfo | uri/src/parser.cpp:157-169 | Any userinfo is accepted, since the test is always true. |
| Uri.Uri.ParseHost | uri/src/parser.cpp:171-210 | Bracketed IPv6 text, IPvFuture or a registered name. |
| Uri.Uri.ParseIpvfuture | uri/src/parser.cpp:213-266 | Version and address around the first dot. |
| Uri.Uri.ParsePort | uri/src/parser.cpp:268-285 | Digits, or no port; a number outside `int` throws. |
| Uri.Uri.ParsePath | uri/src/parser.cpp:287-323 | The nested loops accept exactly the strings of pchars and slashes without two adjacent slashes. |
| Uri.Uri.ParseQuery | uri/src/parser.cpp:325-336 | A query is stored, and is an error unless all its characters are allowed. |
| UriRefusals.PathTaken | uri/src/parser.cpp:287-323 | A path is accepted, and then stored, exactly if all its characters are in the table of RFC 3986 or slashes and no two slashes are adjacent; else the error is set and nothing stored. |
| UriRefusals.OriginTaken | uri/src/parser.cpp:45-94 | An origin-form target without "//": an error exactly if its query, or without a query its path, holds another character; a path with one is not stored either way. |
| UriRefusals.BadPathPasses | uri/src/parser.cpp:81-93 | The target `/a<b?x` is accepted. |
| UriRefusals.QueryTaken | uri/src/parser.cpp:325-336 | A query is an error exactly if it holds a character outside its table, and stored anyway. |
| UriRefusals.SchemeTaken | uri/src/parser.cpp:97-120 | A scheme is an error exactly if it is empty, does not start with a letter or holds a character outside its table. |
| UriRefusals.PortTaken | uri/src/parser.cpp:268-285 | A port is an error exactly if it holds anything but digits. |
| UriRefusals.NameTaken | uri/src/parser.cpp:171-210 | A host without brackets is an error exactly if it is empty or holds a character outside its table, and stored unless empty. |
| UriRefusals.BracketTaken | uri/src/parser.cpp:182-194 | In brackets anything passes that does not start like an IPvFuture, which must start with a lower-case v. |
| UriRefusals.FutureTaken | uri/src/parser.cpp:213-266 | The version of an IPvFuture must be hexadecimal digits and its address characters of its table, neither of them empty. |
| UriRefusals.PortDecides | uri/src/parser.cpp:122-155 | A host name in front of a port is stored whatever it holds; the error is the port's. |
| UriRefusals.AbsoluteRead | uri/src/parser.cpp:45-80 | Of a target in absolute form the scheme is read, and the host with two slashes in front of it. |
| UriRefusals.UserinfoClears | uri/src/parser.cpp:122-169 | A userinfo makes the authority's verdict independent of any error in front of it. |
| UriRefusals.OriginHidden | uri/src/parser.cpp:48-93 | An origin-form target with "//" in its query: undefined behaviour if another slash follows, else the path is passed over and only the query read. |
| UriRefusals.AuthorityReversed | uri/src/parser.cpp:69-80 | A host field with a question mark in front of "//" and no further slash is undefined behaviour. |
| UriRefusals.Pchars | uri/src/parser.cpp:8-41 | The character classes are the tables of appendix A of RFC 3986 without percent-encoding. |
| UriProof.OriginRoundTrip | uri/src/parser.cpp:45-94 | An origin-form target parses to exactly its path and query if and only if "//" occurs nowhere in it. |
| UriProof.AuthorityRoundTrip | uri/src/parser.cpp:122-285 | A printed authority (section 3.2 of RFC 3986) gives every component back without error if and only if its userinfo is colon-free or its host is in brackets. |
| Response.Resp.ToStr | http/src/msg.cpp:26-40 | The status line, every field once in some order, and the content behind a blank line if there is any; for a reason without a line end the text reads back as this code, this reason and the rest. |
| Response.StatusReadBack | http/src/msg.cpp:29 | A printed status line, whatever follows it, reads back if and only if its reason holds no line end: its first line end closes "HTTP/1.1 ", digits whose value is the code, a space and the reason. |
| Response.Resp.PutHeader | http/src/msg.cpp:21-24 | The field is added or replaced. |
| Response.FieldSectionRoundTrip | http/src/msg.cpp:26-40 | The printed fields, in any order, are read back by the header loop as the lower-cased map without error; the section ends, with the index at the first content byte, if and only if there is content. |
| Response.LoweredHolds | http/src/parser.cpp:187-199 | The map read back has exactly the printed names in lower case with their values. |

## Left out

- Kernel and library calls: `recv`, `send`, `accept`, `epoll_wait`, `epoll_ctl` and `fcntl` are parameters (plans, or choices of a step). A short receive or send, an error and would-block are all allowed; send never returns 0.
- Windows sources: a different I/O model whose headers do not match.
- Delivery: the protocol proves what an event reaches, not that every event is delivered; the acceptor's window and the log-only branch of the loop rule that out.
- A second request on a kept-alive connection, and pipelining: `reset_state` rewinds the index but keeps the received bytes.
- Arrivals.SegmentationDoesNotMatter: is about requests shorter than 4 GiB, which the 32-bit cursors can address, with nothing behind their body, hence without trailers. Trailers are modelled as the code reads them, but the offset at `http/src/encoding.cpp:61` does not line up with section 7.1.2 of RFC 9112.
- ReceiveRuns.RequestRun: is about the first request of a connection and a router that answers; `Lifecycle.ErrorRun` has the errors. Whether the connection is still kept alive is told by its flag, not by the plan.
- Connection.Conn.OnClose: records the call; what `on_close` does to the table is `EventLoop.Tables.OnClose`.
- A chunk loop that is never left appends for ever; the memory it uses up is not modelled, and the call counts as a crash.
- Transport.IoBuf.WriteBufView: takes `strncpy` on overlapping ranges, which C++ leaves undefined, as a forward copy.
- OwnershipRuns.MutualExclusion: interleaved threads are modelled as steps on values, not as objects; the methods of `EventLoop.Tables` and `Pool.JobQueue` tie the code of each uninterrupted call to those steps. Which callback a worker runs is reduced to its registrations and its close.
- Exceptions inside `on_conn` (a failing `fcntl`) and in the accept loop, which end the server.
- Absolute-form targets: what is read of them is `UriRefusals.AbsoluteRead`; they do not round-trip, since the authority keeps its slashes.
- The gzip, compress, deflate and identity decoders are the code's stubs; the charset parameter is not read.
- Routing, timeouts, the server's destructor, configuration files, logging and terminal art.
