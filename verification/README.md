# rpcframe: a verified model

rpcframe is an RPC framework in C and C++. A client registers a callback, sends a length-prefixed
request and waits; a server reassembles requests, runs services on worker threads and sends
responses from one epoll thread; the same services can be reached over HTTP through a resumable
HTTP/1.x parser. This project models four cooperating parts of it and proves what they promise.

**The HTTP parser** (`common/src/http_parser.c`). `HttpSwitch` is the state switch as a pure
function of one byte; `HttpCall` is one call of `http_parser_execute` seen byte by byte, with the
callbacks appended to a trace; `HttpExecute` has the class `HttpParser`, whose `Execute` keeps the
marks, the inner loops, the `memchr` search and the jumps over body bytes, and is proved equal to
the byte-by-byte view. On that view the other `Http*` modules prove: no assertion can fail; what is
accepted in pieces is accepted whole, and exactly when the converse holds; methods, header names and
the values that set flags are recognised exactly; lengths are exact; header blocks are bounded; any
head is framed as section 3.3.3 of RFC 7230 says exactly when none of eight listed exceptions applies;
and any stream of messages (`HttpMessages`, `HttpStreams`), of either kind, any version, with sized or
chunked bodies, extensions and trailers, is read back message by message in any calls, after which the
parser waits for the next message or takes no more, as the version and the Connection options say.
`HttpUrl` is the URL splitter and `HttpUrlGrammar` the grammar of what it accepts. `HttpConn`,
`HttpServerConn`, `HttpRequests` and `HttpPost` are the server's HTTP connection on top.

**The response path** (`server/src/RpcServerConnWorker.cpp`, `server/src/RpcServerConn.cpp`,
`common/include/Queue.h`). `ResponsePath` is a state machine in which every access of a worker or of
the epoll thread to shared state is one action and actions interleave freely; `ResponseProgress`
and `ResponseSchedule` show that nothing gets stuck. `Queues`, `ServerConn` and `ConnWorker` are the
queue, the connection and the worker as objects.

**The wire** (`client/src/RpcClientConn.cpp`, `server/src/RpcServerRpcConn.cpp`,
`server/src/RpcRespBroker.cpp`, `client/src/RpcClientWorker.cpp`, `server/src/RpcWorker.cpp`).
`Framing` proves that frames can be read in one way only; `ClientConn`, `RpcConn` and `RespBroker`
are the objects that send, reassemble and lay out packages in buffers; `Codec` is what is in them;
`Delivery` puts the two ends together. A socket (`Sockets`) is a byte stream with a tape that says
what each call does: move some bytes, `EAGAIN`, `EINTR`, an error, or closing.

**The callback registry** (`client/src/RpcEventLooper.cpp`, `client/src/RpcClient.cpp`).
`Registry` has the critical sections as functions and the timeout scan; `EventLooper` has them as
methods of an object; `Callbacks` interleaves senders, response workers, scans and the stop;
`CallbackLaws` says whose callback is called with what; `ReqIds` is the text of request ids;
`CallbackLimits` has two runs that show where guarantees end.

Bytes are characters. Integer widths are written out where they matter: the 64-bit content length,
the 32-bit length prefix and sequence number, 16-bit ports and URL offsets.

## Where the code decides

- What is accepted in pieces is accepted together, with the same result (`HttpSplit.FlattenInvariance`).
  The converse fails in two ways: the search for a line end inside a header value does not look at
  the bytes it skips, but looks at the first byte of every call (`HttpSplit.SplitConverseFails`, and
  from a fresh parser `HttpSplitLimits.AcceptedTogetherOnly`), and a call that ends inside a header
  name or value counts one byte too many (`HttpSplitExact.SplitOverflows`, and from a fresh parser
  `HttpLimits.OverflowsInPieces`). `HttpSplitExact.SplitExact`
  and `HttpSplitExact.PiecesExact` say exactly when bytes accepted together are accepted in pieces.
- So `nread` is the number of header bytes plus the number of such calls since the last reset
  (`HttpHeaderBound.HeaderSizeBound`, `HttpHeaderBound.CountedTwice`).
- A failed send erases timers by key, so it takes every timer with the same expiry second with it
  (`CallbackLimits.FailedSendErasesOthers`). `Callbacks.WhoLoses` says which requests lose their timer,
  and `Callbacks.TimeoutsExact` that exactly these never time out.
- The worker takes data that travels outside the message from right after the length and not from
  after the message, so a request of 10 MiB or more arrives with its length but not its content
  (`Codec.LargeRequestLost`); `Codec.RequestCodec` says exactly when the content is right.
- The port of a URL is read by `strtoul` without an end, so digits behind the buffer join it
  (`HttpUrl.PortJoined`). `HttpUrl.ParseUrl` takes those bytes as a parameter, and says with
  `HttpUrl.PortValue` exactly when they make a difference.
- The framing of a body (section 3.3.3 of RFC 7230) goes by whether some Transfer-Encoding line is
  just the word "chunked" and by the one nonempty length. `HttpFraming.FramingExact` says for any head
  that the result is one RFC 7230 allows if and only if the head is none of these: a response with a
  status that allows no body, but with headers that give it one or are refused; CONNECT with a body;
  codings of which the last is "chunked" although no line is just that, or the other way round; a
  request with other codings only, read as having no body; a length next to other codings, which is
  believed; a length with spaces inside; a valid length that is refused for a tab behind it or its
  size; an empty length, which is not seen. There is a head from a fresh parser for each
  (`HttpFraming.BodylessResponse`, `HttpFraming.ConnectWithBody`, `HttpFraming.CodingBeforeChunked`,
  `HttpFraming.CodingAfterChunked`, `HttpFraming.OtherCoding`, `HttpFraming.CodingAndLength`,
  `HttpFraming.LengthWithSpaces`, `HttpFraming.LengthWithTab`, `HttpFraming.LengthTooLarge`,
  `HttpFraming.NoLength`).
- In a Connection header a beginning of an option takes the comma after it with it, so "clo,close"
  closes nothing (`HttpConnection.OptionMissed`); a list without such items is read right
  (`HttpConnection.OptionsComplete`).
- A header overflow found at the end of a buffer returns the whole length, so the HTTP connection
  judges the piece by its callbacks and refuses only the next one
  (`HttpServerConn.RpcServerHttpConn.GetRequest`, and from a fresh connection
  `HttpLimits.FailsUnnoticed`).
- The HTTP connection takes a GET as complete with its head, so a body comes too late for it
  (`HttpRequests.GetWithBody`); a body in chunks, and a POST without a length, are never handed on
  (`HttpRequests.OneRequest`); a request for an upgrade and a CONNECT are refused (`HttpRequests.UpgradeRefused`).
- A full socket can keep a response waiting for ever; it is the only step the server can take without
  end when nothing new is pushed and no connection comes or goes
  (`ResponseSchedule.EveryScheduleDelivers`, `ResponseSchedule.FullAgain`).

## Model

| member | source | states |
|---|---|---|
| HttpExecute.HttpParser.Execute | common/src/http_parser.c:634-2032 | One call of http_parser_execute, with marks, inner loops and bulk jumps, leaves the fields, errno and callback text of the byte-by-byte view; it consumes everything unless there is an error or an upgrade; at an upgrade it returns exactly the number of bytes that belong to HTTP, and at an error the index of the offending byte, or the length for an overflow found at the end, with the callbacks of the bytes before it run but for an open text |
| HttpExecute.HttpParser.constructor | common/src/http_parser.c:2085-2094 | A parser starts in the initial state of its kind |
| HttpExecute.RunLoop | common/src/http_parser.c:702-2032 | The loop over a buffer and the data callbacks at its end do what feeding the bytes one by one does |
| HttpExecute.ScanField | common/src/http_parser.c:1231-1340 | The inner loop over a header name stops at the first byte that is not a token, with the name recognised and pending |
| HttpExecute.ScanValue | common/src/http_parser.c:1439-1626 | The inner loop over a header value, memchr skip included, stops at a line end, the end of the buffer or an error exactly where the byte-by-byte view does |
| HttpExecute.FindLineEnd | common/src/http_parser.c:1468-1491 | The limited memchr search finds the first CR or LF or runs to the end |
| HttpExecute.BodyJump | common/src/http_parser.c:1823-1857 | Jumping over min(content_length, remaining) bytes equals reading them one by one, and the last byte of a body completes the message on the same byte |
| HttpExecute.StartMarks | common/src/http_parser.c:676-700 | A call that starts inside a text sets exactly the mark of that text |
| HttpExecute.PendingInSeries | common/src/http_parser.c:2003-2022 | At most one mark is set at the end of a buffer, and the five data callbacks hand over exactly its text |
| HttpInvariant.SwitchOk | common/src/http_parser.c:707-2001 | No assertion of the switch fails on any byte: the set of header states each state expects, F_CHUNKED in chunk states and a nonzero, non-sentinel length where a body is read are all kept |
| HttpInvariant.FieldByteOk | common/src/http_parser.c:1231-1340 | The matcher of header names stays inside the word it matches |
| HttpInvariant.ValueByteOk | common/src/http_parser.c:1439-1600 | The matcher of header values stays inside its word and the length below the sentinel |
| HttpCall.StepOk | common/src/http_parser.c:702-2001 | What the assertions need holds after every byte of every call |
| HttpSplit.SplitInvariance | common/src/http_parser.c:634-2032 | If feeding x and then y ends without an error, feeding x + y in one call does too, with the same fields and callback text and nread no larger |
| HttpSplit.FlattenInvariance | common/src/http_parser.c:634-2032 | Whatever is accepted in any number of pieces is accepted in one call, with the same fields and callback text and nread no larger |
| HttpSplitExact.SplitExact | common/src/http_parser.c:1343-1348 | Two pieces accepted together are accepted one after the other if and only if the byte after the boundary passes the check the search would have skipped and there is room for the byte counted twice |
| HttpSplitExact.PiecesExact | common/src/http_parser.c:1439-1626 | Pieces accepted together are accepted one after the other if and only if no boundary does any harm |
| HttpSplitExact.SplitWithRoom | common/src/http_parser.c:1468-1491 | Away from the header limit only the skipped check is left as a condition |
| HttpSplitExact.SplitOverflows | common/src/http_parser.c:1343-1348 | Three bytes below the limit, two bytes of a value fit in one call and not in two |
| HttpLimits.OverflowsInPieces | common/src/http_parser.c:1343-1348 | A run from a fresh parser that gets there: the next two bytes of a value are accepted in one call and overflow in two |
| HttpSplitLimits.AcceptedTogetherOnly | common/src/http_parser.c:1468-1491 | From a fresh parser: a request with a control character in a value is accepted in one call and not when that character comes in its own |
| HttpSplit.AnySplit | common/src/http_parser.c:634-2032 | What is accepted byte by byte is accepted however it is cut, with the same result |
| HttpSplit.FeedMono | common/src/http_parser.c:154-161 | A parser that has counted fewer header bytes accepts whatever the other accepts, with the same result |
| HttpSplit.SplitConverseFails | common/src/http_parser.c:1468-1491 | A forbidden byte behind a skipped one is accepted in one call and rejected when a call starts with it |
| HttpMethods.MethodRecognised | common/src/http_parser.c:920-1013 | Reading w and a space reaches the URL with method m if and only if w, after leading line ends, is the name of m |
| HttpMethods.ReadsTracks | common/src/http_parser.c:963-1013 | The bytes consumed are the first index letters of the current method across every switch of the table |
| HttpMethods.TableSound | common/src/http_parser.c:972-1004 | The table only moves between methods that agree on what has been read |
| HttpNames.NameRecognised | common/src/http_parser.c:1181-1340 | Connection, Proxy-Connection, Content-Length, Transfer-Encoding and Upgrade are recognised if and only if the name is that word in any case |
| HttpLengths.ContentLengthExact | common/src/http_parser.c:1498-1523 | Reading digits and spaces gives their exact decimal value, or an error exactly when it is too large for 64 bits short of the sentinel |
| HttpLengths.ChunkSizeExact | common/src/http_parser.c:1875-1926 | Reading hex digits gives their exact value, or an error exactly when it passes the limit |
| HttpChunked.ChunkedRoundTrip | common/src/http_parser.c:1875-1993 | Any list of nonempty chunks, printed and cut into calls in any way, gives each chunk's size, data and end in order, and one end of message |
| HttpChunked.DecodedBody | common/src/http_parser.c:1956-1993 | Those callbacks hold the concatenated data, one chunk end per chunk and one for the last, and one message_complete |
| HttpChunked.HexRoundTrip | common/src/http_parser.c:1891-1926 | A chunk size printed in hex reads back as itself |
| HttpReplies.ResponseRoundTrip | server/src/RpcRespBroker.cpp:155-192 | What the broker prints for any three-digit status and any body, cut in any way, gives a response parser that status, that body, one message_complete and the dead state |
| HttpHeaderBound.HeaderSizeBound | common/src/http_parser.c:154-161 | While there is no error nread is exactly the header bytes since the last reset plus the calls since then that ended inside a header name or value, and never above 80 KiB |
| HttpHeaderBound.CountedTwice | common/src/http_parser.c:1343-1348 | One byte of a header name in a call of its own counts twice |
| HttpValues.TransferEncodingExact | common/src/http_parser.c:1524-1533 | A Transfer-Encoding line sets F_CHUNKED if and only if its value is "chunked" in any case followed by spaces only |
| HttpConnection.ConnectionExact | common/src/http_parser.c:1536-1615 | A Connection line sets the flags of exactly the options its list names, item by item, and changes nothing else |
| HttpConnection.OptionsSound | common/src/http_parser.c:1536-1615 | Only options that are an item of the list are named |
| HttpConnection.OptionsComplete | common/src/http_parser.c:1536-1615 | All of them are, if every item starts like a token and none is a mere beginning of an option |
| HttpConnection.OptionMissed | common/src/http_parser.c:1566-1575 | In "clo,close" nothing is found |
| HttpRequestLine.RequestLineRead | common/src/http_parser.c:920-1176 | A request line of any of the 33 methods, with any target the URL automaton accepts and any version or none, leads to the header lines with that method, version and fresh flags, and reports exactly that URL |
| HttpStatusLine.StatusLineRead | common/src/http_parser.c:764-906 | A status line of any version and three-digit status, with or without a reason, leads to the header lines with those numbers, and reports exactly that reason |
| HttpHead.AllLines | common/src/http_parser.c:1178-1706 | Any list of header lines, read together: refused exactly if there are two nonempty lengths or one that is not digits and spaces or too large; otherwise F_CHUNKED, the length, F_UPGRADE and the three Connection flags are exactly what the lines say, and nothing else has changed |
| HttpFraming.HeadFramed | common/src/http_parser.c:1708-1821 | The whole head decides the framing by four things: some coding line that is just "chunked", the first nonempty length, the kind and the status |
| HttpFraming.FramingExact | common/src/http_parser.c:1708-1821 | For any head: the body is framed as section 3.3.3 of RFC 7230 allows, judged by the last transfer coding and the valid lengths in the header lines, if and only if none of the listed exceptions applies |
| HttpFraming.RequestFramingExact | common/src/http_parser.c:1708-1821 | The same from a fresh parser, for a request of any method |
| HttpFraming.ResponseFramingExact | common/src/http_parser.c:1708-1821 | The same from a fresh parser, for a response of any status |
| HttpFraming.ChunkedIsRight | common/src/http_parser.c:1593-1595 | A single line that says "chunked" and is read as chunks has chunked as its last coding |
| HttpFraming.BodylessResponse | common/src/http_parser.c:1777-1821 | A 204 response with a length of 5 is given a body of 5 bytes |
| HttpFraming.ConnectWithBody | common/src/http_parser.c:1777-1790 | A CONNECT request with a length of 5 is given none |
| HttpFraming.CodingBeforeChunked | common/src/http_parser.c:1524-1533 | A request with the codings "gzip, chunked" is taken to have no body |
| HttpFraming.CodingAfterChunked | common/src/http_parser.c:1656-1658 | A response with the codings chunked and gzip in two lines is read as chunks |
| HttpFraming.OtherCoding | common/src/http_parser.c:1807-1821 | A request with the coding gzip alone is not refused |
| HttpFraming.CodingAndLength | common/src/http_parser.c:1777-1821 | A response with the coding gzip and a length is read by the length |
| HttpFraming.LengthWithSpaces | common/src/http_parser.c:1498-1502 | A length of "1 2" is read as 12 |
| HttpFraming.LengthWithTab | common/src/http_parser.c:1504-1508 | A length with a tab behind it is refused |
| HttpFraming.LengthTooLarge | common/src/http_parser.c:1510-1523 | So is every length above 2^64 - 7, as it is printed |
| HttpFraming.NoLength | common/src/http_parser.c:1677-1706 | A request with an empty length is not refused |
| HttpFraming.ConflictRefused | common/src/http_parser.c:1708-1735 | A head with both a transfer coding and a length is refused |
| HttpUrl.ParseUrl | common/src/http_parser.c:2283-2385 | Accepted exactly if the URL has components and its port fits 16 bits; the parts are nonempty, disjoint, in order and cover everything but delimiters; the port is the value of the digits from its start on and fits 16 bits, and equals its own digits exactly when no digit lies right behind the buffer or all are zeros |
| HttpUrlGrammar.UrlGrammar | common/src/http_parser.c:2294-2363 | A URL has components if and only if, cut at the first "#", the first "?" and "://" as appendix B of RFC 3986 cuts it, every piece has its own characters and the authority is userinfo, host or bracketed address, and port |
| HttpUrlGrammar.ConnectGrammar | common/src/http_parser.c:2294-2363 | For CONNECT a host is found if and only if the target is an authority with a path or query behind it |
| HttpUrlGrammar.AuthorityRuns | common/src/http_parser.c:2196-2276 | The host automaton accepts exactly the authorities of that grammar |
| HttpUrl.ParseHost | common/src/http_parser.c:2196-2276 | Userinfo, host and port are ordered, in bounds and cover all of the host part but delimiters |
| HttpUrl.ScanUrl | common/src/http_parser.c:2294-2352 | The URL loop finds the parts the URL automaton passes through |
| HttpUrl.ScanByte | common/src/http_parser.c:2296-2351 | Every byte keeps the parts ordered, nonempty and complete up to delimiters |
| HttpUrl.PortValue | common/src/http_parser.c:2369-2381 | The port value is that of the port's own digits if and only if no digit follows them in memory or all of them are zeros |
| HttpUrl.PortJoined | common/src/http_parser.c:2369-2381 | For CONNECT to "a:8" with a '0' behind the buffer the port is 80 |
| HttpUrl.StopByte | common/src/http_parser.c:2296-2351 | The host part ends at a slash, a question mark or the end of the URL, so digits can follow the port only behind the buffer |
| HttpConn.SinglePost | server/src/RpcServerHttpConn.cpp:93-169 | A connection carrying one POST, over any recv segmentation in which the parser accepts it: only the last recv yields a package, with exactly the body and, for "/" + s + "/" + m, service s and method m |
| HttpConn.SplitUrl | server/src/RpcServerHttpConn.cpp:139-141 | The URL "/" + s + "/" + m is cut into s and m |
| HttpConn.OneSlash | server/src/RpcServerHttpConn.cpp:139-141 | With no second slash the service is the rest and the method the whole URL |
| HttpConn.FeedAfter | common/src/http_parser.c:1708-1821 | During a call the trace only grows, and an upgrade is decided only together with on_headers_complete |
| HttpServerConn.RpcServerHttpConn.GetRequest | server/src/RpcServerHttpConn.cpp:93-169 | One call does to parser, URL, body and flags what the received piece demands, and yields a package, waits or refuses accordingly; if the parser fails, the piece is refused at once exactly when one of its bytes is rejected, and otherwise, a header overflow at its end, it is judged by its callbacks as if nothing had happened, and the next piece is refused |
| HttpLimits.FailsUnnoticed | server/src/RpcServerHttpConn.cpp:119-139 | Such a run from a fresh connection: after pieces that fit the buffer the parser fails on one more byte, rejects none, and the connection waits for more |
| HttpServerConn.RpcServerHttpConn.RunCallbacks | server/src/RpcServerHttpConn.cpp:24-51 | The callbacks collect URL and body and set the final and failed flags event by event |
| HttpRequests.OneRequest | server/src/RpcServerHttpConn.cpp:24-169 | One request of any method, with any header lines and framing, in any recv pieces that stay below the header limit: every recv but the last waits; the last yields the package of a GET with no body, or of a sized body with exactly its bytes, refuses a POST whose length is 0, and waits for ever otherwise |
| HttpRequests.GetWithBody | server/src/RpcServerHttpConn.cpp:31-51 | A GET with a body is handed on without it if a recv ends with its head, and waits if one ends inside the body |
| HttpRequests.UpgradeRefused | server/src/RpcServerHttpConn.cpp:121-124 | A head that asks for an upgrade, or a CONNECT, is refused by the recv that brings it |
| HttpPost.PrintedGet | server/src/RpcServerHttpConn.cpp:34-36 | Every printed GET for a service and method, with any plain headers and in any pieces below the limit, yields its package with no body on the last recv and on no other |
| HttpPost.EmptyPostRefused | server/src/RpcServerHttpConn.cpp:37-40 | Every printed POST with a Content-Length of 0 is refused on the last recv and on no other |
| HttpPost.PrintedPost | server/src/RpcServerHttpConn.cpp:93-169 | Every printed POST, with any plain headers, method and service, delivered in any pieces, yields its package on the last recv and on no other, if its head and one byte for each piece that ends inside it are below the header limit |
| HttpPost.PrintedPostFed | common/src/http_parser.c:634-2032 | The parser accepts such a POST in those pieces |
| HttpPost.PrintedPostAccepted | common/src/http_parser.c:920-1821 | Reading any printed POST head below the header limit, the parser reports that URL, that method and that length, and then waits for the body |
| HttpRoom.CallsAgree | common/src/http_parser.c:154-161 | Bytes that are valid one by one give, in any calls, the result of the bytes, or else the header limit is exceeded: nothing else can go wrong |
| HttpRoom.CallsRoom | common/src/http_parser.c:154-161 | The limit is not exceeded as long as the header bytes between two resets, and one more for each call that ends inside a name or value, are below it |
| HttpMessages.MessageRead | common/src/http_parser.c:1708-1993 | Any message that is framed as it says and asks for no upgrade is read to its end with exactly its callbacks, chunk extensions and trailers included; then the next message of its kind may start if HTTP/1.1 is not closed or an older version asks to be kept, and otherwise nothing may follow |
| HttpStreams.StreamDelivered | common/src/http_parser.c:445-456 | From a fresh parser, any stream of requests or of responses on a connection that is kept after all but the last, in any calls: each message is reported with its own callbacks, in order, and the parser is left where the last one says, unless the header limit is exceeded |
| HttpStreams.StreamAccepted | common/src/http_parser.c:154-161 | The limit is not exceeded if every head, size line and trailer, with the calls that end inside names and values, is below it |
| HttpStreams.StreamEnds | common/src/http_parser.c:707-720 | After a stream the end of input completes a body without an end and is fine otherwise; after a message that closes the connection the first byte that is no line end fails with HPE_CLOSED_CONNECTION |
| HttpStreams.EndOfInput | common/src/http_parser.c:653-673 | A call without bytes ends a body without an end, does nothing between messages and is an error anywhere else |
| HttpFraming.UpgradeExact | common/src/http_parser.c:1729-1811 | An upgrade is decided exactly if Upgrade and Connection lines ask for one in a request or a 101 response, or else for CONNECT, and the call ends with the head exactly if no body comes first |
| HttpLenient.BareLineFeed | common/src/http_parser.c:1183-1194 | Wherever a line of a head may end, a line feed alone does what a line end does |
| HttpLenient.FoldedLine | common/src/http_parser.c:1641-1646 | A line that starts with a blank goes on with the value of a plain header |
| HttpLenient.EitherKind | common/src/http_parser.c:722-770 | A parser for either kind reads a request as one for requests does and a response as one for responses |
| ResponsePath.NoLostWakeup | server/src/RpcServerConnWorker.cpp:50-108 | In every run a live connection with something to send is armed, has a token, is being announced or is about to be armed; a package in flight is always armed; tokens and events balance |
| ResponsePath.AsleepMeansArmed | server/src/RpcServerConnWorker.cpp:308-341 | When the epoll thread sleeps with no event and no push under way, everything pending is armed |
| ResponsePath.WireOrder | server/src/RpcServerConn.cpp:67-134 | In every run the wire holds the fully sent responses in queue order and the first bytes of the current one, and nothing queued is lost or reordered |
| ResponsePath.ActionKeeps | server/src/RpcServerConnWorker.cpp:50-341 | Every action of every thread keeps the invariant behind these results |
| ResponsePath.SendKeeps | server/src/RpcServerConn.cpp:110-134 | Taking up a package and sending one piece keeps the wire in order, whatever send() does |
| ResponseProgress.EveryResponseCanArrive | server/src/RpcServerConnWorker.cpp:50-108 | From every reachable state the threads can go on, with nothing new pushed, until every response queued on a live connection is whole and in order on the wire |
| ResponseSchedule.EveryScheduleDelivers | server/src/RpcServerConnWorker.cpp:50-108 | Under any schedule in which nothing new is pushed and no connection comes or goes from outside, the number of steps, failing sends included, is bounded, not counting sends that find the socket full; when nothing but sends without success is left, every response queued on a live connection is on the wire |
| ResponseSchedule.FinishingStep | server/src/RpcServerConnWorker.cpp:50-341 | Every such step brings the server closer to rest, partial and failing sends and disarming included; a send that finds the socket full at least does not take it further away |
| ResponseSchedule.FullAgain | server/src/RpcServerConn.cpp:81-85 | With a package in flight a full socket leaves everything as it is, so such sends have no bound |
| ConnWorker.RpcServerConnWorker.PushResp | server/src/RpcServerConnWorker.cpp:308-341 | On connection objects, run without interruption, pushResp is queueing, pushing the token and writing the event in that order, or only a dropped response; no other connection changes |
| ConnWorker.RpcServerConnWorker.OnDataOutEvent | server/src/RpcServerConnWorker.cpp:76-108 | On connection objects, run without interruption, onDataOutEvent is reading the event, popping the token and arming |
| ConnWorker.RpcServerConnWorker.OnDataOut | server/src/RpcServerConnWorker.cpp:50-74 | On connection objects, run without interruption: what the first uninterrupted send returns decides, so that a full socket leaves the connection with nothing written, a closed or failing one takes exactly it out of the set, and bytes written are the next ones of its package; it is disarmed exactly with nothing left; and this is the machine's send and what follows it |
| ServerConn.RpcServerConn.SendNext | server/src/RpcServerConn.cpp:110-134 | With something pending, the first uninterrupted result of send() decides: a full socket is PARTIAL with nothing written, a closed or failing one FAIL with nothing written, and n bytes are the next n of the package, FULL exactly at its end; with nothing pending NODATA; this is the machine's send action |
| ServerConn.RpcServerConn.SendData | server/src/RpcServerConn.cpp:67-108 | The same for the package in flight |
| ServerConn.RpcServerConn.SendRetrying | server/src/RpcServerConn.cpp:69-92 | The outcome is that of the first send that is not interrupted, and the bytes written are the next bytes of the package |
| ServerConn.RpcServerConn.PushResponse | server/src/RpcServerConnWorker.cpp:325-329 | A response is queued last, or dropped when the queue is full |
| Queues.Queue.Push | common/include/Queue.h:47-70 | A full queue refuses or lets the oldest item go; otherwise the item goes last, and order is kept over the whole history |
| Queues.Queue.PushOrWait | common/include/Queue.h:47-64 | With a timeout a full queue makes the caller wait and changes nothing |
| Queues.Queue.PushWoken | common/include/Queue.h:58-69 | A woken push appends without looking at the length again; one that timed out does nothing |
| Queues.Queue.PopWoken | common/include/Queue.h:24-34 | A woken pop takes the oldest item or waits again; one that timed out gives up |
| Queues.Queue.Pop | common/include/Queue.h:17-35 | The oldest item leaves, if there is one |
| Framing.FramingUnique | client/src/RpcClientConn.cpp:209-312 | A byte stream can be cut into frames in one way only: a reader's packages are the first of the writer's, and all of them when nothing is left on the way |
| ClientConn.RpcClientConn.GetResponse | client/src/RpcClientConn.cpp:286-312 | As long as no length read is interrupted: fails exactly when the connection is gone; otherwise every byte received is in a package handed out or in the frame being read, and the package handed out is the next one |
| ClientConn.RpcClientConn.ReadPkgLen | client/src/RpcClientConn.cpp:209-246 | Receives exactly four bytes, in any pieces, and gives the number they stand for, unless a signal interrupts the read, which then miscounts |
| ClientConn.RpcClientConn.ReadPkgData | client/src/RpcClientConn.cpp:248-284 | Receives exactly what the socket delivers into the buffer; the package is full exactly when its last byte has arrived |
| ClientConn.RpcClientConn.SendReq | client/src/RpcClientConn.cpp:314-351 | Success puts exactly one request frame on the wire, a failure or a timeout less than a frame; as long as that has not happened the wire is whole frames |
| ClientConn.RpcClientConn.SendData | client/src/RpcClientConn.cpp:353-386 | Success means the whole buffer is on the wire, anything else a proper prefix; a timeout needs the clock to have passed it |
| ClientConn.LayOut | client/src/RpcClientConn.cpp:329-347 | The buffer holds the frame of the request package, copied in place |
| RpcConn.RpcServerRpcConn.GetRequest | server/src/RpcServerRpcConn.cpp:131-164 | As on the client, under non-blocking reads; it also refuses exactly when the announced size is over the limit |
| RpcConn.RpcServerRpcConn.ReadPkgLen | server/src/RpcServerRpcConn.cpp:33-83 | Nothing to read is success with length 0; after a first byte it does not stop before the fourth |
| RpcConn.RpcServerRpcConn.ReadPkgData | server/src/RpcServerRpcConn.cpp:85-129 | Receives exactly what the socket delivers, trying again when interrupted; the package is full exactly when its last byte has arrived |
| Codec.ResponseCodec | client/src/RpcClientWorker.cpp:43-57 | The client reads out of a response exactly the request id, user data and status the server put in |
| Codec.RequestCodec | server/src/RpcWorker.cpp:57-73 | The service gets the names, id, kind, timeout and data length of the request sent, and the data itself if and only if it is below 10 MiB or repeats the message |
| Codec.LargeRequestLost | server/src/RpcWorker.cpp:70-73 | Whatever the names, some request of 10 MiB arrives with other content |
| RespBroker.RpcRespBroker.AllocRespBuf | server/src/RpcRespBroker.cpp:100-126 | The buffer holds both lengths and the message and has room for the data and the status; over HTTP it holds the header |
| RespBroker.RpcRespBroker.WriteUserData | server/src/RpcRespBroker.cpp:121-124 | The service's data goes where the allocation said and disturbs nothing else |
| RespBroker.RpcRespBroker.SetReturnVal | server/src/RpcRespBroker.cpp:128-143 | Afterwards the buffer is the frame of the response package with the user data and that status, or over HTTP unchanged; with nothing allocated a one-byte response is made |
| RespBroker.RpcRespBroker.AllocHttpResp | server/src/RpcRespBroker.cpp:155-163 | The buffer is the printed HTTP response, which ResponseRoundTrip reads back |
| RespBroker.RpcRespBroker.AllocHttpBuf | server/src/RpcRespBroker.cpp:165-172 | The buffer starts with the printed header and has exactly the promised room after it |
| Delivery.ResponseDelivery | client/src/RpcClientConn.cpp:286-312 | In every run of the server, however sends and receives are cut, the packages the client has received are the first of those queued, and all that were fully sent once it has read the wire; it hands out those not empty |
| Delivery.RequestDelivery | server/src/RpcServerRpcConn.cpp:131-164 | The packages the server has received are the first of those the client sent, and all of them once it has read the wire; it hands out those not empty |
| Delivery.RepliesArrive | client/src/RpcClientWorker.cpp:43-57 | Every response received is handed out and decodes to the request id, data and status given to it on the server |
| Delivery.RequestsArrive | server/src/RpcWorker.cpp:57-73 | Every request handed out decodes to the request sent if it is below 10 MiB, and keeps its data length always |
| Registry.ScanIsFilter | client/src/RpcEventLooper.cpp:248-280 | The early-exit walk runs the callbacks of exactly the live requests with a timer earlier than now, removes exactly those ids and keeps every live timer not yet due |
| Registry.SendingRegisters | client/src/RpcEventLooper.cpp:177-217 | The whole effect of sendReq: with a callback the request waits in the map with its timer, or its callback has run once with the status of the send, the map is as before and every timer under its key is gone; without one neither map changes |
| EventLooper.RpcEventLooper.SendReq | client/src/RpcEventLooper.cpp:177-217 | Run without interruption, sendReq is the steps of the sending thread in order, one-way requests included |
| Registry.InsertKeeps | client/src/RpcEventLooper.cpp:190-192 | Insertion keeps the timers in key order |
| Registry.EraseKeeps | client/src/RpcEventLooper.cpp:207-209 | Erasing a key removes exactly the timers under it |
| EventLooper.RpcEventLooper.DealTimeoutCb | client/src/RpcEventLooper.cpp:248-280 | The loop that erases as it walks is the scan |
| EventLooper.RpcEventLooper.RemoveAllConnections | client/src/RpcEventLooper.cpp:87-96 | Every live callback is called with the disconnected status whatever the order of the map, no other request changes, and both maps are empty |
| EventLooper.RpcEventLooper.RunResponse | client/src/RpcClientWorker.cpp:43-68 | A response for an id in the map calls the callback of the request with that id with its status and takes that id out, and nothing else changes; for any other id nothing happens |
| EventLooper.RpcEventLooper.HandleSendFailure | client/src/RpcEventLooper.cpp:203-213 | Calls that request's callback with the status, takes its id out, erases exactly the timers under its key, and changes nothing else but who has lost a timer |
| EventLooper.RpcEventLooper.GenReqID | client/src/RpcEventLooper.cpp:147-157 | The id takes the sequence number as it stands, without the lock |
| EventLooper.RpcEventLooper.InsertCb | client/src/RpcEventLooper.cpp:184-186 | The id goes into the map unless it is there |
| EventLooper.RpcEventLooper.InsertTimeout | client/src/RpcEventLooper.cpp:187-193 | The timer goes in behind those that are not later |
| EventLooper.RpcClientCallBack.CallbackSafe | client/src/RpcClient.cpp:138-151 | A callback object that is not shared runs once and never again |
| Callbacks.ExactlyOnce | client/src/RpcEventLooper.cpp:159-280 | In every interleaving with fewer than 2^32 sends, a registered asynchronous request is in the map with its callback run at most once, or gone with its callback run exactly once |
| Callbacks.AtMostOnce | client/src/RpcClient.cpp:138-151 | In every interleaving no unshared callback runs twice, synchronous calls included, nor before its id is registered |
| Callbacks.ActionKeeps | client/src/RpcClientWorker.cpp:43-68 | Every action of every thread keeps the invariant behind these results |
| CallbackLaws.ResponseDispatched | client/src/RpcClientWorker.cpp:54-62 | In every run, whatever others do between a worker's three steps: exactly one request has the id of the response, its callback and no other is called with the status of the response, and its id and no other leaves the map |
| CallbackLaws.SendSettled | client/src/RpcEventLooper.cpp:194-216 | In every run, what a thread does after a send concerns the request it sent: after a failure its callback is called with the status of the send, and after a synchronous wait its id leaves the map |
| CallbackLaws.StopTells | client/src/RpcEventLooper.cpp:87-96 | In every run the stop tells everyone still waiting, and nobody else, that it is disconnected, and empties both maps |
| Callbacks.UniqueIds | client/src/RpcEventLooper.cpp:147-199 | Two requests of one client, one-way ones included, differ in thread or sequence number while there are fewer than 2^32 sends |
| Callbacks.TimeoutsExact | client/src/RpcEventLooper.cpp:248-280 | In every run a live request has a timer if and only if it has an expiry and has not lost it, and a scan takes it out if and only if that timer is earlier than now |
| Callbacks.WhoLoses | client/src/RpcEventLooper.cpp:203-213 | A failed send takes the timers of exactly the requests with its expiry; nothing else takes any |
| Callbacks.TimerWentIn | client/src/RpcEventLooper.cpp:187-193 | A request has an expiry if and only if it has a timeout and its thread is past inserting it |
| Callbacks.NothingLost | client/src/RpcEventLooper.cpp:203-213 | In runs where no send fails nobody loses a timer |
| Callbacks.NoneOverdue | client/src/RpcEventLooper.cpp:248-280 | So no overdue request survives a scan there: a request whose timer went in is in the map afterwards if and only if it was before and expires now or later, and if it goes its callback runs with the timeout status |
| ReqIds.RequestIdsUnique | client/src/RpcEventLooper.cpp:147-157 | No two requests of a client, one-way ones included, are ever written with the same id text, in any run with fewer than 2^32 sends |
| ReqIds.TextUnique | client/src/RpcEventLooper.cpp:149-156 | Different ids are written differently |
| CallbackLimits.FailedSendErasesOthers | client/src/RpcEventLooper.cpp:207-209 | A run in which one failed send leaves another request waiting with no timer, for every later scan |
| CallbackLimits.SharedRunsTwice | client/src/RpcClient.cpp:138-142 | A run in which a shared callback object runs twice for one request |

## Left out

- Parser callbacks that pause, fail or change the parser, the hand-off after an upgrade beyond the return value, and non-strict mode.
- HttpExecute.HttpParser.Execute: a data callback with no bytes is not visible in the trace, because the trace keeps text byte by byte; after an error the fields other than upgrade are not described.
- HttpServerConn.RpcServerHttpConn.GetRequest: a final request with an empty URL is treated as waiting; in the source it ends in an exception.
- HttpRequests.OneRequest: several requests on one server connection are not modelled beyond each single call, because the URL and the body are never cleared; the keep-alive mark its callback stores is not used.
- HttpUrl.ParseUrl: buffers above 65535 bytes are not modelled, because offsets would wrap at 16 bits.
- HttpFraming.FramingExact: header lines are printed with ": " and CR LF, without folding (HttpLenient has bare line feeds and folded plain values); the answer to a HEAD or CONNECT request is judged as any other, because the parser does not know of the request by itself; a list of equal lengths in one line counts as invalid, as section 3.3.2 of RFC 7230 permits.
- ClientConn.RpcClientConn.ReadPkgLen: the description ends at an interruption before the first byte, because the code then reads on at a negative offset.
- ResponsePath.NoLostWakeup: the token queue is taken to be never full and eventfd calls to succeed; two connections with the same id at one time do not occur. The threads act on values here; ServerConn and ConnWorker have the objects, each function run without interruption.
- RespBroker.RpcRespBroker.AllocRespBuf: response() over HTTP, which prints a response around whatever the buffer holds, is not modelled; nor are writes to a buffer already queued.
- Codec.ResponseCodec: protobuf is a pair of functions of which only "parsing undoes serializing" is assumed; packages too short for the offsets they are read at are not modelled.
- ClientConn.RpcClientConn.SendReq: packages of 4 GiB and more, whose length would be cut, are not modelled.
- Callbacks.ExactlyOnce: each request has its own callback object and nobody calls markTimeout; requests refused before an id is made (too large, no connection) are not in the model, and neither is the map from connections to callbacks, which nothing fills.
- ReqIds.RequestIdsUnique: the operating system is taken not to give two live threads one id.
- Connection limits in onAccept, liveness of edge-triggered reads, connecting and resolving names, configuration, statistics, logging, the services themselves and memory ownership.
