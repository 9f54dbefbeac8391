# rgrpc core in Dafny

A model of the call machinery of rgrpc, a small Ruby RPC framework that runs
gRPC-style unary calls over one HTTP/2 connection. Five pieces of the
library are modelled:

- **Request envelope** (`Envelope`, request.dfy): the fixed header list a call
  opens its stream with (the HTTP/2 pseudo-headers of section 8.1.2.3 of
  RFC 7540 plus the gRPC headers), and the payload: the message encoded by
  the coder, then deflated.
- **Promise** (`Futures`, promise.dfy): a one-field cell. `Set` overwrites it.
  `Value` polls over an integer clock until the stored value is truthy or the
  timeout has passed, and returns the stored value.
- **HTTP/2 client** (`Client`, http2_client.dfy): the connected and closing
  flags, and the FIFO write queue that carries every emitted frame to the
  socket. It also holds the callbacks `request` registers on each stream:
  a header block replaces the stream's header hash, data chunks are
  appended, and close resolves the stream's future with
  `Response(headers, body)`. Two lines of the client do not work as
  written. The model gives each its as-written form and its corrected form;
  see "## Findings". The read and write threads are modelled one iteration
  per call.
- **Server connection** (`Server`, server.dfy): the same per-stream
  accumulation, the fixed reply sent on half-close (`:status` 200,
  `text/plain`, `content-length` 20, body `HELLO TO YOU FRIEND!`), and the
  read loop. A protocol error is logged and reading goes on; end of file
  ends the loop.
- **TLS socket builder** (`Tls`, secure_socket_builder.dfy): the TLS context
  as a record, the server-side ALPN selection (section 3.2 of RFC 7301, with
  the `h2` identifier of section 3.1 of RFC 7540), and the client's check
  that the negotiated protocol is `h2`.

Shared pieces:

- wrappers.dfy: `Option` and `Result`.
- encoding.dfy: bytes, concatenation of chunks, and the decimal rendering
  of integers (`Integer#to_s`) with its parser.
- header_fields.dfy: `Hash[*pairs.flatten]`.
- streams.dfy: the per-stream accumulator the client and the server share,
  and the calls made on stream objects.

The HTTP/2 library is not modelled. What it hands to the callbacks is an
event: `Frame`, `Headers`, `Data`, `StreamClose`/`HalfClose`, `Opened`,
`ProtocolError` or `Eof`. What the code asks of a stream object
(`stream.headers(...)`, `stream.data(...)`) is logged as a `StreamAction`.
The coder's `encode` and Zlib's `deflate` are function-valued parameters. A
TLS handshake is represented only by the protocol it negotiated, which is
passed in as a parameter.

Three things the code does not do, which the model therefore does not do either:

- `Promise#set` does not enforce single assignment.
- The server has no dispatch by path and sends no `grpc-status`.
- `create_ssl_context` raises nothing when the certificate or the key is missing.

## Model

| member | source | states |
|---|---|---|
| HeaderFields.PairsToMap | lib/rgrpc/http2_client.rb:57 | the hash built from header pairs has exactly the names that occur in them as keys |
| HeaderFields.LastPairWins | lib/rgrpc/server.rb:51 | when a name repeats, the hash holds the value of its last pair |
| Streams.Receive | lib/rgrpc/http2_client.rb:55-63 | a header block replaces the hash, with the block's names as its keys, and leaves the buffer alone; a data chunk leaves the hash alone and only appends to the buffer |
| Streams.ReceiveAll | lib/rgrpc/server.rb:50-58 | over any run of callbacks the buffer only grows, keeping what it held as its prefix, and the hash changes only if a header block arrives |
| Streams.ReceiveAllBody | lib/rgrpc/http2_client.rb:60-63 | after any run of callbacks the body buffer is the old buffer followed by every data chunk, in arrival order |
| Streams.ReceiveAllHead | lib/rgrpc/http2_client.rb:55-58 | after any run of callbacks the header hash is the one built from the last header block, and is unchanged if there was none |
| Envelope.Headers | lib/rgrpc/request.rb:20-29 | the request has eight header fields; the first four are the pseudo-headers and no other field is one, so pseudo-headers precede regular fields (section 8.1.2.1 of RFC 7540) |
| Envelope.Authority | lib/rgrpc/request.rb:23 | the authority is the host, then `:`, then a port rendering with no `:` in it, so the separator is the authority's last `:` |
| Envelope.TimeoutValue | lib/rgrpc/request.rb:25 | the timeout value is a decimal number, signed when negative, followed by the unit `m` |
| Envelope.HeaderNames | lib/rgrpc/request.rb:20-29 | the request headers are the eight names `:scheme`, `:method`, `:authority`, `:path`, `grpc-timeout`, `content-type`, `user-agent`, `grpc-encoding`, in that order, each once |
| Envelope.HeadersHashKeys | lib/rgrpc/request.rb:21-28 | as a hash the headers have exactly those eight keys |
| Envelope.HeadersHashPseudo | lib/rgrpc/request.rb:21-24 | in the hash, `:scheme` is `http`, `:method` is `POST`, `:authority` is `host:port` and `:path` is the path as given |
| Envelope.HeadersHashValues | lib/rgrpc/request.rb:25-28 | in the hash, `grpc-timeout` is `<timeout>m`, and the fixed values are `application/grpc+proto`, `grpc-ruby-rgrpc/0.1.0` (with `VERSION` 0.1.0) and `gzip` |
| Envelope.AuthorityRoundTrip | lib/rgrpc/request.rb:23 | splitting the authority at its last `:` gives back host and port, even when the host itself contains `:` |
| Envelope.TimeoutRoundTrip | lib/rgrpc/request.rb:6-25 | `grpc-timeout` is the decimal timeout followed by `m` and reads back as the timeout; the default timeout 0 gives `0m` |
| Envelope.MessageRoundTrip | lib/rgrpc/request.rb:15-18 | the payload is encode-then-deflate: given inverses, inflating and then decoding gives back the message |
| Encoding.DecimalRoundTrip | lib/rgrpc/request.rb:25 | the decimal rendering of every integer (`to_s`) parses back to that integer |
| Futures.Promise.constructor | lib/rgrpc/promise.rb:5-7 | a new promise holds nil |
| Futures.Promise.Set | lib/rgrpc/promise.rb:23-25 | `set` stores its argument whatever the cell held |
| Futures.Promise.Value | lib/rgrpc/promise.rb:9-21 | the polling loop returns what `Poll` specifies, which is either nothing (still polling when the clock readings run out) or the stored value; the cell is unchanged |
| Futures.Poll | lib/rgrpc/promise.rb:9-21 | a read that returns gives the stored value; a read still polling has seen only a falsy value and, with a timeout, never more than `timeout` ticks elapsed |
| Futures.PollTruthy | lib/rgrpc/promise.rb:16-20 | a truthy stored value is returned at the first poll |
| Futures.PollTimesOut | lib/rgrpc/promise.rb:13-20 | with a timeout and a falsy value, the reader returns exactly when some poll sees more than `timeout` ticks elapsed, and returns that falsy value (nil if nothing was set) |
| Futures.PollBlocksWhileFalsy | lib/rgrpc/promise.rb:12-17 | without a timeout, nil or `false` never releases the reader |
| Futures.FreshPromiseTimesOut | lib/rgrpc/promise.rb:5-20 | a fresh promise read after its timeout has passed yields nil |
| Futures.SetTwiceKeepsLast | lib/rgrpc/promise.rb:23-25 | after `set(a); set(b)` a reader sees `b`: single assignment is not enforced |
| Futures.ReadsAgree | lib/rgrpc/promise.rb:9-21 | two reads with no `set` between them, each with its own timeout, entry instant and clock readings, give the same result whenever both return: the stored value |
| Tls.CreateSslContext | lib/rgrpc/secure_socket_builder.rb:32-49 | the context always has TLSv1_2 and peer verification off; it has the CA only if one is given; it has certificate and key both or neither, both only when both are configured; it advertises exactly `["h2"]` |
| Tls.AlpnSelect | lib/rgrpc/secure_socket_builder.rb:44-46 | the selection yields `h2` exactly when the offered list contains `h2`, and nil otherwise |
| Tls.SelectionIsMutual | lib/rgrpc/secure_socket_builder.rb:43-46 | a selected protocol is both offered by the client and advertised by the context (section 3.2 of RFC 7301) |
| Tls.CheckAlpn | lib/rgrpc/secure_socket_builder.rb:23-27 | `build` returns the socket exactly when the negotiated protocol is `h2`, and raises `Failed to negotiate h2 via ALPN` otherwise, also when nothing was negotiated |
| Tls.BuildersAgree | lib/rgrpc/secure_socket_builder.rb:23-46 | a client that offers its context's ALPN list to a server using this selection always passes its own check |
| Client.Http2Client.constructor | lib/rgrpc/http2_client.rb:6-16 | a new client is neither connected nor closing; its write queue is empty and nothing has been written |
| Client.Http2Client.Connect | lib/rgrpc/http2_client.rb:18-43 | with TLS and a negotiated protocol other than `h2`, connect fails and the client stays as it was; otherwise the client ends up connected |
| Client.Deliver | lib/rgrpc/http2_client.rb:55-63 | a header or data event changes only the state of the stream it is for; every stream stays known |
| Client.Http2Client.OpenStream | lib/rgrpc/http2_client.rb:48-68 | a new stream gets the next odd id, an empty header hash, an empty buffer and a fresh unset future; existing streams keep theirs |
| Client.Http2Client.Request | lib/rgrpc/http2_client.rb:45-78 | before connect it fails with `not connected` and sends nothing; after connect it opens one stream with an empty header hash, an empty buffer and a fresh unset future, sends the request headers with `end_stream: false` and then the payload, and returns the future |
| Client.Http2Client.RequestAsWritten | lib/rgrpc/http2_client.rb:45-78 | as written: after connect, the request opens the stream, sends the headers and then fails with the undefined `data` method; no payload is sent |
| Client.Http2Client.Close | lib/rgrpc/http2_client.rb:80-84 | sets the closing flag; fails on the `join` of a worker thread that does not exist when the client was never connected |
| Client.Http2Client.EmitFrame | lib/rgrpc/http2_client.rb:24-29 | each emitted frame becomes one job at the end of the write queue; socket bytes plus queued jobs stay equal to the emitted frames in emission order |
| Client.Http2Client.WriteStep | lib/rgrpc/http2_client.rb:119-129 | when closing, the write loop exits and changes nothing; otherwise it writes the oldest job's bytes, or blocks if there is no job |
| Client.Http2Client.DrainWrites | lib/rgrpc/http2_client.rb:119-129 | once the queue is drained, the socket holds every emitted frame, concatenated in emission order |
| Client.Http2Client.ReadStep | lib/rgrpc/http2_client.rb:98-117 | when closing or at end of file the read loop exits; otherwise a frame is queued, a header block replaces the stream's hash, a chunk is appended, and close resolves exactly that stream's future with `Response(headers, body)`; no other future changes |
| Client.Http2Client.ReadStepAsWritten | lib/rgrpc/http2_client.rb:65-68 | as written: a stream's close ends the read thread without setting any future; every other event is handled as in `ReadStep` |
| Client.ClosedClientStops | lib/rgrpc/http2_client.rb:80-84 | after `close`, the next read step and the next write step both exit without touching socket, queue, streams or futures |
| Client.RequestBeforeConnect | lib/rgrpc/http2_client.rb:46 | a request on a fresh client fails with `not connected` and asks nothing of the HTTP/2 layer |
| Client.Call | lib/rgrpc/http2_client.rb:45-78 | after any sequence of header and data callbacks and a close, the future holds the hash of the last header block (empty if there was none) and every data chunk concatenated in arrival order |
| Client.RequestAsWrittenFails | lib/rgrpc/http2_client.rb:74-75 | as written, a request on a connected client fails after sending only its headers |
| Client.RequestSendsPayload | lib/rgrpc/http2_client.rb:74-77 | with the payload taken from `message`, the same request returns the future after the headers and the encoded, deflated message |
| Client.CloseAsWrittenLeavesFutureUnset | lib/rgrpc/http2_client.rb:65-68 | as written, after the stream closes, a reader with no timeout is still polling and one with a timeout gets nil, never a response |
| Server.ReplyHeaders | lib/rgrpc/server.rb:64-67 | the reply headers are three distinct fields, of which only the first, `:status`, is a pseudo-header |
| Server.Reply | lib/rgrpc/server.rb:60-69 | the half-close reply is two calls on that stream: the headers first, not ending the stream, then the body |
| Server.Step | lib/rgrpc/server.rb:43-69 | one event never takes back anything sent on the socket or to a stream; only a stream opening adds a stream |
| Server.Run | lib/rgrpc/server.rb:72-82 | over the read loop, what has been sent is never taken back, and streams stay known |
| Server.ReplyBodyIsText | lib/rgrpc/server.rb:63 | the reply body is the 20 bytes of `HELLO TO YOU FRIEND!` |
| Server.Consumed | lib/rgrpc/server.rb:72-82 | the read loop takes every event up to and including the first end of file, and all of them if there is none |
| Server.ServerConnection.constructor | lib/rgrpc/server.rb:29-33 | an accepted connection has no streams and has sent nothing |
| Server.ServerConnection.ReadStep | lib/rgrpc/server.rb:43-82 | one loop iteration changes the connection as `Step` says and continues unless the event is end of file |
| Server.ServerConnection.Serve | lib/rgrpc/server.rb:72-82 | the read loop over a run of events consumes `Consumed` of them and leaves the state `Run` gives |
| Server.ReplyHeadersHash | lib/rgrpc/server.rb:64-67 | the reply headers are exactly `:status` 200, `content-type` text/plain and `content-length` 20 |
| Server.ContentLengthMatchesBody | lib/rgrpc/server.rb:63-65 | `content-length` parses to the byte size of the body that is sent |
| Server.HalfCloseReply | lib/rgrpc/server.rb:60-69 | on half-close the handler sends the reply headers with `end_stream: false` and then the body; the reply is the same whatever the stream received |
| Server.RunAccumulates | lib/rgrpc/server.rb:43-58 | while a stream is open, its request hash is the one built from its last header block and its buffer is its data chunks concatenated in arrival order; other streams' events and protocol errors leave it alone |
| Server.OpenedIsEmpty | lib/rgrpc/server.rb:43-45 | a new stream starts with an empty request hash and an empty buffer |
| Server.ErrorsAndEof | lib/rgrpc/server.rb:72-82 | a protocol error changes nothing and reading goes on; end of file stops the loop |

## Left out

- Sockets are not modelled: lib/rgrpc/tcp_socket_builder.rb, the TCP and TLS calls in `SecureSocketBuilder#build`, `read_nonblock`, `readpartial` and the `IO.select` retries, `sendmsg`, `print`/`flush`, `TCPServer` and `accept`. A read or a write is an event.
- Threads are not modelled: `Thread.new`, `join`, the blocking `Queue#pop` and `Thread.abort_on_exception`. Each loop iteration is one method call. With `Thread.abort_on_exception = true` (lib/rgrpc/client.rb:9), an exception that ends a worker thread can end the whole process; the model only ends that loop.
- Client.Http2Client.WriteStep: the flag is checked only at the start of an iteration. In the source, a write thread already blocked in `Queue#pop` does not see `closing` until another job arrives, so `close` can wait for it indefinitely. This is not modelled.
- Client.Call: the end-to-end property holds for the corrected client, which sends `message` as the payload and resolves the future with `Response(headers, body)`. As written, a call fails at `req.data`, and a stream's close never sets the future; see "## Findings".
- Client.Http2Client.Request: models the corrected code; the code as written is `Client.Http2Client.RequestAsWritten`.
- Client.Http2Client.ReadStep: models the corrected close callback; the code as written is `Client.Http2Client.ReadStepAsWritten`.
- Client.Http2Client.ReadStep: in the source, end of file makes `read_nonblock` raise `EOFError`, which ends the read thread; the model only exits. The retry paths' own closing checks are left out with the `IO.select` waits.
- Client.Http2Client.Close: joining the worker threads and `@sock.close` are not modelled. The model only sets the flag, and `Client.ClosedClientStops` states that both loops then exit. Before a successful `connect`, `@sock` is nil as well, but `join` fails first.
- Envelope.Request: `port` and `timeout` are integers. Ruby interpolates and joins any object, so a float timeout gives `0.5m` and a string port is joined as written. `Envelope.TimeoutRoundTrip` and `Envelope.AuthorityRoundTrip` hold on the integer domain only.
- Client.Http2Client.Connect: a second `connect` in the source builds a new socket and a new connection object. The model only sets the flag again. TCP connection failures are not modelled.
- Client.Http2Client.Request: the stream id comes from a counter of odd numbers. In the source the HTTP/2 library assigns it; the library's framing, HPACK, flow control and the default `end_stream` of `stream.data` are not modelled.
- Client.Deliver and Server.Step drop callbacks for streams the handler has not seen. In the source the HTTP/2 library never produces such callbacks.
- `Concurrent::Future` is replaced by the model's own `Promise`.
- Futures.Promise.Value: time is integer ticks, not the float differences of `Time.now`. A reader that never returns is shown as still polling once its finite list of clock readings is used up. A `timeout` of `false` is not modelled; it is either a number or absent.
- Tls.CreateSslContext: parsing the PEM text into OpenSSL certificate and key objects, and the errors that parsing can raise, are not modelled; the record holds the text. The key is built at secure_socket_builder.rb:40 by the call `OpenSSL::PKey::RSA(@tls_config.key)`, a method call on the module rather than `RSA.new`. The OpenSSL library is not part of this model, so the model assumes that this call builds the key. If the library has no such method, every configuration with both certificate and key raises `NoMethodError` there, after `ctx.cert` is set.
- Logging (`@logger` calls) is left out.
- lib/rgrpc/coder.rb, lib/rgrpc/response.rb, lib/rgrpc/client.rb, src/rgrpc.rb and example/ are not part of this model. The coder's `encode`/`decode` and Zlib's `deflate` are function parameters.

## Findings

| source | as written | input that shows it | evidently intended | confidence | as-written member | corrected member |
|---|---|---|---|---|---|---|
| lib/rgrpc/http2_client.rb:75 | `stream.data(req.data)`, but `Request` defines only `message` and `headers`, so it raises `NoMethodError` after the headers are sent | any request on a connected client | `stream.data(req.message)`: send the encoded, deflated message and return the future | not executed; high | Client.RequestAsWrittenFails | Client.RequestSendsPayload |
| lib/rgrpc/http2_client.rb:67 | `Response.new(head, data.string)`, but the only `Response` is `GRPC::Response` in lib/rgrpc/response.rb, which the client's scope does not reach and whose constructor takes three arguments; the exception ends the read thread and the future is never set | a stream close after any request | set the future to a response holding the last header hash and the body | not executed; high | Client.CloseAsWrittenLeavesFutureUnset | Client.Call |
