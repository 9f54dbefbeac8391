/**
 * `RGRPC::HTTP2Client`: the connected and closing flags, the write queue that
 * carries every frame the HTTP/2 layer emits to the socket, and the callbacks
 * `request` registers on each stream. The HTTP/2 layer is not modelled: what it
 * delivers to the client is an `Event`, what the client asks of it is a
 * `StreamAction`, and the two worker threads are one step per call.
 */
module Client {
  import opened Wrappers
  import opened Encoding
  import opened HeaderFields
  import opened Streams
  import opened Futures
  import Envelope
  import Tls

  /** What the future of a call is resolved with: the last header hash and the whole body. */
  datatype Response = Response(headers: map<string, string>, body: Bytes)

  /** One thing the HTTP/2 connection object hands to the client's callbacks. */
  datatype Event =
    | Frame(bytes: Bytes)                            // `:frame`: bytes to send to the peer
    | Headers(stream: StreamId, pairs: HeaderList)   // a stream's `:headers`
    | Data(stream: StreamId, chunk: Bytes)           // a stream's `:data`
    | StreamClose(stream: StreamId)                  // a stream's `:close`
    | Eof                                            // the socket reached end of file

  /** How a worker loop goes on after one iteration. */
  datatype Step = Continue | Blocked | Exit

  /** The message `request` raises before `connect`. */
  const NotConnected: string := "not connected"

  /** The exception `request` raises at `req.data`: `Request` defines only `message` and `headers`. */
  const UndefinedData: string := "undefined method 'data' for an instance of RGRPC::Request"

  /** The exception `close` raises when `connect` never started the worker threads: `join` on nil. */
  const ThreadsNotStarted: string := "undefined method 'join' for nil"

  /** The stream callback an event is for, if it is one of `:headers` or `:data`. */
  function ToInbound(ev: Event): Option<(StreamId, Inbound)>
  {
    match ev
    case Headers(id, pairs) => Some((id, InHeaders(pairs)))
    case Data(id, chunk) => Some((id, InData(chunk)))
    case _ => None
  }

  /** The per-stream states after the callbacks for `ev`; events for unknown streams are dropped,
      and every stream the event is not for keeps its state. */
  function Deliver(calls: map<StreamId, Accumulated>, ev: Event): (r: map<StreamId, Accumulated>)
    ensures r.Keys == calls.Keys
    ensures forall id :: id in calls && (ToInbound(ev).None? || ToInbound(ev).value.0 != id) ==> r[id] == calls[id]
  {
    match ToInbound(ev)
    case Some((id, e)) => if id in calls then calls[id := Receive(calls[id], e)] else calls
    case None => calls
  }

  class Http2Client {
    const host: string
    const port: int
    const tlsConfig: Option<Tls.TlsConfig>
    var connected: bool
    var closing: bool
    /** The write jobs not yet run, each the bytes of one emitted frame. */
    var writeQueue: seq<Bytes>
    /** Everything the write thread has written to the socket. */
    var wire: Bytes
    /** Every frame the HTTP/2 layer has emitted, in emission order. */
    ghost var emitted: seq<Bytes>
    /** The calls made on stream objects, in order. */
    var actions: seq<StreamAction>
    /** Each stream's `head` and `data` locals. */
    var calls: map<StreamId, Accumulated>
    /** Each stream's future. */
    var futures: map<StreamId, Promise<Response>>
    /** The id the HTTP/2 layer gives the next stream (client streams are odd, section 5.1.1 of RFC 7540). */
    var nextStream: StreamId

    /** Socket bytes and queued jobs together are the emitted frames in emission order;
        every stream has its locals and its own future. */
    ghost predicate Valid()
      reads this
    {
      && wire + Flatten(writeQueue) == Flatten(emitted)
      && calls.Keys == futures.Keys
      && (forall id :: id in calls ==> id < nextStream)
      && (forall i, j :: i in futures && j in futures && i != j ==> futures[i] != futures[j])
    }

    /** `HTTP2Client.new(host, port, tls_config:)`: not connected, not closing, nothing queued. */
    constructor (host: string, port: int, tlsConfig: Option<Tls.TlsConfig>)
      ensures Valid()
      ensures this.host == host && this.port == port && this.tlsConfig == tlsConfig
      ensures !connected && !closing && writeQueue == [] && wire == [] && emitted == []
      ensures actions == [] && calls == map[] && futures == map[] && nextStream == 1
    {
      this.host := host;
      this.port := port;
      this.tlsConfig := tlsConfig;
      connected, closing := false, false;
      writeQueue, wire, emitted := [], [], [];
      actions, calls, futures := [], map[], map[];
      nextStream := 1;
    }

    /** `connect`: builds the socket (with TLS, `negotiated` is what ALPN yielded and a
        protocol other than `h2` raises) and then marks the client connected. */
    method Connect(negotiated: Option<string>) returns (r: Result<(), string>)
      requires Valid()
      modifies this
      ensures Valid()
      ensures tlsConfig.Some? && negotiated != Some("h2") ==> r == Err(Tls.NegotiationFailure) && connected == old(connected)
      ensures !(tlsConfig.Some? && negotiated != Some("h2")) ==> r == Ok(()) && connected
      ensures closing == old(closing) && writeQueue == old(writeQueue) && wire == old(wire) && emitted == old(emitted)
      ensures actions == old(actions) && calls == old(calls) && futures == old(futures) && nextStream == old(nextStream)
    {
      if tlsConfig.Some? {
        var sock := Tls.CheckAlpn((), negotiated);
        if sock.Err? {
          return Err(sock.error);
        }
      }
      connected := true;
      r := Ok(());
    }

    /** `request(req)`: raises unless connected; otherwise opens a stream with fresh locals and a
        fresh future, sends the request headers without ending the stream, then the payload,
        and returns the future (with the stream's id) without waiting. */
    method Request<M>(req: Envelope.Request<M>, deflate: Bytes -> Bytes) returns (r: Result<(StreamId, Promise<Response>), string>)
      requires Valid()
      modifies this
      ensures Valid()
      ensures !old(connected) ==> r == Err(NotConnected)
      ensures !old(connected) ==> actions == old(actions) && calls == old(calls) && futures == old(futures) && nextStream == old(nextStream)
      ensures old(connected) ==> r.Ok? && r.value.0 == old(nextStream) && fresh(r.value.1) && r.value.1.val == Nil
      ensures old(connected) ==> calls == old(calls)[r.value.0 := Empty] && futures == old(futures)[r.value.0 := r.value.1]
      ensures old(connected) ==> actions == old(actions) + [
        SendHeaders(r.value.0, Envelope.Headers(req), false),
        SendData(r.value.0, Envelope.Message(req, deflate))]
      ensures old(connected) ==> nextStream == old(nextStream) + 2
      ensures connected == old(connected) && closing == old(closing)
      ensures writeQueue == old(writeQueue) && wire == old(wire) && emitted == old(emitted)
    {
      if !connected {
        return Err(NotConnected);
      }
      var id, future := OpenStream();
      actions := actions + [SendHeaders(id, Envelope.Headers(req), false)];
      actions := actions + [SendData(id, Envelope.Message(req, deflate))];
      r := Ok((id, future));
    }

    /** `request(req)` as written: `req.data` raises after the stream is open, its callbacks are
        registered and the headers are sent. The caller gets the exception instead of the future,
        and no payload is sent. */
    method RequestAsWritten<M>(req: Envelope.Request<M>) returns (r: Result<(StreamId, Promise<Response>), string>)
      requires Valid()
      modifies this
      ensures Valid()
      ensures !old(connected) ==> r == Err(NotConnected)
      ensures !old(connected) ==> actions == old(actions) && calls == old(calls) && futures == old(futures) && nextStream == old(nextStream)
      ensures old(connected) ==> r == Err(UndefinedData)
      ensures old(connected) ==> calls == old(calls)[old(nextStream) := Empty] && nextStream == old(nextStream) + 2
      ensures old(connected) ==> old(nextStream) in futures && fresh(futures[old(nextStream)]) && futures[old(nextStream)].val == Nil
      ensures old(connected) ==> futures == old(futures)[old(nextStream) := futures[old(nextStream)]]
      ensures old(connected) ==> actions == old(actions) + [SendHeaders(old(nextStream), Envelope.Headers(req), false)]
      ensures connected == old(connected) && closing == old(closing)
      ensures writeQueue == old(writeQueue) && wire == old(wire) && emitted == old(emitted)
    {
      if !connected {
        return Err(NotConnected);
      }
      var id, future := OpenStream();
      actions := actions + [SendHeaders(id, Envelope.Headers(req), false)];
      r := Err(UndefinedData);
    }

    /** `@conn.new_stream`, the fresh future and the stream's callbacks over fresh locals. */
    method OpenStream() returns (id: StreamId, future: Promise<Response>)
      requires Valid()
      modifies this`nextStream, this`calls, this`futures
      ensures Valid()
      ensures id == old(nextStream) && nextStream == old(nextStream) + 2
      ensures fresh(future) && future.val == Nil
      ensures calls == old(calls)[id := Empty] && futures == old(futures)[id := future]
    {
      id := nextStream;
      nextStream := nextStream + 2;
      future := new Promise<Response>();
      calls := calls[id := Empty];
      futures := futures[id := future];
    }

    /** `close`: sets the flag both worker loops check, then joins the worker threads; before a
        successful `connect` there are none and the `join` raises. */
    method Close() returns (r: Result<(), string>)
      requires Valid()
      modifies this`closing
      ensures Valid() && closing
      ensures r == (if connected then Ok(()) else Err(ThreadsNotStarted))
    {
      closing := true;
      if !connected {
        return Err(ThreadsNotStarted);
      }
      r := Ok(());
    }

    /** The `:frame` callback: the emitted frame becomes one write job at the end of the queue. */
    method EmitFrame(bytes: Bytes)
      requires Valid() && connected
      modifies this`writeQueue, this`emitted
      ensures Valid()
      ensures writeQueue == old(writeQueue) + [bytes] && emitted == old(emitted) + [bytes]
    {
      FlattenSnoc(writeQueue, bytes);
      FlattenSnoc(emitted, bytes);
      writeQueue := writeQueue + [bytes];
      emitted := emitted + [bytes];
    }

    /** One iteration of the write thread: exit when closing, otherwise pop the oldest job
        (blocking while there is none) and write its bytes to the socket. */
    method WriteStep() returns (s: Step)
      requires Valid()
      modifies this`writeQueue, this`wire
      ensures Valid()
      ensures old(closing) ==> s == Exit && writeQueue == old(writeQueue) && wire == old(wire)
      ensures !old(closing) && old(writeQueue) == [] ==> s == Blocked && writeQueue == [] && wire == old(wire)
      ensures !old(closing) && old(writeQueue) != [] ==>
        s == Continue && wire == old(wire) + old(writeQueue)[0] && writeQueue == old(writeQueue)[1..]
    {
      if closing {
        return Exit;
      }
      if writeQueue == [] {
        return Blocked;
      }
      wire := wire + writeQueue[0];
      writeQueue := writeQueue[1..];
      s := Continue;
    }

    /** The write thread running until it has nothing left to write: the socket then holds
        every emitted frame, in emission order. */
    method DrainWrites() returns (written: nat)
      requires Valid()
      modifies this`writeQueue, this`wire
      ensures Valid()
      ensures old(closing) ==> written == 0 && writeQueue == old(writeQueue) && wire == old(wire)
      ensures !old(closing) ==> written == |old(writeQueue)| && writeQueue == []
      ensures !old(closing) ==> wire == old(wire) + Flatten(old(writeQueue)) && wire == Flatten(emitted)
    {
      written := 0;
      if closing {
        return;
      }
      ghost var q := writeQueue;
      while true
        invariant Valid() && !closing
        invariant written <= |q| && writeQueue == q[written..]
        decreases |writeQueue|
      {
        var s := WriteStep();
        if s != Continue {
          break;
        }
        written := written + 1;
      }
    }

    /** One iteration of the read thread: exit when closing or at end of file, otherwise hand
        the event to the connection object, which runs the callback it is for. */
    method ReadStep(ev: Event) returns (s: Step)
      requires Valid() && connected
      modifies this`writeQueue, this`emitted, this`calls, futures.Values
      ensures Valid()
      ensures s == (if old(closing) || ev.Eof? then Exit else Continue)
      ensures writeQueue == (if !old(closing) && ev.Frame? then old(writeQueue) + [ev.bytes] else old(writeQueue))
      ensures emitted == (if !old(closing) && ev.Frame? then old(emitted) + [ev.bytes] else old(emitted))
      ensures calls == (if old(closing) then old(calls) else Deliver(old(calls), ev))
      ensures !old(closing) && ev.StreamClose? && ev.stream in calls ==>
        futures[ev.stream].val == Obj(Response(calls[ev.stream].head, calls[ev.stream].body))
      ensures forall id :: id in futures && (old(closing) || ev != StreamClose(id)) ==> futures[id].val == old(futures[id].val)
    {
      if closing {
        return Exit;
      }
      match ev
      case Frame(bytes) =>
        EmitFrame(bytes);
        s := Continue;
      case Headers(id, pairs) =>
        if id in calls {
          calls := calls[id := Receive(calls[id], InHeaders(pairs))];
        }
        s := Continue;
      case Data(id, chunk) =>
        if id in calls {
          calls := calls[id := Receive(calls[id], InData(chunk))];
        }
        s := Continue;
      case StreamClose(id) =>
        if id in calls {
          futures[id].Set(Obj(Response(calls[id].head, calls[id].body)));
        }
        s := Continue;
      case Eof =>
        s := Exit;
    }

    /** One iteration of the read thread as written: the `:close` callback's `Response.new` names
        no class the client can reach, so the exception ends the read thread and the stream's
        future is never set. Every other event is handled as `ReadStep` handles it. */
    method ReadStepAsWritten(ev: Event) returns (s: Step)
      requires Valid() && connected
      modifies this`writeQueue, this`emitted, this`calls, futures.Values
      ensures Valid()
      ensures s == (if old(closing) || ev.Eof? || (ev.StreamClose? && ev.stream in old(calls)) then Exit else Continue)
      ensures writeQueue == (if !old(closing) && ev.Frame? then old(writeQueue) + [ev.bytes] else old(writeQueue))
      ensures emitted == (if !old(closing) && ev.Frame? then old(emitted) + [ev.bytes] else old(emitted))
      ensures calls == (if old(closing) then old(calls) else Deliver(old(calls), ev))
      ensures forall id :: id in futures ==> futures[id].val == old(futures[id].val)
    {
      if !closing && ev.StreamClose? && ev.stream in calls {
        return Exit;
      }
      s := ReadStep(ev);
    }
  }

  /** Once a client is closed, neither worker performs another step. */
  method ClosedClientStops(c: Http2Client, ev: Event) returns (read: Step, write: Step)
    requires c.Valid() && c.connected
    modifies c, c.futures.Values
    ensures read == Exit && write == Exit
    ensures c.wire == old(c.wire) && c.writeQueue == old(c.writeQueue) && c.calls == old(c.calls) && c.futures == old(c.futures)
    ensures forall id :: id in c.futures ==> c.futures[id].val == old(c.futures[id].val)
  {
    var _ := c.Close();
    read := c.ReadStep(ev);
    write := c.WriteStep();
  }

  /** A request before `connect` fails with "not connected" and asks nothing of the HTTP/2 layer. */
  method RequestBeforeConnect<M>(req: Envelope.Request<M>, deflate: Bytes -> Bytes) returns (r: Result<(StreamId, Promise<Response>), string>, sent: seq<StreamAction>)
    ensures r == Err(NotConnected) && sent == []
  {
    var client := new Http2Client(req.host, req.port, None);
    r := client.Request(req, deflate);
    sent := client.actions;
  }

  /** A connected client with one open stream `id` whose future is `future`. */
  method OpenCall<M>(req: Envelope.Request<M>, deflate: Bytes -> Bytes) returns (client: Http2Client, id: StreamId, future: Promise<Response>)
    ensures fresh(client) && fresh(future)
    ensures client.Valid() && client.connected && !client.closing
    ensures client.calls == map[id := Empty] && client.futures == map[id := future] && future.val == Nil
  {
    client := new Http2Client(req.host, req.port, None);
    var _ := client.Connect(None);
    var res := client.Request(req, deflate);
    id := res.value.0;
    future := res.value.1;
  }

  /** The read thread delivering one `:headers` or `:data` callback to stream `id`. */
  method Feed(client: Http2Client, id: StreamId, e: Inbound)
    requires client.Valid() && client.connected && !client.closing && id in client.calls
    modifies client`writeQueue, client`emitted, client`calls, client.futures.Values
    ensures client.Valid() && client.futures == old(client.futures)
    ensures client.calls == old(client.calls)[id := Receive(old(client.calls)[id], e)]
    ensures forall k :: k in client.futures ==> client.futures[k].val == old(client.futures[k].val)
  {
    var ev := match e case InHeaders(pairs) => Headers(id, pairs) case InData(chunk) => Data(id, chunk);
    var _ := client.ReadStep(ev);
  }

  /**
   * One call from start to finish: connect, request, the stream callbacks for `inbound` in
   * arrival order, then the stream closes. The future then holds a Response whose headers
   * are the hash of the last header block (empty if there was none) and whose body is every
   * data chunk concatenated in arrival order.
   */
  method Call<M>(req: Envelope.Request<M>, deflate: Bytes -> Bytes, inbound: seq<Inbound>, start: int, now: int)
    returns (r: Option<Val<Response>>)
    ensures r.Some? && r.value.Obj?
    ensures r.value.obj.body == Flatten(Chunks(inbound))
    ensures r.value.obj.headers == match LastHeaders(inbound) case None => map[] case Some(pairs) => PairsToMap(pairs)
  {
    var client, id, future := OpenCall(req, deflate);
    var i := 0;
    while i < |inbound|
      invariant 0 <= i <= |inbound|
      invariant client.Valid() && client.connected && !client.closing
      invariant client.calls.Keys == {id} && client.futures == map[id := future]
      invariant client.calls[id] == ReceiveAll(Empty, inbound[..i])
    {
      Feed(client, id, inbound[i]);
      assert inbound[..i + 1] == inbound[..i] + [inbound[i]];
      ReceiveAllSnoc(Empty, inbound[..i], inbound[i]);
      i := i + 1;
    }
    assert inbound[..i] == inbound;
    ReceiveAllBody(Empty, inbound);
    ReceiveAllHead(Empty, inbound);
    r := Resolve(client, id, future, start, now);
  }

  /** The stream closes and the caller reads the future. */
  method Resolve(client: Http2Client, id: StreamId, future: Promise<Response>, start: int, now: int) returns (r: Option<Val<Response>>)
    requires client.Valid() && client.connected && !client.closing
    requires id in client.calls && client.futures == map[id := future]
    modifies client`writeQueue, client`emitted, client`calls, future
    ensures r == Some(Obj(Response(old(client.calls[id].head), old(client.calls[id].body))))
  {
    var _ := client.ReadStep(StreamClose(id));
    r := future.Value(None, start, [now]);
  }

  /** As written, `request` on a connected client raises after sending the headers: the caller
      never gets the future and no payload goes out. */
  method RequestAsWrittenFails<M>(req: Envelope.Request<M>) returns (r: Result<(StreamId, Promise<Response>), string>, sent: seq<StreamAction>)
    ensures r == Err(UndefinedData)
    ensures sent == [SendHeaders(1, Envelope.Headers(req), false)]
    ensures forall i :: 0 <= i < |sent| ==> !sent[i].SendData?
  {
    var client := new Http2Client(req.host, req.port, None);
    var _ := client.Connect(None);
    r := client.RequestAsWritten(req);
    sent := client.actions;
  }

  /** With the payload sent as `message`, the same request returns the future and sends the
      headers and then the encoded, deflated message on the new stream. */
  method RequestSendsPayload<M>(req: Envelope.Request<M>, deflate: Bytes -> Bytes) returns (r: Result<(StreamId, Promise<Response>), string>, sent: seq<StreamAction>)
    ensures r.Ok? && r.value.0 == 1 && r.value.1.val == Nil
    ensures sent == [SendHeaders(1, Envelope.Headers(req), false), SendData(1, Envelope.Message(req, deflate))]
  {
    var client := new Http2Client(req.host, req.port, None);
    var _ := client.Connect(None);
    r := client.Request(req, deflate);
    sent := client.actions;
  }

  /** As written, a call's future is never set: the stream's close ends the read thread, and a
      reader is still polling (with no timeout) or gets nil (once its timeout has passed). */
  method CloseAsWrittenLeavesFutureUnset<M>(req: Envelope.Request<M>, deflate: Bytes -> Bytes, timeout: Option<int>, start: int, clock: seq<int>)
    returns (s: Step, r: Option<Val<Response>>)
    ensures s == Exit
    ensures r == None || r == Some(Nil)
    ensures timeout.None? ==> r == None
  {
    var client, id, future := OpenCall(req, deflate);
    s := client.ReadStepAsWritten(StreamClose(id));
    r := future.Value(timeout, start, clock);
    if timeout.None? {
      PollBlocksWhileFalsy<Response>(Nil, start, clock);
    }
  }
}
