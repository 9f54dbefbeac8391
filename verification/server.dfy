/**
 * The per-connection part of `RGrpc::Server#start`: the `:stream` handler with
 * its `:headers`, `:data` and `:half_close` callbacks, the `:frame` callback that
 * writes straight to the socket, and the read loop that feeds the connection
 * until end of file. The HTTP/2 layer is not modelled: what it delivers is a
 * `ServerEvent`, what the handler asks of a stream is a `StreamAction`.
 */
module Server {
  import opened Wrappers
  import opened Encoding
  import opened HeaderFields
  import opened Streams

  /** One thing the read loop's `conn << data` leads to. */
  datatype ServerEvent =
    | Opened(stream: StreamId)                       // `:stream`: the peer opened a stream
    | Headers(stream: StreamId, pairs: HeaderList)   // a stream's `:headers`
    | Data(stream: StreamId, chunk: Bytes)           // a stream's `:data`
    | HalfClose(stream: StreamId)                    // a stream's `:half_close`
    | Frame(bytes: Bytes)                            // `:frame`: bytes to send to the peer
    | ProtocolError                                  // the bytes read were not valid HTTP/2
    | Eof                                            // the peer disconnected

  /** The state of one accepted connection: each stream's `req` and `buf`, the calls made
      on stream objects, and the bytes sent on the socket. */
  datatype ConnState = ConnState(streams: map<StreamId, Accumulated>, actions: seq<StreamAction>, wire: Bytes)

  const Accepted: ConnState := ConnState(map[], [], [])

  const ReplyText: string := "HELLO TO YOU FRIEND!"

  /** The reply body, whatever the request was: the bytes of `ReplyText`. */
  const ReplyBody: Bytes := [72, 69, 76, 76, 79, 32, 84, 79, 32, 89, 79, 85, 32, 70, 82, 73, 69, 78, 68, 33]

  /** The body sent is the UTF-8 (here ASCII) encoding of the reply text, 20 bytes long. */
  lemma ReplyBodyIsText()
    ensures IsAscii(ReplyText)
    ensures |ReplyBody| == |ReplyText| == 20
    ensures forall i :: 0 <= i < |ReplyText| ==> ReplyBody[i] as int == ReplyText[i] as int
  {
  }

  /** The reply header hash literal, in its written order: three distinct fields, of which
      only the first, `:status`, is a pseudo-header (section 8.1.2.4 of RFC 7540). */
  function ReplyHeaders(): (h: HeaderList)
    ensures |h| == 3 && Distinct(Names(h))
    ensures forall i :: 0 <= i < |h| ==> |h[i].0| > 0 && (h[i].0[0] == ':' <==> i == 0)
  {
    [(":status", "200"), ("content-length", Decimal(|ReplyBody|)), ("content-type", "text/plain")]
  }

  /** What the `:half_close` callback does on stream `id`: both calls are on that stream, the
      headers come first and do not end it, and the body follows. */
  function Reply(id: StreamId): (acts: seq<StreamAction>)
    ensures |acts| == 2 && forall i :: 0 <= i < |acts| ==> acts[i].stream == id
    ensures acts[0].SendHeaders? && acts[0].fields == ReplyHeaders() && !acts[0].endStream
    ensures acts[1].SendData? && acts[1].payload == ReplyBody
  {
    [SendHeaders(id, ReplyHeaders(), false), SendData(id, ReplyBody)]
  }

  /** The effect of one event; events for streams the handler has not seen are dropped,
      and a protocol error or end of file changes nothing. */
  function Step(s: ConnState, e: ServerEvent): (t: ConnState)
    ensures s.actions <= t.actions && s.wire <= t.wire
    ensures t.streams.Keys == (if e.Opened? then s.streams.Keys + {e.stream} else s.streams.Keys)
  {
    match e
    case Opened(id) => s.(streams := s.streams[id := Empty])
    case Headers(id, pairs) =>
      if id in s.streams then s.(streams := s.streams[id := Receive(s.streams[id], InHeaders(pairs))]) else s
    case Data(id, chunk) =>
      if id in s.streams then s.(streams := s.streams[id := Receive(s.streams[id], InData(chunk))]) else s
    case HalfClose(id) => if id in s.streams then s.(actions := s.actions + Reply(id)) else s
    case Frame(bytes) => s.(wire := s.wire + bytes)
    case ProtocolError => s
    case Eof => s
  }

  /** The read loop over `es`: every event up to and including the first end of file. What
      has been sent is never taken back, and a stream once opened stays known. */
  function Run(s: ConnState, es: seq<ServerEvent>): (t: ConnState)
    ensures s.actions <= t.actions && s.wire <= t.wire
    ensures s.streams.Keys <= t.streams.Keys
    decreases es
  {
    if es == [] then s
    else if es[0].Eof? then s
    else Run(Step(s, es[0]), es[1..])
  }

  /** How many of `es` the read loop consumes: all of them, or up to the first end of file. */
  function Consumed(es: seq<ServerEvent>): (n: nat)
    ensures n <= |es|
    ensures forall i :: 0 <= i < n - 1 ==> !es[i].Eof?
    ensures n < |es| ==> n > 0 && es[n - 1].Eof?
    ensures (forall i :: 0 <= i < |es| ==> !es[i].Eof?) ==> n == |es|
  {
    if es == [] then 0
    else if es[0].Eof? then 1
    else 1 + Consumed(es[1..])
  }

  class ServerConnection {
    var streams: map<StreamId, Accumulated>
    var actions: seq<StreamAction>
    var wire: Bytes

    function State(): ConnState
      reads this
    {
      ConnState(streams, actions, wire)
    }

    /** A connection just accepted: no streams, nothing sent. */
    constructor ()
      ensures State() == Accepted
    {
      streams, actions, wire := map[], [], [];
    }

    /** One iteration of the read loop; only end of file ends it, a protocol error is logged
        and reading goes on. */
    method ReadStep(e: ServerEvent) returns (more: bool)
      modifies this
      ensures State() == Step(old(State()), e)
      ensures more <==> !e.Eof?
    {
      more := true;
      match e
      case Opened(id) =>
        streams := streams[id := Empty];
      case Headers(id, pairs) =>
        if id in streams {
          streams := streams[id := Receive(streams[id], InHeaders(pairs))];
        }
      case Data(id, chunk) =>
        if id in streams {
          streams := streams[id := Receive(streams[id], InData(chunk))];
        }
      case HalfClose(id) =>
        if id in streams {
          actions := actions + [SendHeaders(id, ReplyHeaders(), false)];
          actions := actions + [SendData(id, ReplyBody)];
        }
      case Frame(bytes) =>
        wire := wire + bytes;
      case ProtocolError =>
      case Eof =>
        more := false;
    }

    /** The read loop over the events `es` the connection would produce. */
    method Serve(es: seq<ServerEvent>) returns (consumed: nat)
      modifies this
      ensures consumed == Consumed(es)
      ensures State() == Run(old(State()), es)
    {
      consumed := 0;
      while consumed < |es|
        invariant 0 <= consumed <= |es|
        invariant Run(old(State()), es) == Run(State(), es[consumed..])
        invariant Consumed(es) == consumed + Consumed(es[consumed..])
      {
        assert es[consumed..][1..] == es[consumed + 1..];
        var more := ReadStep(es[consumed]);
        consumed := consumed + 1;
        if !more {
          return;
        }
      }
    }
  }

  /** The reply headers as the client's hash: status 200, plain text, and a content length of 20. */
  lemma {:induction false} ReplyHeadersHash()
    ensures PairsToMap(ReplyHeaders()).Keys == {":status", "content-length", "content-type"}
    ensures var m := PairsToMap(ReplyHeaders());
      ":status" in m && m[":status"] == "200" &&
      "content-type" in m && m["content-type"] == "text/plain" &&
      "content-length" in m && m["content-length"] == "20"
  {
    var h := ReplyHeaders();
    assert Decimal(20) == "20" by {
      assert NatDigits(20) == NatDigits(2) + [DigitChar(0)];
    }
    assert Names(h) == [":status", "content-length", "content-type"];
    DistinctPairsToMap(h);
    assert (set i | 0 <= i < |h| :: h[i].0) == {h[0].0, h[1].0, h[2].0};
  }

  /** `content-length` is the decimal byte size of the body actually sent. */
  lemma ContentLengthMatchesBody()
    ensures ReplyHeaders()[1].0 == "content-length"
    ensures ParseDecimal(ReplyHeaders()[1].1) == Some(|ReplyBody|)
  {
    DecimalRoundTrip(|ReplyBody|);
  }

  /** On half-close the handler replies (headers first, not ending the stream, then the body)
      and the reply is the same whatever the stream received. */
  lemma {:induction false} HalfCloseReply(s: ConnState, t: ConnState, id: StreamId)
    requires id in s.streams && id in t.streams
    ensures Step(s, HalfClose(id)) == s.(actions := s.actions + Reply(id))
    ensures Step(s, HalfClose(id)).actions[|s.actions|..] == Step(t, HalfClose(id)).actions[|t.actions|..]
    ensures Reply(id)[0] == SendHeaders(id, ReplyHeaders(), false) && Reply(id)[1] == SendData(id, ReplyBody)
  {
    assert (s.actions + Reply(id))[|s.actions|..] == Reply(id);
    assert (t.actions + Reply(id))[|t.actions|..] == Reply(id);
  }

  /** The events of `es` that are callbacks of stream `id`, in order. */
  function InboundFor(id: StreamId, es: seq<ServerEvent>): seq<Inbound>
  {
    if es == [] then []
    else
      var rest := InboundFor(id, es[1..]);
      match es[0]
      case Headers(k, pairs) => if k == id then [InHeaders(pairs)] + rest else rest
      case Data(k, chunk) => if k == id then [InData(chunk)] + rest else rest
      case _ => rest
  }

  lemma {:induction false} ReceiveAllCons(a: Accumulated, e: Inbound, es: seq<Inbound>)
    ensures ReceiveAll(a, [e] + es) == ReceiveAll(Receive(a, e), es)
  {
    assert ([e] + es)[1..] == es;
  }

  /**
   * Over a run of events that neither reopens stream `id` nor ends the connection, the
   * stream's `req` and `buf` are exactly what its callbacks accumulate: the hash of its last
   * header block and its data chunks concatenated in arrival order; protocol errors and
   * other streams' events leave it alone.
   */
  lemma {:induction false} RunAccumulates(s: ConnState, es: seq<ServerEvent>, id: StreamId)
    requires id in s.streams
    requires forall i :: 0 <= i < |es| ==> es[i] != Opened(id) && !es[i].Eof?
    ensures id in Run(s, es).streams
    ensures Run(s, es).streams[id] == ReceiveAll(s.streams[id], InboundFor(id, es))
    decreases es
  {
    if es != [] {
      var s' := Step(s, es[0]);
      RunAccumulates(s', es[1..], id);
      match es[0]
      case Headers(k, pairs) =>
        if k == id { ReceiveAllCons(s.streams[id], InHeaders(pairs), InboundFor(id, es[1..])); }
      case Data(k, chunk) =>
        if k == id { ReceiveAllCons(s.streams[id], InData(chunk), InboundFor(id, es[1..])); }
      case _ =>
    }
  }

  /** A newly opened stream starts with an empty header hash and an empty buffer. */
  lemma OpenedIsEmpty(s: ConnState, id: StreamId)
    ensures id in Step(s, Opened(id)).streams
    ensures Step(s, Opened(id)).streams[id].head == map[] && Step(s, Opened(id)).streams[id].body == []
  {
  }

  /** A protocol error changes nothing and the loop reads on; end of file stops it, so
      nothing after it is processed. */
  lemma {:induction false} ErrorsAndEof(s: ConnState, es: seq<ServerEvent>)
    ensures Run(s, [ProtocolError] + es) == Run(s, es)
    ensures Run(s, [Eof] + es) == s
  {
    assert ([ProtocolError] + es)[1..] == es;
  }
}
