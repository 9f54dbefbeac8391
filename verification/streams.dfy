/**
 * What the client and the server do on one HTTP/2 stream: the stream callbacks
 * keep the last header block received (as a hash) and append every data chunk
 * to one buffer. The calls the callbacks and the request code make on a stream
 * object are recorded as `StreamAction`s, in the order they are made.
 */
module Streams {
  import opened Wrappers
  import opened Encoding
  import opened HeaderFields

  /** Names one stream of a connection; assigned by the HTTP/2 layer. */
  type StreamId = nat

  /** A call made on a stream object: `stream.headers(h, end_stream: e)` or `stream.data(payload)`. */
  datatype StreamAction =
    | SendHeaders(stream: StreamId, fields: HeaderList, endStream: bool)
    | SendData(stream: StreamId, payload: Bytes)

  /** What the HTTP/2 layer delivers to a stream's `:headers` and `:data` callbacks. */
  datatype Inbound = InHeaders(pairs: HeaderList) | InData(chunk: Bytes)

  /** The per-stream locals the callbacks close over: the header hash and the body buffer. */
  datatype Accumulated = Accumulated(head: map<string, string>, body: Bytes)

  /** A stream's state before any callback has run: `{}` and an empty `StringIO`. */
  const Empty: Accumulated := Accumulated(map[], [])

  /** One callback: a header block replaces the whole hash and leaves the buffer alone; a data
      chunk leaves the hash alone and only appends to the buffer. */
  function Receive(a: Accumulated, e: Inbound): (b: Accumulated)
    ensures e.InHeaders? ==> b.body == a.body && b.head.Keys == set i | 0 <= i < |e.pairs| :: e.pairs[i].0
    ensures e.InData? ==> b.head == a.head && a.body <= b.body && |b.body| == |a.body| + |e.chunk|
  {
    match e
    case InHeaders(pairs) => a.(head := PairsToMap(pairs))
    case InData(chunk) => a.(body := a.body + chunk)
  }

  /** The callbacks run in arrival order. The buffer only grows: what it held is still its
      prefix; and without a header block the hash is the one it started with. */
  function ReceiveAll(a: Accumulated, es: seq<Inbound>): (b: Accumulated)
    ensures a.body <= b.body
    ensures (forall i :: 0 <= i < |es| ==> es[i].InData?) ==> b.head == a.head
    decreases es
  {
    if es == [] then a else ReceiveAll(Receive(a, es[0]), es[1..])
  }

  /** The data chunks among `es`, in arrival order. */
  function Chunks(es: seq<Inbound>): (cs: seq<Bytes>)
    ensures |cs| <= |es|
  {
    if es == [] then []
    else if es[0].InData? then [es[0].chunk] + Chunks(es[1..])
    else Chunks(es[1..])
  }

  /** The pairs of the last header block among `es`, if there is one. */
  function LastHeaders(es: seq<Inbound>): (r: Option<HeaderList>)
    ensures r.None? <==> forall i :: 0 <= i < |es| ==> es[i].InData?
  {
    if es == [] then None
    else if es[|es| - 1].InHeaders? then Some(es[|es| - 1].pairs)
    else LastHeaders(es[..|es| - 1])
  }

  lemma {:induction false} ReceiveAllSnoc(a: Accumulated, es: seq<Inbound>, e: Inbound)
    ensures ReceiveAll(a, es + [e]) == Receive(ReceiveAll(a, es), e)
    decreases es
  {
    if es != [] {
      assert (es + [e])[1..] == es[1..] + [e];
      ReceiveAllSnoc(Receive(a, es[0]), es[1..], e);
    }
  }

  /** The body is the old body followed by every data chunk, in arrival order. */
  lemma {:induction false} ReceiveAllBody(a: Accumulated, es: seq<Inbound>)
    ensures ReceiveAll(a, es).body == a.body + Flatten(Chunks(es))
    decreases es
  {
    if es != [] {
      ReceiveAllBody(Receive(a, es[0]), es[1..]);
    }
  }

  /** The hash is the one built from the last header block; without one it is unchanged. */
  lemma {:induction false} ReceiveAllHead(a: Accumulated, es: seq<Inbound>)
    ensures ReceiveAll(a, es).head ==
      match LastHeaders(es)
      case None => a.head
      case Some(pairs) => PairsToMap(pairs)
  {
    if es != [] {
      var init := es[..|es| - 1];
      assert es == init + [es[|es| - 1]];
      ReceiveAllSnoc(a, init, es[|es| - 1]);
      ReceiveAllHead(a, init);
    }
  }
}
