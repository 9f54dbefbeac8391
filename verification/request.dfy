/**
 * The request envelope of one call (`RGRPC::Request`): the fixed header set a
 * call opens its stream with, and the payload it sends as data.
 */
module Envelope {
  import opened Wrappers
  import opened Encoding
  import opened HeaderFields

  /** `RGRPC::ALPN_DRAFT`, the protocol identifier of HTTP/2 over TLS (section 3.1 of RFC 7540). */
  const AlpnDraft: string := "h2"

  /** `RGRPC::VERSION`. */
  const Version: string := "0.1.0"

  /** A message coder; only `encode` is used when a request is built. */
  datatype Coder<!M> = Coder(encode: M -> Bytes, decode: Bytes -> M)

  /** `Request.new(host, port, path, message, coder, timeout = 0)`: the fields a request stores; it never changes them. */
  datatype Request<!M> = Request(host: string, port: int, path: string, message: M, coder: Coder<M>, timeout: int)

  /** `[host, port].join(':')`: the host, then the separator, then the port, which has no
      ':' in it, so the separator is the last ':' of the authority. */
  function Authority(host: string, port: int): (a: string)
    ensures |a| > |host| + 1 && a[..|host|] == host && a[|host|] == ':'
    ensures forall k :: |host| < k < |a| ==> a[k] != ':'
  {
    host + ":" + Decimal(port)
  }

  /** `"#{timeout}m"`: a decimal number (signed when negative) followed by the unit `m`. */
  function TimeoutValue(timeout: int): (v: string)
    ensures |v| >= 2 && v[|v| - 1] == 'm'
    ensures forall i :: 0 <= i < |v| - 1 ==> IsDigit(v[i]) || (i == 0 && v[i] == '-')
  {
    Decimal(timeout) + "m"
  }

  const UserAgent: string := "grpc-ruby-rgrpc/" + Version

  /** `Request#headers`: the hash literal, in its written order. Its eight fields start with
      the four pseudo-headers and no other field is one, so pseudo-header fields precede
      regular fields (section 8.1.2.1 of RFC 7540). */
  function Headers<M>(r: Request<M>): (h: HeaderList)
    ensures |h| == 8
    ensures forall i :: 0 <= i < |h| ==> |h[i].0| > 0 && (h[i].0[0] == ':' <==> i < 4)
  {
    [ (":scheme", "http"),
      (":method", "POST"),
      (":authority", Authority(r.host, r.port)),
      (":path", r.path),
      ("grpc-timeout", TimeoutValue(r.timeout)),
      ("content-type", "application/grpc+proto"),
      ("user-agent", UserAgent),
      ("grpc-encoding", "gzip") ]
  }

  /** `Request#message`: the message is encoded by the coder, then deflated. */
  function Message<M>(r: Request<M>, deflate: Bytes -> Bytes): Bytes
  {
    deflate(r.coder.encode(r.message))
  }

  /** The eight header names, in order, each once. */
  lemma HeaderNames<M>(r: Request<M>)
    ensures Names(Headers(r)) ==
      [":scheme", ":method", ":authority", ":path", "grpc-timeout", "content-type", "user-agent", "grpc-encoding"]
    ensures Distinct(Names(Headers(r)))
  {
  }

  /** The headers as the receiving side's hash have exactly these eight keys. */
  lemma {:induction false} HeadersHashKeys<M>(r: Request<M>)
    ensures PairsToMap(Headers(r)).Keys ==
      {":scheme", ":method", ":authority", ":path", "grpc-timeout", "content-type", "user-agent", "grpc-encoding"}
    ensures |PairsToMap(Headers(r)).Keys| == 8
  {
    var h := Headers(r);
    HeaderNames(r);
    DistinctCard(h);
    assert (set i | 0 <= i < |h| :: h[i].0) == {h[0].0, h[1].0, h[2].0, h[3].0, h[4].0, h[5].0, h[6].0, h[7].0};
  }

  /** ... and under the four pseudo-headers these values: the scheme, the method, the
      authority and the path. */
  lemma {:induction false} HeadersHashPseudo<M>(r: Request<M>)
    ensures ":scheme" in PairsToMap(Headers(r)) && PairsToMap(Headers(r))[":scheme"] == "http"
    ensures ":method" in PairsToMap(Headers(r)) && PairsToMap(Headers(r))[":method"] == "POST"
    ensures ":authority" in PairsToMap(Headers(r)) && PairsToMap(Headers(r))[":authority"] == r.host + ":" + Decimal(r.port)
    ensures ":path" in PairsToMap(Headers(r)) && PairsToMap(Headers(r))[":path"] == r.path
  {
    var h := Headers(r);
    HeaderNames(r);
    DistinctPairsToMap(h);
    assert h[0].0 == ":scheme" && h[1].0 == ":method" && h[2].0 == ":authority" && h[3].0 == ":path";
  }

  /** ... and under the four regular fields these values: the timeout and four fixed ones. */
  lemma {:induction false} HeadersHashValues<M>(r: Request<M>)
    ensures "grpc-timeout" in PairsToMap(Headers(r)) && PairsToMap(Headers(r))["grpc-timeout"] == Decimal(r.timeout) + "m"
    ensures "content-type" in PairsToMap(Headers(r)) && PairsToMap(Headers(r))["content-type"] == "application/grpc+proto"
    ensures "user-agent" in PairsToMap(Headers(r)) && PairsToMap(Headers(r))["user-agent"] == "grpc-ruby-rgrpc/0.1.0"
    ensures "grpc-encoding" in PairsToMap(Headers(r)) && PairsToMap(Headers(r))["grpc-encoding"] == "gzip"
  {
    var h := Headers(r);
    HeaderNames(r);
    DistinctPairsToMap(h);
    assert h[4].0 == "grpc-timeout" && h[5].0 == "content-type" && h[6].0 == "user-agent" && h[7].0 == "grpc-encoding";
  }

  /** The index of the last ':' in `s`, if any. */
  function LastColon(s: string): (r: Option<nat>)
    ensures r.Some? ==> r.value < |s| && s[r.value] == ':' && forall k :: r.value < k < |s| ==> s[k] != ':'
    ensures r.None? ==> forall k :: 0 <= k < |s| ==> s[k] != ':'
  {
    if s == [] then None
    else if s[|s| - 1] == ':' then Some(|s| - 1)
    else LastColon(s[..|s| - 1])
  }

  /** Host and port back out of an authority, split at its last ':'. */
  function SplitAuthority(a: string): Option<(string, int)>
  {
    match LastColon(a)
    case None => None
    case Some(k) =>
      match ParseDecimal(a[k + 1..])
      case None => None
      case Some(port) => Some((a[..k], port))
  }

  /** The authority determines host and port, even for a host with ':' in it (an IPv6 literal). */
  lemma AuthorityRoundTrip(host: string, port: int)
    ensures SplitAuthority(Authority(host, port)) == Some((host, port))
  {
    var a := Authority(host, port);
    var d := Decimal(port);
    assert a[|host|] == ':';
    assert forall k :: |host| < k < |a| ==> a[k] == d[k - |host| - 1];
    assert LastColon(a) == Some(|host|);
    assert a[|host| + 1..] == d;
    assert a[..|host|] == host;
    DecimalRoundTrip(port);
  }

  /** The `grpc-timeout` value reads back as the timeout; the default one is "0m". */
  lemma TimeoutRoundTrip(timeout: int)
    ensures |TimeoutValue(timeout)| >= 2
    ensures TimeoutValue(timeout)[|TimeoutValue(timeout)| - 1] == 'm'
    ensures ParseDecimal(TimeoutValue(timeout)[..|TimeoutValue(timeout)| - 1]) == Some(timeout)
    ensures TimeoutValue(0) == "0m"
  {
    var v := TimeoutValue(timeout);
    assert v[..|v| - 1] == Decimal(timeout);
    DecimalRoundTrip(timeout);
  }

  /** Given a coder and a compressor with inverses, the payload reads back as the message
      by inflating first and decoding second: the order `Message` applies them in, reversed. */
  lemma MessageRoundTrip<M>(r: Request<M>, deflate: Bytes -> Bytes, inflate: Bytes -> Bytes)
    requires forall b :: inflate(deflate(b)) == b
    requires forall m :: r.coder.decode(r.coder.encode(m)) == m
    ensures r.coder.decode(inflate(Message(r, deflate))) == r.message
  {
  }
}
