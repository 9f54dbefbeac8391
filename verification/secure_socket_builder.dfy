/**
 * The TLS side of `RGRPC::SecureSocketBuilder`: the context `create_ssl_context`
 * configures, the server-side ALPN selection it installs (section 3.2 of
 * RFC 7301) and the check `build` makes on the protocol the handshake
 * negotiated. Sockets and the handshake itself are not modelled: the
 * negotiated protocol is a parameter.
 */
module Tls {
  import opened Wrappers
  import Envelope

  /** The configuration object's three optional fields, as PEM text or a CA name. */
  datatype TlsConfig = TlsConfig(ca: Option<string>, cert: Option<string>, key: Option<string>)

  datatype VerifyMode = VerifyNone | VerifyPeer
  datatype SslVersion = Default | TLSv1_2

  /** `OpenSSL::X509::Certificate.new(pem)` and the RSA key built from `pem`. */
  datatype Certificate = Certificate(pem: string)
  datatype PrivateKey = PrivateKey(pem: string)

  /** The fields of an `OpenSSL::SSL::SSLContext` that the builder sets. */
  datatype SslContext = SslContext(
    verifyMode: VerifyMode,
    sslVersion: SslVersion,
    clientCa: Option<string>,
    cert: Option<Certificate>,
    key: Option<PrivateKey>,
    alpnProtocols: seq<string>)

  /** The message of the exception `build` raises when ALPN did not yield `h2`. */
  const NegotiationFailure: string := "Failed to negotiate " + Envelope.AlpnDraft + " via ALPN"

  /** `create_ssl_context`, field by field as the method assigns them. The context pins TLS 1.2,
      disables peer verification, installs the CA only when one is given, installs certificate
      and key together or not at all, and advertises exactly `h2`. */
  function CreateSslContext(cfg: TlsConfig): (ctx: SslContext)
    ensures ctx.verifyMode == VerifyNone && ctx.sslVersion == TLSv1_2
    ensures ctx.clientCa == cfg.ca
    ensures ctx.cert.Some? <==> cfg.cert.Some? && cfg.key.Some?
    ensures ctx.key.Some? <==> ctx.cert.Some?
    ensures ctx.cert.Some? ==> ctx.cert.value.pem == cfg.cert.value && ctx.key.value.pem == cfg.key.value
    ensures ctx.alpnProtocols == ["h2"]
  {
    var ctx := SslContext(VerifyPeer, Default, None, None, None, []);
    var ctx := ctx.(verifyMode := VerifyNone);
    var ctx := ctx.(sslVersion := TLSv1_2);
    var ctx := if cfg.ca.Some? then ctx.(clientCa := cfg.ca) else ctx;
    var ctx := if cfg.cert.Some? && cfg.key.Some?
               then ctx.(cert := Some(Certificate(cfg.cert.value)), key := Some(PrivateKey(cfg.key.value)))
               else ctx;
    ctx.(alpnProtocols := [Envelope.AlpnDraft])
  }

  /** `alpn_select_cb`: `h2` if the client offers it, nil otherwise. */
  function AlpnSelect(protocols: seq<string>): (r: Option<string>)
    ensures r == Some("h2") <==> "h2" in protocols
    ensures r.None? <==> "h2" !in protocols
  {
    if Envelope.AlpnDraft in protocols then Some(Envelope.AlpnDraft) else None
  }

  /** The server selects one of the client's offers that it also advertises (section 3.2 of RFC 7301). */
  lemma SelectionIsMutual(cfg: TlsConfig, offered: seq<string>)
    ensures AlpnSelect(offered).Some? ==>
      AlpnSelect(offered).value in offered && AlpnSelect(offered).value in CreateSslContext(cfg).alpnProtocols
  {
  }

  /** The check in `build`: the socket is returned only if the negotiated protocol is `h2`;
      `None` is a handshake that negotiated nothing. */
  function CheckAlpn<S>(sock: S, negotiated: Option<string>): (r: Result<S, string>)
    ensures r.Ok? <==> negotiated == Some("h2")
    ensures r.Ok? ==> r.value == sock
    ensures r.Err? ==> r.error == "Failed to negotiate h2 via ALPN"
  {
    if negotiated != Some(Envelope.AlpnDraft) then Err(NegotiationFailure) else Ok(sock)
  }

  /** A client whose context advertises its ALPN list to a server running this selection
      callback always passes its own check. */
  lemma BuildersAgree<S>(sock: S, client: TlsConfig)
    ensures CheckAlpn(sock, AlpnSelect(CreateSslContext(client).alpnProtocols)) == Ok(sock)
  {
  }
}
