/** Predicting, before the handshake, whether a client connection will multiplex. */
module Multiplexing {
  import opened Wrappers
  import opened ClientRequest

  /** What TLS negotiated; `None` for a transport without TLS. */
  datatype Tls = Tls(alpn: Option<string>)

  datatype ProtocolError = Http1Failed(code: nat) | Http2Failed(code: nat) | Unsupported(protocol: HttpProtocol)

  /** How hyper's own handshake turns out. */
  datatype Shake = Agreed | Refused(code: nat)

  datatype Builder = Builder(initial: HttpProtocol, tlsFeature: bool)

  const DEFAULT_BUILDER := Builder(Http1, true)

  predicate NegotiatedH2(tls: Option<Tls>) {
    tls.Some? && tls.value.alpn == Some("h2")
  }

  predicate MultiplexReady(tls: Option<Tls>) {
    NegotiatedH2(tls)
  }

  function HandshakeH2(shake: Shake): Result<HttpConnection, ProtocolError> {
    if shake.Agreed? then Ok(H2) else Err(Http2Failed(shake.code))
  }

  function HandshakeH1(shake: Shake): Result<HttpConnection, ProtocolError> {
    if shake.Agreed? then Ok(H1) else Err(Http1Failed(shake.code))
  }

  function Handshake(builder: Builder, tls: Option<Tls>, shake: Shake): Result<HttpConnection, ProtocolError> {
    match builder.initial
    case Http2 => HandshakeH2(shake)
    case Http1 =>
      if builder.tlsFeature && NegotiatedH2(tls) then HandshakeH2(shake)
      else HandshakeH1(shake)
    case Http3 => Err(Unsupported(Http3))
  }

  /**
    Whether the ALPN protocol is "h2" decides alone: only then does the default builder come
    to HTTP/2, and only then is that predicted. Any other protocol, none, or no TLS give HTTP/1.
   */
  lemma AlpnDecides(tls: Option<Tls>)
    ensures MultiplexReady(tls) <==> tls == Some(Tls(Some("h2")))
    ensures Handshake(DEFAULT_BUILDER, tls, Agreed).Ok?
    ensures Handshake(DEFAULT_BUILDER, tls, Agreed).value.Version() == Http2 <==> tls == Some(Tls(Some("h2")))
    ensures Handshake(DEFAULT_BUILDER, tls, Agreed).value.Version() == Http1 <==> tls != Some(Tls(Some("h2")))
  {
  }

  /** A handshake fails just when hyper's does or HTTP/3 is asked for, and the error says which protocol was tried. */
  lemma HandshakeFails(builder: Builder, tls: Option<Tls>, shake: Shake)
    ensures Handshake(builder, tls, shake).Ok? <==> shake.Agreed? && builder.initial != Http3
    ensures builder.initial == Http3 ==> Handshake(builder, tls, shake) == Err(Unsupported(Http3))
    ensures shake.Refused? && builder.initial != Http3 ==>
              Handshake(builder, tls, shake) ==
                if Handshake(builder, tls, Agreed).value.Version() == Http2 then Err(Http2Failed(shake.code))
                else Err(Http1Failed(shake.code))
  {
  }

  /** What a connection says of itself and does to a request, all of it for one protocol. */
  ghost predicate Speaks(conn: HttpConnection, multiplexed: bool) {
    && conn.Version() == (if multiplexed then Http2 else Http1)
    && (conn.CanShare() <==> multiplexed)
    && (conn.Reuse().Some? <==> multiplexed)
    && (multiplexed ==> conn.Reuse() == Some(conn))
    && forall m: Message | WellFormed(m.uri) && Addressed(m) && Normalise(conn.Version(), m).Ok? ::
         Normalise(conn.Version(), m).value.version == (if multiplexed then HttpTwo else Http11)
  }

  /**
    For any builder, the prediction is right about a successful handshake just when the
    builder neither forces HTTP/2 on a transport that did not negotiate it, nor is built
    without the TLS feature on one that did.
   */
  lemma PredictionExact(builder: Builder, tls: Option<Tls>, shake: Shake)
    requires Handshake(builder, tls, shake).Ok?
    ensures Speaks(Handshake(builder, tls, shake).value, MultiplexReady(tls)) <==>
              !(builder.initial == Http2 && tls != Some(Tls(Some("h2"))))
              && !(builder.initial == Http1 && tls == Some(Tls(Some("h2"))) && !builder.tlsFeature)
  {
    var conn := Handshake(builder, tls, shake).value;
    assert Speaks(conn, conn.H2?);
  }

  /** The default builder's prediction is always right, and it never asks for HTTP/3. */
  lemma DefaultPredictionSound(tls: Option<Tls>, shake: Shake)
    ensures Handshake(DEFAULT_BUILDER, tls, shake).Ok? <==> shake.Agreed?
    ensures shake.Agreed? ==> Speaks(Handshake(DEFAULT_BUILDER, tls, shake).value, MultiplexReady(tls))
  {
    if shake.Agreed? {
      PredictionExact(DEFAULT_BUILDER, tls, shake);
    }
  }
}
