/**
  What the client's request layers do to a request on its way to the connection:
  `SetHostHeader`, then the HTTP/2 checks, then the HTTP/1 checks, then `send_request`.
 */
module ClientRequest {
  import opened Wrappers
  import opened HostField

  datatype HttpProtocol = Http1 | Http2 | Http3

  datatype Version = Http09 | Http10 | Http11 | HttpTwo | HttpThree

  datatype Method = Connect | Other(name: string)

  /** The parts of an authority as `http::Uri` gives them; brackets belong to the host. */
  datatype Authority = Authority(userinfo: Option<string>, host: string, port: Option<string>)

  datatype PathAndQuery = PathAndQuery(path: string, query: Option<string>)

  datatype Uri = Uri(scheme: Option<string>, authority: Option<Authority>, target: Option<PathAndQuery>)

  /** A multimap: each name present has the list of its values, in order. */
  type Headers = map<string, seq<string>>

  datatype Message = Message(verb: Method, uri: Uri, version: Version, headers: Headers)

  datatype RequestError = InvalidMethod(verb: Method)

  const HOST := "host"
  const CONNECTION_HEADERS: seq<string> := ["connection", "proxy-connection", "keep-alive", "transfer-encoding", "upgrade"]

  const EMPTY_URI := Uri(None, None, Some(PathAndQuery("/", None)))

  predicate IsSchemaSecure(uri: Uri) {
    uri.scheme.Some? && (uri.scheme.value == "wss" || uri.scheme.value == "https")
  }

  /** What the accessors of `http::Uri` guarantee. */
  predicate WellFormed(uri: Uri) {
    && (uri.authority.Some? ==>
          IsHost(uri.authority.value.host) && (uri.authority.value.port.Some? ==> IsPort(uri.authority.value.port.value)))
    && (uri.target.Some? ==> uri.target.value.path != [] && uri.target.value.path[0] == '/' && '?' !in uri.target.value.path)
    && (uri.scheme.Some? && uri.authority.Some? ==> uri.target.Some?)
  }

  function NonDefaultPort(uri: Uri): Option<string>
    requires WellFormed(uri) && uri.authority.Some?
  {
    var port := uri.authority.value.port;
    match port
    case Some(p) => if Number(p) == (if IsSchemaSecure(uri) then 443 else 80) then None else port
    case None => None
  }

  /** The scheme's default port, and 80 for any scheme but https and wss, or none. */
  function PresumedPort(scheme: Option<string>): nat {
    if scheme == Some("https") || scheme == Some("wss") then 443 else 80
  }

  /** The `Host` field for a URI: the port is left out when it is the presumed one. */
  function HostText(uri: Uri): string
    requires WellFormed(uri) && uri.authority.Some?
  {
    var a := uri.authority.value;
    if a.port.Some? && Number(a.port.value) != PresumedPort(uri.scheme) then a.host + ":" + a.port.value else a.host
  }

  // ---------- The layers, as functions of the message ----------

  function WithHost(m: Message): Message
    requires WellFormed(m.uri)
  {
    if m.uri.authority.None? || HOST in m.headers then m
    else m.(headers := m.headers[HOST := [PrintHost(m.uri.authority.value.host, NonDefaultPort(m.uri))]])
  }

  /** The first `n` of the connection headers. */
  function ConnectionHeaders(n: nat): set<string>
    requires n <= |CONNECTION_HEADERS|
  {
    set i | 0 <= i < n :: CONNECTION_HEADERS[i]
  }

  function IllegalOnHttp2(): set<string> {
    ConnectionHeaders(|CONNECTION_HEADERS|) + {HOST}
  }

  function AuthorityForm(uri: Uri): Uri {
    Uri(None, uri.authority, None)
  }

  function OriginForm(uri: Uri): Uri {
    if uri.target.Some? && PrintTarget(uri.target.value.path, uri.target.value.query) != "/" then Uri(None, None, uri.target)
    else EMPTY_URI
  }

  lemma JustSlash(path: string, query: Option<string>)
    ensures PrintTarget(path, query) == "/" <==> path == "/" && query.None?
  {
    if query.Some? {
      assert PrintTarget(path, query)[|path|] == '?';
    }
  }

  /** What the HTTP/1 checks demand: `absolute_form` and `authority_form` abort otherwise. */
  predicate Addressed(m: Message) {
    m.uri.authority.Some? && (m.verb != Connect ==> m.uri.scheme.Some?)
  }

  /** The message as it is given to an HTTP/1 or HTTP/2 connection. */
  function Normalise(protocol: HttpProtocol, m: Message): Result<Message, RequestError>
    requires protocol != Http3 && WellFormed(m.uri) && (protocol == Http1 ==> Addressed(m))
  {
    if protocol == Http1 then
      var uri := if m.verb == Connect then AuthorityForm(m.uri) else OriginForm(m.uri);
      Ok(WithHost(m).(uri := uri, version := Http11))
    else if m.verb == Connect then Err(InvalidMethod(Connect))
    else Ok(m.(version := HttpTwo, headers := m.headers - IllegalOnHttp2()))
  }

  lemma RemoveTwice(m: Headers, a: set<string>, b: set<string>)
    ensures (m - a) - b == m - (a + b)
  {
  }

  // ---------- The layers, as the code has them ----------

  class Request {
    const verb: Method
    var uri: Uri
    var version: Version
    var headers: Headers

    function View(): Message
      reads this
    {
      Message(verb, uri, version, headers)
    }

    constructor (m: Message)
      ensures View() == m
    {
      verb, uri, version, headers := m.verb, m.uri, m.version, m.headers;
    }

    method SetHostHeader()
      requires WellFormed(uri)
      modifies this`headers
      ensures View() == WithHost(old(View()))
      ensures uri.authority.None? || HOST in old(headers) ==> headers == old(headers)
      ensures uri.authority.Some? && HOST !in old(headers) ==> headers == old(headers)[HOST := [HostText(uri)]]
    {
      if uri.authority.None? {
        return;
      }
      if HOST !in headers {
        var hostname := uri.authority.value.host;
        var port := NonDefaultPort(uri);
        if port.Some? {
          headers := headers[HOST := [hostname + ":" + port.value]];
        } else {
          headers := headers[HOST := [hostname]];
        }
      }
    }

    /** `SetHostHeader` above the connection pool: only the request's version is known. */
    method SetHostByRequestVersion()
      requires WellFormed(uri)
      modifies this`headers
      ensures View() == if version in {Http09, Http10, Http11} then WithHost(old(View())) else old(View())
    {
      if version == Http09 || version == Http10 || version == Http11 {
        SetHostHeader();
      }
    }

    /** `SetHostHeader` below the connection pool: the connection decides. */
    method SetHostByConnection(protocol: HttpProtocol)
      requires WellFormed(uri)
      modifies this`headers
      ensures View() == if protocol == Http1 then WithHost(old(View())) else old(View())
    {
      if protocol == Http1 {
        SetHostHeader();
      }
    }

    method CheckHttp2(protocol: HttpProtocol) returns (r: Result<(), RequestError>)
      modifies this`version, this`headers
      ensures protocol != Http2 ==> r.Ok? && View() == old(View())
      ensures protocol == Http2 && verb == Connect ==> r == Err(InvalidMethod(Connect)) && View() == old(View())
      ensures protocol == Http2 && verb != Connect ==>
                r.Ok? && View() == old(View()).(version := HttpTwo, headers := old(headers) - IllegalOnHttp2())
    {
      if protocol == Http2 {
        if verb == Connect {
          return Err(InvalidMethod(verb));
        }
        version := HttpTwo;
        for i := 0 to |CONNECTION_HEADERS|
          invariant version == HttpTwo && headers == old(headers) - ConnectionHeaders(i)
        {
          RemoveTwice(old(headers), ConnectionHeaders(i), {CONNECTION_HEADERS[i]});
          assert ConnectionHeaders(i + 1) == ConnectionHeaders(i) + {CONNECTION_HEADERS[i]};
          headers := headers - {CONNECTION_HEADERS[i]};
        }
        RemoveTwice(old(headers), ConnectionHeaders(|CONNECTION_HEADERS|), {HOST});
        headers := headers - {HOST};
      }
      r := Ok(());
    }

    /** The switch to origin form after `authority_form` is never reached: that form has no scheme. */
    method CheckHttp1(protocol: HttpProtocol)
      requires protocol == Http1 ==> Addressed(View())
      modifies this`uri
      ensures uri == if protocol != Http1 then old(uri)
                     else if verb == Connect then AuthorityForm(old(uri))
                     else OriginForm(old(uri))
    {
      if protocol != Http1 {
        return;
      }
      if verb == Connect {
        uri := Uri(None, uri.authority, None);
        if uri.scheme == Some("https") {
          assert false;
        }
      } else {
        ToOriginForm();
      }
    }

    method ToOriginForm()
      modifies this`uri
      ensures uri == OriginForm(old(uri))
      ensures uri == Uri(None, None, if old(uri).target.Some? then old(uri).target else Some(PathAndQuery("/", None)))
    {
      match uri.target
      case Some(t) =>
        if PrintTarget(t.path, t.query) != "/" {
          uri := Uri(None, None, Some(t));
        } else {
          JustSlash(t.path, t.query);
          uri := EMPTY_URI;
        }
      case None =>
        uri := EMPTY_URI;
    }

    /** The layers in the order in which the client stacks them, on an established connection. */
    method Dispatch(conn: HttpConnection) returns (r: Result<(), RequestError>)
      requires WellFormed(uri) && (conn.Version() == Http1 ==> Addressed(View()))
      modifies this`uri, this`version, this`headers
      ensures match Normalise(conn.Version(), old(View()))
              case Ok(m) => r.Ok? && View() == m
              case Err(e) => r == Err(e) && View() == old(View())
    {
      SetHostByConnection(conn.Version());
      r := CheckHttp2(conn.Version());
      if r.Ok? {
        CheckHttp1(conn.Version());
        conn.SendRequest(this);
      }
    }
  }

  /** A connection whose handshake is over. */
  datatype HttpConnection = H1 | H2 {
    function Version(): HttpProtocol {
      match this
      case H1 => Http1
      case H2 => Http2
    }

    predicate CanShare() {
      H2?
    }

    function Reuse(): Option<HttpConnection> {
      if H2? then Some(H2) else None
    }

    method SendRequest(request: Request)
      modifies request`version
      ensures request.version == if H2? then HttpTwo else Http11
    {
      request.version := if H2? then HttpTwo else Http11;
    }
  }

  // ---------- The target URI can be reconstructed ----------

  /** What a request is for, apart from the scheme; the port is the effective one. */
  datatype Target = Target(host: string, port: nat, path: string, query: Option<string>)

  function EffectivePort(port: Option<string>, default: nat): nat
    requires port.Some? ==> IsPort(port.value)
  {
    if port.Some? then Number(port.value) else default
  }

  /** The target of a URI whose scheme has the given default port. */
  function TargetOf(uri: Uri, default: nat): Target
    requires WellFormed(uri) && uri.authority.Some? && uri.target.Some?
  {
    var a, t := uri.authority.value, uri.target.value;
    Target(a.host, EffectivePort(a.port, default), t.path, t.query)
  }

  /** A server's reading of an origin-form request, section 3.3 of RFC 9112. */
  function Reconstruct(m: Message, default: nat): Option<Target> {
    if HOST !in m.headers || |m.headers[HOST]| != 1 || m.uri.target.None? then None
    else
      match ParseHost(m.headers[HOST][0])
      case None => None
      case Some((host, port)) =>
        var (path, query) := ParseTarget(PrintTarget(m.uri.target.value.path, m.uri.target.value.query));
        Some(Target(host, EffectivePort(port, default), path, query))
  }

  lemma OriginFormKeepsTarget(uri: Uri)
    requires WellFormed(uri) && uri.scheme.Some? && uri.authority.Some?
    ensures OriginForm(uri) == Uri(None, None, uri.target)
  {
  }

  /**
    On HTTP/1 every request but CONNECT, with a preset `Host` or without, is sent in origin
    form, and reading what is sent as its target gives back path and query.
   */
  lemma TargetSent(m: Message)
    requires WellFormed(m.uri) && Addressed(m) && m.verb != Connect
    ensures Normalise(Http1, m).Ok?
    ensures var sent := Normalise(Http1, m).value;
            && sent.uri == Uri(None, None, m.uri.target) && sent.verb == m.verb && sent.version == Http11
            && var t := m.uri.target.value;
               var text := PrintTarget(sent.uri.target.value.path, sent.uri.target.value.query);
               text == t.path + (if t.query.Some? then "?" + t.query.value else "") && ParseTarget(text) == (t.path, t.query)
  {
    OriginFormKeepsTarget(m.uri);
    TargetRoundTrip(m.uri.target.value.path, m.uri.target.value.query);
  }

  /**
    The `Host` that is added on HTTP/1, whatever the method: one value, from which the host
    comes back, and the effective port just when no port was left out that is not `default`.
    A port is written just when it is given and is not the presumed one.
   */
  lemma HostSent(m: Message, default: nat)
    requires WellFormed(m.uri) && Addressed(m) && HOST !in m.headers
    ensures Normalise(Http1, m).Ok?
    ensures var sent, a := Normalise(Http1, m).value, m.uri.authority.value;
            && sent.headers == m.headers[HOST := [HostText(m.uri)]]
            && ParseHost(HostText(m.uri)).Some?
            && var (host, port) := ParseHost(HostText(m.uri)).value;
               var presumed := if m.uri.scheme in {Some("https"), Some("wss")} then 443 else 80;
               && host == a.host
               && (port.Some? <==> a.port.Some? && Number(a.port.value) != presumed)
               && (port.Some? ==> port == a.port)
               && (EffectivePort(port, default) == EffectivePort(a.port, default) <==>
                     !(a.port.Some? && Number(a.port.value) == presumed && presumed != default))
  {
    HostRoundTrip(m.uri.authority.value.host, NonDefaultPort(m.uri));
  }

  /** So from a CONNECT request without a scheme, 80 being presumed, both come back; it is sent in authority form. */
  lemma ConnectSent(m: Message)
    requires WellFormed(m.uri) && Addressed(m) && m.verb == Connect
    ensures Normalise(Http1, m).Ok?
    ensures var sent, a := Normalise(Http1, m).value, m.uri.authority.value;
            && sent.uri == Uri(None, Some(a), None) && sent.verb == Connect && sent.version == Http11
            && (HOST !in m.headers && m.uri.scheme.None? ==>
                  && ParseHost(HostText(m.uri)).Some?
                  && sent.headers[HOST] == [HostText(m.uri)]
                  && ParseHost(HostText(m.uri)).value.0 == a.host
                  && EffectivePort(ParseHost(HostText(m.uri)).value.1, 80) == EffectivePort(a.port, 80))
  {
    if HOST !in m.headers {
      HostSent(m, 80);
    }
  }

  /**
    On HTTP/1, for every URI and whatever the default port of its scheme: what is sent is in
    origin form, and the target URI can be reconstructed from it just when no port was left
    out that is not the scheme's default.
   */
  lemma TargetReconstructed(m: Message, default: nat)
    requires WellFormed(m.uri) && Addressed(m) && m.verb != Connect && HOST !in m.headers
    ensures Normalise(Http1, m).Ok?
    ensures var sent := Normalise(Http1, m).value;
            && sent.uri.scheme.None? && sent.uri.authority.None? && sent.version == Http11
            && (Reconstruct(sent, default) == Some(TargetOf(m.uri, default)) <==>
                  !(m.uri.authority.value.port.Some?
                    && Number(m.uri.authority.value.port.value) == PresumedPort(m.uri.scheme)
                    && PresumedPort(m.uri.scheme) != default))
  {
    TargetSent(m);
    HostSent(m, default);
  }

  predicate HttpScheme(s: string) {
    s == "http" || s == "https" || s == "ws" || s == "wss"
  }

  function DefaultPort(scheme: string): nat
    requires HttpScheme(scheme)
  {
    if scheme == "https" || scheme == "wss" then 443 else 80
  }

  /** So it always can for http, https, ws and wss. */
  lemma HttpTargetReconstructed(m: Message)
    requires WellFormed(m.uri) && Addressed(m) && m.verb != Connect && HOST !in m.headers
    requires HttpScheme(m.uri.scheme.value)
    ensures var default := DefaultPort(m.uri.scheme.value);
            Reconstruct(Normalise(Http1, m).value, default) == Some(TargetOf(m.uri, default))
  {
    TargetReconstructed(m, DefaultPort(m.uri.scheme.value));
  }

  /** Another scheme can lose its port: here 80 is written out, and is not the default. */
  lemma OtherSchemeLosesPort()
    ensures var m := Message(Other("GET"),
                             Uri(Some("coap"), Some(Authority(None, "h", Some("80"))), Some(PathAndQuery("/", None))),
                             Http11, map[]);
            && WellFormed(m.uri) && Addressed(m)
            && Normalise(Http1, m).value.headers == map[HOST := ["h"]]
            && Reconstruct(Normalise(Http1, m).value, 5683) != Some(TargetOf(m.uri, 5683))
  {
    var uri := Uri(Some("coap"), Some(Authority(None, "h", Some("80"))), Some(PathAndQuery("/", None)));
    assert "80"[..1] == "8" && "8"[..0] == "";
    assert Number("8") == 8 && Number("80") == 80;
    TargetReconstructed(Message(Other("GET"), uri, Http11, map[]), 5683);
  }

  /** On HTTP/1 a preset `Host` survives, and no other header is touched, whatever the method. */
  lemma Http1KeepsHeaders(m: Message)
    requires WellFormed(m.uri) && Addressed(m)
    ensures var sent := Normalise(Http1, m).value;
            && (HOST in m.headers ==> sent.headers == m.headers)
            && (forall name | name in m.headers :: name in sent.headers && sent.headers[name] == m.headers[name])
            && sent.headers.Keys == m.headers.Keys + {HOST}
            && (m.verb == Connect ==> sent.uri == Uri(None, m.uri.authority, None))
            && sent.verb == m.verb && sent.version == Http11
  {
  }

  // ---------- The HTTP/2 header filter ----------

  /**
    On HTTP/2, for every header multimap: exactly the connection headers and `Host` are
    gone, with all their values; everything else is kept with its values in order; the URI
    is left alone; and a second pass changes nothing.
   */
  lemma Http2Filter(m: Message)
    requires WellFormed(m.uri)
    ensures m.verb == Connect <==> Normalise(Http2, m) == Err(InvalidMethod(Connect))
    ensures m.verb != Connect ==>
              var sent := Normalise(Http2, m).value;
              && sent.version == HttpTwo && sent.uri == m.uri && sent.verb == m.verb
              && (forall name :: name in sent.headers <==>
                    name in m.headers
                    && name !in ["connection", "proxy-connection", "keep-alive", "transfer-encoding", "upgrade", "host"])
              && (forall name | name in sent.headers :: sent.headers[name] == m.headers[name])
              && Normalise(Http2, sent) == Ok(sent)
  {
    if m.verb != Connect {
      forall name
        ensures name in IllegalOnHttp2() <==>
                name in ["connection", "proxy-connection", "keep-alive", "transfer-encoding", "upgrade", "host"]
      {
        IllegalNames(name);
      }
      var sent := Normalise(Http2, m).value;
      assert sent.headers - IllegalOnHttp2() == sent.headers;
    }
  }

  lemma IllegalNames(name: string)
    ensures name in IllegalOnHttp2() <==>
            name in ["connection", "proxy-connection", "keep-alive", "transfer-encoding", "upgrade", "host"]
  {
    var all := ["connection", "proxy-connection", "keep-alive", "transfer-encoding", "upgrade", "host"];
    assert all == CONNECTION_HEADERS + [HOST];
    if name in CONNECTION_HEADERS {
      var i :| 0 <= i < |CONNECTION_HEADERS| && CONNECTION_HEADERS[i] == name;
    }
  }
}
