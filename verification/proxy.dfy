/**
 * One session of the caching forward proxy (`handle_client` of
 * proxyserver.py): parse the request line, derive the cache key, serve a
 * cached response or fetch once from the origin, store a non-empty reply and
 * relay it unchanged. Sockets are replaced by inputs and outputs: the
 * decoded request text and the origin's reply come in, the new cache, the
 * bytes sent to the client and the origin contact (if any) come out.
 */
module ProxyServer {
  import opened Wrappers
  import opened Utf8
  import opened Strings
  import Cache

  /** The origin is always contacted on the standard HTTP port. */
  const OriginPort: nat := 80

  /** The most bytes the single read from the origin socket can return. */
  const OriginReadSize: nat := 4096

  /** Why a request is dropped before any cache or origin activity. */
  datatype ParseError =
    | NoRequestLine      // the first CR LF-delimited line is empty
    | TooFewTokens       // the request line has fewer than two tokens
    | UnsupportedMethod  // the upper-cased method is not GET
    | HttpsUnsupported   // the URL starts with "https://"
    | RelativeUrl        // the URL starts with "/"

  /**
   * A request the proxy accepts: the method (`verb`) as upper-cased, the URL token as
   * sent, the URL with any "http://" removed (`target`), and its split into
   * host name and origin path.
   */
  datatype Request = Request(verb: string, url: string, target: string, hostname: string, path: string)

  /** The URL without a leading "http://", if it has one. */
  function StripScheme(url: string): (target: string)
    ensures StartsWith(url, "http://") ==> url == "http://" + target
    ensures !StartsWith(url, "http://") ==> target == url
  {
    if StartsWith(url, "http://") then url[7..] else url
  }

  /**
   * Splits the scheme-less URL at its first "/" into host name and path;
   * the path keeps the "/" and is "/" when the URL has none.
   */
  function SplitHost(target: string): (hp: (string, string))
    ensures '/' !in hp.0
    ensures |hp.1| >= 1 && hp.1[0] == '/'
    ensures '/' in target ==> hp.0 + hp.1 == target
    ensures '/' !in target ==> hp.0 == target && hp.1 == "/"
  {
    var parts := SplitOnce(target, '/');
    if |parts| > 1 then
      assert parts[0] + ("/" + parts[1]) == target;
      (parts[0], "/" + parts[1])
    else (parts[0], "/")
  }

  /** The cache file name for a scheme-less URL: every "/" becomes "_". */
  function CacheKey(target: string): (key: string)
    ensures |key| == |target|
    ensures '/' !in key
    ensures forall i :: 0 <= i < |target| ==> key[i] == if target[i] == '/' then '_' else target[i]
  {
    ReplaceChar(target, '/', '_')
  }

  /** The first line of the request the proxy sends to the origin. */
  function ForwardLine(path: string): string {
    "GET " + path + " HTTP/1.0"
  }

  /** The header block of the forwarded request, ending with the empty line. */
  function ForwardHeaders(hostname: string): string {
    "Host: " + hostname + "\r\n"
      + "User-Agent: CSE310-Proxy\r\n"
      + "Accept: */*\r\n"
      + "Accept-Encoding: identity\r\n"
      + "Connection: close\r\n"
      + "\r\n"
  }

  /** The fixed-shape HTTP/1.0 request sent to the origin for `path` on `hostname`. */
  function ForwardMessage(hostname: string, path: string): (m: string)
    ensures StartsWith(m, "GET " + path + " HTTP/1.0\r\n")
    ensures StartsWith(m[|"GET " + path + " HTTP/1.0\r\n"|..], "Host: " + hostname + "\r\n")
    ensures EndsWith(m, "Connection: close\r\n\r\n")
  {
    var line := ForwardLine(path) + "\r\n";
    var headers := ForwardHeaders(hostname);
    assert line == "GET " + path + " HTTP/1.0\r\n";
    assert (line + headers)[|line|..] == headers;
    line + headers
  }

  /** Parses the request text down to a host and path, or says why it is dropped. */
  function ParseRequest(text: string): (r: Result<Request, ParseError>)
    ensures r.Success? ==> r.value.verb == "GET"
    ensures r.Success? ==> '/' !in r.value.hostname && StartsWith(r.value.path, "/")
  {
    ParseLine(FirstLine(text))
  }

  /** The request line: it must not be empty. */
  function ParseLine(line: string): (r: Result<Request, ParseError>)
    ensures r == Failure(NoRequestLine) <==> line == ""
    ensures r.Success? ==> r.value.verb == "GET"
    ensures r.Success? ==> '/' !in r.value.hostname && StartsWith(r.value.path, "/")
  {
    if line == "" then Failure(NoRequestLine) else ParseTokens(Words(line))
  }

  /** The tokens of the request line: there must be at least two. */
  function ParseTokens(tokens: seq<string>): (r: Result<Request, ParseError>)
    ensures r == Failure(TooFewTokens) <==> |tokens| < 2
    ensures r != Failure(NoRequestLine)
    ensures r.Success? ==> r.value.verb == "GET"
    ensures r.Success? ==> '/' !in r.value.hostname && StartsWith(r.value.path, "/")
  {
    if |tokens| < 2 then Failure(TooFewTokens) else ParseTarget(Upper(tokens[0]), tokens[1])
  }

  /** The upper-cased method and the URL token: GET of an absolute, non-https URL. */
  function ParseTarget(verb: string, url: string): (r: Result<Request, ParseError>)
    ensures r.Failure? ==> r.error in {UnsupportedMethod, HttpsUnsupported, RelativeUrl}
    ensures r == Failure(UnsupportedMethod) <==> verb != "GET"
    ensures r == Failure(HttpsUnsupported) <==> verb == "GET" && StartsWith(url, "https://")
    ensures r == Failure(RelativeUrl) <==> verb == "GET" && StartsWith(url, "/")
    ensures r.Success? ==> r.value.verb == "GET" && r.value.url == url && r.value.target == StripScheme(url)
    ensures r.Success? ==> (r.value.hostname, r.value.path) == SplitHost(r.value.target)
  {
    if verb != "GET" then Failure(UnsupportedMethod)
    else if StartsWith(url, "https://") then
      assert url[0] == "https://"[0];
      Failure(HttpsUnsupported)
    else if StartsWith(url, "/") then
      Failure(RelativeUrl)
    else
      var target := StripScheme(url);
      var hp := SplitHost(target);
      Success(Request(verb, url, target, hp.0, hp.1))
  }

  /** The cache key a parsed request is stored and looked up under. */
  function KeyOf(req: Request): string {
    CacheKey(req.target)
  }

  // ---------------------------------------------------------------------------
  // The session
  // ---------------------------------------------------------------------------

  /**
   * What the origin does once the proxy has connected: it sends `stream` and
   * closes, with `arrived` bytes already there when the proxy reads; or the
   * connection fails (refused, timed out, reset).
   */
  datatype OriginReply = Delivered(stream: seq<byte>, arrived: nat) | Unreachable

  /** The proxy's one connection attempt: host, port and the request it sends once connected. */
  datatype Contact = Contact(host: string, port: nat, request: seq<byte>)

  datatype Outcome =
    | Rejected(error: ParseError)  // dropped while parsing; nothing else happens
    | ServedFromCache              // cache hit, origin never contacted
    | OriginFailed                 // the connection to the origin raised an error
    | EmptyOriginResponse          // the origin sent nothing
    | Relayed                      // fetched, stored and relayed

  /** Everything a session leaves behind. */
  datatype Session = Session(cache: Cache.Store, sent: seq<byte>, contact: Option<Contact>, outcome: Outcome)

  function Min(a: int, b: int): int {
    if a <= b then a else b
  }

  /**
   * What the single `recv(4096)` on the origin socket returns: the bytes
   * already arrived (at least one once any are sent), capped at 4096, or
   * nothing when the origin closes without sending.
   */
  function FirstRead(stream: seq<byte>, arrived: nat): (got: seq<byte>)
    ensures |got| <= |stream| && got == stream[..|got|]
    ensures |got| <= OriginReadSize
    ensures got == [] <==> stream == []
    ensures |stream| <= OriginReadSize && |stream| <= arrived ==> got == stream
  {
    if stream == [] then []
    else stream[..Min(if arrived == 0 then 1 else arrived, Min(OriginReadSize, |stream|))]
  }

  /** True when every entry of `after` is an entry of `before` or holds non-empty bytes. */
  predicate StoresOnlyNonEmpty(before: Cache.Store, after: Cache.Store) {
    forall k :: k in after ==> (k in before && after[k] == before[k]) || after[k] != []
  }

  /** True when `store` holds exactly `bytes` under `key`. */
  predicate CachedUnder(store: Cache.Store, key: string, bytes: seq<byte>) {
    key in store && store[key] == bytes
  }

  /** The connection made on a miss: the request's host, port 80, the forwarded request. */
  function ContactFor(req: Request): Contact {
    Contact(req.hostname, OriginPort, Encode(ForwardMessage(req.hostname, req.path)))
  }

  /** Handles one client connection. */
  function Handle(text: string, cache: Cache.Store, origin: OriginReply): (s: Session)
    ensures s.outcome.Rejected? <==> ParseRequest(text).Failure?
    ensures s.outcome.Rejected? ==> s.sent == [] && s.contact == None && s.cache == cache
    ensures s.contact.Some? <==> s.outcome in {OriginFailed, EmptyOriginResponse, Relayed}
    ensures s.contact.Some? ==> s.contact.value.port == OriginPort
    ensures s.sent != [] <==> s.outcome in {ServedFromCache, Relayed}
    ensures !s.outcome.Relayed? ==> s.cache == cache
    ensures s.outcome.Relayed? ==> |s.sent| <= OriginReadSize
    ensures s.cache.Keys >= cache.Keys
    ensures StoresOnlyNonEmpty(cache, s.cache)
    ensures s.sent != [] ==> ParseRequest(text).Success? && CachedUnder(s.cache, KeyOf(ParseRequest(text).value), s.sent)
  {
    match ParseRequest(text)
    case Failure(e) => Session(cache, [], None, Rejected(e))
    case Success(req) =>
      var key := KeyOf(req);
      var cached := Cache.Lookup(cache, key);
      if cached.Some? && cached.value != [] then
        Session(cache, cached.value, None, ServedFromCache)
      else
        var contact := ContactFor(req);
        match origin
        case Unreachable => Session(cache, [], Some(contact), OriginFailed)
        case Delivered(stream, arrived) =>
          var data := FirstRead(stream, arrived);
          if data == [] then Session(cache, [], Some(contact), EmptyOriginResponse)
          else Session(Cache.Put(cache, key, data), data, Some(contact), Relayed)
  }
}
