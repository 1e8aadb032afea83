/**
 * Properties of the proxy session: when a request is dropped, how the URL
 * is split and keyed, what is forwarded, and what the cache and the client
 * see on a hit, on a miss, and on a repeated request.
 */
module ProxyProperties {
  import opened Wrappers
  import opened Utf8
  import opened Strings
  import Cache
  import opened ProxyServer

  // ---------------------------------------------------------------------------
  // Parsing: each rejection exactly when its condition holds
  // ---------------------------------------------------------------------------

  /** An empty first line (an empty request included) is dropped as having no request line. */
  lemma RejectsEmptyFirstLine(text: string)
    ensures ParseRequest(text) == Failure(NoRequestLine) <==> FirstLine(text) == ""
  {
  }

  /** An empty request is dropped as having no request line. */
  lemma EmptyRequestIsRejected()
    ensures ParseRequest("") == Failure(NoRequestLine)
  {
    RejectsEmptyFirstLine("");
  }

  /** A non-empty first line with fewer than two tokens (e.g. only blanks) is dropped. */
  lemma RejectsShortRequestLine(text: string)
    ensures ParseRequest(text) == Failure(TooFewTokens) <==> FirstLine(text) != "" && |RequestTokens(text)| < 2
  {
  }

  /** A request line whose method is not GET in some mix of cases is dropped. */
  lemma RejectsNonGet(text: string)
    ensures ParseRequest(text) == Failure(UnsupportedMethod)
        <==> |RequestTokens(text)| >= 2 && !IsGetAnyCase(RequestTokens(text)[0])
  {
    var ws := RequestTokens(text);
    if |ws| >= 2 {
      UpperIsGet(ws[0]);
    }
  }

  /** A GET whose URL starts with "https://" is dropped. */
  lemma RejectsHttps(text: string)
    ensures ParseRequest(text) == Failure(HttpsUnsupported)
        <==> |RequestTokens(text)| >= 2 && IsGetAnyCase(RequestTokens(text)[0]) && StartsWith(RequestTokens(text)[1], "https://")
  {
    var ws := RequestTokens(text);
    if |ws| >= 2 {
      UpperIsGet(ws[0]);
    }
  }

  /** A GET whose URL is relative (starts with "/") is dropped. */
  lemma RejectsRelative(text: string)
    ensures ParseRequest(text) == Failure(RelativeUrl)
        <==> |RequestTokens(text)| >= 2 && IsGetAnyCase(RequestTokens(text)[0]) && StartsWith(RequestTokens(text)[1], "/")
  {
    var ws := RequestTokens(text);
    if |ws| >= 2 {
      UpperIsGet(ws[0]);
      if StartsWith(ws[1], "/") {
        assert ws[1][0] == '/';
      }
    }
  }

  /**
   * A request is accepted exactly when its line has two tokens, the first is
   * GET in any case, and the URL is neither https nor relative; the request
   * then carries that URL, stripped of "http://", split into host and path.
   */
  lemma AcceptsIff(text: string)
    ensures ParseRequest(text).Success?
        <==> && |RequestTokens(text)| >= 2
             && IsGetAnyCase(RequestTokens(text)[0])
             && !StartsWith(RequestTokens(text)[1], "https://")
             && !StartsWith(RequestTokens(text)[1], "/")
    ensures ParseRequest(text).Success? ==>
        var req := ParseRequest(text).value;
        && req.url == RequestTokens(text)[1]
        && req.target == StripScheme(req.url)
        && (req.hostname, req.path) == SplitHost(req.target)
  {
    var ws := RequestTokens(text);
    if |ws| >= 2 {
      UpperIsGet(ws[0]);
    }
  }

  /** The host name and path of an accepted request contain no whitespace. */
  lemma ParsedPartsAreWords(text: string)
    requires ParseRequest(text).Success?
    ensures NoSpace(ParseRequest(text).value.hostname)
    ensures NoSpace(ParseRequest(text).value.path)
  {
    var req := ParseRequest(text).value;
    AcceptsIff(text);
    var url := RequestTokens(text)[1];
    assert IsToken(url) by {
      WordsAreTokens(FirstLine(text));
    }
    StripSchemeNoSpace(url);
    SplitHostNoSpace(req.target);
  }

  /** Removing the scheme introduces no whitespace. */
  lemma StripSchemeNoSpace(url: string)
    requires NoSpace(url)
    ensures NoSpace(StripScheme(url))
  {
    var t := StripScheme(url);
    if StartsWith(url, "http://") {
      forall i | 0 <= i < |t| ensures !IsSpace(t[i]) {
        assert t[i] == url[i + 7];
      }
    }
  }

  /** Splitting a whitespace-free target gives a whitespace-free host and path. */
  lemma SplitHostNoSpace(t: string)
    requires NoSpace(t)
    ensures NoSpace(SplitHost(t).0) && NoSpace(SplitHost(t).1)
  {
    var hp := SplitHost(t);
    if '/' in t {
      forall i | 0 <= i < |hp.0| ensures !IsSpace(hp.0[i]) {
        assert hp.0[i] == t[i];
      }
      forall i | 0 <= i < |hp.1| ensures !IsSpace(hp.1[i]) {
        assert hp.1[i] == t[|hp.0| + i];
      }
    } else {
      assert hp.1 == "/";
    }
  }

  // ---------------------------------------------------------------------------
  // Particular request lines
  // ---------------------------------------------------------------------------

  /** A request line of at least two tokens is decided by its method and URL alone. */
  lemma ParseByTokens(text: string)
    requires |RequestTokens(text)| >= 2
    ensures ParseRequest(text) == ParseTarget(Upper(RequestTokens(text)[0]), RequestTokens(text)[1])
  {
    assert FirstLine(text) != "";
  }

  /** A request line of GET and two more tokens is decided by its URL. */
  lemma ThreeTokenGet(text: string, url: string, version: string)
    requires RequestTokens(text) == ["GET", url, version]
    ensures ParseRequest(text) == ParseTarget("GET", url)
    ensures StartsWith(url, "https://") ==> ParseRequest(text) == Failure(HttpsUnsupported)
    ensures StartsWith(url, "/") ==> ParseRequest(text) == Failure(RelativeUrl)
  {
    ParseByTokens(text);
    UpperIsGet("GET");
  }

  /** CONNECT, the tunnelling method used for HTTPS, is dropped whatever it names. */
  lemma ConnectIsRejected(authority: string, version: string, rest: string)
    requires IsToken(authority) && IsToken(version)
    ensures ParseRequest("CONNECT" + " " + authority + " " + version + "\r\n" + rest) == Failure(UnsupportedMethod)
  {
    var text := "CONNECT" + " " + authority + " " + version + "\r\n" + rest;
    assert RequestTokens(text) == ["CONNECT", authority, version] by {
      assert NoSpace("CONNECT");
      ThreeTokens("CONNECT", authority, version, rest);
    }
    RejectsNonGet(text);
  }

  /** POST is dropped whatever it names. */
  lemma PostIsRejected(url: string, version: string, rest: string)
    requires IsToken(url) && IsToken(version)
    ensures ParseRequest("POST" + " " + url + " " + version + "\r\n" + rest) == Failure(UnsupportedMethod)
  {
    var text := "POST" + " " + url + " " + version + "\r\n" + rest;
    assert RequestTokens(text) == ["POST", url, version] by {
      assert NoSpace("POST");
      ThreeTokens("POST", url, version, rest);
    }
    RejectsNonGet(text);
  }

  /** A GET of an https URL is dropped. */
  lemma HttpsIsRejected(url: string, version: string, rest: string)
    requires IsToken(url) && IsToken(version)
    requires StartsWith(url, "https://")
    ensures ParseRequest("GET" + " " + url + " " + version + "\r\n" + rest) == Failure(HttpsUnsupported)
  {
    var text := "GET" + " " + url + " " + version + "\r\n" + rest;
    assert RequestTokens(text) == ["GET", url, version] by {
      assert NoSpace("GET");
      ThreeTokens("GET", url, version, rest);
    }
    ThreeTokenGet(text, url, version);
  }

  /** A GET of a relative URL (one starting with "/") is dropped. */
  lemma RelativeIsRejected(url: string, version: string, rest: string)
    requires IsToken(url) && IsToken(version)
    requires StartsWith(url, "/")
    ensures ParseRequest("GET" + " " + url + " " + version + "\r\n" + rest) == Failure(RelativeUrl)
  {
    var text := "GET" + " " + url + " " + version + "\r\n" + rest;
    assert RequestTokens(text) == ["GET", url, version] by {
      assert NoSpace("GET");
      ThreeTokens("GET", url, version, rest);
    }
    ThreeTokenGet(text, url, version);
  }

  /** Joining two whitespace-free texts gives a whitespace-free text. */
  lemma NoSpaceAppend(a: string, b: string)
    requires NoSpace(a) && NoSpace(b)
    ensures NoSpace(a + b)
  {
    forall i | 0 <= i < |a + b| ensures !IsSpace((a + b)[i]) {
      if i < |a| {
        assert (a + b)[i] == a[i];
      } else {
        assert (a + b)[i] == b[i - |a|];
      }
    }
  }

  /** The facts about an absolute http URL the parser relies on. */
  lemma HttpUrl(host: string, path: string)
    requires NoSpace(host) && NoSpace(path)
    ensures NoSpace("http://" + host + path)
    ensures !StartsWith("http://" + host + path, "https://")
    ensures !StartsWith("http://" + host + path, "/")
    ensures StripScheme("http://" + host + path) == host + path
  {
    NoSpaceAppend("http://", host);
    NoSpaceAppend("http://" + host, path);
    assert "http://" + host + path == "http://" + (host + path) by {
      Regroup("http://", host, path);
    }
    HttpScheme(host + path);
  }

  /** Concatenation regrouped to the right. */
  lemma Regroup(a: string, b: string, c: string)
    ensures a + b + c == a + (b + c)
  {
  }

  /** A URL spelled with "http://" is neither https nor relative, and strips to what follows the scheme. */
  lemma HttpScheme(rest: string)
    ensures !StartsWith("http://" + rest, "https://")
    ensures !StartsWith("http://" + rest, "/")
    ensures StripScheme("http://" + rest) == rest
  {
    var url := "http://" + rest;
    assert url[4] == ':' && url[0] == 'h';
    assert url[..7] == "http://";
    assert url[7..] == rest;
  }

  /**
   * Every well-formed `GET http://host/path version` request line, with the
   * method in any case, is accepted with exactly that host and path,
   * whatever headers follow.
   */
  lemma WellFormedGetParses(verb: string, host: string, path: string, version: string, rest: string)
    requires IsGetAnyCase(verb)
    requires NoSpace(host) && '/' !in host
    requires StartsWith(path, "/") && NoSpace(path)
    requires IsToken(version)
    ensures ParseRequest(verb + " http://" + host + path + " " + version + "\r\n" + rest)
         == Success(Request("GET", "http://" + host + path, host + path, host, path))
  {
    var url := "http://" + host + path;
    var text := verb + " http://" + host + path + " " + version + "\r\n" + rest;
    HttpUrl(host, path);
    var ws := [verb, url, version];
    Unwords3(verb, url, version);
    assert Unwords(ws) + "\r\n" + rest == text;
    assert NoSpace(verb) by {
      assert !IsSpace(verb[0]) && !IsSpace(verb[1]) && !IsSpace(verb[2]);
    }
    FirstLineWords(ws, rest);
    AcceptsIff(text);
    HostPathUnique(host, path);
  }

  /** The method is compared after upper-casing, so a lower-case "get" is accepted. */
  lemma LowerCaseGetIsAccepted(host: string, path: string, version: string, rest: string)
    requires NoSpace(host) && '/' !in host
    requires StartsWith(path, "/") && NoSpace(path)
    requires IsToken(version)
    ensures ParseRequest("get" + " http://" + host + path + " " + version + "\r\n" + rest).Success?
  {
    WellFormedGetParses("get", host, path, version, rest);
  }

  /** A slash-free host followed by a path starting with "/" splits back into that host and path. */
  lemma HostPathUnique(host: string, path: string)
    requires '/' !in host
    requires StartsWith(path, "/")
    ensures SplitHost(host + path) == (host, path)
  {
    var t := host + path;
    assert t[|host|] == '/';
    var hp := SplitHost(t);
    assert hp.0 == t[..|hp.0|] == host;
    assert hp.1 == t[|host|..] == path;
  }

  // ---------------------------------------------------------------------------
  // Cache key
  // ---------------------------------------------------------------------------

  /** A URL with "http://" and the same URL without it are stored under one key. */
  lemma KeyIgnoresScheme(x: string)
    requires !StartsWith(x, "http://")
    ensures CacheKey(StripScheme("http://" + x)) == CacheKey(StripScheme(x)) == CacheKey(x)
  {
    assert StartsWith("http://" + x, "http://");
    assert ("http://" + x)[7..] == x;
  }

  /**
   * The key is not injective: two different URLs can share one cache file,
   * e.g. "a/b_c" and "a_b/c" both become "a_b_c".
   */
  lemma KeyCollision(a: string, b: string, c: string)
    requires '/' !in a && '/' !in b && '/' !in c
    ensures a + "/" + b + "_" + c != a + "_" + b + "/" + c
    ensures CacheKey(a + "/" + b + "_" + c) == CacheKey(a + "_" + b + "/" + c) == a + "_" + b + "_" + c
  {
    var u := a + "/" + b + "_" + c;
    var v := a + "_" + b + "/" + c;
    assert u[|a|] != v[|a|];
    assert CacheKey(u) == a + "_" + b + "_" + c by {
      assert u == (a + "/" + b) + ("_" + c);
      KeyAppend(a + "/" + b, "_" + c);
      SlashKey(a, b);
      assert '/' !in "_" + c;
      KeyOfSlashFree("_" + c);
    }
    assert CacheKey(v) == a + "_" + b + "_" + c by {
      assert v == (a + "_" + b) + "/" + c;
      assert '/' !in a + "_" + b;
      SlashKey(a + "_" + b, c);
    }
  }

  /** Keys are computed piecewise: the key of a concatenation is the concatenation of the keys. */
  lemma KeyAppend(a: string, b: string)
    ensures CacheKey(a + b) == CacheKey(a) + CacheKey(b)
  {
    var l := CacheKey(a + b);
    var r := CacheKey(a) + CacheKey(b);
    forall i | 0 <= i < |l| ensures l[i] == r[i] {
      if i < |a| {
        assert (a + b)[i] == a[i];
      } else {
        assert (a + b)[i] == b[i - |a|];
      }
    }
  }

  /** A slash-free URL is its own key. */
  lemma KeyOfSlashFree(x: string)
    requires '/' !in x
    ensures CacheKey(x) == x
  {
    var k := CacheKey(x);
    forall i | 0 <= i < |x| ensures k[i] == x[i] {
      assert x[i] in x;
    }
  }

  // ---------------------------------------------------------------------------
  // Forwarded request
  // ---------------------------------------------------------------------------

  /** The first line of the forwarded request splits into GET, the path and HTTP/1.0. */
  lemma ForwardLineWords(hostname: string, path: string)
    requires IsToken(path)
    ensures RequestTokens(ForwardMessage(hostname, path)) == ["GET", path, "HTTP/1.0"]
  {
    var ws := ["GET", path, "HTTP/1.0"];
    Unwords3("GET", path, "HTTP/1.0");
    assert "GET " + path + " HTTP/1.0" == "GET" + " " + path + " " + "HTTP/1.0";
    FirstLineWords(ws, ForwardHeaders(hostname));
  }

  /** The forwarded request of an accepted request has the request line GET, path, HTTP/1.0. */
  lemma ForwardedRequestLine(text: string)
    requires ParseRequest(text).Success?
    ensures var req := ParseRequest(text).value;
      RequestTokens(ForwardMessage(req.hostname, req.path)) == ["GET", req.path, "HTTP/1.0"]
  {
    var req := ParseRequest(text).value;
    ParsedPartsAreWords(text);
    ForwardLineWords(req.hostname, req.path);
  }

  // ---------------------------------------------------------------------------
  // Cache hit, miss, store and relay
  // ---------------------------------------------------------------------------

  /** A non-empty cached entry is sent as is; the origin is not contacted and the cache is unchanged. */
  lemma CacheHitServesStoredBytes(text: string, cache: Cache.Store, origin: OriginReply)
    requires ParseRequest(text).Success?
    requires KeyOf(ParseRequest(text).value) in cache && cache[KeyOf(ParseRequest(text).value)] != []
    ensures Handle(text, cache, origin) == Session(cache, cache[KeyOf(ParseRequest(text).value)], None, ServedFromCache)
  {
  }

  /**
   * A missing entry, or an empty one (an empty file is falsy), is a miss: the
   * origin is contacted once with the forwarded request.
   */
  lemma MissContactsOrigin(text: string, cache: Cache.Store, origin: OriginReply)
    requires ParseRequest(text).Success?
    requires KeyOf(ParseRequest(text).value) !in cache || cache[KeyOf(ParseRequest(text).value)] == []
    ensures Handle(text, cache, origin).contact == Some(ContactFor(ParseRequest(text).value))
    ensures Handle(text, cache, origin).outcome != ServedFromCache
  {
  }

  /** A miss on which the origin sends nothing caches nothing and sends nothing. */
  lemma EmptyOriginCachesNothing(text: string, cache: Cache.Store, arrived: nat)
    requires ParseRequest(text).Success?
    requires KeyOf(ParseRequest(text).value) !in cache || cache[KeyOf(ParseRequest(text).value)] == []
    ensures Handle(text, cache, Delivered([], arrived))
         == Session(cache, [], Some(ContactFor(ParseRequest(text).value)), EmptyOriginResponse)
  {
  }

  /**
   * A miss on which the origin sends a response stores what the one read
   * returned under the key, changes no other entry, and relays exactly
   * those bytes: a non-empty prefix of the response of at most 4096 bytes,
   * the whole response when it is that short and had fully arrived.
   */
  lemma FetchStoresThenRelays(text: string, cache: Cache.Store, stream: seq<byte>, arrived: nat)
    requires ParseRequest(text).Success?
    requires KeyOf(ParseRequest(text).value) !in cache || cache[KeyOf(ParseRequest(text).value)] == []
    requires stream != []
    ensures var s := Handle(text, cache, Delivered(stream, arrived));
      var key := KeyOf(ParseRequest(text).value);
      && s.outcome == Relayed
      && s.contact == Some(ContactFor(ParseRequest(text).value))
      && key in s.cache && s.cache[key] == s.sent
      && (forall k :: k in cache && k != key ==> k in s.cache && s.cache[k] == cache[k])
      && s.cache.Keys == cache.Keys + {key}
      && 1 <= |s.sent| <= OriginReadSize && s.sent == stream[..|s.sent|]
      && (|stream| <= OriginReadSize && arrived >= |stream| ==> s.sent == stream)
  {
  }

  /**
   * After a request has been fetched and relayed, the same request is served
   * from the cache with the same bytes, whatever the origin would do now.
   */
  lemma RepeatIsServedFromCache(text: string, cache: Cache.Store, first: OriginReply, second: OriginReply)
    requires Handle(text, cache, first).outcome == Relayed
    ensures var s1 := Handle(text, cache, first);
      var s2 := Handle(text, s1.cache, second);
      s2 == Session(s1.cache, s1.sent, None, ServedFromCache)
  {
  }

  /**
   * End to end, first request: with an empty cache, a request line
   * `GET http://host/name ...` (the method in any case) contacts the host on
   * port 80 once, stores the whole (short) response under "host_name" and
   * relays it.
   */
  lemma FetchOnEmptyCache(text: string, verb: string, host: string, name: string, response: seq<byte>)
    requires |RequestTokens(text)| >= 2
    requires RequestTokens(text)[0] == verb && IsGetAnyCase(verb)
    requires RequestTokens(text)[1] == "http://" + host + "/" + name
    requires '/' !in host && '/' !in name
    requires 1 <= |response| <= OriginReadSize
    ensures Handle(text, map[], Delivered(response, |response|))
         == Session(map[host + "_" + name := response], response,
                    Some(Contact(host, 80, Encode(ForwardMessage(host, "/" + name)))), Relayed)
  {
    var path := "/" + name;
    var url := "http://" + host + "/" + name;
    var req := Request("GET", url, host + path, host, path);
    assert ParseRequest(text) == Success(req) by {
      ParseByTokens(text);
      UpperIsGet(verb);
      assert url == "http://" + (host + path) by {
        UrlJoin("http://", host, name);
      }
      HttpScheme(host + path);
      assert path[0] == '/';
      HostPathUnique(host, path);
    }
    assert KeyOf(req) == host + "_" + name by {
      assert host + path == host + "/" + name;
      SlashKey(host, name);
    }
    FirstFetch(text, response);
  }

  /** Regrouping the parts of "scheme host/name". */
  lemma UrlJoin(scheme: string, host: string, name: string)
    ensures scheme + host + "/" + name == scheme + (host + ("/" + name))
  {
  }

  /** On an empty cache, a short response that has fully arrived is stored and relayed whole. */
  lemma FirstFetch(text: string, response: seq<byte>)
    requires ParseRequest(text).Success?
    requires 1 <= |response| <= OriginReadSize
    ensures Handle(text, map[], Delivered(response, |response|))
         == Session(map[KeyOf(ParseRequest(text).value) := response], response,
                    Some(ContactFor(ParseRequest(text).value)), Relayed)
  {
  }

  /**
   * End to end, second request: after that first request on an empty cache,
   * the same request contacts nobody and relays the same bytes, whatever
   * the origin would now do.
   */
  lemma FetchThenServeAgain(text: string, verb: string, host: string, name: string, response: seq<byte>, later: OriginReply)
    requires |RequestTokens(text)| >= 2
    requires RequestTokens(text)[0] == verb && IsGetAnyCase(verb)
    requires RequestTokens(text)[1] == "http://" + host + "/" + name
    requires '/' !in host && '/' !in name
    requires 1 <= |response| <= OriginReadSize
    ensures Handle(text, Handle(text, map[], Delivered(response, |response|)).cache, later)
         == Session(map[host + "_" + name := response], response, None, ServedFromCache)
  {
    FetchOnEmptyCache(text, verb, host, name, response);
    RepeatIsServedFromCache(text, map[], Delivered(response, |response|), later);
  }

  /** The key of "host/name" with slash-free parts is "host_name". */
  lemma SlashKey(host: string, name: string)
    requires '/' !in host && '/' !in name
    ensures CacheKey(host + "/" + name) == host + "_" + name
  {
    KeyAppend(host + "/", name);
    KeyAppend(host, "/");
    KeyOfSlashFree(host);
    KeyOfSlashFree(name);
    assert CacheKey("/") == "_";
  }
}
