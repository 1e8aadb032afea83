# Caching HTTP proxy and static file server — Dafny model

This project models the request handling of two small Python servers.

**The caching forward proxy** is `handle_client` in `proxyserver.py`. It reads a request and takes its
first line. It accepts `GET`, in any case, of any URL that starts with neither `https://` nor
`/`. It removes a leading `http://` if present and splits the rest at the first `/` into
host and path. A rejected request gets no reply at all. It derives a cache file name by replacing
every `/` with `_`. On a cache hit it relays the cached bytes. On a miss it sends a fixed
HTTP/1.0 request to the host on port 80 and reads the reply with one `recv(4096)`, which
`FirstRead` models. It stores a non-empty
reply and relays it unchanged.

**The static file server** is `handle_client` in `webserver.py`. It needs an exact `GET` and a
target. It strips the target's leading slashes to get a file name, and uses
`nonexistentfile` when nothing is left. It answers with a 200 header (`Content-Type`,
`Content-Length`) followed by the file's bytes, or with a fixed 404 page.

Both handlers are pure functions:

- `ProxyServer.Handle(text, cache, origin)` returns a `Session`. The session holds the new
  cache, the bytes sent to the client, the origin contact (host, port and request bytes, or
  none), and the outcome: rejected with a reason, served from cache, origin failed, empty
  origin reply, or relayed.
- `WebServer.Handle(text, files, guess)` returns `NoReply`, `Found` or `NotFound`.
  `WebServer.Wire` gives the exact bytes sent for each: none, the 200 header and the file,
  or the fixed 404 page.

The cache directory and the working directory are `map<string, seq<byte>>`. The MIME-type
guess is a function parameter. The origin's behaviour is an input, `OriginReply`.

Modules:

- `Wrappers`: Option and Result.
- `Utf8`: bytes, UTF-8 encoding, and a decoder as its partner.
- `Strings`: the Python `str` operations the handlers use, with Python's semantics.
- `Cache`: the proxy's cache.
- `ProxyServer` and `ProxyProperties`: the proxy session and its properties.
- `WebServer` and `WebServerProperties`: the file server and its properties.

## Model

| member | source | states |
|---|---|---|
| Strings.FirstLine | proxyserver.py:103-104 | the request line is the prefix before the first CR LF (or the whole text): it holds no CR LF and is followed by CR LF or the end |
| Strings.FirstLineOf | webserver.py:61-62 | a line with no CR LF followed by CR LF and any headers is exactly the first element of `split('\r\n')` |
| Strings.Words | proxyserver.py:108 | `split()`: its tokens are non-empty and free of whitespace (WordsAreTokens); it finds none exactly on blank text (WordsEmpty); any leading run of any whitespace is skipped (WordsSkipRun); a token followed by any non-empty whitespace run splits off alone (WordsConsRun); tokens separated by such runs, with optional leading and trailing whitespace, come back exactly (WordsOfSpacedText) |
| Strings.WordsAreTokens | proxyserver.py:108 | `split()` yields only non-empty tokens free of whitespace |
| Strings.WordsUnwords | webserver.py:70 | round trip: splitting non-empty whitespace-free tokens joined by spaces gives back exactly those tokens |
| Strings.WordsSkipRun | proxyserver.py:108 | leading whitespace of any length and any kind (spaces, tabs, CR, Unicode spaces) yields no token and does not change the tokens that follow |
| Strings.WordsConsRun | proxyserver.py:108 | a token followed by a non-empty whitespace run of any length and kind is split off as exactly one token, with no empty token for the run |
| Strings.WordsTrailing | proxyserver.py:108 | a token followed only by trailing whitespace, possibly none, splits into that token alone, with no empty token at the end |
| Strings.WordsSpaced | webserver.py:70 | tokens each followed by a whitespace run, non-empty between tokens and possibly empty at the end, split back into exactly those tokens |
| Strings.WordsOfSpacedText | proxyserver.py:108 | round trip for `split()` in general: optional leading whitespace, then tokens separated by runs of any whitespace, then optional trailing whitespace, gives exactly the tokens |
| Strings.WordsEmpty | proxyserver.py:108-111 | `split()` finds no token exactly when the line is empty or all whitespace |
| Strings.ThreeTokens | webserver.py:61-70 | `method target version`, then CR LF and any headers, splits into exactly those three tokens |
| Strings.FirstLineWords | proxyserver.py:103-108 | a request made of tokens joined by spaces, then CR LF and anything, has exactly those tokens on its request line |
| Strings.Upper | proxyserver.py:113 | `upper()` keeps the length and maps each character on its own, `a`-`z` to `A`-`Z`; with UpperIsGet, it equals `GET` exactly for the case variants of GET |
| Strings.UpperIsGet | proxyserver.py:113-118 | `upper() == 'GET'` holds exactly for the case variants of GET (get, Get, gEt, ...) |
| Strings.SplitOnce | proxyserver.py:137 | `split('/', 1)` gives one part equal to the text when there is no `/`; otherwise the parts before and after the first `/`, and the first part has no `/` |
| Strings.LStrip | webserver.py:81 | `lstrip('/')` drops exactly the leading run of `/` and leaves a text that does not start with `/` |
| Strings.ReplaceChar | proxyserver.py:144 | `replace('/', '_')` keeps the length and maps each character to `_` if it was `/`, else to itself |
| Strings.Decimal | webserver.py:107 | `str(n)` is non-empty, all digits, with no leading zero |
| Strings.DecimalRoundTrip | webserver.py:107 | round trip: the Content-Length digits read back as the number written |
| Utf8.Encode | proxyserver.py:168 | `encode('utf-8')` takes 1 to 4 bytes per character, and ASCII text maps byte for byte |
| Utf8.DecodeEncodeChar | webserver.py:109 | decoding the front of an encoded character gives the character back and its length |
| Utf8.DecodeEncode | webserver.py:109 | round trip: UTF-8 decoding recovers every encoded string, so the wire bytes of the forwarded request and the 200 header carry exactly their text |
| Cache.Lookup | proxyserver.py:52-63 | a lookup finds bytes exactly when an entry exists under the key, and then returns that entry |
| Cache.Put | proxyserver.py:69-76 | a store adds the key, holds the new bytes under it and leaves every other entry unchanged |
| Cache.PutThenLookup | proxyserver.py:52-76 | round trip: a lookup right after storing B under a key returns B |
| Cache.PutOverwrites | proxyserver.py:73-75 | storing twice under one key keeps only the second value |
| Cache.PutKeepsOthers | proxyserver.py:73-75 | storing under one key does not change the lookup of any other key |
| ProxyServer.StripScheme | proxyserver.py:133-134 | a leading `http://` is removed and anything else is left as is |
| ProxyServer.SplitHost | proxyserver.py:136-139 | the host has no `/`; the path starts with `/`; host + path is the scheme-less URL when it contains `/`; otherwise path is `/` and host is the whole URL |
| ProxyServer.CacheKey | proxyserver.py:143-144 | the key has the URL's length, contains no `/`, and is the URL with every `/` replaced by `_` |
| ProxyServer.ForwardMessage | proxyserver.py:159-167 | the forwarded request starts with `GET path HTTP/1.0` CR LF, continues with `Host: host` CR LF, and ends with `Connection: close` and an empty line |
| ProxyServer.ParseRequest | proxyserver.py:102-139 | an accepted request has method GET, a host without `/` and a path starting with `/` |
| ProxyServer.ParseLine | proxyserver.py:103-106 | a request is dropped for having no request line exactly when its first line is empty |
| ProxyServer.ParseTokens | proxyserver.py:108-111 | a token list is dropped for length exactly when it has fewer than two tokens; an accepted one has method GET, a host without `/` and a path starting with `/` |
| ProxyServer.ParseTarget | proxyserver.py:113-139 | the upper-cased method and URL are dropped for the method exactly when it is not GET, as https exactly when the URL starts with `https://`, as relative exactly when it starts with `/`; otherwise they yield the URL, its scheme-less target and that target split into host and path |
| ProxyServer.FirstRead | proxyserver.py:171 | the single read returns a prefix of the origin's reply of at most 4096 bytes; it is empty exactly when the reply is; it is the whole reply when that is short and has arrived |
| ProxyServer.Handle | proxyserver.py:82-183 | a rejected request touches neither cache nor origin and sends nothing; the origin is contacted (on port 80) exactly on a miss; bytes are sent exactly on a hit or a relay; the cache changes only on a relay, only grows, never gains an empty entry, and holds the sent bytes under the request's key |
| ProxyProperties.RejectsEmptyFirstLine | proxyserver.py:103-106 | a request is dropped for having no request line exactly when its first line is empty |
| ProxyProperties.EmptyRequestIsRejected | proxyserver.py:94-106 | the empty request is dropped before parsing goes further |
| ProxyProperties.RejectsShortRequestLine | proxyserver.py:108-111 | a request is dropped for too few tokens exactly when its first line is non-empty but has fewer than two tokens |
| ProxyProperties.RejectsNonGet | proxyserver.py:113-120 | a request is dropped for its method exactly when it has two tokens and the first is not GET in any case |
| ProxyProperties.RejectsHttps | proxyserver.py:122-125 | a GET is dropped as https exactly when its URL starts with `https://` |
| ProxyProperties.RejectsRelative | proxyserver.py:127-130 | a GET is dropped as relative exactly when its URL starts with `/` |
| ProxyProperties.AcceptsIff | proxyserver.py:102-139 | a request is accepted exactly when it has two tokens, a GET in any case, and a URL that is neither https nor relative; it then carries that URL, stripped of `http://` and split by SplitHost |
| ProxyProperties.ParseByTokens | proxyserver.py:103-139 | once the request line has two tokens, the outcome depends only on the method and the URL; further tokens and the headers are ignored |
| ProxyProperties.ParsedPartsAreWords | proxyserver.py:108-139 | the host and path of an accepted request contain no whitespace |
| ProxyProperties.ConnectIsRejected | proxyserver.py:113-120 | `CONNECT host:port version` is dropped as an unsupported method |
| ProxyProperties.PostIsRejected | proxyserver.py:113-120 | `POST url version` is dropped as an unsupported method |
| ProxyProperties.HttpsIsRejected | proxyserver.py:122-125 | `GET https://... version` is dropped as https |
| ProxyProperties.RelativeIsRejected | proxyserver.py:127-130 | `GET /... version` is dropped as relative |
| ProxyProperties.HttpUrl | proxyserver.py:122-134 | an `http://host+path` URL is neither https nor relative and strips to host+path |
| ProxyProperties.WellFormedGetParses | proxyserver.py:102-139 | every `GET http://host/path version` line, with GET in any case and any headers after it, is accepted with exactly that host and path |
| ProxyProperties.LowerCaseGetIsAccepted | proxyserver.py:113 | a lower-case `get` is accepted |
| ProxyProperties.HostPathUnique | proxyserver.py:136-139 | a slash-free host followed by a `/`-path splits back into exactly that host and path |
| ProxyProperties.KeyIgnoresScheme | proxyserver.py:132-144 | `http://X` and a bare `X` get the same cache key when X does not itself start with `http://` |
| ProxyProperties.KeyCollision | proxyserver.py:143-144 | the key is not injective: for any slash-free a, b, c the different URLs `a/b_c` and `a_b/c` share the key `a_b_c` |
| ProxyProperties.KeyAppend | proxyserver.py:144 | the key of a concatenation is the concatenation of the keys |
| ProxyProperties.KeyOfSlashFree | proxyserver.py:144 | a URL without `/` is its own key |
| ProxyProperties.SlashKey | proxyserver.py:144 | the key of `host/name` is `host_name` |
| ProxyProperties.ForwardLineWords | proxyserver.py:159-167 | the forwarded request's first line splits into GET, the path and HTTP/1.0 |
| ProxyProperties.ForwardedRequestLine | proxyserver.py:136-167 | for every accepted request, the forwarded request line carries exactly the request's path |
| ProxyProperties.CacheHitServesStoredBytes | proxyserver.py:146-151 | with a non-empty entry under the key, the client gets exactly those bytes, the origin is not contacted and the cache is unchanged |
| ProxyProperties.MissContactsOrigin | proxyserver.py:146-168 | a missing or empty entry is a miss: the origin is contacted with the host, port 80 and the forwarded request |
| ProxyProperties.EmptyOriginCachesNothing | proxyserver.py:171-176 | on a miss with an empty origin reply nothing is cached and nothing is sent |
| ProxyProperties.FetchStoresThenRelays | proxyserver.py:171-183 | on a miss with a non-empty reply, the bytes read are stored under the key and every other entry is kept; the client gets exactly those bytes, a non-empty prefix of the reply of at most 4096 bytes |
| ProxyProperties.RepeatIsServedFromCache | proxyserver.py:146-183 | after a relayed fetch, the same request is served from the cache with the same bytes whatever the origin does |
| ProxyProperties.FirstFetch | proxyserver.py:146-183 | on an empty cache, a short reply that has fully arrived is stored whole under the key and relayed whole |
| ProxyProperties.FetchOnEmptyCache | proxyserver.py:103-183 | a request line `GET http://host/name ...` (method in any case) on an empty cache contacts host on port 80 once with the forwarded request for `/name`, stores the whole short reply under `host_name` and relays it |
| ProxyProperties.FetchThenServeAgain | proxyserver.py:146-151 | repeating that request on the resulting cache contacts nobody and relays the same bytes, whatever the origin would do |
| WebServer.FileName | webserver.py:80-86 | the file name is non-empty and never starts with `/`; a target of slashes only gives `nonexistentfile`; otherwise the target is a run of slashes followed by the name |
| WebServer.ContentType | webserver.py:92-94 | the guessed type is used when it exists and is non-empty, otherwise `application/octet-stream` |
| WebServer.OkHeader | webserver.py:104-109 | the 200 header starts with the status line `HTTP/1.1 200 OK` and ends with `Connection: close` and an empty line; its Content-Length is the body length (OkHeaderAnnouncesLength) |
| WebServer.OkResponse | webserver.py:104-112 | a 200 reply is longer than the file and ends with exactly the file's bytes, after the encoded header (OkResponseFraming) |
| WebServer.Wire | webserver.py:112-125 | the bytes passed to `sendall`: nothing for an ignored request, the 200 framing, or the 404 page, whose bytes decode back to exactly the page text; they are empty exactly when the request is ignored (SilentIffIgnored) and the same for every 404 (NotFoundIndependentOfName) |
| WebServer.Handle | webserver.py:61-125 | no reply exactly when the request line has fewer than two tokens or its first is not exactly `GET`; otherwise the reply names the file taken from the target; a found file gets the 200 framing of its bytes with the chosen type; otherwise the file is missing and gets the 404 page |
| WebServer.Respond | webserver.py:70-75 | a token list gets no reply exactly when it has fewer than two tokens or its first is not exactly `GET` |
| WebServer.Lookup | webserver.py:88-125 | a looked-up name always gets a reply naming it, and it is a 200 exactly when the file exists |
| WebServerProperties.EmptyRequestIgnored | webserver.py:61-75 | an empty request gets no reply |
| WebServerProperties.SingleTokenIgnored | webserver.py:72-75 | a request line with one token gets no reply |
| WebServerProperties.GetLooksUp | webserver.py:70-89 | a request line starting with exactly `GET` and a target is answered by looking up the file name taken from the target |
| WebServerProperties.NonGetIgnored | webserver.py:72-75 | any method other than exactly `GET` gets no reply |
| WebServerProperties.LowerCaseGetIgnored | webserver.py:73 | a lower-case `get` gets no reply (case-sensitive, unlike the proxy) |
| WebServerProperties.ServesExistingFile | webserver.py:70-112 | a request line of exactly `GET` and a target whose file exists gets 200 with the guessed type and the file's bytes |
| WebServerProperties.MissingFileGets404 | webserver.py:70-125 | a request line of exactly `GET` and a target whose file is missing gets the 404 reply for that file name |
| WebServerProperties.SlashesOnlyLookUpDefault | webserver.py:80-89 | a target of slashes only is looked up as `nonexistentfile`: 404 unless a file of that name exists |
| WebServerProperties.NotFoundIndependentOfName | webserver.py:114-125 | every 404 reply sends the same bytes, whatever was requested and whatever files exist |
| WebServerProperties.SilentIffIgnored | webserver.py:72-125 | the client receives no bytes exactly when the request is ignored: both the 200 and the 404 reply are non-empty |
| WebServerProperties.OkResponseFraming | webserver.py:98-112 | a 200 reply is the header followed by exactly the file's bytes; the header bytes decode to the header text; the Content-Length value reads back as the number of bytes after the header |
| WebServerProperties.OkHeaderAnnouncesLength | webserver.py:104-109 | the Content-Length field of the 200 header is the decimal text of the body length |

## Left out

- Sockets are not modelled: bind, listen, the accept loops (proxyserver.py:197-210, webserver.py:138-168), the origin `connect` (proxyserver.py:155-157) and the `sendall` calls (proxyserver.py:150, 168 and 183; webserver.py:112 and 125). The bytes a handler sends are its result. The proxy's origin connection is the `Contact` it records.
- The client-side `recv(4096)` / `recv(1024)` and the decoding of the request bytes are not modelled. The proxy decodes with `errors='ignore'`; the file server decodes strictly and closes on `UnicodeDecodeError`. Both handlers take the decoded request text as input. An empty read (proxyserver.py:94-96) is the empty text, which is dropped for having no request line.
- Timeouts and socket errors on the origin connection are one `Unreachable` reply. The session then ends with nothing cached and nothing sent. The generic exception handlers and the `finally` close are not modelled otherwise.
- Cache file I/O is always assumed to succeed. In the program, keys `""`, `.` and `..` name directories, so `isfile` reports a miss (proxyserver.py:58). The write (proxyserver.py:74) then fails. For a key longer than the file-name limit, `exists` returns False, so the lookup is a miss and no read is attempted. Only the write fails, so such a URL is never cached or relayed. A full disk also makes the write fail. A failed write raises before the relay, so the client gets nothing. The map-based cache does not show any of this.
- The web server's read of an existing regular file (webserver.py:98-99) is assumed to succeed. In the program, a file that exists but cannot be opened or read (permission denied, say) raises. The handler at webserver.py:127 catches it and sends nothing, where the model answers `Found`.
- Filesystem path semantics are not modelled: `os.path.join`, `exists`/`isfile`, `a//b` versus `a/b`, directories. The cache-directory creation at start-up (proxyserver.py:43-46) is left out too.
- `mimetypes.guess_type` is the `guess` parameter.
- Strings.Upper: models only ASCII `a`-`z`, not Python's full Unicode case mapping. No non-ASCII character upper-cases to `G`, `E` or `T`, so the method test against `GET` gives the same answer.
- The `len(lines) < 1` test (proxyserver.py:104) and the `len(request_lines) == 0` test (webserver.py:65) can never succeed, because `split` always returns at least one element.
- Debug `print` logging is left out.
