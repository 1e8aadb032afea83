/**
 * One request of the static file server (`handle_client` of webserver.py):
 * the request line must be an exact `GET` with a target, the target minus
 * its leading slashes names a file in the working directory, and the reply
 * is that file framed by a 200 header or a fixed 404 page. The directory is
 * a map from relative file name to contents, and the MIME-type guess is a
 * parameter.
 */
module WebServer {
  import opened Wrappers
  import opened Utf8
  import opened Strings

  /** The name looked up when the target is only slashes (there is no index file). */
  const DefaultName: string := "nonexistentfile"

  /** The content type sent when no type is guessed for the file name. */
  const DefaultType: string := "application/octet-stream"

  /** The complete reply for a missing file. */
  const NotFoundText: string :=
    "HTTP/1.1 404 Not Found\r\n"
    + "Content-Type: text/html\r\n"
    + "Connection: close\r\n\r\n"
    + "<html><body><h1>404 Not Found</h1></body></html>"

  /** The regular files of the working directory: relative name to contents. */
  type Files = map<string, seq<byte>>

  /** What the server sends back, if anything. */
  datatype Reply =
    | NoReply                                                     // request ignored
    | Found(name: string, contentType: string, bytes: seq<byte>)  // 200 with the file
    | NotFound(name: string)                                      // fixed 404 page

  /** True when `s` consists of slashes only. */
  predicate AllSlashes(s: string) {
    forall i :: 0 <= i < |s| ==> s[i] == '/'
  }

  /**
   * The file name for a request target: the target without its leading
   * slashes, or `DefaultName` when nothing else is left.
   */
  function FileName(target: string): (name: string)
    ensures name != [] && name[0] != '/'
    ensures AllSlashes(target) ==> name == DefaultName
    ensures !AllSlashes(target) ==> EndsWith(target, name) && AllSlashes(target[..|target| - |name|])
  {
    var stripped := LStrip(target, '/');
    if stripped == "" then
      assert target[..|target|] == target;
      DefaultName
    else
      assert target[|target| - |stripped|] == stripped[0];
      stripped
  }

  /** The guessed type, unless there is none or it is empty, in which case the default. */
  function ContentType(guess: Option<string>): (ct: string)
    ensures ct != []
    ensures guess.Some? && guess.value != [] ==> ct == guess.value
    ensures guess.None? || guess.value == [] ==> ct == DefaultType
  {
    if guess.Some? && guess.value != "" then guess.value else DefaultType
  }

  /** The header of a 200 reply announcing `length` body bytes. */
  function OkHeader(contentType: string, length: nat): (h: string)
    ensures StartsWith(h, "HTTP/1.1 200 OK\r\n")
    ensures EndsWith(h, "Connection: close\r\n\r\n")
  {
    "HTTP/1.1 200 OK\r\n"
    + "Content-Type: " + contentType + "\r\n"
    + "Content-Length: " + Decimal(length) + "\r\n"
    + "Connection: close\r\n\r\n"
  }

  /** A 200 reply: the encoded header followed by the file's bytes. */
  function OkResponse(contentType: string, data: seq<byte>): (r: seq<byte>)
    ensures |r| > |data| && r[|r| - |data|..] == data
  {
    Encode(OkHeader(contentType, |data|)) + data
  }

  /** The bytes sent to the client for a reply. */
  function Wire(r: Reply): (w: seq<byte>)
    ensures r.NotFound? ==> Decode(w) == Some(NotFoundText)
  {
    DecodeEncode(NotFoundText);
    match r
    case NoReply => []
    case Found(_, _, bytes) => bytes
    case NotFound(_) => Encode(NotFoundText)
  }

  /** Handles one request; `guess` stands for the MIME-type guess from the file name. */
  function Handle(text: string, files: Files, guess: string -> Option<string>): (r: Reply)
    ensures r.NoReply? <==> |RequestTokens(text)| < 2 || RequestTokens(text)[0] != "GET"
    ensures !r.NoReply? ==> r.name == FileName(RequestTokens(text)[1])
    ensures r.Found? ==> r.name in files && r.bytes == OkResponse(r.contentType, files[r.name])
    ensures r.Found? ==> r.contentType == ContentType(guess(r.name))
    ensures r.NotFound? ==> r.name !in files
  {
    Respond(RequestTokens(text), files, guess)
  }

  /** The reply to a request line split into `tokens`. */
  function Respond(tokens: seq<string>, files: Files, guess: string -> Option<string>): (r: Reply)
    ensures r.NoReply? <==> |tokens| < 2 || tokens[0] != "GET"
  {
    if |tokens| < 2 || tokens[0] != "GET" then NoReply
    else Lookup(FileName(tokens[1]), files, guess)
  }

  /** The reply for the file `name`: 200 with its bytes when it exists, the 404 page otherwise. */
  function Lookup(name: string, files: Files, guess: string -> Option<string>): (r: Reply)
    ensures !r.NoReply? && r.name == name
    ensures r.Found? <==> name in files
  {
    if name in files then
      var ct := ContentType(guess(name));
      Found(name, ct, OkResponse(ct, files[name]))
    else NotFound(name)
  }
}
