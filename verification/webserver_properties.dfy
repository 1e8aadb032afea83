/**
 * Properties of the static file server: which requests are ignored, which
 * file a target names, and how the 200 and 404 replies are framed.
 */
module WebServerProperties {
  import opened Wrappers
  import opened Utf8
  import opened Strings
  import opened WebServer

  /** An empty request has an empty first line, hence no tokens, hence no reply. */
  lemma EmptyRequestIgnored(files: Files, guess: string -> Option<string>)
    ensures Handle("", files, guess) == NoReply
  {
    assert FirstLine("") == "";
    WordsEmpty("");
  }

  /** A request line with a single token gets no reply. */
  lemma SingleTokenIgnored(token: string, rest: string, files: Files, guess: string -> Option<string>)
    requires IsToken(token)
    ensures Handle(token + "\r\n" + rest, files, guess) == NoReply
  {
    assert Unwords([token]) == token;
    FirstLineWords([token], rest);
  }

  /** A request line of GET and a target gets the reply for that target's file name. */
  lemma GetLooksUp(text: string, target: string, files: Files, guess: string -> Option<string>)
    requires |RequestTokens(text)| >= 2
    requires RequestTokens(text)[0] == "GET" && RequestTokens(text)[1] == target
    ensures Handle(text, files, guess) == Lookup(FileName(target), files, guess)
  {
  }

  /** Any method other than exactly "GET" gets no reply; the comparison is case-sensitive. */
  lemma NonGetIgnored(verb: string, target: string, version: string, rest: string, files: Files, guess: string -> Option<string>)
    requires IsToken(verb) && verb != "GET"
    requires IsToken(target)
    requires IsToken(version)
    ensures Handle(verb + " " + target + " " + version + "\r\n" + rest, files, guess) == NoReply
  {
    ThreeTokens(verb, target, version, rest);
  }

  /** Unlike the proxy, the file server ignores a lower-case "get". */
  lemma LowerCaseGetIgnored(target: string, version: string, rest: string, files: Files, guess: string -> Option<string>)
    requires IsToken(target)
    requires IsToken(version)
    ensures Handle("get" + " " + target + " " + version + "\r\n" + rest, files, guess) == NoReply
  {
    assert "get"[0] != "GET"[0];
    NonGetIgnored("get", target, version, rest, files, guess);
  }

  /** A GET of a target whose file exists is answered with 200, the guessed type and the file's bytes. */
  lemma ServesExistingFile(text: string, target: string, files: Files, guess: string -> Option<string>)
    requires |RequestTokens(text)| >= 2
    requires RequestTokens(text)[0] == "GET" && RequestTokens(text)[1] == target
    requires FileName(target) in files
    ensures var name := FileName(target);
      Handle(text, files, guess)
        == Found(name, ContentType(guess(name)), OkResponse(ContentType(guess(name)), files[name]))
  {
    GetLooksUp(text, target, files, guess);
  }

  /** A GET of a target whose file is missing is answered with the 404 page. */
  lemma MissingFileGets404(text: string, target: string, files: Files, guess: string -> Option<string>)
    requires |RequestTokens(text)| >= 2
    requires RequestTokens(text)[0] == "GET" && RequestTokens(text)[1] == target
    requires FileName(target) !in files
    ensures Handle(text, files, guess) == NotFound(FileName(target))
  {
    GetLooksUp(text, target, files, guess);
  }

  /**
   * A target of slashes only, "/" included, is looked up as "nonexistentfile":
   * a 404 unless a file of that very name exists.
   */
  lemma SlashesOnlyLookUpDefault(target: string, version: string, rest: string, files: Files, guess: string -> Option<string>)
    requires target != [] && AllSlashes(target)
    requires IsToken(version)
    ensures var r := Handle("GET" + " " + target + " " + version + "\r\n" + rest, files, guess);
      && (DefaultName !in files ==> r == NotFound(DefaultName))
      && (DefaultName in files ==> r.Found? && r.name == DefaultName)
  {
    assert NoSpace(target) by {
      forall i | 0 <= i < |target| ensures !IsSpace(target[i]) {
        assert target[i] == '/';
      }
    }
    var text := "GET" + " " + target + " " + version + "\r\n" + rest;
    assert RequestTokens(text) == ["GET", target, version] by {
      assert NoSpace("GET");
      ThreeTokens("GET", target, version, rest);
    }
    GetLooksUp(text, target, files, guess);
  }

  /** The 404 reply is the same bytes whatever was requested and whatever the directory holds. */
  lemma NotFoundIndependentOfName(text1: string, text2: string, files1: Files, files2: Files,
                                  guess1: string -> Option<string>, guess2: string -> Option<string>)
    requires Handle(text1, files1, guess1).NotFound? && Handle(text2, files2, guess2).NotFound?
    ensures Wire(Handle(text1, files1, guess1)) == Wire(Handle(text2, files2, guess2))
  {
  }

  /** The client receives nothing exactly when the request is ignored. */
  lemma SilentIffIgnored(text: string, files: Files, guess: string -> Option<string>)
    ensures var r := Handle(text, files, guess);
      r.NoReply? <==> Wire(r) == []
  {
    var r := Handle(text, files, guess);
    if r.NotFound? {
      assert |Encode(NotFoundText)| >= |NotFoundText| > 0;
    } else if r.Found? {
      var h := OkHeader(r.contentType, |files[r.name]|);
      assert |Encode(h)| >= |h| > 0;
    }
  }

  /**
   * A 200 reply is the header followed by exactly the file's bytes; the
   * header bytes decode back to the header text, and its Content-Length
   * value reads back as the number of bytes that follow it.
   */
  lemma OkResponseFraming(contentType: string, data: seq<byte>)
    ensures var h := Encode(OkHeader(contentType, |data|));
      var r := OkResponse(contentType, data);
      && r[..|h|] == h
      && r[|h|..] == data
      && Decode(r[..|h|]) == Some(OkHeader(contentType, |data|))
      && DecimalValue(Decimal(|data|)) == |r| - |h|
  {
    var h := Encode(OkHeader(contentType, |data|));
    var r := OkResponse(contentType, data);
    assert r[..|h|] == h;
    DecodeEncode(OkHeader(contentType, |data|));
    DecimalRoundTrip(|data|);
  }

  /** The Content-Length field of a 200 header is the decimal text of the body length. */
  lemma OkHeaderAnnouncesLength(contentType: string, length: nat)
    ensures var h := OkHeader(contentType, length);
      var before := "HTTP/1.1 200 OK\r\n" + "Content-Type: " + contentType + "\r\n" + "Content-Length: ";
      && StartsWith(h, before)
      && StartsWith(h[|before|..], Decimal(length) + "\r\n")
      && DecimalValue(Decimal(length)) == length
  {
    var before := "HTTP/1.1 200 OK\r\n" + "Content-Type: " + contentType + "\r\n" + "Content-Length: ";
    var after := Decimal(length) + "\r\n" + "Connection: close\r\n\r\n";
    var h := OkHeader(contentType, length);
    assert h == before + after;
    assert h[|before|..] == after;
    DecimalRoundTrip(length);
  }
}
