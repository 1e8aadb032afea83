/**
 * The handful of Python `str` operations the two request handlers use,
 * each with the meaning Python gives it: `split('\r\n')[0]`, `split()`,
 * `upper()`, `startswith`, `split('/', 1)`, `lstrip('/')`, `replace` of one
 * character, and `str(n)` of a natural number.
 */
module Strings {

  /** True when `p` is a prefix of `s` (Python's `s.startswith(p)`). */
  predicate StartsWith(s: string, p: string) {
    |p| <= |s| && s[..|p|] == p
  }

  /** True when `p` is a suffix of `s` (Python's `s.endswith(p)`). */
  predicate EndsWith(s: string, p: string) {
    |p| <= |s| && s[|s| - |p|..] == p
  }

  // ---------------------------------------------------------------------------
  // The first line: `text.split('\r\n')[0]`
  // ---------------------------------------------------------------------------

  /** True when `s` contains no CR LF pair. */
  predicate NoCrlf(s: string) {
    forall i :: 0 <= i < |s| - 1 ==> !(s[i] == '\r' && s[i + 1] == '\n')
  }

  /**
   * The text before the first CR LF, or the whole text if there is none.
   * The three ensures together pin the result down: it is a prefix, it holds
   * no CR LF, and it ends either at the end of the text or right before one.
   */
  function FirstLine(s: string): (line: string)
    ensures StartsWith(s, line)
    ensures NoCrlf(line)
    ensures line == s || (|line| + 2 <= |s| && s[|line|] == '\r' && s[|line| + 1] == '\n')
  {
    if |s| >= 2 && s[0] == '\r' && s[1] == '\n' then ""
    else if s == [] then ""
    else [s[0]] + FirstLine(s[1..])
  }

  /** A line followed by CR LF is exactly what `split('\r\n')[0]` returns, whatever follows. */
  lemma {:induction false} FirstLineOf(line: string, rest: string)
    requires NoCrlf(line)
    ensures FirstLine(line + "\r\n" + rest) == line
  {
    var s := line + "\r\n" + rest;
    if line != [] {
      assert s[1..] == line[1..] + "\r\n" + rest;
      FirstLineOf(line[1..], rest);
      assert [line[0]] + line[1..] == line;
    } else {
      assert s[..2] == "\r\n";
    }
  }

  // ---------------------------------------------------------------------------
  // Whitespace splitting: `line.split()`
  // ---------------------------------------------------------------------------

  /** The characters Python's `str.isspace` accepts, which `str.split()` splits on. */
  predicate IsSpace(c: char) {
    || ('\t' <= c <= '\r')
    || ('\U{1C}' <= c <= '\U{1F}')
    || c == ' '
    || c == '\U{85}'
    || c == '\U{A0}'
    || c == '\U{1680}'
    || ('\U{2000}' <= c <= '\U{200A}')
    || c == '\U{2028}'
    || c == '\U{2029}'
    || c == '\U{202F}'
    || c == '\U{205F}'
    || c == '\U{3000}'
  }

  /** True when `s` holds no whitespace character. */
  predicate NoSpace(s: string) {
    forall i :: 0 <= i < |s| ==> !IsSpace(s[i])
  }

  /** A token of `split()`: non-empty and free of whitespace. */
  predicate IsToken(w: string) {
    w != [] && NoSpace(w)
  }

  /** True when every character of `s` is whitespace (vacuously so for ""). */
  predicate AllSpace(s: string) {
    forall i :: 0 <= i < |s| ==> IsSpace(s[i])
  }

  /** `s` without its leading whitespace. */
  function DropSpaces(s: string): (r: string)
    ensures |r| <= |s| && r == s[|s| - |r|..]
    ensures r == [] || !IsSpace(r[0])
    ensures AllSpace(s[..|s| - |r|])
  {
    if s != [] && IsSpace(s[0]) then DropSpaces(s[1..]) else s
  }

  /** The longest prefix of `s` without whitespace. */
  function TakeWord(s: string): (w: string)
    ensures StartsWith(s, w)
    ensures NoSpace(w)
    ensures |w| == |s| || IsSpace(s[|w|])
  {
    if s == [] || IsSpace(s[0]) then [] else [s[0]] + TakeWord(s[1..])
  }

  /** Python's `s.split()`: the maximal runs of non-whitespace characters, in order. */
  function Words(s: string): seq<string>
    decreases |s|
  {
    var t := DropSpaces(s);
    if t == [] then []
    else
      var w := TakeWord(t);
      assert w != [] by {
        assert !IsSpace(t[0]);
      }
      [w] + Words(t[|w|..])
  }

  /** Every token `split()` returns is non-empty and free of whitespace. */
  lemma {:induction false} WordsAreTokens(s: string)
    ensures forall i :: 0 <= i < |Words(s)| ==> IsToken(Words(s)[i])
    decreases |s|
  {
    var t := DropSpaces(s);
    if t != [] {
      var w := TakeWord(t);
      assert !IsSpace(t[0]);
      WordsAreTokens(t[|w|..]);
      var more := Words(t[|w|..]);
      assert Words(s) == [w] + more;
      forall i | 0 <= i < |Words(s)| ensures IsToken(Words(s)[i]) {
        if i > 0 {
          assert Words(s)[i] == more[i - 1];
        }
      }
    }
  }

  /** Tokens joined by single spaces; the inverse of `Words` on whitespace-free tokens. */
  function Unwords(ws: seq<string>): string
  {
    if |ws| == 0 then ""
    else if |ws| == 1 then ws[0]
    else ws[0] + " " + Unwords(ws[1..])
  }

  /** Three tokens joined by single spaces. */
  lemma Unwords3(a: string, b: string, c: string)
    ensures Unwords([a, b, c]) == a + " " + b + " " + c
  {
    assert [a, b, c][1..] == [b, c];
    assert [b, c][1..] == [c];
    calc {
      Unwords([a, b, c]);
      a + " " + Unwords([b, c]);
      a + " " + (b + " " + c);
      a + " " + b + " " + c;
    }
  }

  /** `split()` finds no token exactly when the text is empty or all whitespace. */
  lemma WordsEmpty(s: string)
    ensures Words(s) == [] <==> AllSpace(s)
  {
    var t := DropSpaces(s);
    if t == [] {
      assert s[..|s|] == s;
    } else {
      assert s[|s| - |t|] == t[0];
    }
  }

  /** Leading whitespace does not change the tokens. */
  lemma WordsSkipSpace(c: char, s: string)
    requires IsSpace(c)
    ensures Words([c] + s) == Words(s)
  {
    assert ([c] + s)[1..] == s;
  }

  /** A word followed by whitespace is the word `TakeWord` returns. */
  lemma {:induction false} TakeWordStops(w: string, rest: string)
    requires NoSpace(w)
    requires rest == [] || IsSpace(rest[0])
    ensures TakeWord(w + rest) == w
  {
    if w != [] {
      assert (w + rest)[1..] == w[1..] + rest;
      TakeWordStops(w[1..], rest);
      assert [w[0]] + w[1..] == w;
    } else {
      assert w + rest == rest;
    }
  }

  /** A word, a space and more text split into that word followed by the tokens of the text. */
  lemma WordsCons(w: string, rest: string)
    requires w != [] && NoSpace(w)
    ensures Words(w + " " + rest) == [w] + Words(rest)
  {
    var s := w + " " + rest;
    assert s == w + (" " + rest);
    TakeWordStops(w, " " + rest);
    assert DropSpaces(s) == s;
    assert s[|w|..] == [' '] + rest;
    WordsSkipSpace(' ', rest);
  }

  /** A single whitespace-free word splits into itself. */
  lemma WordsSingle(w: string)
    requires w != [] && NoSpace(w)
    ensures Words(w) == [w]
  {
    TakeWordStops(w, []);
    assert w + [] == w;
    assert w[|w|..] == [];
  }

  /** A non-empty sequence is its head followed by its tail. */
  lemma ConsTail<T>(s: seq<T>)
    requires s != []
    ensures [s[0]] + s[1..] == s
  {
  }

  /** Round trip: splitting whitespace-free, non-empty tokens joined by spaces gives the tokens back. */
  lemma {:induction false} WordsUnwords(ws: seq<string>)
    requires forall i :: 0 <= i < |ws| ==> ws[i] != [] && NoSpace(ws[i])
    ensures Words(Unwords(ws)) == ws
    decreases |ws|
  {
    if |ws| == 1 {
      WordsSingle(ws[0]);
    } else if |ws| > 1 {
      var tail := ws[1..];
      assert Unwords(ws) == ws[0] + " " + Unwords(tail);
      assert forall i :: 0 <= i < |tail| ==> tail[i] == ws[i + 1];
      WordsCons(ws[0], Unwords(tail));
      WordsUnwords(tail);
      ConsTail(ws);
    }
  }

  /** A leading run of whitespace of any length and kind does not change the tokens. */
  lemma {:induction false} WordsSkipRun(sp: string, s: string)
    requires AllSpace(sp)
    ensures Words(sp + s) == Words(s)
    decreases |sp|
  {
    if sp == [] {
      assert sp + s == s;
    } else {
      assert sp + s == [sp[0]] + (sp[1..] + s);
      WordsSkipSpace(sp[0], sp[1..] + s);
      WordsSkipRun(sp[1..], s);
    }
  }

  /** A token followed by a non-empty run of whitespace splits off as one token, however long the run. */
  lemma WordsConsRun(w: string, sp: string, rest: string)
    requires IsToken(w) && sp != [] && AllSpace(sp)
    ensures Words(w + sp + rest) == [w] + Words(rest)
  {
    var s := w + sp + rest;
    assert s == w + (sp + rest);
    TakeWordStops(w, sp + rest);
    assert s[0] == w[0];
    assert DropSpaces(s) == s;
    assert s[|w|..] == sp + rest;
    WordsSkipRun(sp, rest);
  }

  /** Tokens each followed by its separator: `ws[0] + seps[0] + ws[1] + seps[1] + ...`. */
  function Spaced(ws: seq<string>, seps: seq<string>): string
    requires |ws| == |seps|
  {
    if ws == [] then "" else ws[0] + seps[0] + Spaced(ws[1..], seps[1..])
  }

  /**
   * True when `ws` are tokens and `seps` the whitespace runs after them:
   * non-empty between two tokens, possibly empty after the last.
   */
  predicate SpacedParts(ws: seq<string>, seps: seq<string>) {
    && |ws| == |seps|
    && (forall i :: 0 <= i < |ws| ==> IsToken(ws[i]))
    && (forall i :: 0 <= i < |seps| ==> AllSpace(seps[i]))
    && (forall i :: 0 <= i < |seps| - 1 ==> seps[i] != [])
  }

  /** The parts after the first token and its run are again well spaced. */
  lemma SpacedPartsTail(ws: seq<string>, seps: seq<string>)
    requires SpacedParts(ws, seps) && ws != []
    ensures IsToken(ws[0]) && AllSpace(seps[0])
    ensures |ws| > 1 ==> seps[0] != []
    ensures SpacedParts(ws[1..], seps[1..])
  {
    var ws', seps' := ws[1..], seps[1..];
    forall i | 0 <= i < |ws'| ensures IsToken(ws'[i]) {
      assert ws'[i] == ws[i + 1];
    }
    forall i | 0 <= i < |seps'| ensures AllSpace(seps'[i]) {
      assert seps'[i] == seps[i + 1];
    }
    forall i | 0 <= i < |seps'| - 1 ensures seps'[i] != [] {
      assert seps'[i] == seps[i + 1];
    }
  }

  /**
   * `split()` on tokens separated by non-empty runs of any whitespace, the
   * last one optionally followed by trailing whitespace, gives the tokens back.
   */
  lemma {:induction false} WordsSpaced(ws: seq<string>, seps: seq<string>)
    requires SpacedParts(ws, seps)
    ensures Words(Spaced(ws, seps)) == ws
    decreases |ws|
  {
    if ws != [] {
      SpacedPartsTail(ws, seps);
      if |ws| == 1 {
        assert Spaced(ws, seps) == ws[0] + seps[0] by {
          assert Spaced(ws, seps) == ws[0] + seps[0] + "";
        }
        WordsTrailing(ws[0], seps[0]);
      } else {
        var tail := Spaced(ws[1..], seps[1..]);
        assert Words(Spaced(ws, seps)) == [ws[0]] + Words(tail) by {
          WordsConsRun(ws[0], seps[0], tail);
        }
        assert Words(tail) == ws[1..] by {
          WordsSpaced(ws[1..], seps[1..]);
        }
        ConsTail(ws);
      }
    }
  }

  /** A token followed only by whitespace (possibly none) splits into that token alone. */
  lemma WordsTrailing(w: string, sp: string)
    requires IsToken(w) && AllSpace(sp)
    ensures Words(w + sp) == [w]
  {
    if sp == [] {
      assert w + sp == w;
      WordsSingle(w);
    } else {
      WordsConsRun(w, sp, "");
      assert w + sp + "" == w + sp;
      assert Words("") == [];
    }
  }

  /** Leading whitespace, then tokens separated by runs of whitespace, splits into exactly those tokens. */
  lemma WordsOfSpacedText(lead: string, ws: seq<string>, seps: seq<string>)
    requires AllSpace(lead)
    requires SpacedParts(ws, seps)
    ensures Words(lead + Spaced(ws, seps)) == ws
  {
    WordsSkipRun(lead, Spaced(ws, seps));
    WordsSpaced(ws, seps);
  }

  /** Whitespace-free text holds no CR LF, since CR is whitespace. */
  lemma NoSpaceNoCrlf(s: string)
    requires NoSpace(s)
    ensures NoCrlf(s)
  {
    forall i | 0 <= i < |s| - 1
      ensures !(s[i] == '\r' && s[i + 1] == '\n')
    {
      assert !IsSpace(s[i]);
    }
  }

  /** Joining whitespace-free tokens by spaces makes a text with no whitespace but the separators. */
  lemma {:induction false} UnwordsNoCrlf(ws: seq<string>)
    requires forall i :: 0 <= i < |ws| ==> NoSpace(ws[i])
    ensures NoCrlf(Unwords(ws))
    decreases |ws|
  {
    if |ws| == 1 {
      NoSpaceNoCrlf(ws[0]);
    } else if |ws| > 1 {
      var w := ws[0];
      var rest := Unwords(ws[1..]);
      UnwordsNoCrlf(ws[1..]);
      var s := w + " " + rest;
      forall i | 0 <= i < |s| - 1
        ensures !(s[i] == '\r' && s[i + 1] == '\n')
      {
        if i < |w| {
          assert !IsSpace(w[i]);
        } else if i > |w| {
          assert s[i] == rest[i - |w| - 1] && s[i + 1] == rest[i - |w|];
        }
      }
    }
  }

  /** The whitespace-separated tokens of a request's first line. */
  function RequestTokens(text: string): seq<string> {
    Words(FirstLine(text))
  }

  /** The request line of `Unwords(ws)` followed by CR LF and anything else splits into `ws`. */
  lemma FirstLineWords(ws: seq<string>, rest: string)
    requires forall i :: 0 <= i < |ws| ==> ws[i] != [] && NoSpace(ws[i])
    ensures RequestTokens(Unwords(ws) + "\r\n" + rest) == ws
  {
    UnwordsNoCrlf(ws);
    FirstLineOf(Unwords(ws), rest);
    WordsUnwords(ws);
  }

  /** A request line of three tokens, followed by CR LF and anything else, splits into those tokens. */
  lemma ThreeTokens(a: string, b: string, c: string, rest: string)
    requires IsToken(a) && IsToken(b) && IsToken(c)
    ensures RequestTokens(a + " " + b + " " + c + "\r\n" + rest) == [a, b, c]
  {
    Unwords3(a, b, c);
    FirstLineWords([a, b, c], rest);
  }

  // ---------------------------------------------------------------------------
  // Case mapping: `s.upper()`
  // ---------------------------------------------------------------------------

  /** Upper-case mapping of one character, for the ASCII letters. */
  function UpperChar(c: char): char
  {
    if 'a' <= c <= 'z' then (c as int - 32) as char else c
  }

  /** `s.upper()`, character by character. */
  function Upper(s: string): (r: string)
    ensures |r| == |s|
    ensures forall i :: 0 <= i < |s| ==> r[i] == UpperChar(s[i])
  {
    if s == [] then [] else [UpperChar(s[0])] + Upper(s[1..])
  }

  /** The spellings of GET in any mix of cases. */
  predicate IsGetAnyCase(m: string) {
    && |m| == 3
    && (m[0] == 'G' || m[0] == 'g')
    && (m[1] == 'E' || m[1] == 'e')
    && (m[2] == 'T' || m[2] == 't')
  }

  /** `m.upper() == "GET"` holds exactly for the eight case variants of GET. */
  lemma UpperIsGet(m: string)
    ensures Upper(m) == "GET" <==> IsGetAnyCase(m)
  {
    if IsGetAnyCase(m) {
      assert Upper(m)[0] == 'G' && Upper(m)[1] == 'E' && Upper(m)[2] == 'T';
    }
    if Upper(m) == "GET" {
      assert UpperChar(m[0]) == 'G' && UpperChar(m[1]) == 'E' && UpperChar(m[2]) == 'T';
    }
  }

  // ---------------------------------------------------------------------------
  // `s.split(sep, 1)`, `s.lstrip(c)` and `s.replace(a, b)` for single characters
  // ---------------------------------------------------------------------------

  /**
   * `s.split(sep, 1)`: one part when `sep` does not occur, otherwise the text
   * before and after its first occurrence.
   */
  function SplitOnce(s: string, sep: char): (parts: seq<string>)
    ensures 1 <= |parts| <= 2
    ensures sep !in parts[0]
    ensures |parts| == 1 <==> sep !in s
    ensures |parts| == 1 ==> parts[0] == s
    ensures |parts| == 2 ==> parts[0] + [sep] + parts[1] == s
  {
    if s == [] then [[]]
    else if s[0] == sep then [[], s[1..]]
    else
      var p := SplitOnce(s[1..], sep);
      assert s == [s[0]] + s[1..];
      [[s[0]] + p[0]] + p[1..]
  }

  /** `s.lstrip(c)`: `s` without its leading run of `c`. */
  function LStrip(s: string, c: char): (r: string)
    ensures |r| <= |s| && r == s[|s| - |r|..]
    ensures r == [] || r[0] != c
    ensures forall i :: 0 <= i < |s| - |r| ==> s[i] == c
  {
    if s != [] && s[0] == c then LStrip(s[1..], c) else s
  }

  /** `s.replace(a, b)` for single characters. */
  function ReplaceChar(s: string, a: char, b: char): (r: string)
    ensures |r| == |s|
    ensures forall i :: 0 <= i < |s| ==> r[i] == if s[i] == a then b else s[i]
  {
    if s == [] then [] else [if s[0] == a then b else s[0]] + ReplaceChar(s[1..], a, b)
  }

  // ---------------------------------------------------------------------------
  // Decimal text of a natural number: `str(n)`, and its reading back
  // ---------------------------------------------------------------------------

  predicate IsDigit(c: char) {
    '0' <= c <= '9'
  }

  function DigitChar(d: nat): (c: char)
    requires d < 10
    ensures IsDigit(c) && c as int - '0' as int == d
  {
    (d + '0' as int) as char
  }

  /** `str(n)`: decimal digits with no leading zero (except "0" itself). */
  function Decimal(n: nat): (s: string)
    ensures 1 <= |s|
    ensures forall i :: 0 <= i < |s| ==> IsDigit(s[i])
    ensures |s| > 1 ==> s[0] != '0'
  {
    if n < 10 then [DigitChar(n)] else Decimal(n / 10) + [DigitChar(n % 10)]
  }

  /** The number a string of decimal digits denotes. */
  function DecimalValue(s: string): nat
    requires forall i :: 0 <= i < |s| ==> IsDigit(s[i])
  {
    if s == [] then 0
    else
      assert IsDigit(s[|s| - 1]);
      DecimalValue(s[..|s| - 1]) * 10 + (s[|s| - 1] as int - '0' as int)
  }

  /** Round trip: reading back the decimal text of `n` gives `n`. */
  lemma {:induction false} DecimalRoundTrip(n: nat)
    ensures DecimalValue(Decimal(n)) == n
  {
    if n >= 10 {
      var s := Decimal(n);
      assert s[..|s| - 1] == Decimal(n / 10);
      DecimalRoundTrip(n / 10);
    }
  }
}
