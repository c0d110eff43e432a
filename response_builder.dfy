/** Sniffing a fetched body: its content type from the first 500 bytes, and
    its text encoding from the header, the XML declaration, a detector and
    UTF-8, each vetted by trying to decode the first 2000 bytes. */
module ResponseBuilder {
  import opened Wrappers
  import opened Bytes
  import opened Text
  import opened Response

  /** An ASCII literal as bytes. */
  function Ascii(s: string): (r: seq<byte>)
    requires forall i :: 0 <= i < |s| ==> s[i] < 128 as char
    ensures |r| == |s| && forall i :: 0 <= i < |s| ==> r[i] == s[i] as int
  {
    seq(|s|, i requires 0 <= i < |s| => s[i] as int)
  }

  /** The whitespace `bytes.strip()` removes: space, `\t`, `\n`, `\r`,
      `\x0b` and `\x0c`. */
  predicate IsSpaceByte(b: byte) {
    b == 32 || 9 <= b <= 13
  }

  function StripLeftBytes(s: seq<byte>): (r: seq<byte>)
    ensures |r| <= |s| && r == s[|s| - |r|..]
    ensures r != [] ==> !IsSpaceByte(r[0])
  {
    if s != [] && IsSpaceByte(s[0]) then StripLeftBytes(s[1..]) else s
  }

  function StripRightBytes(s: seq<byte>): (r: seq<byte>)
    ensures |r| <= |s| && r == s[..|r|]
    ensures r != [] ==> !IsSpaceByte(r[|r| - 1])
  {
    if s != [] && IsSpaceByte(s[|s| - 1]) then StripRightBytes(s[..|s| - 1]) else s
  }

  /** `bytes.strip()`. */
  function StripBytes(s: seq<byte>): seq<byte> {
    StripRightBytes(StripLeftBytes(s))
  }

  function LowerByte(b: byte): byte {
    if 65 <= b <= 90 then b + 32 else b
  }

  /** `bytes.lower()`: only ASCII capitals change. */
  function LowerBytes(s: seq<byte>): (r: seq<byte>)
    ensures |r| == |s| && forall i :: 0 <= i < |s| ==> r[i] == LowerByte(s[i])
  {
    seq(|s|, i requires 0 <= i < |s| => LowerByte(s[i]))
  }

  const JsonObject: seq<byte> := Ascii("{")
  const JsonArray: seq<byte> := Ascii("[")
  const HtmlDoctype: seq<byte> := Ascii("<!doctype html>")
  const XmlDeclaration: seq<byte> := Ascii("<?xml")

  /** The alternatives of `RE_CONTENT_XML` and `RE_CONTENT_HTML`; the head is
      lower-cased already, so each search is a substring test. */
  const XmlMarkers: seq<seq<byte>> :=
    [XmlDeclaration, Ascii("<xml"), Ascii("<rss"), Ascii("<atom"), Ascii("<feed"), Ascii("<channel")]
  const HtmlMarkers: seq<seq<byte>> :=
    [HtmlDoctype, Ascii("<html"), Ascii("<head"), Ascii("<body")]

  predicate ContainsAny(head: seq<byte>, markers: seq<seq<byte>>) {
    exists i :: 0 <= i < |markers| && Contains(head, markers[i])
  }

  /** The bytes the sniffer looks at: the first 500, stripped, lower-cased. */
  function Head(content: seq<byte>): seq<byte> {
    LowerBytes(StripBytes(content[..if |content| < 500 then |content| else 500]))
  }

  predicate JsonStart(head: seq<byte>) {
    StartsWith(head, JsonObject) || StartsWith(head, JsonArray)
  }

  /** The decision on a head: a JSON opening bracket, then the HTML doctype,
      then the XML declaration at the start; then an XML marker anywhere
      before an HTML marker anywhere; XML when nothing matched. */
  function Classify(head: seq<byte>): (r: FeedContentType)
    ensures r != OTHER
    ensures r == JSON <==> JsonStart(head)
    ensures !JsonStart(head) && StartsWith(head, HtmlDoctype) ==> r == HTML
    ensures (!JsonStart(head) && !StartsWith(head, HtmlDoctype) && ContainsAny(head, XmlMarkers)) ==> r == XML
    ensures r == HTML <==>
      (!JsonStart(head) && (StartsWith(head, HtmlDoctype) || (!ContainsAny(head, XmlMarkers) && ContainsAny(head, HtmlMarkers))))
  {
    if JsonStart(head) then JSON
    else if StartsWith(head, HtmlDoctype) then HTML
    else if StartsWith(head, XmlDeclaration) then
      ContainsAt(head, XmlMarkers[0], 0);
      XML
    else if ContainsAny(head, XmlMarkers) then XML
    else if ContainsAny(head, HtmlMarkers) then HTML
    else XML
  }

  /** `detect_content_type(content)`. */
  function DetectContentType(content: seq<byte>): FeedContentType {
    Classify(Head(content))
  }

  // ---- case does not matter -------------------------------------------------

  lemma {:induction false} LowerByteIdempotent(b: byte)
    ensures LowerByte(LowerByte(b)) == LowerByte(b)
    ensures IsSpaceByte(LowerByte(b)) <==> IsSpaceByte(b)
  {
  }

  lemma {:induction false} StripLeftLower(s: seq<byte>)
    ensures StripLeftBytes(LowerBytes(s)) == LowerBytes(StripLeftBytes(s))
  {
    if s != [] {
      LowerByteIdempotent(s[0]);
      assert LowerBytes(s)[1..] == LowerBytes(s[1..]);
      StripLeftLower(s[1..]);
    }
  }

  lemma {:induction false} StripRightLower(s: seq<byte>)
    ensures StripRightBytes(LowerBytes(s)) == LowerBytes(StripRightBytes(s))
  {
    if s != [] {
      LowerByteIdempotent(s[|s| - 1]);
      assert LowerBytes(s)[..|s| - 1] == LowerBytes(s[..|s| - 1]);
      StripRightLower(s[..|s| - 1]);
    }
  }

  lemma {:induction false} LowerIdempotent(s: seq<byte>)
    ensures LowerBytes(LowerBytes(s)) == LowerBytes(s)
  {
    forall i | 0 <= i < |s| ensures LowerBytes(LowerBytes(s))[i] == LowerBytes(s)[i] {
      LowerByteIdempotent(s[i]);
    }
  }

  /** Lower-casing the body first changes nothing: the sniffer is
      case-insensitive. */
  lemma {:induction false} CaseInsensitive(content: seq<byte>)
    ensures Head(LowerBytes(content)) == Head(content)
    ensures DetectContentType(LowerBytes(content)) == DetectContentType(content)
  {
    var n := if |content| < 500 then |content| else 500;
    var t := content[..n];
    assert LowerBytes(content)[..n] == LowerBytes(t);
    StripLeftLower(t);
    StripRightLower(StripLeftBytes(t));
    LowerIdempotent(StripBytes(t));
  }

  /** Bytes after the first 500 never matter. */
  lemma {:induction false} OnlyHeadMatters(content: seq<byte>, tail: seq<byte>)
    requires |content| >= 500
    ensures DetectContentType(content + tail) == DetectContentType(content)
  {
    assert (content + tail)[..500] == content[..500];
  }

  /** Lower-casing ASCII bytes is lower-casing the text they spell. */
  lemma {:induction false} LowerAscii(s: string)
    requires forall i :: 0 <= i < |s| ==> s[i] < 128 as char
    ensures forall i :: 0 <= i < |s| ==> Lower(s)[i] < 128 as char
    ensures LowerBytes(Ascii(s)) == Ascii(Lower(s))
  {
    var a, b := LowerBytes(Ascii(s)), Ascii(Lower(s));
    forall i | 0 <= i < |s|
      ensures a[i] == b[i]
    {
      LowerCharCode(s[i]);
    }
  }

  lemma {:induction false} LowerCharCode(c: char)
    requires c < 128 as char
    ensures LowerChar(c) < 128 as char && LowerByte(c as int) == LowerChar(c) as int
  {
  }

  /** A short body with no surrounding whitespace is its own head, up to
      case. */
  lemma {:induction false} ShortHead(content: seq<byte>)
    requires 0 < |content| <= 500
    requires !IsSpaceByte(content[0]) && !IsSpaceByte(content[|content| - 1])
    ensures Head(content) == LowerBytes(content)
  {
    assert content[..|content|] == content;
  }

  /** The first doctest: any spelling of the doctype whose lower case is
      `<!doctype html>`, such as `<!DOCTYPE HTML>`, is HTML. */
  lemma {:induction false} DetectHtmlDoctest(content: seq<byte>)
    requires LowerBytes(content) == HtmlDoctype
    ensures DetectContentType(content) == HTML
  {
    CaseInsensitive(content);
    var h := HtmlDoctype;
    assert h[0] == 60 && h[14] == 62;
    ShortHead(h);
    LowerIdempotent(content);
    ClassifyDoctype();
  }

  lemma {:induction false} ClassifyDoctype()
    ensures Classify(HtmlDoctype) == HTML
  {
    var h := HtmlDoctype;
    assert h[..15] == h;
    assert JsonObject[0] == 123 && JsonArray[0] == 91;
    assert h[..1][0] == 60;
  }

  /** The second doctest: a JSON object is JSON. */
  lemma {:induction false} DetectJsonDoctest()
    ensures DetectContentType(Ascii("{\"hello\": \"world\"}")) == JSON
  {
    var json := Ascii("{\"hello\": \"world\"}");
    ShortHead(json);
    assert Head(json)[..1] == JsonObject;
  }

  // ---- encoding -------------------------------------------------------------

  /** The codec registry and the decoders, which are library code: `lookup`
      is `codecs.lookup(e).name` (None for `LookupError`), `decodes(n, b)`
      whether the incremental decoder of `n` accepts `b` without error. */
  datatype CodecRegistry = CodecRegistry(lookup: string -> Option<string>, decodes: (string, seq<byte>) -> bool)

  /** What `check` answers for an encoding on `content`, cached or not. */
  function CheckOutcome(codecs: CodecRegistry, content: seq<byte>, encoding: Option<string>): (r: Option<string>)
    ensures r.Some? ==> encoding.Some? && encoding.value != "" && codecs.lookup(encoding.value) == r
    ensures r.Some? ==> codecs.decodes(r.value, content)
  {
    if encoding.None? || encoding.value == "" then None
    else
      match codecs.lookup(encoding.value)
      case None => None
      case Some(n) => if codecs.decodes(n, content) then Some(n) else None
  }

  /** The cache after `check(encoding)`: the verdict for the normalized
      name is recorded, unless the encoding was empty or unknown. */
  function Remember(codecs: CodecRegistry, content: seq<byte>, cache: map<string, bool>, encoding: Option<string>): map<string, bool> {
    if encoding.None? || encoding.value == "" then cache
    else
      match codecs.lookup(encoding.value)
      case None => cache
      case Some(n) => cache[n := codecs.decodes(n, content)]
  }

  /** `EncodingChecker`: a decoding test memoized per normalized name. */
  class EncodingChecker {
    const content: seq<byte>
    const codecs: CodecRegistry
    var encodings: map<string, bool>

    /** Every cached verdict is the decoder's. */
    predicate Valid()
      reads this
    {
      forall n :: n in encodings ==> encodings[n] == codecs.decodes(n, content)
    }

    constructor (codecs: CodecRegistry, content: seq<byte>)
      ensures this.content == content && this.codecs == codecs
      ensures encodings == map[] && Valid()
    {
      this.content := content;
      this.codecs := codecs;
      encodings := map[];
    }

    /** `check(encoding)`: the normalized name when it decodes the content,
        whether the verdict was cached or not; the verdict is then cached
        under that name. */
    method Check(encoding: Option<string>) returns (r: Option<string>)
      requires Valid()
      modifies this
      ensures Valid() && r == CheckOutcome(codecs, content, encoding)
      ensures encodings == Remember(codecs, content, old(encodings), encoding)
    {
      if encoding.None? || encoding.value == "" {
        return None;
      }
      var name := codecs.lookup(encoding.value);
      if name.None? {
        return None;
      }
      var n := name.value;
      if n in encodings {
        assert encodings[n := codecs.decodes(n, content)] == encodings;
        return if encodings[n] then Some(n) else None;
      }
      var ok := codecs.decodes(n, content);
      encodings := encodings[n := ok];
      return if ok then Some(n) else None;
    }
  }

  /** The detectors, which are library code: the `charset` parameter of a
      Content-Type header (`cgi.parse_header`), the encoding named by an XML
      declaration (`RE_XML_ENCODING`), and cchardet's guess, which may be
      no encoding at all, with whether its confidence reached 0.5. */
  datatype Detectors = Detectors(
    charset: string -> Option<string>,
    xmlEncoding: seq<byte> -> Option<string>,
    chardet: seq<byte> -> (Option<string>, bool))

  /** `detect_content_encoding` raised: cchardet guessed no encoding, and
      `None.lower()` raises `AttributeError`. */
  datatype DetectError = NoGuess

  /** `s.replace("'", "")`. */
  function RemoveQuotes(s: string): (r: string)
    ensures |r| <= |s| && forall i :: 0 <= i < |r| ==> r[i] != '\''
    ensures (forall i :: 0 <= i < |s| ==> s[i] != '\'') ==> r == s
  {
    if s == [] then []
    else (if s[0] == '\'' then [] else [s[0]]) + RemoveQuotes(s[1..])
  }

  /** `_detect_http_encoding`: the charset parameter without quotes, or ''. */
  function HttpEncoding(charset: Option<string>): string {
    RemoveQuotes(if charset.None? then "" else charset.value)
  }

  /** `_detect_chardet_encoding`: the guess lower-cased; an unsure guess of
      an ISO 8859 or Windows code page, or a sure guess of ASCII, becomes
      UTF-8; no guess raises. */
  function ChardetEncoding(detected: Option<string>, confident: bool): (r: Result<string, DetectError>)
    ensures r.Err? <==> detected.None?
    ensures r.Ok? ==> r.value == "utf-8" || r.value == Lower(detected.value)
    ensures r.Ok? && confident ==> r.value != "ascii"
    ensures detected.Some? && !confident && (StartsWith(Lower(detected.value), "iso8859") || StartsWith(Lower(detected.value), "windows")) ==>
      r == Ok("utf-8")
  {
    match detected
    case None => Err(NoGuess)
    case Some(g) =>
      var e := Lower(g);
      if !confident then
        Ok(if StartsWith(e, "iso8859") || StartsWith(e, "windows") then "utf-8" else e)
      else Ok(if e == "ascii" then "utf-8" else e)
  }

  /** The peeked content: the first 2000 bytes. */
  function Peek(content: seq<byte>): seq<byte> {
    content[..if |content| < 2000 then |content| else 2000]
  }

  /** The encodings `detect_content_encoding` tries before asking cchardet,
      in order: the header's charset when there is a header, then the XML
      declaration's. */
  function Candidates(content: seq<byte>, header: Option<string>, d: Detectors): (r: seq<Option<string>>)
    ensures |r| == if header.Some? && header.value != "" then 2 else 1
    ensures r[|r| - 1] == d.xmlEncoding(Peek(content))
  {
    (if header.Some? && header.value != "" then [Some(HttpEncoding(d.charset(header.value)))] else [])
      + [d.xmlEncoding(Peek(content))]
  }

  /** The outcome of the first candidate the checker accepts. */
  function FirstAccepted(codecs: CodecRegistry, content: seq<byte>, candidates: seq<Option<string>>): (r: Option<string>)
    ensures r.None? <==> forall i :: 0 <= i < |candidates| ==> CheckOutcome(codecs, content, candidates[i]).None?
    ensures r.Some? ==> exists i :: (0 <= i < |candidates| && r == CheckOutcome(codecs, content, candidates[i]) &&
      forall j :: 0 <= j < i ==> CheckOutcome(codecs, content, candidates[j]).None?)
  {
    if candidates == [] then None
    else
      var o := CheckOutcome(codecs, content, candidates[0]);
      if o.Some? then
        o
      else
        var r := FirstAccepted(codecs, content, candidates[1..]);
        assert forall i :: 1 <= i < |candidates| ==> candidates[i] == candidates[1..][i - 1];
        if r.Some? then
          ghost var k :| 0 <= k < |candidates[1..]| && r == CheckOutcome(codecs, content, candidates[1..][k]) &&
            forall j :: 0 <= j < k ==> CheckOutcome(codecs, content, candidates[1..][j]).None?;
          assert r == CheckOutcome(codecs, content, candidates[k + 1]);
          r
        else
          r
  }

  /** What `detect_content_encoding` does: the first accepted candidate;
      else cchardet's guess, which raises when there is none, when it is
      accepted; else `'utf-8'` when UTF-8 decodes, else None. */
  function ContentEncoding(codecs: CodecRegistry, content: seq<byte>, header: Option<string>, d: Detectors): Result<Option<string>, DetectError> {
    var c := Peek(content);
    match FirstAccepted(codecs, c, Candidates(content, header, d))
    case Some(n) => Ok(Some(n))
    case None =>
      var guess := d.chardet(c);
      match ChardetEncoding(guess.0, guess.1)
      case Err(e) => Err(e)
      case Ok(g) =>
        if CheckOutcome(codecs, c, Some(g)).Some? then Ok(CheckOutcome(codecs, c, Some(g)))
        else if CheckOutcome(codecs, c, Some("utf-8")).Some? then Ok(Some("utf-8"))
        else Ok(None)
  }

  /** `detect_content_encoding(content, content_type_header)`. */
  method DetectContentEncoding(codecs: CodecRegistry, content: seq<byte>, header: Option<string>, d: Detectors)
    returns (r: Result<Option<string>, DetectError>)
    ensures r == ContentEncoding(codecs, content, header, d)
  {
    var c := Peek(content);
    var checker := new EncodingChecker(codecs, c);
    var rest := Candidates(content, header, d);
    if header.Some? && header.value != "" {
      var e := checker.Check(rest[0]);
      if e.Some? {
        return Ok(e);
      }
      rest := rest[1..];
    }
    assert rest == [d.xmlEncoding(c)];
    var e := checker.Check(rest[0]);
    if e.Some? {
      return Ok(e);
    }
    assert FirstAccepted(codecs, c, rest[1..]) == None;
    var guess := d.chardet(c);
    var g := ChardetEncoding(guess.0, guess.1);
    if g.Err? {
      return Err(g.error);
    }
    e := checker.Check(Some(g.value));
    if e.Some? {
      return Ok(e);
    }
    var u := checker.Check(Some("utf-8"));
    if u.Some? {
      return Ok(Some("utf-8"));
    }
    return Ok(None);
  }

  /** The header's charset wins whenever it decodes; failing that, the
      declaration's; cchardet is consulted, and can raise, only after both
      are rejected. */
  lemma {:induction false} CandidateOrder(codecs: CodecRegistry, content: seq<byte>, header: Option<string>, d: Detectors)
    ensures var c, cands := Peek(content), Candidates(content, header, d);
      CheckOutcome(codecs, c, cands[0]).Some? ==> ContentEncoding(codecs, content, header, d) == Ok(CheckOutcome(codecs, c, cands[0]))
    ensures var c, cands := Peek(content), Candidates(content, header, d);
      CheckOutcome(codecs, c, cands[0]).None? && CheckOutcome(codecs, c, cands[|cands| - 1]).Some? ==>
        ContentEncoding(codecs, content, header, d) == Ok(CheckOutcome(codecs, c, cands[|cands| - 1]))
    ensures ContentEncoding(codecs, content, header, d).Err? <==>
      FirstAccepted(codecs, Peek(content), Candidates(content, header, d)).None? && d.chardet(Peek(content)).0.None?
  {
  }

  /** Whatever is returned decodes the peeked content: a candidate's
      normalized name, or `'utf-8'` when its decoder accepts. */
  lemma {:induction false} ContentEncodingDecodes(codecs: CodecRegistry, content: seq<byte>, header: Option<string>, d: Detectors)
    ensures var r := ContentEncoding(codecs, content, header, d);
      r.Ok? && r.value.Some? ==> (codecs.decodes(r.value.value, Peek(content)) ||
        (r.value.value == "utf-8" && codecs.lookup("utf-8").Some? && codecs.decodes(codecs.lookup("utf-8").value, Peek(content))))
    ensures ContentEncoding(codecs, content, header, d) == Ok(None) ==> CheckOutcome(codecs, Peek(content), Some("utf-8")).None?
  {
  }

  /** The first doctest: a header charset that decodes is the answer. */
  lemma {:induction false} HeaderCharsetDoctest(codecs: CodecRegistry, d: Detectors)
    requires d.charset("text/xml;charset=utf-8") == Some("utf-8")
    requires codecs.lookup("utf-8") == Some("utf-8") && codecs.decodes("utf-8", Ascii("hello"))
    ensures ContentEncoding(codecs, Ascii("hello"), Some("text/xml;charset=utf-8"), d) == Ok(Some("utf-8"))
  {
    assert Peek(Ascii("hello")) == Ascii("hello");
    assert HttpEncoding(Some("utf-8")) == "utf-8";
  }

  /** The second doctest: an unknown charset (and no declaration) falls
      through to the detector, whose sure ASCII guess becomes UTF-8. */
  lemma {:induction false} UnknownCharsetDoctest(codecs: CodecRegistry, d: Detectors, header: string, content: seq<byte>)
    requires header != "" && codecs.lookup(HttpEncoding(d.charset(header))).None?
    requires d.xmlEncoding(Peek(content)).None? && d.chardet(Peek(content)) == (Some("ascii"), true)
    requires codecs.lookup("utf-8") == Some("utf-8") && codecs.decodes("utf-8", Peek(content))
    ensures ContentEncoding(codecs, content, Some(header), d) == Ok(Some("utf-8"))
  {
    SureAscii();
  }

  /** A sure ASCII guess is reported as UTF-8. */
  lemma {:induction false} SureAscii()
    ensures ChardetEncoding(Some("ascii"), true) == Ok("utf-8")
  {
    assert Lower("ascii") == "ascii";
  }
}
