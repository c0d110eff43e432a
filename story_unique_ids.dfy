/** The story unique-ids envelope (rssant_api/models/story_unique_ids.py):
    a version byte, the begin offset as a big-endian 32-bit number, then the
    gzip of the ids joined by newlines. */
module StoryUniqueIds {
  import opened Wrappers
  import opened Bytes
  import opened Text
  import opened Codecs

  /** The exceptions of the constructor, `encode` and `decode`:
      `struct.error` for a header that does not pack or unpack, `ValueError`
      for the rest, and the failures of gzip and UTF-8 decoding. */
  datatype IdsError =
    | EmptyUniqueId
    | NewlineInUniqueId
    | PackOutOfRange
    | ShortData
    | UnsupportedVersion(version: int)
    | BadGzip
    | BadUtf8

  datatype UniqueIdsData = UniqueIdsData(version: int, beginOffset: int, uniqueIds: seq<string>)

  predicate ValidId(x: string) {
    x != [] && '\n' !in x
  }

  /** The error the constructor's check raises for an invalid id: emptiness
      is checked before the newline. */
  function IdError(x: string): IdsError {
    if x == [] then EmptyUniqueId else NewlineInUniqueId
  }

  /** `ids[i]` is the first invalid id. */
  predicate FirstInvalid(ids: seq<string>, i: int) {
    0 <= i < |ids| && !ValidId(ids[i]) && forall j :: 0 <= j < i ==> ValidId(ids[j])
  }

  /** The constructor's loop: the first invalid id decides the error. */
  function CheckIds(ids: seq<string>): (r: Result<(), IdsError>)
    ensures r.Ok? <==> forall i :: 0 <= i < |ids| ==> ValidId(ids[i])
    ensures forall i :: FirstInvalid(ids, i) ==> r == Err(IdError(ids[i]))
  {
    if ids == [] then Ok(())
    else if !ValidId(ids[0]) then Err(IdError(ids[0]))
    else
      var r := CheckIds(ids[1..]);
      assert forall i :: 1 <= i < |ids| ==> ids[1..][i - 1] == ids[i];
      assert forall i :: FirstInvalid(ids, i) ==> i >= 1 && FirstInvalid(ids[1..], i - 1);
      r
  }

  /** `StoryUniqueIdsData(begin_offset, unique_ids, version)`. */
  function New(beginOffset: int, ids: seq<string>, version: int): (r: Result<UniqueIdsData, IdsError>)
    ensures r.Ok? <==> forall i :: 0 <= i < |ids| ==> ValidId(ids[i])
    ensures r.Ok? ==> r.value.uniqueIds == ids && r.value.beginOffset == beginOffset && r.value.version == version
  {
    var _ :- CheckIds(ids);
    Ok(UniqueIdsData(version, beginOffset, ids))
  }

  /** The newline-joined ids, the text that is compressed. */
  function IdsText(ids: seq<string>): string {
    Join(ids, '\n')
  }

  /** `encode`: `struct.pack('>BI', ...)` fails on a version outside a byte
      or a begin offset outside 32 bits. */
  function Encode(gzip: Compressor, utf8: TextCodec, d: UniqueIdsData): Result<seq<byte>, IdsError> {
    if !(0 <= d.version < 256 && 0 <= d.beginOffset < Two32) then Err(PackOutOfRange)
    else
      var version: byte := d.version;
      Ok([version] + Be32(d.beginOffset) + gzip.compress(utf8.encode(IdsText(d.uniqueIds))))
  }

  /** `value.split('\n') if value else []`. */
  function SplitIds(text: string): seq<string> {
    if text == "" then [] else Split(text, '\n')
  }

  /** `decode`: the version byte is checked before the offset is unpacked,
      and the ids go through the constructor's checks again. */
  function Decode(gzip: Compressor, utf8: TextCodec, data: seq<byte>): Result<UniqueIdsData, IdsError> {
    if |data| < 1 then Err(ShortData)
    else if data[0] != 1 then Err(UnsupportedVersion(data[0]))
    else if |data| < 5 then Err(ShortData)
    else match gzip.decompress(data[5..])
      case None => Err(BadGzip)
      case Some(value) =>
        match utf8.decode(value)
        case None => Err(BadUtf8)
        case Some(text) => New(FromBe(data[1..5]), SplitIds(text), 1)
  }

  /** The header is 5 bytes, the version and the begin offset, and packing
      fails exactly when either is out of range. */
  lemma {:induction false} EncodeShape(gzip: Compressor, utf8: TextCodec, d: UniqueIdsData)
    ensures Encode(gzip, utf8, d).Ok? <==> 0 <= d.version < 256 && 0 <= d.beginOffset < Two32
    ensures Encode(gzip, utf8, d).Err? ==> Encode(gzip, utf8, d) == Err(PackOutOfRange)
    ensures Encode(gzip, utf8, d).Ok? ==>
      var r := Encode(gzip, utf8, d).value;
      |r| >= 5 && r[0] == d.version && FromBe(r[1..5]) == d.beginOffset &&
      r[5..] == gzip.compress(utf8.encode(IdsText(d.uniqueIds)))
  {
    if 0 <= d.version < 256 && 0 <= d.beginOffset < Two32 {
      var version: byte := d.version;
      var r := Encode(gzip, utf8, d).value;
      var h := Be32(d.beginOffset);
      assert r[1..5] == h;
      Be32RoundTrip(d.beginOffset);
    }
  }

  /** Splitting the joined text gives every list of valid ids back, the
      empty list included. */
  lemma {:induction false} SplitJoined(ids: seq<string>)
    requires forall i :: 0 <= i < |ids| ==> ValidId(ids[i])
    ensures SplitIds(IdsText(ids)) == ids
  {
    if ids != [] {
      assert IdsText(ids) != "";
      forall p | p in ids ensures '\n' !in p {
      }
      SplitJoin(ids, '\n');
    }
  }

  /** `decode(encode(d))` gives `d` back for every object the constructor
      accepts with version 1 and a 32-bit begin offset, given that gzip and
      UTF-8 decoding invert their encodings. */
  lemma {:induction false} RoundTrip(gzip: Compressor, utf8: TextCodec, beginOffset: int, ids: seq<string>)
    requires Inverts(gzip) && TextInverts(utf8)
    requires New(beginOffset, ids, 1).Ok? && 0 <= beginOffset < Two32
    ensures Encode(gzip, utf8, New(beginOffset, ids, 1).value).Ok?
    ensures Decode(gzip, utf8, Encode(gzip, utf8, New(beginOffset, ids, 1).value).value) == New(beginOffset, ids, 1)
  {
    var d := New(beginOffset, ids, 1).value;
    EncodeShape(gzip, utf8, d);
    var r := Encode(gzip, utf8, d).value;
    assert gzip.decompress(r[5..]) == Some(utf8.encode(IdsText(ids)));
    assert utf8.decode(utf8.encode(IdsText(ids))) == Some(IdsText(ids));
    SplitJoined(ids);
  }

  /** `decode` rejects empty data and any version byte other than 1, and
      what it accepts is a valid object of version 1. */
  lemma {:induction false} DecodeRejects(gzip: Compressor, utf8: TextCodec, data: seq<byte>)
    ensures data == [] ==> Decode(gzip, utf8, data) == Err(ShortData)
    ensures data != [] && data[0] != 1 ==> Decode(gzip, utf8, data) == Err(UnsupportedVersion(data[0]))
    ensures Decode(gzip, utf8, data).Ok? ==>
      var d := Decode(gzip, utf8, data).value;
      |data| >= 5 && data[0] == 1 && d.version == 1 && 0 <= d.beginOffset < Two32 &&
      forall i :: 0 <= i < |d.uniqueIds| ==> ValidId(d.uniqueIds[i])
  {
    if |data| >= 5 {
      FromBeBound(data[1..5]);
    }
  }

  /** Text with an empty line, such as two ids separated by two newlines,
      does not decode: the constructor rejects the empty id between them. */
  lemma {:induction false} EmptyLineRejected(gzip: Compressor, utf8: TextCodec, data: seq<byte>)
    requires |data| >= 5 && data[0] == 1
    requires gzip.decompress(data[5..]).Some? && utf8.decode(gzip.decompress(data[5..]).value) == Some("a\n\nb")
    ensures Decode(gzip, utf8, data) == Err(EmptyUniqueId)
  {
    assert Split("a\n\nb", '\n') == ["a", "", "b"] by {
      SplitWithoutSep("b", '\n');
      assert "\nb"[1..] == "b";
      assert Split("\nb", '\n') == ["", "b"];
      assert "\n\nb"[1..] == "\nb";
      assert Split("\n\nb", '\n') == ["", "", "b"];
      assert "a\n\nb"[1..] == "\n\nb";
      assert ['a'] + "" == "a";
    }
    assert !ValidId(SplitIds("a\n\nb")[1]);
  }
}
