/** The story-data envelope (rssant_api/models/story_storage/common/story_data.py):
    one version byte, then the value compressed by gzip (version 1) or lz4
    (version 2). */
module StoryData {
  import opened Wrappers
  import opened Bytes
  import opened Codecs

  const VersionGzip: int := 1
  const VersionLz4: int := 2

  /** The versions `_check_version` accepts; an object always has one. */
  type Version = v: int | v == VersionGzip || v == VersionLz4 witness VersionGzip

  /** `ValueError('not support version')`, `struct.error` on empty data, and
      the failures of decompression and UTF-8 decoding. */
  datatype DataError = UnsupportedVersion(version: int) | EmptyData | BadStream | BadUtf8

  datatype StoryData = StoryData(value: seq<byte>, version: Version)

  /** `_check_version`: the supported versions are exactly gzip and lz4. */
  function CheckVersion(version: int): (r: Result<Version, DataError>)
    ensures r.Ok? <==> version == VersionGzip || version == VersionLz4
    ensures r.Ok? ==> r.value == version
    ensures r.Err? ==> r.error == UnsupportedVersion(version)
  {
    if version == VersionGzip || version == VersionLz4 then Ok(version) else Err(UnsupportedVersion(version))
  }

  /** `StoryData(value, version)`. */
  function New(value: seq<byte>, version: int): Result<StoryData, DataError> {
    var v :- CheckVersion(version);
    Ok(StoryData(value, v))
  }

  /** The compressor a version selects. */
  function CompressorOf(gzip: Compressor, lz4: Compressor, version: Version): Compressor {
    if version == VersionGzip then gzip else lz4
  }

  /** `encode`. */
  function Encode(gzip: Compressor, lz4: Compressor, d: StoryData): seq<byte> {
    var v: byte := d.version;
    [v] + CompressorOf(gzip, lz4, d.version).compress(d.value)
  }

  /** `decode`: the version byte is checked before decompressing the rest. */
  function Decode(gzip: Compressor, lz4: Compressor, data: seq<byte>): Result<StoryData, DataError> {
    if data == [] then Err(EmptyData)
    else
      var v :- CheckVersion(data[0]);
      match CompressorOf(gzip, lz4, v).decompress(data[1..])
      case None => Err(BadStream)
      case Some(value) => Ok(StoryData(value, v))
  }

  /** `encode_text`. */
  function EncodeText(gzip: Compressor, lz4: Compressor, utf8: TextCodec, text: string, version: int): Result<seq<byte>, DataError> {
    var d :- New(utf8.encode(text), version);
    Ok(Encode(gzip, lz4, d))
  }

  /** `decode_text`. */
  function DecodeText(gzip: Compressor, lz4: Compressor, utf8: TextCodec, data: seq<byte>): Result<string, DataError> {
    var d :- Decode(gzip, lz4, data);
    match utf8.decode(d.value)
    case None => Err(BadUtf8)
    case Some(text) => Ok(text)
  }

  /** The constructor accepts exactly versions 1 and 2; the encoding starts
      with the version byte, followed by the output of the compressor the
      version names. */
  lemma {:induction false} EncodeShape(gzip: Compressor, lz4: Compressor, value: seq<byte>, version: int)
    ensures New(value, version).Ok? <==> version == 1 || version == 2
    ensures New(value, version).Err? ==> New(value, version) == Err(UnsupportedVersion(version))
    ensures New(value, version).Ok? ==>
      var r := Encode(gzip, lz4, New(value, version).value);
      |r| >= 1 && r[0] == version &&
      r[1..] == (if version == 1 then gzip.compress(value) else lz4.compress(value))
  {
  }

  /** `decode(encode(d))` gives the value and version back, given that the
      version's compressor round-trips. */
  lemma {:induction false} RoundTrip(gzip: Compressor, lz4: Compressor, d: StoryData)
    requires Inverts(CompressorOf(gzip, lz4, d.version))
    ensures Decode(gzip, lz4, Encode(gzip, lz4, d)) == Ok(d)
  {
    var c := CompressorOf(gzip, lz4, d.version);
    assert Encode(gzip, lz4, d)[1..] == c.compress(d.value);
  }

  /** `decode` fails on empty data with the unpacking error, and on a version
      byte other than 1 or 2 with `not support version`. */
  lemma {:induction false} DecodeRejects(gzip: Compressor, lz4: Compressor, data: seq<byte>)
    ensures data == [] ==> Decode(gzip, lz4, data) == Err(EmptyData)
    ensures data != [] && data[0] != 1 && data[0] != 2 ==> Decode(gzip, lz4, data) == Err(UnsupportedVersion(data[0]))
    ensures Decode(gzip, lz4, data).Ok? ==> data != [] && Decode(gzip, lz4, data).value.version == data[0]
  {
  }

  /** `decode_text(encode_text(s, version)) == s` for every text and both
      versions, given that the codecs round-trip; any other version is
      rejected when encoding. */
  lemma {:induction false} TextRoundTrip(gzip: Compressor, lz4: Compressor, utf8: TextCodec, text: string, version: int)
    requires Inverts(gzip) && Inverts(lz4) && TextInverts(utf8)
    ensures EncodeText(gzip, lz4, utf8, text, version).Ok? <==> version == 1 || version == 2
    ensures EncodeText(gzip, lz4, utf8, text, version).Ok? ==>
      DecodeText(gzip, lz4, utf8, EncodeText(gzip, lz4, utf8, text, version).value) == Ok(text)
  {
    if version == 1 || version == 2 {
      var d := StoryData(utf8.encode(text), version);
      RoundTrip(gzip, lz4, d);
      assert utf8.decode(utf8.encode(text)) == Some(text);
    }
  }
}
