/** The envelope of story content kept in SeaweedFS
    (rssant_api/models/seaweed_story.py): one version byte, then the gzip of
    the value.  The constructor does not check the version. */
module SeaweedStory {
  import opened Wrappers
  import opened Bytes
  import opened Codecs

  /** `struct.error` when the version does not pack into a byte or the data
      is empty, `ValueError('not support version')`, and the failures of
      gzip and UTF-8 decoding. */
  datatype SeaweedError = PackOutOfRange | EmptyData | UnsupportedVersion(version: int) | BadGzip | BadUtf8

  datatype SeaweedData = SeaweedData(value: seq<byte>, version: int)

  /** `encode`: the version is packed with `'>B'` before compressing. */
  function Encode(gzip: Compressor, d: SeaweedData): Result<seq<byte>, SeaweedError> {
    if !(0 <= d.version < 256) then Err(PackOutOfRange)
    else
      var v: byte := d.version;
      Ok([v] + gzip.compress(d.value))
  }

  /** `decode`: only version 1 is read. */
  function Decode(gzip: Compressor, data: seq<byte>): Result<SeaweedData, SeaweedError> {
    if data == [] then Err(EmptyData)
    else if data[0] != 1 then Err(UnsupportedVersion(data[0]))
    else match gzip.decompress(data[1..])
      case None => Err(BadGzip)
      case Some(value) => Ok(SeaweedData(value, 1))
  }

  /** `encode_text`. */
  function EncodeText(gzip: Compressor, utf8: TextCodec, text: string, version: int): Result<seq<byte>, SeaweedError> {
    Encode(gzip, SeaweedData(utf8.encode(text), version))
  }

  /** `decode_text`. */
  function DecodeText(gzip: Compressor, utf8: TextCodec, data: seq<byte>): Result<string, SeaweedError> {
    var d :- Decode(gzip, data);
    match utf8.decode(d.value)
    case None => Err(BadUtf8)
    case Some(text) => Ok(text)
  }

  /** An encoding of version 1 is the byte 0x01 followed by the gzip of the
      value; encoding fails exactly for a version outside a byte. */
  lemma {:induction false} EncodeShape(gzip: Compressor, value: seq<byte>, version: int)
    ensures Encode(gzip, SeaweedData(value, version)).Ok? <==> 0 <= version < 256
    ensures Encode(gzip, SeaweedData(value, version)).Err? ==> Encode(gzip, SeaweedData(value, version)) == Err(PackOutOfRange)
    ensures version == 1 ==> Encode(gzip, SeaweedData(value, version)) == Ok([1] + gzip.compress(value))
  {
  }

  /** `decode` rejects empty data and every leading byte other than 1. */
  lemma {:induction false} DecodeRejects(gzip: Compressor, data: seq<byte>)
    ensures data == [] ==> Decode(gzip, data) == Err(EmptyData)
    ensures data != [] && data[0] != 1 ==> Decode(gzip, data) == Err(UnsupportedVersion(data[0]))
    ensures Decode(gzip, data).Ok? ==> data[0] == 1 && Decode(gzip, data).value.version == 1
  {
  }

  /** `decode(encode(d))` gives a version-1 object back, given that gzip
      round-trips. */
  lemma {:induction false} RoundTrip(gzip: Compressor, value: seq<byte>)
    requires Inverts(gzip)
    ensures Encode(gzip, SeaweedData(value, 1)).Ok?
    ensures Decode(gzip, Encode(gzip, SeaweedData(value, 1)).value) == Ok(SeaweedData(value, 1))
  {
    assert Encode(gzip, SeaweedData(value, 1)).value[1..] == gzip.compress(value);
  }

  /** Any other version that packs is written, but cannot be read back. */
  lemma {:induction false} OtherVersionUnreadable(gzip: Compressor, value: seq<byte>, version: int)
    requires 0 <= version < 256 && version != 1
    ensures Encode(gzip, SeaweedData(value, version)).Ok?
    ensures Decode(gzip, Encode(gzip, SeaweedData(value, version)).value) == Err(UnsupportedVersion(version))
  {
  }

  /** `decode_text(encode_text(t)) == t` with the default version. */
  lemma {:induction false} TextRoundTrip(gzip: Compressor, utf8: TextCodec, text: string)
    requires Inverts(gzip) && TextInverts(utf8)
    ensures EncodeText(gzip, utf8, text, 1).Ok?
    ensures DecodeText(gzip, utf8, EncodeText(gzip, utf8, text, 1).value) == Ok(text)
  {
    RoundTrip(gzip, utf8.encode(text));
    assert utf8.decode(utf8.encode(text)) == Some(text);
  }
}
