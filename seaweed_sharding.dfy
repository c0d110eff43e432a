/** SeaweedFS sharding, first generation
    (rssant_api/models/story_storage/seaweed/seaweed_sharding.py): feeds are
    grouped by ranges of 8192 ids, hashed into one of 8 volumes per group, and a
    story file is addressed by "volume,key-in-hex" followed by a zero cookie. */
module SeaweedSharding {
  import opened Wrappers
  import opened Bytes
  import opened Text
  import StoryKey

  const VolumeSize: int := 1024
  const VolumeGroup: int := 8
  const VolumeGroupSize: int := 8192
  const FileTypeContent: int := 2
  const Cookie: string := "00000000"

  datatype FidError = HashFailed | KeyFailed(e: StoryKey.KeyError) | InvalidFid

  /** `sharding_for`: group by id range, then by hash within the group. */
  function ShardingFor(crc32: seq<byte> -> int, feedId: int): (r: Result<int, StoryKey.HashError>)
    ensures r.Ok? <==> 0 <= feedId < Two32
    ensures r.Ok? ==> var g := feedId / VolumeGroupSize; 8 * g <= r.value < 8 * g + 8
  {
    var h :- StoryKey.HashFeedId(crc32, feedId);
    Ok(feedId / VolumeGroupSize * VolumeGroup + h % VolumeGroup)
  }

  /** `seaweed_volume_for`: volume ids start at 1. */
  function VolumeFor(crc32: seq<byte> -> int, feedId: int): (r: Result<int, StoryKey.HashError>)
    ensures r.Ok? <==> ShardingFor(crc32, feedId).Ok?
    ensures r.Ok? ==> r.value == ShardingFor(crc32, feedId).value + 1 && r.value >= 1
  {
    var s :- ShardingFor(crc32, feedId);
    Ok(s + 1)
  }

  /** `seaweed_fid_encode`. */
  function FidEncode(crc32: seq<byte> -> int, feedId: int, offset: int, ftype: int): Result<string, FidError> {
    match VolumeFor(crc32, feedId)
    case Err(_) => Err(HashFailed)
    case Ok(volume) =>
      match StoryKey.Encode(feedId, offset, 0, ftype)
      case Err(e) => Err(KeyFailed(e))
      case Ok(key) => Ok(DecimalString(volume) + "," + HexString(key) + Cookie)
  }

  /** `remain[:-8]`. */
  function DropCookie(remain: string): string {
    remain[..if |remain| >= 8 then |remain| - 8 else 0]
  }

  /** `seaweed_fid_decode`: (volume, feed id, offset, file type); every
      ValueError becomes InvalidFid. */
  function FidDecode(fid: string): Result<(int, int, int, int), FidError> {
    var parts := Split(fid, ',');
    if |parts| != 2 then Err(InvalidFid)
    else
      match (ParseInt(parts[0], 10), ParseInt(DropCookie(parts[1]), 16))
      case (Some(volume), Some(key)) =>
        var f := StoryKey.Decode(key);
        Ok((volume, f.feedId, f.offset, f.reserve2))
      case _ => Err(InvalidFid)
  }

  /** A fid with no comma, two commas or more, or a volume or key that is not
      an integer, is rejected. */
  lemma {:induction false} FidDecodeRejects(fid: string)
    ensures FidDecode(fid).Ok? <==>
      var parts := Split(fid, ',');
      |parts| == 2 && ParseInt(parts[0], 10).Some? && ParseInt(DropCookie(parts[1]), 16).Some?
    ensures ',' !in fid ==> FidDecode(fid) == Err(InvalidFid)
  {
    if ',' !in fid {
      SplitWithoutSep(fid, ',');
    }
  }

  /** The digits of a rendered number contain no comma. */
  lemma {:induction false} NoCommaInNumber(n: int, base: nat)
    requires base == 10 || base == 16
    ensures ',' !in (if base == 10 then DecimalString(n) else HexString(n))
  {
    var m := if n < 0 then -n else n;
    var d := NatDigits(m, base);
    assert forall i :: 0 <= i < |d| ==> d[i] != ',';
  }

  /** A fid string splits back into its volume and its key text. */
  lemma {:induction false} FidParts(volume: int, key: int)
    ensures var fid := DecimalString(volume) + "," + HexString(key) + Cookie;
      Split(fid, ',') == [DecimalString(volume), HexString(key) + Cookie]
  {
    var d := DecimalString(volume);
    var h := HexString(key) + Cookie;
    NoCommaInNumber(volume, 10);
    NoCommaInNumber(key, 16);
    assert ',' !in h;
    assert d + "," + HexString(key) + Cookie == Join([d, h], ',');
    SplitJoin([d, h], ',');
  }

  /** Decoding an encoded fid gives back the volume, feed, offset and type for
      every type that fits reserve2's 4 bits. */
  lemma {:induction false} FidRoundTrip(crc32: seq<byte> -> int, feedId: int, offset: int, ftype: int)
    requires 0 <= feedId <= StoryKey.Max28 && 0 <= offset <= StoryKey.Max28 && 0 <= ftype < 16
    ensures FidEncode(crc32, feedId, offset, ftype).Ok?
    ensures FidDecode(FidEncode(crc32, feedId, offset, ftype).value) ==
      Ok((VolumeFor(crc32, feedId).value, feedId, offset, ftype))
  {
    var volume := VolumeFor(crc32, feedId).value;
    StoryKey.RoundTrip(feedId, offset, 0, ftype);
    var key := StoryKey.Encode(feedId, offset, 0, ftype).value;
    FidParts(volume, key);
    var remain := HexString(key) + Cookie;
    assert DropCookie(remain) == HexString(key);
    ParseDecimalString(volume);
    ParseHexString(key);
  }

  /** `'%x'` of the two keys of the unit test, digit by digit. */
  lemma {:induction false} HexExamples()
    ensures HexString(0x7b_0000_00a2) == "7b000000a2"
    ensures HexString(0x7b_0000_3ff2) == "7b00003ff2"
  {
    assert NatDigits(0x7, 16) == "7";
    assert NatDigits(0x7b, 16) == "7b";
    assert NatDigits(0x7b0, 16) == "7b0";
    assert NatDigits(0x7b00, 16) == "7b00";
    assert NatDigits(0x7b000, 16) == "7b000";
    assert NatDigits(0x7b_0000, 16) == "7b0000";
    assert NatDigits(0x7b_0000_0, 16) == "7b00000";
    assert NatDigits(0x7b_0000_00, 16) == "7b000000";
    assert NatDigits(0x7b_0000_00a, 16) == "7b000000a";
    assert NatDigits(0x7b_0000_00a2, 16) == "7b000000a2";
    assert NatDigits(0x7b_0000_3, 16) == "7b00003";
    assert NatDigits(0x7b_0000_3f, 16) == "7b00003f";
    assert NatDigits(0x7b_0000_3ff, 16) == "7b00003ff";
    assert NatDigits(0x7b_0000_3ff2, 16) == "7b00003ff2";
  }

  /** The encoded text of a fid whose volume and key are known. */
  lemma {:induction false} FidEncodeText(crc32: seq<byte> -> int, feedId: int, offset: int, ftype: int, volume: int, key: int)
    requires VolumeFor(crc32, feedId) == Ok(volume)
    requires StoryKey.Encode(feedId, offset, 0, ftype) == Ok(key)
    ensures FidEncode(crc32, feedId, offset, ftype) == Ok(DecimalString(volume) + "," + HexString(key) + Cookie)
  {
  }

  /** Feed 123 lies in group 0, so slot 0 of the hash gives volume 1. */
  lemma {:induction false} VolumeOf123(crc32: seq<byte> -> int)
    requires crc32(Be32(123)) % Two32 % 8 == 0
    ensures VolumeFor(crc32, 123) == Ok(1)
  {
  }

  /** The unit test's fids, given that feed 123 hashes into slot 0 of its group. */
  lemma {:induction false} FidExamples(crc32: seq<byte> -> int)
    requires crc32(Be32(123)) % Two32 % 8 == 0
    ensures FidEncode(crc32, 123, 10, FileTypeContent) == Ok("1,7b000000a200000000")
    ensures FidEncode(crc32, 123, 1023, FileTypeContent) == Ok("1,7b00003ff200000000")
  {
    VolumeOf123(crc32);
    HexExamples();
    assert DecimalString(1) == "1";
    FidEncodeText(crc32, 123, 10, 2, 1, 0x7b_0000_00a2);
    FidEncodeText(crc32, 123, 1023, 2, 1, 0x7b_0000_3ff2);
    assert "1" + "," + "7b000000a2" + Cookie == "1,7b000000a200000000";
    assert "1" + "," + "7b00003ff2" + Cookie == "1,7b00003ff200000000";
  }
}
