/** SeaweedFS sharding used by the story tables (rssant_api/models/story_sharding.py):
    the first 8192 feeds share volume 0, later feeds are grouped by ranges of
    65536 ids and hashed into one of 8 volumes per group.  The file key is
    built here with shifts and no range checks. */
module StorySharding {
  import opened Wrappers
  import opened Bytes
  import opened Text
  import StoryKey
  import SeaweedSharding

  const VolumeSize: int := 8 * 1024
  const VolumeGroup: int := 8
  const VolumeGroupSize: int := VolumeGroup * VolumeSize
  const FileTypeHeader: int := 1
  const FileTypeContent: int := 2
  const Two32: int := 0x1_0000_0000
  const Two36: int := 0x10_0000_0000

  /** `sharding_for`. */
  function ShardingFor(crc32: seq<byte> -> int, feedId: int): (r: Result<int, StoryKey.HashError>)
    ensures feedId < VolumeSize ==> r == Ok(0)
    ensures r.Ok? <==> feedId < Bytes.Two32
    ensures feedId >= VolumeSize && r.Ok? ==>
      var g := (feedId - VolumeSize) / VolumeGroupSize; 8 * g + 1 <= r.value < 8 * g + 9
  {
    if feedId < VolumeSize then Ok(0)
    else
      var h :- StoryKey.HashFeedId(crc32, feedId);
      Ok((feedId - VolumeSize) / VolumeGroupSize * VolumeGroup + h % VolumeGroup + 1)
  }

  /** `seaweed_volume_for`. */
  function VolumeFor(crc32: seq<byte> -> int, feedId: int): (r: Result<int, StoryKey.HashError>)
    ensures r.Ok? <==> ShardingFor(crc32, feedId).Ok?
    ensures r.Ok? ==> r.value == ShardingFor(crc32, feedId).value + 1 && r.value >= 1
    ensures feedId < VolumeSize ==> r == Ok(1)
  {
    var s :- ShardingFor(crc32, feedId);
    Ok(s + 1)
  }

  /** The 64-bit file key: 28 bits feed id, 4 bits reserve (always 0),
      28 bits offset, 4 bits file type, written with unchecked shifts. */
  function FileKey(feedId: int, offset: int, ftype: int): int {
    feedId * Two36 + 0 * Two32 + offset * 16 + ftype
  }

  /** `seaweed_fid_for`. */
  function FidFor(crc32: seq<byte> -> int, feedId: int, offset: int, ftype: int): Result<string, StoryKey.HashError> {
    var volume :- VolumeFor(crc32, feedId);
    Ok(DecimalString(volume) + "," + HexString(FileKey(feedId, offset, ftype)) + SeaweedSharding.Cookie)
  }

  /** The fields of a file key: (feed id, reserve, offset, file type). */
  function KeyFields(key: int): (int, int, int, int) {
    (key / Two36, key / Two32 % 16, key / 16 % 0x1000_0000, key % 16)
  }

  /** `seaweed_fid_decode`: (volume, feed id, reserve, offset, file type). */
  function FidDecode(fid: string): Result<(int, int, int, int, int), SeaweedSharding.FidError> {
    var parts := Split(fid, ',');
    if |parts| != 2 then Err(SeaweedSharding.InvalidFid)
    else
      match (ParseInt(parts[0], 10), ParseInt(SeaweedSharding.DropCookie(parts[1]), 16))
      case (Some(volume), Some(key)) =>
        var k := KeyFields(key);
        Ok((volume, k.0, k.1, k.2, k.3))
      case _ => Err(SeaweedSharding.InvalidFid)
  }

  /** The key's fields come back for every feed id below 2^32, negative ones
      included (the shift floors), when offset and type fit their widths. */
  lemma {:induction false} KeyFieldsOfFileKey(feedId: int, offset: int, ftype: int)
    requires 0 <= offset < 0x1000_0000 && 0 <= ftype < 16
    ensures KeyFields(FileKey(feedId, offset, ftype)) == (feedId, 0, offset, ftype)
  {
    var low := offset * 16 + ftype;
    var key := FileKey(feedId, offset, ftype);
    assert key == feedId * Two36 + low;
    DivModOf(key, 16, feedId * Two32 + offset, ftype);
    DivModOf(feedId * Two32 + offset, 0x1000_0000, feedId * 16, offset);
    DivModOf(key, Two32, feedId * 16, low);
    DivModOf(feedId * 16, 16, feedId, 0);
    DivModOf(key, Two36, feedId, low);
  }

  /** An offset of 2^28 or more spills into the reserve bits. */
  lemma {:induction false} OffsetSpills()
    ensures KeyFields(FileKey(1, 0x1000_0000, 0)) == (1, 1, 0, 0)
  {
  }

  lemma {:induction false} FidRoundTrip(crc32: seq<byte> -> int, feedId: int, offset: int, ftype: int)
    requires feedId < Bytes.Two32 && 0 <= offset < 0x1000_0000 && 0 <= ftype < 16
    ensures FidFor(crc32, feedId, offset, ftype).Ok?
    ensures FidDecode(FidFor(crc32, feedId, offset, ftype).value) ==
      Ok((VolumeFor(crc32, feedId).value, feedId, 0, offset, ftype))
  {
    var volume := VolumeFor(crc32, feedId).value;
    var key := FileKey(feedId, offset, ftype);
    SeaweedSharding.FidParts(volume, key);
    var remain := HexString(key) + SeaweedSharding.Cookie;
    assert SeaweedSharding.DropCookie(remain) == HexString(key);
    ParseDecimalString(volume);
    ParseHexString(key);
    KeyFieldsOfFileKey(feedId, offset, ftype);
  }

  /** Malformed fids are rejected. */
  lemma {:induction false} FidDecodeRejects(fid: string)
    ensures FidDecode(fid).Ok? <==>
      var parts := Split(fid, ',');
      |parts| == 2 && ParseInt(parts[0], 10).Some? && ParseInt(SeaweedSharding.DropCookie(parts[1]), 16).Some?
    ensures ',' !in fid ==> FidDecode(fid) == Err(SeaweedSharding.InvalidFid)
  {
    if ',' !in fid {
      SplitWithoutSep(fid, ',');
    }
  }
}
