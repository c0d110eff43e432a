/** The 64-bit story key (rssant_api/models/story_storage/common/story_key.py):
    4 bits reserve1, 28 bits feed id, 28 bits offset, 4 bits reserve2, from
    the most significant end.  Shifts are multiplications and floor divisions
    by powers of two and masks are `%`, which agree with Python's `<<`, `>>`
    and `&` on every integer, negative ones included. */
module StoryKey {
  import opened Wrappers
  import opened Bytes

  const Max28: int := 0x0fff_ffff
  const Two4: int := 0x10
  const Two28: int := 0x1000_0000
  const Two60: int := 0x1000_0000_0000_0000
  const Two64: int := 0x1_0000_0000_0000_0000

  /** The assertion of `StoryKey.encode` that fails first. */
  datatype KeyError = Reserve1OutOfRange | Reserve2OutOfRange | FeedIdOutOfRange | OffsetOutOfRange

  datatype Fields = Fields(feedId: int, offset: int, reserve1: int, reserve2: int)

  /** `StoryKey.encode`: the assertions accept reserves up to 255. */
  function Encode(feedId: int, offset: int, reserve1: int, reserve2: int): Result<int, KeyError> {
    if !(0 <= reserve1 <= 255) then Err(Reserve1OutOfRange)
    else if !(0 <= reserve2 <= 255) then Err(Reserve2OutOfRange)
    else if !(0 <= feedId <= Max28) then Err(FeedIdOutOfRange)
    else if !(0 <= offset <= Max28) then Err(OffsetOutOfRange)
    else Ok(reserve1 * Two60 + feedId * Two32 + offset * Two4 + reserve2)
  }

  /** `StoryKey.decode`. */
  function Decode(key: int): Fields {
    Fields(key / Two32 % Two28, key / Two4 % Two28, key / Two60 % Two4, key % Two4)
  }

  /** The assertions, in order, are the only failures. */
  lemma {:induction false} EncodeRejects(feedId: int, offset: int, reserve1: int, reserve2: int)
    ensures Encode(feedId, offset, reserve1, reserve2).Ok? <==>
      0 <= reserve1 <= 255 && 0 <= reserve2 <= 255 && 0 <= feedId <= Max28 && 0 <= offset <= Max28
    ensures !(0 <= reserve1 <= 255) ==> Encode(feedId, offset, reserve1, reserve2) == Err(Reserve1OutOfRange)
    ensures 0 <= reserve1 <= 255 && !(0 <= reserve2 <= 255) ==>
      Encode(feedId, offset, reserve1, reserve2) == Err(Reserve2OutOfRange)
  {
  }

  /** Decoding gives every field back when both reserves fit their 4 bits;
      the key is then a 64-bit value. */
  lemma {:induction false} RoundTrip(feedId: int, offset: int, reserve1: int, reserve2: int)
    requires 0 <= feedId <= Max28 && 0 <= offset <= Max28
    requires 0 <= reserve1 < 16 && 0 <= reserve2 < 16
    ensures Encode(feedId, offset, reserve1, reserve2).Ok?
    ensures var key := Encode(feedId, offset, reserve1, reserve2).value;
      0 <= key < Two64 && Decode(key) == Fields(feedId, offset, reserve1, reserve2)
  {
    var low := offset * Two4 + reserve2;
    var key := reserve1 * Two60 + feedId * Two32 + low;
    assert 0 <= low < Two32;
    assert key % Two4 == reserve2;
    assert key / Two4 == reserve1 * 0x100_0000_0000_0000 + feedId * Two28 + offset;
    assert key / Two32 == reserve1 * Two28 + feedId;
    assert key / Two60 == reserve1;
  }

  /** A reserve2 in 16..255 passes the assertion but spills into the offset
      bits: two different field tuples give the same key. */
  lemma {:induction false} Reserve2Overlaps()
    ensures Encode(0, 0, 0, 16) == Encode(0, 1, 0, 0)
    ensures Decode(Encode(0, 0, 0, 16).value) != Fields(0, 0, 0, 16)
  {
  }

  /** A reserve1 in 16..255 passes the assertion but gives a key of 65 bits or more. */
  lemma {:induction false} Reserve1Overflows()
    ensures Encode(0, 0, 16, 0) == Ok(Two64)
  {
  }

  /** For a fixed feed and reserves the key grows strictly with the offset,
      which is what deleting stories by `pk < encode(feed, offset)` relies on. */
  lemma {:induction false} EncodeMonotonicInOffset(feedId: int, o1: int, o2: int, reserve1: int, reserve2: int)
    requires Encode(feedId, o1, reserve1, reserve2).Ok? && Encode(feedId, o2, reserve1, reserve2).Ok?
    ensures o1 < o2 <==> Encode(feedId, o1, reserve1, reserve2).value < Encode(feedId, o2, reserve1, reserve2).value
  {
  }

  /** `StoryKey.encode` with the assertions the 4-bit reserve fields call
      for: reserves in [0, 15]. */
  function EncodeChecked(feedId: int, offset: int, reserve1: int, reserve2: int): (r: Result<int, KeyError>)
    ensures r.Ok? <==> 0 <= reserve1 < 16 && 0 <= reserve2 < 16 && 0 <= feedId <= Max28 && 0 <= offset <= Max28
    ensures r.Ok? ==> 0 <= r.value < Two64 && Decode(r.value) == Fields(feedId, offset, reserve1, reserve2)
  {
    if !(0 <= reserve1 < 16) then Err(Reserve1OutOfRange)
    else if !(0 <= reserve2 < 16) then Err(Reserve2OutOfRange)
    else
      var r := Encode(feedId, offset, reserve1, reserve2);
      if r.Ok? then RoundTrip(feedId, offset, reserve1, reserve2); r else r
  }

  /** The checked encoding agrees with the source's wherever both succeed. */
  lemma {:induction false} EncodeCheckedAgrees(feedId: int, offset: int, reserve1: int, reserve2: int)
    requires EncodeChecked(feedId, offset, reserve1, reserve2).Ok?
    ensures Encode(feedId, offset, reserve1, reserve2) == EncodeChecked(feedId, offset, reserve1, reserve2)
  {
  }

  /** `StoryId.encode`: a story key with both reserves 0, where the checked
      and the unchecked encodings coincide. */
  function StoryIdEncode(feedId: int, offset: int): Result<int, KeyError> {
    EncodeChecked(feedId, offset, 0, 0)
  }

  /** `StoryId.decode`. */
  function StoryIdDecode(storyId: int): (int, int) {
    var f := Decode(storyId);
    (f.feedId, f.offset)
  }

  lemma {:induction false} StoryIdRoundTrip(feedId: int, offset: int)
    requires 0 <= feedId <= Max28 && 0 <= offset <= Max28
    ensures StoryIdEncode(feedId, offset).Ok?
    ensures StoryIdDecode(StoryIdEncode(feedId, offset).value) == (feedId, offset)
  {
  }

  /** The two cases of the story-id unit test. */
  lemma {:induction false} StoryIdExamples()
    ensures StoryIdEncode(123, 10) == Ok(0x7b_0000_00a0)
    ensures StoryIdEncode(123, 1023) == Ok(0x7b_0000_3ff0)
    ensures StoryIdDecode(0x7b_0000_00a0) == (123, 10)
    ensures StoryIdDecode(0x7b_0000_3ff0) == (123, 1023)
  {
  }

  /** `struct.pack('>I', feed_id)` fails outside [0, 2^32). */
  datatype HashError = PackOutOfRange

  /** `hash_feed_id`: CRC-32 of the feed id packed big-endian, masked to 32
      bits.  The CRC is a parameter. */
  function HashFeedId(crc32: seq<byte> -> int, feedId: int): (r: Result<int, HashError>)
    ensures r.Ok? <==> 0 <= feedId < Two32
    ensures r.Ok? ==> 0 <= r.value < Two32
  {
    if 0 <= feedId < Two32 then Ok(crc32(Be32(feedId)) % Two32) else Err(PackOutOfRange)
  }
}
