# rssant core, modelled in Dafny

rssant is a feed reader. This project models the small sequential components
underneath its web, database and network layers, and proves their properties:

- the bit-packed identifiers and binary codecs: the base-32 "unionid" number
  encoding, the 64-bit story key, two generations of SeaweedFS sharding with
  their file ids, the monthly story-count format, the feed checksum table and
  the version-prefixed story-data envelopes;
- the actor message state machines of `actorlib` and the per-actor queue and
  node registry around them;
- the small parsers, validators and classifiers (detail field selection,
  cursors, URL coercion, text shortening, group names, response status and
  content-type classification, configuration parsing, feed analysis, the
  scheduler's rate limiter, the harbor task cache and the static DNS table);
- the decision logic of the Cloudflare proxy worker.

Foreign primitives are parameters of the model: CRC-32 (`crc32`), the MD5
digest of a string (`md5`), gzip and lz4, the clock and the outbound `fetch`.
Where a property needs such a primitive to round-trip, that is a `requires`
of the lemma that states the property.

Python's integers are unbounded, like Dafny's `int`; shifts are written as
multiplication and floor division by powers of two and masks as `%`, which
agree with Python's `<<`, `>>` and `&` on negative numbers too. Strings are
`seq<char>`; the byte strings of the source are `seq<byte>` with `byte` the
integers 0..255.

The shared modules `Wrappers` (Option and Result), `Bytes` (big-endian
packing as `struct` does it), `Text` (the Python string operations the core
uses: `strip`, `split`, `join`, `lower`, `int(s, base)`, `str(n)`, `'%x' % n`),
`OrderedDict` (a Python dict as a sequence of distinct keys with values, in
insertion order), `Codecs` (the compressors and text codecs as parameters) and
`Counters` (a `defaultdict(lambda: 0)` used as a counter) are helpers; only the
`OrderedDict` lemmas the core relies on have rows below.

## Model

| member | source | states |
|---|---|---|
| UnionId.ValueOfCharInChars | rssant_common/unionid.py:5-37 | `_value_of_char` succeeds exactly on the 32 alphabet characters, and returns the character's position in the alphabet |
| UnionId.EncodeNumber | rssant_common/unionid.py:40-69 | the backward-filling loop over a `bytearray` produces the reference encoding: the lead character carries the length prefix, followed by the low base-32 digits, most significant first; negative and too-large numbers fail |
| UnionId.Encode | rssant_common/unionid.py:72-78 | the appending loop yields the concatenation of the single encodings; the first failing number decides the error |
| UnionId.DecodeNumber | rssant_common/unionid.py:81-85 | the loop over the reversed digits adds their value to the high part; the last invalid character in the text is the one reported |
| UnionId.DecodeChunkAt | rssant_common/unionid.py:94-111 | one pass of `decode`'s loop reads the lead character, its announced length and high part, checks the length and decodes the trailing digits |
| UnionId.Decode | rssant_common/unionid.py:88-113 | the index-walking loop returns exactly the reference decoding: non-ASCII input fails first, then chunk by chunk |
| UnionId.EncodedLength | rssant_common/unionid.py:8-54 | a negative number fails with the negative-number error and one above 2^64−1 with "number too large"; every other number encodes to 2, 4, 7, 10 or 13 characters, chosen by the N2/N4/N7/N10/N13 thresholds |
| UnionId.EncodedNumberShape | rssant_common/unionid.py:55-68 | every character of an encoding is in `UNION_ID_CHARS` (so the text is ASCII), and its length follows the thresholds |
| UnionId.RoundTrip | rssant_common/unionid.py:72-113 | for every tuple of numbers in [0, 2^64−1], encoding succeeds, gives ASCII text, and decoding it gives the numbers back |
| UnionId.EncodeConcat | rssant_common/unionid.py:72-78 | encoding `xs + ys` is the encoding of `xs` followed by that of `ys` |
| UnionId.DecodePrefixed | rssant_common/unionid.py:88-113 | decoding an encoding followed by any text gives the numbers, then whatever the rest decodes to |
| UnionId.Truncated | rssant_common/unionid.py:109-110 | an encoding followed by a cut-off encoding fails with "data length incorrect" |
| UnionId.InvalidCharFails | rssant_common/unionid.py:33-37 | any character outside the alphabet anywhere in the input makes decoding fail |
| UnionId.DigitsValueBound | rssant_common/unionid.py:81-108 | the trailing digits fill only the bits below the high part, so the source's bitwise or is an addition |
| StoryKey.EncodeRejects | rssant_api/models/story_storage/common/story_key.py:24-28 | `encode` succeeds exactly when both reserves are in [0, 255] and feed id and offset in [0, 0x0fffffff]; the reserve1 check comes first, then reserve2 |
| StoryKey.RoundTrip | rssant_api/models/story_storage/common/story_key.py:12-36 | with both reserves below 16, decoding the key gives all four fields back and the key fits in 64 bits |
| StoryKey.Reserve2Overlaps | rssant_api/models/story_storage/common/story_key.py:24-28 | a reserve2 of 16 passes the assertion but gives the same key as offset 1, so decoding does not give it back |
| StoryKey.Reserve1Overflows | rssant_api/models/story_storage/common/story_key.py:24-28 | a reserve1 of 16 passes the assertion but gives a 65-bit key |
| StoryKey.EncodeChecked | rssant_api/models/story_storage/common/story_key.py:14-28 | with reserves checked against the 4 bits the layout gives them, encoding succeeds exactly on in-range fields and every key it gives is below 2^64 and decodes back to its fields |
| StoryKey.EncodeCheckedAgrees | rssant_api/models/story_storage/common/story_key.py:24-28 | wherever the checked encoding succeeds, the source's encoding gives the same key |
| StoryKey.EncodeMonotonicInOffset | rssant_api/models/story_storage/common/story_key.py:28 | for a fixed feed and reserves, a larger offset gives a larger key and conversely |
| StoryKey.StoryIdRoundTrip | rssant_api/models/story_storage/common/story_key.py:39-51 | `StoryId.decode(StoryId.encode(f, o)) == (f, o)` for every valid feed id and offset |
| StoryKey.StoryIdExamples | rssant_api/models/story_storage/common/story_key.py:39-51 | the two unit-test story ids: (123, 10) is 0x7b000000a0 and (123, 1023) is 0x7b00003ff0, and back |
| StoryKey.HashFeedId | rssant_api/models/story_storage/common/story_key.py:6-9 | `hash_feed_id` succeeds exactly for feed ids in [0, 2^32) (the range `struct.pack('>I')` accepts) and its value is below 2^32 |
| SeaweedSharding.ShardingFor | rssant_api/models/story_storage/seaweed/seaweed_sharding.py:9-20 | the shard of feed f is in [8g, 8g + 8) with g = f div 8192 |
| SeaweedSharding.VolumeFor | rssant_api/models/story_storage/seaweed/seaweed_sharding.py:23-27 | the volume is the shard plus one, so at least 1 |
| SeaweedSharding.FidRoundTrip | rssant_api/models/story_storage/seaweed/seaweed_sharding.py:34-58 | decoding an encoded fid gives (volume, feed id, offset, file type) back for every type below 16 |
| SeaweedSharding.FidDecodeRejects | rssant_api/models/story_storage/seaweed/seaweed_sharding.py:46-56 | decoding succeeds exactly when the fid splits on `,` into two parts whose volume and key (cookie dropped) are integers; a fid without a comma is invalid |
| SeaweedSharding.FidExamples | rssant_api/models/story_storage/seaweed/seaweed_sharding.py:34-43 | the two fids of the unit test, `1,7b000000a200000000` and `1,7b00003ff200000000`, given that feed 123 hashes into slot 0 |
| StorySharding.ShardingFor | rssant_api/models/story_sharding.py:16-30 | feeds below 8192 go to shard 0; others go to [8g + 1, 8g + 9) with g = (f − 8192) div 65536 |
| StorySharding.VolumeFor | rssant_api/models/story_sharding.py:33-37 | the volume is the shard plus one; feeds below 8192 all use volume 1 |
| StorySharding.KeyFieldsOfFileKey | rssant_api/models/story_sharding.py:58-80 | the unchecked shifts of the file key come back as (feed id, 0, offset, type) when offset and type fit their widths |
| StorySharding.OffsetSpills | rssant_api/models/story_sharding.py:60-79 | an offset of 2^28 spills into the reserve bits |
| StorySharding.FidRoundTrip | rssant_api/models/story_sharding.py:45-81 | `seaweed_fid_decode(seaweed_fid_for(f, o, t)) == (volume(f), f, 0, o, t)` for o < 2^28 and t < 16 |
| StorySharding.FidDecodeRejects | rssant_api/models/story_sharding.py:66-76 | a fid is rejected unless it splits on `,` into two integer parts; a fid without a comma is invalid |
| MonthlyStoryCount.CheckYearMonth | rssant_api/monthly_story_count.py:46-50 | succeeds exactly for years 1970..9999 and months 1..12; the year is checked first |
| MonthlyStoryCount.MonthIdRoundTrip | rssant_api/monthly_story_count.py:10-43 | `month_of_id` accepts every non-negative id, `id_of_month` exactly the valid months, and each inverts the other |
| MonthlyStoryCount.MonthIdExamples | rssant_api/monthly_story_count.py:11-41 | the doctest values of both functions |
| MonthlyStoryCount.PutSpec | rssant_api/monthly_story_count.py:246-250 | `put` succeeds exactly for a valid month and a non-negative count, and stores min(255, count) |
| MonthlyStoryCount.GetSpec | rssant_api/monthly_story_count.py:242-244 | `get` succeeds exactly for a valid month and gives 0 for a month never set |
| MonthlyStoryCount.PutThenGet | rssant_api/monthly_story_count.py:242-250 | after `put` the month reads back as the capped count, every other month reads as before, and the table stays valid |
| MonthlyStoryCount.ItemsSpec | rssant_api/monthly_story_count.py:252-254 | iteration lists exactly the table's entries, each once, in ascending (year, month) order |
| MonthlyStoryCount.DumpShape | rssant_api/monthly_story_count.py:224-240 | a dump is empty exactly for an empty table; otherwise it is the 2-byte base followed by one pair per kept month, at most 514 bytes |
| MonthlyStoryCount.DumpLoad | rssant_api/monthly_story_count.py:211-240 | `load(dump(x))` keeps exactly the months at or after the base max(min_id, max_id − 255) |
| MonthlyStoryCount.DumpLoadShortSpan | rssant_api/monthly_story_count.py:211-240 | when the months span at most 256 ids, `load(dump(x))` is x |
| MonthlyStoryCount.DumpOverflows | rssant_api/monthly_story_count.py:233-250 | December 9999 is accepted by `put`, but its base month id does not fit `'>H'`, so `dump` fails |
| MonthlyStoryCount.LoadShape | rssant_api/monthly_story_count.py:211-222 | empty data loads as the empty table, odd lengths are rejected, and every other length loads a valid table |
| MonthlyStoryCount.DumpEntries | rssant_api/monthly_story_count.py:234-239 | the extending loop writes one (offset, min(255, count)) pair per item at or after the base |
| MonthlyStoryCount.Table.FromItems | rssant_api/monthly_story_count.py:145-149 | the constructor `put`s every item in turn; the first invalid one is the error |
| MonthlyStoryCount.Table.Get | rssant_api/monthly_story_count.py:242-244 | `get` reads the table as `GetSpec` does |
| MonthlyStoryCount.Table.Put | rssant_api/monthly_story_count.py:246-250 | `put` updates the dictionary as `PutSpec` does, changes nothing on an error, and keeps the table valid |
| MonthlyStoryCount.Table.Dump | rssant_api/monthly_story_count.py:224-240 | `dump` returns the dump of the table's sorted items |
| MonthlyStoryCount.Table.Load | rssant_api/monthly_story_count.py:211-222 | `load` decodes the pairs with the accumulating loop and builds the table from them |
| OrderedDict.AssignLookup | rssant_feedlib/feed_checksum.py:29-62 | after `d[key] = value` the key reads back as the value and every other key is unchanged |
| OrderedDict.AssignShape | rssant_feedlib/feed_checksum.py:29-62 | an assignment appends a new key, replaces an existing one in place, and the size grows exactly when the key was new |
| OrderedDict.AssignDistinct | rssant_common/cursor.py:31-52 | assignment never duplicates a key |
| OrderedDict.LookupNone | rssant_feedlib/feed_checksum.py:57 | `d.get(key)` is `None` exactly when no entry has the key |
| FeedChecksum.CheckKeyValue | rssant_feedlib/feed_checksum.py:66-70 | `_check_key_value` passes exactly for a 4-byte key and an 8-byte value |
| FeedChecksum.BuildResult | rssant_feedlib/feed_checksum.py:22-29 | the constructor fails on a version other than 1 (checked first), and otherwise succeeds exactly when every item has a 4-byte key and an 8-byte value, giving a table without duplicate keys |
| FeedChecksum.BuildExamples | rssant_feedlib/feed_checksum.py:22-70 | the unit test's items: `(b'1234', b'12345678')` is accepted; `(b'123', b'123456')` and `(b'12', b'12345')` are rejected |
| FeedChecksum.Hash | rssant_feedlib/feed_checksum.py:47-48 | `_hash` is the first `length` bytes of the digest (all 16 when `length` is larger) |
| FeedChecksum.UpdateResult | rssant_feedlib/feed_checksum.py:50-64 | `update` fails exactly on an empty ident or content; it returns true exactly when the stored sum differs from the new one; the ident's key then holds the new sum and every other key is unchanged |
| FeedChecksum.UpdateSize | rssant_feedlib/feed_checksum.py:56-64 | `update` keeps the table free of duplicate keys and grows `size()` by at most one |
| FeedChecksum.UpdateAgain | rssant_feedlib/feed_checksum.py:50-64 | repeating an update returns false and leaves the table unchanged |
| FeedChecksum.UpdateAllAgrees | rssant_feedlib/feed_checksum.py:50-64 | after updating with stories whose idents hash apart, the table holds each story's content sum |
| FeedChecksum.UpdateAllAgreeing | rssant_feedlib/feed_checksum.py:50-64 | updating a table that already holds every story's sum returns false each time and keeps the table |
| FeedChecksum.UpdateTwice | rssant_feedlib/feed_checksum.py:50-64 | the basic unit test: a first round of distinct stories into an empty table returns true for each and gives one entry per story; a second round returns false for each and keeps the table |
| FeedChecksum.DumpLength | rssant_feedlib/feed_checksum.py:72-86 | `dump(limit)` fails on a negative limit (a negative `bytearray` size) and otherwise has length 1 + 12·min(size, limit), starting with the version byte |
| FeedChecksum.DumpLoad | rssant_feedlib/feed_checksum.py:72-102 | `load(dump(limit))` gives back exactly the last `limit` entries in insertion order, and `load(dump())` the whole table |
| FeedChecksum.LoadRejects | rssant_feedlib/feed_checksum.py:88-102 | `load` fails on empty data, on a first byte other than 1 and on a length that is not 1 plus a multiple of 12, and succeeds otherwise |
| FeedChecksum.TrailingBytesRejected | rssant_feedlib/feed_checksum.py:93-95 | the error unit test: a dump with three extra bytes does not load |
| FeedChecksum.Checksum.New | rssant_feedlib/feed_checksum.py:22-29 | the constructor's loop checks and assigns each item, giving the table `BuildResult` describes |
| FeedChecksum.Checksum.Update | rssant_feedlib/feed_checksum.py:50-64 | `update` changes `_map` and returns as `UpdateResult` describes, keeps the table valid, and changes nothing on an error |
| FeedChecksum.Checksum.Dump | rssant_feedlib/feed_checksum.py:72-86 | the buffer of 1 + 12·n bytes, filled record by record at an advancing `offset`, is the version byte followed by the selected entries' records |
| FeedChecksum.Checksum.Load | rssant_feedlib/feed_checksum.py:88-102 | `load` reads each 12-byte record in turn and builds the table from them |
| StoryUniqueIds.CheckIds | rssant_api/models/story_unique_ids.py:17-22 | the constructor's check passes exactly when every id is non-empty and has no newline; the first invalid id decides the error |
| StoryUniqueIds.New | rssant_api/models/story_unique_ids.py:14-22 | the constructor succeeds exactly on valid ids and keeps offset, ids and version as given |
| StoryUniqueIds.EncodeShape | rssant_api/models/story_unique_ids.py:32-36 | `encode` fails exactly when the version does not fit a byte or the offset does not fit 32 bits (`'>BI'`); otherwise it is the version byte, the big-endian offset and the compressed newline-joined ids |
| StoryUniqueIds.SplitJoined | rssant_api/models/story_unique_ids.py:35-45 | splitting the newline-joined valid ids gives them back, the empty list included |
| StoryUniqueIds.RoundTrip | rssant_api/models/story_unique_ids.py:32-46 | `decode(encode(x))` is x for every object with version 1 and a 32-bit offset, given that gzip and UTF-8 invert |
| StoryUniqueIds.DecodeRejects | rssant_api/models/story_unique_ids.py:38-46 | empty data and a first byte other than 1 are rejected; a decoded object has version 1 and the header's offset |
| StoryUniqueIds.EmptyLineRejected | rssant_api/models/story_unique_ids.py:20-46 | text with an empty line between ids decodes to the constructor's empty-id error |
| StoryData.CheckVersion | rssant_api/models/story_storage/common/story_data.py:33-37 | `_check_version` accepts exactly the gzip and lz4 versions (1 and 2) and reports any other |
| StoryData.EncodeShape | rssant_api/models/story_storage/common/story_data.py:28-55 | the constructor accepts exactly versions 1 and 2; the encoding is the version byte followed by the output of the compressor the version selects |
| StoryData.RoundTrip | rssant_api/models/story_storage/common/story_data.py:47-67 | `decode(encode(d)) == d` when the selected compressor inverts |
| StoryData.DecodeRejects | rssant_api/models/story_storage/common/story_data.py:57-67 | empty data fails to unpack, an unknown first byte is an unsupported version, and a decoded object has the first byte as version |
| StoryData.TextRoundTrip | rssant_api/models/story_storage/common/story_data.py:80-87 | `encode_text` succeeds exactly for versions 1 and 2, and `decode_text(encode_text(s, v)) == s` |
| SeaweedStory.EncodeShape | rssant_api/models/seaweed_story.py:22-37 | `encode` fails exactly when the version does not fit a byte; version 1 gives the byte 1 followed by the gzip of the value |
| SeaweedStory.DecodeRejects | rssant_api/models/seaweed_story.py:39-45 | empty data and every first byte other than 1 are rejected; a decoded object has version 1 |
| SeaweedStory.RoundTrip | rssant_api/models/seaweed_story.py:34-45 | `decode(encode(d)) == d` for version 1, given that gzip inverts |
| SeaweedStory.OtherVersionUnreadable | rssant_api/models/seaweed_story.py:34-45 | any other version that fits a byte is written but reads back as unsupported |
| SeaweedStory.TextRoundTrip | rssant_api/models/seaweed_story.py:57-65 | `decode_text(encode_text(t)) == t` with the default version |
| Detail.IncludeFields | rssant_common/detail.py:76-78 | the included fields are the fields of `all_fields` that are not excluded, and every field is included or excluded |
| Detail.ParseFields | rssant_common/detail.py:158-186 | `_parse_fields` succeeds exactly when some field is listed and no field is in both lists; no field at all and the duplicated names are the two errors, in that order |
| Detail.FirstSign | rssant_common/detail.py:106-109 | the position of the first `+` or `!` of a text |
| Detail.SignedGroups | rssant_common/detail.py:107-109 | the two signed groups of the regular expression: each is a sign followed by a comma-separated list of names, and together they are the text |
| Detail.ParseDetailValue | rssant_common/detail.py:113-155 | the loop filling `extra_fields` from the one or two signed groups gives the reference parse of the detail value |
| Detail.Validate | rssant_common/detail.py:194-217 | the validator always covers all fields, accepts both booleans, and rejects values that are neither booleans nor text |
| Detail.FromSchema | rssant_common/detail.py:84-96 | a `Detail` is returned as it is; otherwise the result succeeds exactly when the schema's field lists parse, and is detailed exactly when the value is truthy |
| Detail.FlagValues | rssant_common/detail.py:195-207 | `true`/`1` and `True` include every field; `false`/`0` and `False` exclude exactly the extra fields, so the included fields are the plain fields |
| Detail.SelectValue | rssant_common/detail.py:143-148 | a list of names excludes every other field, and `-` excludes all of them |
| Detail.SignedValue | rssant_common/detail.py:149-155 | `+a!b` starts from the extra fields, removes the names of a and adds the known names of b, and `!b+a` means the same |
| Detail.ValidateParsed | rssant_common/detail.py:208-217 | the result of a parsed selection excludes what the selection says and is detailed exactly when some extra field is not excluded |
| Detail.SignedParse | rssant_common/detail.py:149-155 | two groups with different signs parse to their two name lists, each under its own sign |
| Detail.FlagMeansExtra | rssant_common/detail.py:216 | for a text that is not a flag, the result is detailed exactly when some extra field is included |
| Detail.SignInSelectRejected | rssant_common/detail.py:28-31 | the doctest inputs `f1+f2` and `a,b+c` are invalid detail values |
| Detail.RepeatedSignRejected | rssant_common/detail.py:150-151 | two groups with the same sign, such as `+a+b`, are invalid |
| Detail.BlankRejected | rssant_common/detail.py:133-137 | blank text matches none of the alternatives and is invalid |
| Detail.Doctests | rssant_common/detail.py:16-27 | the module doctest's four accepted values give the `Detail`s it lists |
| Cursors.KeysOf | rssant_common/cursor.py:11 | `set(self._items)`: exactly the keys a lookup finds |
| Cursors.CollectItems | rssant_common/cursor.py:23-31 | the loop over the segments builds the same dictionary as the reference fold, stopping at the first segment without a colon or with a key outside `keys` |
| Cursors.Filter | rssant_common/cursor.py:5-7 | the constructor keeps no empty value |
| Cursors.CollectOk | rssant_common/cursor.py:24-30 | parsing succeeds exactly when every segment holds a colon and an allowed key |
| Cursors.CollectFirstError | rssant_common/cursor.py:24-30 | the first failing segment decides the error: an invalid segment without a colon, an invalid key otherwise |
| Cursors.CollectLookup | rssant_common/cursor.py:24-31 | each parsed key holds the value of the last segment naming it |
| Cursors.CollectDistinct | rssant_common/cursor.py:31 | the parsed dictionary has distinct keys |
| Cursors.CollectKeysAllowed | rssant_common/cursor.py:29-31 | with `keys` given, every parsed key is one of them |
| Cursors.FilterLookup | rssant_common/cursor.py:5-7 | the constructor keeps exactly the keys whose value is neither `None` nor `''`, each with its value |
| Cursors.FilterKeepsDistinct | rssant_common/cursor.py:5-7 | filtering keeps the keys distinct |
| Cursors.FromStringOk | rssant_common/cursor.py:9-34 | `from_string` succeeds exactly when every segment passes and, with `keys` given, no key other than the empty one is missing after the filter |
| Cursors.FromStringResult | rssant_common/cursor.py:9-34 | a parsed cursor has distinct keys, only allowed keys, every required non-empty key, and for each key the value of its last segment unless that is empty |
| Cursors.EmptyValueIsMissing | rssant_common/cursor.py:6-33 | `from_string('a:', {'a'})` fails with `a` missing, because the constructor drops the empty value |
| Cursors.EmptyCursorUnreadable | rssant_common/cursor.py:19-37 | the empty cursor prints as `''`, which is an invalid segment |
| Cursors.ParseFormat | rssant_common/cursor.py:17-37 | parsing the printed text of items that print unambiguously gives them back |
| Cursors.RoundTrip | rssant_common/cursor.py:17-37 | `from_string(str(c), keys)` gives c's items back when they print unambiguously, every value is non-empty and `keys` is absent or exactly c's keys |
| Cursors.Cursor.Get | rssant_common/cursor.py:42-49 | a key reads back exactly when the cursor holds it |
| Cursors.Cursor.Set | rssant_common/cursor.py:45-52 | the assignment sets the key, leaves every other key, and keeps the keys distinct |
| Cursors.Cursor.CheckMissingKeys | rssant_common/cursor.py:9-15 | `_check_missing_keys` reports the missing keys exactly when their comma-join is non-empty |
| Cursors.Cursor.Str | rssant_common/cursor.py:36-37 | a non-empty cursor prints as non-empty text |
| Cursors.Cursor.FromString | rssant_common/cursor.py:17-34 | `from_string` returns a fresh cursor holding the reference result, or its error |
| CursorValidator.CompileKeys | django_rest_validr/validator.py:37-43 | a non-empty `keys` becomes a set of non-empty names without commas; an empty one stays text and an absent one admits every key |
| CursorValidator.Cursor.Get | django_rest_validr/validator.py:23-30 | a key reads back exactly when the cursor holds it |
| CursorValidator.Cursor.Set | django_rest_validr/validator.py:26-33 | the assignment sets the key, leaves every other key, and keeps the keys distinct |
| CursorValidator.Validate | django_rest_validr/validator.py:45-60 | the inner `validate` returns a fresh cursor holding the reference result, or its error |
| CursorValidator.CursorString | django_rest_validr/validator.py:65-71 | anything but a cursor is rejected, and a non-empty cursor prints as non-empty text |
| CursorValidator.ValidateOk | django_rest_validr/validator.py:45-60 | validation succeeds exactly when every segment holds a colon and an admitted key, `keys` is not the empty text, and every listed name is present |
| CursorValidator.KeysTextRejects | django_rest_validr/validator.py:39-57 | with `keys=''` every value is rejected |
| CursorValidator.ValidateResult | django_rest_validr/validator.py:48-60 | a validated cursor has distinct keys, exactly the listed names when there are any, and for each key the value of its last segment, empty or not |
| CursorValidator.EmptyValueKept | django_rest_validr/validator.py:55-60 | `a:` gives the item `a` with an empty value, which the common cursor drops |
| CursorValidator.RoundTrip | django_rest_validr/validator.py:45-71 | validating the `cursor_string` of items that print unambiguously gives them back, with or without their keys listed |
| CoerceUrl.CoerceUrl | rssant_common/helper.py:28-34 | the stripped url with `feed://` replaced by the default scheme, a url without `://` prefixed by it, and any other url unchanged |
| CoerceUrl.AlwaysHasScheme | rssant_common/helper.py:28-34 | every coerced url contains `://` |
| CoerceUrl.Idempotent | rssant_common/helper.py:28-34 | coercing a coerced url again with the same default scheme changes nothing, whenever the default scheme has no colon and no whitespace |
| CoerceUrl.GluedNotFeed | rssant_common/helper.py:30-31 | a default scheme other than `feed` glued in front never makes a url start with `feed://` |
| CoerceUrl.GluedIsStripped | rssant_common/helper.py:29-33 | a url built from a scheme name and a suffix of a stripped url is itself stripped, so a second `strip` leaves it alone |
| CoerceUrl.BareHostExample | rssant_common/helper.py:29-33 | `" example.com "` with the default `http` becomes `http://example.com` |
| CoerceUrl.FeedExample | rssant_common/helper.py:30-31 | `feed://example.com` with the default `https` becomes `https://example.com` |
| Shorten.Shorten | backdoor/helper.py:5-16 | an empty text or one within `width` is returned as is; a longer one is a prefix of it followed by the placeholder, and never longer than the larger of `width` and the placeholder |
| Shorten.ShortenLength | actorlib/helper.py:11-22 | a cut text is exactly `width` long when the placeholder fits in `width`, and is the placeholder alone otherwise |
| Shorten.ShortenDoctest | actorlib/helper.py:12-17 | the doctests: `shorten('123456789', width=8) == '12345...'` and `shorten('123456789', width=9) == '123456789'` |
| Shorten.ShortenIdempotent | backdoor/helper.py:5-16 | shortening a shortened text again with the same width changes nothing, whenever the placeholder fits in the width |
| Shorten.NewBackdoorRequest | backdoor/helper.py:19-24 | the request keeps its command, and its params are the given ones or an empty mapping when none are given |
| Executor.NormalizeConcurrency | actorlib/executor.py:19-31 | raises exactly for requests from -30 to -1, where there is no asyncio worker to divide by; otherwise at least one thread worker, the total is the two worker counts added, it equals the request from 2 on and is 2 for requests of 0 and 1, and the pending limit is at least 10 and at least a tenth of the total |
| Executor.NormalizeIdempotent | actorlib/executor.py:19-24 | for a non-negative request, normalizing the normalized total gives the same result |
| Executor.NegativeRequest | actorlib/executor.py:20-23 | -1 raises the division by zero; -31 gives a total of 0 with -1 asyncio workers and one thread worker |
| Executor.ThreadsDominate | actorlib/executor.py:20-21 | from two requested workers on, thread workers are never fewer than asyncio workers |
| Executor.AsyncWorkersStep | actorlib/executor.py:20 | every 30 more requested workers add one asyncio worker |
| Response.Value | rssant_feedlib/response.py:5-24 | every member's value is a negative code above -500 |
| Response.StatusOf | rssant_feedlib/response.py:5-47 | `FeedResponseStatus(value)` finds a member only with that value, and raises otherwise |
| Response.StatusOfValue | rssant_feedlib/response.py:5-24 | every member is found again from its value, so no two members share a value |
| Response.MemberName | rssant_feedlib/response.py:5-24 | a member's name is never empty and never starts with `E` |
| Response.MemberNameInjective | rssant_feedlib/response.py:5-24 | two members with the same name are the same member |
| Response.NameOf | rssant_feedlib/response.py:26-47 | the HTTP status name, or `HTTP_<value>` when the HTTP table does not know it, for positive values; otherwise `FEED_` and the member's name, or `FEED_E` and the absolute value when no member has it |
| Response.NameOfInjective | rssant_feedlib/response.py:43-47 | two non-positive codes with the same name are the same code |
| Response.KnownNotUnknown | rssant_feedlib/response.py:45-47 | the name of a member never coincides with the name of an unknown code |
| Response.NameOfDoctest | rssant_feedlib/response.py:28-35 | the doctests: 200 is `OK`, -200 is `FEED_CONNECTION_ERROR`, -999 is `FEED_E999` |
| Response.PermanentFailureRange | rssant_feedlib/response.py:61-71 | `is_permanent_failure` holds exactly for the codes from -399 to -200 |
| Response.PermanentMembers | rssant_feedlib/response.py:61-71 | the members that are permanent failures are exactly the connection, proxy, RSS proxy, DNS, private address, timeout, TLS, read timeout and reset errors |
| Response.NeedProxyShape | rssant_feedlib/response.py:49-93 | the positive statuses that call for a proxy are exactly 401 and 403, and the negative ones are members that are permanent failures |
| Response.NeedProxyAndDeny | rssant_feedlib/response.py:84-100 | a status both calls for a proxy and is a referrer denial exactly when it is 401 or 403 |
| Response.ClassifierDoctests | rssant_feedlib/response.py:50-81 | the doctests of `is_need_proxy`, `is_permanent_failure` and `is_referrer_deny` |
| Response.NewFeedResponse | rssant_feedlib/response.py:144-186 | the status defaults to 200, and the response is `ok` exactly when the status is absent or 200; the feed type defaults to OTHER; every other field is kept as given |
| ResponseBuilder.Classify | rssant_feedlib/response_builder.py:12-36 | the sniffer never answers OTHER; it answers JSON exactly on a leading `{` or `[`, and HTML exactly on a leading doctype, or when no XML marker but an HTML marker occurs; a leading `<?xml` or any XML marker otherwise gives XML |
| ResponseBuilder.StripLeftLower | rssant_feedlib/response_builder.py:25 | stripping leading whitespace commutes with lower-casing |
| ResponseBuilder.StripRightLower | rssant_feedlib/response_builder.py:25 | stripping trailing whitespace commutes with lower-casing |
| ResponseBuilder.LowerIdempotent | rssant_feedlib/response_builder.py:25 | lower-casing twice is lower-casing once |
| ResponseBuilder.CaseInsensitive | rssant_feedlib/response_builder.py:25 | lower-casing the body first gives the same head and the same content type |
| ResponseBuilder.OnlyHeadMatters | rssant_feedlib/response_builder.py:25 | bytes after the first 500 never change the content type |
| ResponseBuilder.ShortHead | rssant_feedlib/response_builder.py:25 | a body of at most 500 bytes with no surrounding whitespace is its own head, up to case |
| ResponseBuilder.DetectHtmlDoctest | rssant_feedlib/response_builder.py:18-19 | any capitalisation of `<!doctype html>` is HTML |
| ResponseBuilder.ClassifyDoctype | rssant_feedlib/response_builder.py:28-29 | the doctype head itself is HTML |
| ResponseBuilder.DetectJsonDoctest | rssant_feedlib/response_builder.py:20-21 | `{"hello": "world"}` is JSON |
| ResponseBuilder.CheckOutcome | rssant_feedlib/response_builder.py:84-102 | `check` answers a name only for a non-empty, known encoding, the answer is its normalized name, and that codec decodes the content |
| ResponseBuilder.EncodingChecker.constructor | rssant_feedlib/response_builder.py:80-82 | a new checker holds the content and an empty cache |
| ResponseBuilder.EncodingChecker.Check | rssant_feedlib/response_builder.py:84-102 | whether the verdict is cached or computed, `check` gives the reference outcome; the verdict is then cached under the normalized name, and every cached verdict remains the decoder's |
| ResponseBuilder.RemoveQuotes | rssant_feedlib/response_builder.py:66-69 | the header charset loses every single quote, and is unchanged when it has none |
| ResponseBuilder.ChardetEncoding | rssant_feedlib/response_builder.py:52-63 | raises exactly when cchardet guesses no encoding; otherwise the guess is lower-cased or becomes `utf-8`, a sure guess is never `ascii`, and an unsure ISO 8859 or Windows guess becomes `utf-8` |
| ResponseBuilder.SureAscii | rssant_feedlib/response_builder.py:60-62 | a sure ASCII guess is reported as UTF-8 |
| ResponseBuilder.Candidates | rssant_feedlib/response_builder.py:117-124 | the header's charset is tried only when a header is given, and the XML declaration's encoding is always the last candidate before cchardet |
| ResponseBuilder.FirstAccepted | rssant_feedlib/response_builder.py:119-128 | no answer exactly when every candidate is rejected; otherwise the answer is that of the first accepted candidate |
| ResponseBuilder.DetectContentEncoding | rssant_feedlib/response_builder.py:105-131 | the sequence of checks through one shared checker gives the reference outcome: the first accepted candidate, else the error when cchardet has no guess, else its accepted guess, else `utf-8` when UTF-8 decodes, else None |
| ResponseBuilder.CandidateOrder | rssant_feedlib/response_builder.py:119-126 | a header charset that decodes wins; failing that, the declaration's encoding wins when it decodes; the call raises exactly when both are rejected and cchardet has no guess |
| ResponseBuilder.ContentEncodingDecodes | rssant_feedlib/response_builder.py:105-131 | whatever encoding is returned decodes the first 2000 bytes, and None is returned only when UTF-8 fails too |
| ResponseBuilder.HeaderCharsetDoctest | rssant_feedlib/response_builder.py:107-108 | `b'hello'` with a `charset=utf-8` header is `utf-8` |
| ResponseBuilder.UnknownCharsetDoctest | rssant_feedlib/response_builder.py:109-110 | an unknown header charset falls through to the detector, whose sure ASCII guess becomes `utf-8` |
| FeedHelper.GroupNameOf | rssant_api/feed_helper.py:12-41 | a group whose upper case is a system id shows as that id's display name; any other group, the absent one included, is returned unchanged |
| FeedHelper.GroupIdOf | rssant_api/feed_helper.py:17-53 | a display name gives back its system id; anything else, the absent group included, is returned unchanged |
| FeedHelper.MapsInverse | rssant_api/feed_helper.py:12-17 | the id-to-name map and the name-to-id map are inverse to each other |
| FeedHelper.NameThenId | rssant_api/feed_helper.py:32-53 | naming a system id and mapping the name back gives the id in upper case; any other group that is not itself a display name comes back unchanged |
| FeedHelper.IdThenName | rssant_api/feed_helper.py:32-53 | a display name mapped to its id and shown again is the same display name |
| FeedHelper.SoloRoundTrip | rssant_api/feed_helper.py:12-41 | `SYS:SOLO` shows as its display name |
| FeedHelper.MushroomRoundTrip | rssant_api/feed_helper.py:12-41 | `SYS:MUSHROOM` shows as its display name |
| FeedHelper.SystemIdsAreUpper | rssant_api/feed_helper.py:12-41 | the system ids are upper case already, so their own spelling finds them |
| FeedHelper.SystemGroupFacts | rssant_api/feed_helper.py:20-29 | `is_system_group` ignores case (`sys:mushroom` is one), and neither the absent nor the empty group is one |
| FeedHelper.DisplayNamesAreNotSystem | rssant_api/feed_helper.py:12-29 | the display names are not system groups |
| FeedHelper.FeedAttrs | rssant_api/feed_helper.py:65-76 | the loop over fields and XML keys produces the reference attribute list of one feed |
| FeedHelper.AttrsAreWrittenFields | rssant_api/feed_helper.py:69-76 | the attributes are, in field order, one per set and non-empty field, a system group excepted, and nothing else |
| FeedHelper.CategoryIffUserGroup | rssant_api/feed_helper.py:66-74 | a `category` attribute is written exactly when the group is set, non-empty and not a system group |
| FeedHelper.KeysOfAttrs | rssant_api/feed_helper.py:69-76 | every attribute starts with the XML key of a written field |
| FeedHelper.AttrIn | rssant_api/feed_helper.py:69-76 | every written field's attribute is among the attributes |
| FeedAnalysis.ComputeGroupStats | rssant_cli/feed_analysis.py:54-62 | the loop over the feeds yields the number of feeds, the count under `True` of `use_proxy`, and a tally of each attribute's values |
| FeedAnalysis.GroupStatsCounts | rssant_cli/feed_analysis.py:54-62 | every tally sums to the number of feeds, each counts exactly the feeds with that value, and `use_proxy` the feeds that use the proxy |
| FeedAnalysis.BucketOfStatus | rssant_cli/feed_analysis.py:102-116 | the bucket of a response status, each bucket characterised both ways: `ok` exactly for 200 and 304, `neterr` for -299..-200, `deny` for 401 and 403, `4xx` for the rest of 400..499, `5xx` for 500..599 |
| FeedAnalysis.BucketOfLevel | rssant_cli/feed_analysis.py:117-127 | the bucket of a freeze level, each characterised both ways: `168+`, `12-167`, `4-11`, and `1-3` for everything below 4 |
| FeedAnalysis.ComputeRecordValues | rssant_cli/feed_analysis.py:98-128 | the two loops over the response statuses and the freeze levels build the domain's values in the order the source adds them |
| FeedAnalysis.RecordValuesMeaning | rssant_cli/feed_analysis.py:98-128 | a domain's values hold its total and proxy count as given and, under each bucket, the sum of the counts that fall in it; the status buckets add up to the status tally's total and the level buckets to the level tally's total |
| FeedAnalysis.RecordValuesGet | rssant_cli/feed_analysis.py:98-128 | reading one key of a domain's values: the total, the proxy count, or the sum of the counts in that bucket, and 0 for any other key |
| FeedAnalysis.StatusBucketsTotal | rssant_cli/feed_analysis.py:102-116 | each status lands in exactly one bucket, so the six bucket counts add up to the tally's total |
| FeedAnalysis.LevelBucketsTotal | rssant_cli/feed_analysis.py:117-127 | each level lands in exactly one bucket, so the four bucket counts add up to the tally's total |
| FeedAnalysis.BucketsCoverFeeds | rssant_cli/feed_analysis.py:98-128 | for the statistics of a list of feeds, the status buckets and the level buckets each add up to the number of feeds |
| FeedAnalysis.RecordDeltas | rssant_cli/feed_analysis.py:131-136 | one entry for each key of either side, with distinct keys, each the second value minus the first and a missing value read as 0 |
| FeedAnalysis.IndexByDomain | rssant_cli/feed_analysis.py:79-80 | the index has exactly the domains of the snapshot's items |
| FeedAnalysis.IndexByDomainLast | rssant_cli/feed_analysis.py:79-80 | when a domain appears more than once, its last item is the one kept |
| FeedAnalysis.RecordFor | rssant_cli/feed_analysis.py:89-93 | a domain's record holds its statistics from each snapshot, the empty statistics where it is missing, and the larger of the two totals |
| FeedAnalysis.Insert | rssant_cli/feed_analysis.py:94 | inserting a record into a list adds it to the list's multiset of records |
| FeedAnalysis.InsertSorted | rssant_cli/feed_analysis.py:94 | inserting into a list sorted by descending total keeps it sorted |
| FeedAnalysis.SortByTotal | rssant_cli/feed_analysis.py:94 | `sorted(..., key=total, reverse=True)` returns a permutation of the records sorted by descending total |
| FeedAnalysis.SameElements | rssant_cli/feed_analysis.py:94 | sorting keeps the set of domains, their distinctness and every record |
| FeedAnalysis.ComputeDomainRecords | rssant_cli/feed_analysis.py:78-95 | one record for each domain of either snapshot, with distinct domains, each as `RecordFor` builds it, sorted by descending total |
| FeedAnalysis.RecordsFor | rssant_cli/feed_analysis.py:89-93 | the loop over the set of domains appends exactly one record for each of them |
| FeedAnalysis.SortedRecords | rssant_cli/feed_analysis.py:94 | the sorted records keep the domains, their distinctness and the way each record was built |
| FeedAnalysis.KeyOf | rssant_cli/feed_analysis.py:151-161 | the row of the record at `index`, characterised both ways: its own domain among the first 30, otherwise `other:<total>` for totals up to 3 and `other:4-9`, `other:10-99`, `other:100+` above |
| FeedAnalysis.AddInto | rssant_cli/feed_analysis.py:166-171 | the loop `counter[k] += v` adds the given counter into the row's counter |
| FeedAnalysis.AddRecord | rssant_cli/feed_analysis.py:162-171 | one pass of the inner loop: the row is created empty when absent and grows by the record's total, its first values and its changes; every other row stays as it was |
| FeedAnalysis.ReportRows | rssant_cli/feed_analysis.py:150-171 | after the loop, the rows are exactly those some record adds into, and each holds the sums of the totals, first values and changes of those records |
| FeedAnalysis.ComputeReport | rssant_cli/feed_analysis.py:147-171 | the domain records of the two snapshots and, for each row, the sums of the records that add into it |
| FeedAnalysis.ReportStep | rssant_cli/feed_analysis.py:162-171 | the two passes of one record keep every row equal to the sums of the records seen so far |
| FeedAnalysis.RowGrows | rssant_cli/feed_analysis.py:163-171 | a row the record adds into grows by exactly that record's share |
| FeedAnalysis.AllRowSumsAll | rssant_cli/feed_analysis.py:162-164 | the `ALL` row holds the sum of every domain's total and exists exactly when there is a domain |
| FeedAnalysis.ReachedIff | rssant_cli/feed_analysis.py:150-162 | a row other than `ALL` exists exactly when some record's key is that row |
| FeedAnalysis.DomainRowIff | rssant_cli/feed_analysis.py:151-152 | a domain has a row of its own exactly when it is among the first 30 records |
| FeedAnalysis.OwnRow | rssant_cli/feed_analysis.py:151-171 | with distinct domains, the row of one of the first 30 domains holds exactly that domain's total, first values and changes |
| FeedAnalysis.NoChange | rssant_cli/feed_analysis.py:168-171 | when every domain has the same statistics in both snapshots, no row records a change |
| Scheduler.Decide | rssant_scheduler/scheduler.py:74-84 | while tasks come every call is allowed and nothing is recorded; without tasks the first call is allowed and recorded, and a later one is allowed exactly when at least 3 seconds have passed since the recorded call, which it then replaces |
| Scheduler.WorkerGetTaskService.constructor | rssant_scheduler/scheduler.py:69-72 | a new service assumes there is work and has no recorded call |
| Scheduler.WorkerGetTaskService.CheckCall | rssant_scheduler/scheduler.py:74-84 | `_check_call` answers and records as the reference decision, and leaves `_has_task` alone |
| Scheduler.WorkerGetTaskService.GetTask | rssant_scheduler/scheduler.py:86-92 | a throttled call returns nothing without asking; an allowed call returns the scheduler's answer and records whether a task came |
| Scheduler.RunStep | rssant_scheduler/scheduler.py:74-84 | each decision of a run without tasks is the decision on the time recorded by the calls before it |
| Scheduler.LastIsLatestAllowed | rssant_scheduler/scheduler.py:78-83 | the recorded time is that of the latest allowed call |
| Scheduler.RunSpacing | rssant_scheduler/scheduler.py:64-84 | with no task, two successive allowed calls are at least 3 seconds apart |
| Scheduler.FirstCallAllowed | rssant_scheduler/scheduler.py:78-80 | the first call of a fresh service without tasks is always allowed |
| TaskService.ToDict | rssant_harbor/task_service.py:33-40 | `to_dict` has exactly the five keys, each holding its own attribute |
| TaskService.DictRoundTrip | rssant_harbor/task_service.py:17-40 | the task is recovered from its dictionary, so `to_dict` loses nothing |
| TaskService.RssantTaskService.constructor | rssant_harbor/task_service.py:44-46 | a new service has an empty cache |
| TaskService.RssantTaskService.AddTask | rssant_harbor/task_service.py:48-49 | the task is appended at the back of the cache |
| TaskService.RssantTaskService.PickTask | rssant_harbor/task_service.py:51-54 | an empty cache gives None and stays empty; otherwise the front task is removed and returned |
| TaskService.RssantTaskService.Get | rssant_harbor/task_service.py:56-65 | a cached task is returned first; with an empty cache the fetched tasks are cached in order and the oldest of them is returned, or None when nothing was found |
| TaskService.Fifo | rssant_harbor/task_service.py:48-54 | first in, first out: over any sequence of adds and picks, each taken as `AddTask`'s or `PickTask`'s postcondition, the tasks picked followed by those still cached are the tasks cached before followed by those added, in order |
| DnsService.Lines | rssant_common/dns_service.py:36 | `splitlines` gives no lines exactly for the empty text, and no line it gives holds a line break |
| DnsService.LineLen | rssant_common/dns_service.py:36 | a line runs up to, and not including, the first line break |
| DnsService.LinesOfJoin | rssant_common/dns_service.py:36 | lines without breaks, the last one not empty, joined with newlines split back into the same lines |
| DnsService.ReadRecords | rssant_common/dns_service.py:34-39 | the loop filling the table one line at a time gives the reference reading, including its failure on the first malformed line |
| DnsService.CollectStops | rssant_common/dns_service.py:36-37 | once a line fails to unpack, the rest of the text does not matter |
| DnsService.CollectOk | rssant_common/dns_service.py:36-38 | reading succeeds exactly when every line has two fields |
| DnsService.CollectExact | rssant_common/dns_service.py:35-39 | a successful read holds exactly the hosts named by some line, and maps each to exactly the IPs of the lines naming it |
| DnsService.CollectError | rssant_common/dns_service.py:37 | the malformed line reported is the first line without exactly two fields |
| DnsService.SameHostTwice | rssant_common/dns_service.py:24-39 | two lines naming the same host, as the two `rsshub.app` lines of the built-in table do, give that host both IPs |
| DnsService.TwoWords | rssant_common/dns_service.py:37 | `ip host` splits into the IP and the host |
| DnsService.DNSService.constructor | rssant_common/dns_service.py:71-74 | the table is the given one, an absent table counting as empty, and the refreshed hosts are its hosts |
| DnsService.DNSService.Update | rssant_common/dns_service.py:76-80 | the table is replaced, not merged, and the host list is unchanged |
| DnsService.DNSService.Resolve | rssant_common/dns_service.py:82-91 | a host resolves to some IP exactly when `is_resolved_host` holds, and then to its recorded IPs |
| DnsService.DNSService.ResolveUrllib3 | rssant_common/dns_service.py:93-99 | a resolved host gives one of its recorded IPs; any other host is returned as is |
| DnsService.DNSService.ResolveAiohttp | rssant_common/dns_service.py:104-117 | one entry per recorded IP, no IP twice, each with the host name, the requested port, `AF_INET`, protocol 0 and `AI_NUMERICHOST`; no entry for an unresolved host |
| DnsService.HostSetMembers | rssant_common/dns_service.py:110-116 | the IPs of the entries are exactly the IPs the entries point at |
| Env.Cut | rssant_config/env.py:105-106 | a text cut at its separators gives one more run than separators, no run holds a separator, and every separator is `:`, `@` or `/` |
| Env.AssembleCut | rssant_config/env.py:105-106 | the runs and separators put back together give the text |
| Env.CutAssemble | rssant_config/env.py:105-106 | separator-free runs joined by separators are cut back into the same runs and separators |
| Env.CutPrefix | rssant_config/env.py:105-106 | a separator-free run in front is absorbed into the first run |
| Env.ParseStoryVolumes | rssant_config/env.py:92-121 | the loop over the comma-separated parts gives the reference result: the volumes read so far, or the error of the first part that does not match |
| Env.CollectVolumesStops | rssant_config/env.py:108-111 | once a part fails to match, the parts after it do not matter |
| Env.MatchVolumeText | rssant_config/env.py:95-120 | a part made of the seven groups, each of its character class, matches with exactly those groups, the volume and port read as numbers |
| Env.MatchVolumeShape | rssant_config/env.py:105-110 | every matching part is the seven groups it was read from, each of its character class |
| Env.DecimalValueIsInt | rssant_config/env.py:112-117 | `int()` of a digit group is the value the model reads |
| Env.CollectVolumesOk | rssant_config/env.py:108-111 | the list parses exactly when every comma-separated part matches |
| Env.CollectVolumesLast | rssant_config/env.py:107-121 | a parsed list holds exactly the volume numbers named, each with the settings of the last part naming it |
| Env.LaterDuplicateWins | rssant_config/env.py:112-113 | of two parts for the same volume number, the later one wins |
| Env.StoryVolumesDoctest | rssant_config/env.py:97-103 | `0:user:password@host:5432/db/table` gives volume 0 with port 5432 as a number |
| Env.ParseExtraNetworks | rssant_config/env.py:78-89 | the loop over the parts gives the reference result: no networks for an absent or empty text, otherwise one per part, or an error when a part holds no `@` or the list fails the schema |
| Env.NetworksStop | rssant_config/env.py:82-85 | once a part lacks `@`, the parts after it do not matter |
| Env.NetworksOfParts | rssant_config/env.py:82-87 | the parts split exactly when each holds an `@`; network `i` is then part `i` cut at its first `@`, so its name holds no `@` |
| Env.FieldCheck | rssant_config/env.py:123-130 | the checks pass exactly when a sentry DSN is given whenever sentry is enabled, and an SMTP host and a non-zero port are given whenever SMTP is enabled; a missing DSN is reported first |
| Env.FieldCheckOrder | rssant_config/env.py:124-130 | a missing SMTP host is reported only once the sentry check passes, and a missing SMTP port only once the host is given |
| Env.EnvConfig.constructor | rssant_config/env.py:22-76 | the loaded fields are kept and nothing is derived yet |
| Env.EnvConfig.PostInit | rssant_config/env.py:123-159 | a failing field check or network list raises before any derived field is set; otherwise the registry networks are the scheduler's followed by the extra ones, the current node's network has no url, and the story volumes are parsed or the error of the first bad part is raised |
| Env.DefaultVolumeOnly | rssant_config/env.py:148-158 | without `pg_story_volumes` there is exactly volume 0, on the main database, with table `story_volume_0` |
| ProxyWorker.Or | cloudflare_worker/rssant/index.js:145-147 | `a \|\| b` is `a` when it is truthy and `b` otherwise |
| ProxyWorker.EnvToken | cloudflare_worker/rssant/index.js:42-49 | the token is the `TOKEN` variable, or `rss-proxy` when it is not defined |
| ProxyWorker.TokenRule | cloudflare_worker/rssant/index.js:29-53 | a token is accepted exactly when it is the configured text and that text is not empty; by default only `rss-proxy` is accepted; `null`, `undefined` and non-texts never are |
| ProxyWorker.HeaderGet | cloudflare_worker/rssant/index.js:102-128 | `headers.get` gives a text exactly when the name is present, and `null` otherwise; a name with one entry gives that entry's value |
| ProxyWorker.ValuesNone | cloudflare_worker/rssant/index.js:102 | a name has values exactly when some entry carries it |
| ProxyWorker.HeaderGetAppend | cloudflare_worker/rssant/index.js:104 | after `append(name, v)`, `get(name)` gives the earlier values joined with `, ` and then `v`, or `v` alone, and every other name reads as before |
| ProxyWorker.ErrorResponse | cloudflare_worker/rssant/index.js:33-40 | an error reply has the given status and message as a plain UTF-8 text body |
| ProxyWorker.CopyListed | cloudflare_worker/rssant/index.js:100-119 | the copy loop appends, in list order, each listed header that has a non-blank value |
| ProxyWorker.ListedSound | cloudflare_worker/rssant/index.js:100-119 | a copied entry is a listed name with the non-blank value the source gives it |
| ProxyWorker.ListedComplete | cloudflare_worker/rssant/index.js:100-119 | every listed name with a non-blank value is copied with that value |
| ProxyWorker.ListedExact | cloudflare_worker/rssant/index.js:100-119 | an entry is copied exactly when its name is listed and the source gives it that non-blank value |
| ProxyWorker.HandleRequestGet | cloudflare_worker/rssant/index.js:90-124 | the handler gives the reference answer of the GET route |
| ProxyWorker.ProxyHeaders | cloudflare_worker/rssant/index.js:164-172 | the reply headers are every origin entry followed by the origin status, or a single `ERROR` status when `fetch` threw |
| ProxyWorker.HandleRssProxy | cloudflare_worker/rssant/index.js:126-174 | the handler gives the reference answer of the POST route |
| ProxyWorker.RouteOf | cloudflare_worker/rssant/index.js:55-64 | `POST /rss-proxy` and `GET /request.get` are the only routes, each exactly on its method and path |
| ProxyWorker.HandleRequest | cloudflare_worker/rssant/index.js:55-64 | the dispatcher gives the reference answer of the route |
| ProxyWorker.OnlyTwoRoutes | cloudflare_worker/rssant/index.js:55-64 | any other method or path is a 404, and the two routes are answered by their handlers |
| ProxyWorker.GetChecksOrder | cloudflare_worker/rssant/index.js:92-99 | on the GET route a blank url is a 400, and only then is an invalid token a 403 |
| ProxyWorker.PostChecksOrder | cloudflare_worker/rssant/index.js:128-173 | on the POST route the content type is checked first (400), then the token (403), then the url (400); a request passing all three is answered with status 200 |
| ProxyWorker.UnparseableBody | cloudflare_worker/rssant/index.js:132-136 | a JSON request whose body does not parse is a 400 |
| ProxyWorker.ProxyReply | cloudflare_worker/rssant/index.js:152-173 | on success the origin's headers come back in full followed by its status, with its body; on a fetch error only the `ERROR` mark, with the error text as the body |
| ProxyWorker.ProxyDefaults | cloudflare_worker/rssant/index.js:145-158 | the forwarded request has the given url and body, the method defaults to `GET` and the headers to `{}`, and a given truthy method is kept |
| ProxyWorker.GetForwarding | cloudflare_worker/rssant/index.js:100-123 | the GET route forwards exactly the listed request headers that have a value, and replies with the origin status and exactly the listed response headers that have a value |
| StateV1.BeginValid | actorlib/state.py:109-125 | `apply_begin` keeps the state invariant: distinct ids, counters equal to the messages in each status, every registered child under a parent in SEND |
| StateV1.MarkDoneValid | actorlib/state.py:131-149 | marking a pending or unknown message done keeps the invariant |
| StateV1.OldestDoneFacts | actorlib/state.py:253-262 | the first loop of the compaction picks distinct done messages, the oldest ones, as many as asked for or all of them |
| StateV1.CompactValid | actorlib/state.py:252-266 | compaction keeps the invariant |
| StateV1.DoneValid | actorlib/state.py:127-152 | `apply_done` keeps the invariant |
| StateV1.MsgIds | actorlib/state.py:176-178 | the ids of the children, in order |
| StateV1.RegisterLookup | actorlib/state.py:176-177 | after `apply_send` every child is registered under the parent, every other registration stays, and ids stay distinct |
| StateV1.FreshLookup | actorlib/state.py:175-178 | every child starts in BEGIN with no retries, and only the children are listed |
| StateV1.FreshDistinct | actorlib/state.py:175-178 | the child states have distinct ids |
| StateV1.SendValid | actorlib/state.py:164-182 | `apply_send` keeps the invariant |
| StateV1.ParentFound | actorlib/state.py:188-192 | in a valid state `_check_parent_send_state` and the child lookup fail only for an unregistered child, which raises `MessageNotExistsError` |
| StateV1.ChildrenValid | actorlib/state.py:192-212 | rewriting the children of a parent in SEND without dropping any keeps the invariant |
| StateV1.AckValid | actorlib/state.py:184-203 | `apply_ack` keeps the invariant |
| StateV1.RetryValid | actorlib/state.py:205-213 | `apply_retry` keeps the invariant |
| StateV1.RestartValid | actorlib/state.py:215-224 | `apply_restart` keeps the invariant |
| StateV1.StatusesPartition | actorlib/state.py:31-37 | every message is in exactly one of BEGIN, SEND and done |
| StateV1.CountersAddUp | actorlib/state.py:229-235 | in every valid state the three counters add up to the number of messages, so the assertion of `_check_num_messages` never fails |
| StateV1.CompactKeepsNewest | actorlib/state.py:252-266 | compaction keeps at most `max_done_size` done messages, the newest ones in their order, and leaves every other message as it was |
| StateV1.DoneOutcome | actorlib/state.py:127-152 | `apply_done` returns the id, the status and the message fields, leaves the message done with no children, unregisters its children, and keeps at most `max_done_size` done messages |
| StateV1.DoneTwice | actorlib/state.py:131-136 | a message that is done cannot be done again |
| StateV1.BeginOutcome | actorlib/state.py:109-125 | `apply_begin` raises `DuplicateMessageError` exactly for a message present and not in ERROR or ERROR_NOTRY, and otherwise `TooManyMessagesError` exactly when more than `max_pending_size` are pending; on success the message is in BEGIN with its fields, nothing else changes, and the counters add up |
| StateV1.SendOutcome | actorlib/state.py:164-182 | `apply_send` moves the message from the BEGIN count to the SEND count, starts exactly its children in BEGIN with no retries, and registers each child under the message |
| StateV1.AllOkAssign | actorlib/state.py:193-197 | after the ack is recorded, every child is OK exactly when the ack is OK and every other child was OK already |
| StateV1.AckOutcome | actorlib/state.py:184-203 | an ack of a registered child never fails: ERROR_NOTRY completes the parent as ERROR_NOTRY; OK completes it as OK when every other child is OK, and otherwise unregisters only that child; ERROR records the status and nothing more |
| StateV1.RetryOutcome | actorlib/state.py:205-213 | `apply_retry` on a registered child adds one to its count and changes nothing else |
| StateV1.RestartOutcome | actorlib/state.py:215-224 | `apply_restart` deletes exactly the messages in BEGIN, sets the BEGIN count to 0, and leaves everything else |
| StateV1.LimitsCheck | actorlib/state.py:49-54 | the constructor accepts exactly positive limits, and checks the pending limit first |
| StateV1.ActorState.constructor | actorlib/state.py:46-80 | a new state is empty, valid, and holds the given limits |
| StateV1.ActorState.ApplyBegin | actorlib/state.py:109-125 | the in-place `apply_begin` keeps the invariant and does what the reference transition does, leaving the state unchanged when it raises |
| StateV1.ActorState.CollectOldestDone | actorlib/state.py:256-262 | the loop collects the ids of the oldest `skip` done messages, in order |
| StateV1.ActorState.CompactDone | actorlib/state.py:252-266 | the in-place compaction is the reference compaction |
| StateV1.ActorState.ApplyDone | actorlib/state.py:127-152 | the in-place `apply_done` keeps the invariant, returns what the reference transition returns, and leaves the state unchanged when it raises |
| StateV1.ActorState.ApplySend | actorlib/state.py:164-182 | the in-place `apply_send` keeps the invariant and does what the reference transition does, leaving the state unchanged when it raises |
| StateV1.ActorState.ApplyAck | actorlib/state.py:184-203 | the in-place `apply_ack` keeps the invariant, returns what the reference transition returns, and leaves the state unchanged when it raises |
| StateV1.ActorState.ApplyRetry | actorlib/state.py:205-213 | the in-place `apply_retry` keeps the invariant and does what the reference transition does, leaving the state unchanged when it raises |
| StateV1.ActorState.CollectBegin | actorlib/state.py:217-220 | the loop collects the ids of the messages in BEGIN, in order |
| StateV1.ActorState.ApplyRestart | actorlib/state.py:215-224 | the in-place `apply_restart` keeps the invariant and is the reference transition |
| StateV2.AddMember | actorlib/state2.py:64-66 | `set.add`: the members grow by exactly the one added |
| StateV2.DiscardMember | actorlib/state2.py:67-68 | `set.discard`: the members lose exactly the one discarded |
| StateV2.WithDone | actorlib/state2.py:45 | writing one done set of the nested default dict changes that set and no other |
| StateV2.NotifyOutcome | actorlib/state2.py:62-68 | `apply_notify` adds the node to `upstream[dst]` or discards it, and changes nothing else |
| StateV2.InboxOutcome | actorlib/state2.py:70-79 | `apply_inbox` raises `DuplicateMessageError`, changing nothing, exactly for a known id not in ERROR or ERROR_NOTRY; otherwise the message is INBOX, not acked, its object stored, and nothing else changes |
| StateV2.ExecuteOutcome | actorlib/state2.py:81-91 | `apply_execute` raises `MessageNotExistsError` for an unknown id and `InvalidStatusError` for one not in INBOX, both with no change; otherwise the message is EXECUTE and its object loses its content |
| StateV2.FreshOutboxLookup | actorlib/state2.py:108-110 | every outbox message gets a fresh `{OUTBOX, 0, None}` state, and no other id gets one |
| StateV2.AddObjectsOther | actorlib/state2.py:109-111 | an id no outbox message has keeps its object |
| StateV2.AddObjectsLast | actorlib/state2.py:109-111 | an id holds the last outbox message with that id |
| StateV2.OutboxOutcome | actorlib/state2.py:93-112 | `apply_outbox` rejects, with no change and in this order, an empty list, an unknown id, a status other than EXECUTE and a child naming another parent; otherwise the message is OUTBOX with exactly one fresh state per child, and nothing else changes |
| StateV2.CompleteOutcome | actorlib/state2.py:135-156 | `apply_complete` records an unknown id as completed with its status, which must be final; a known id must be INBOX or done and not yet acked; it is then acked, takes the given status if any, and leaves its upstream's done set |
| StateV2.CompleteTwice | actorlib/state2.py:143-145 | completing a message a second time raises "already complete acked" |
| StateV2.SetChildFacts | actorlib/state2.py:171-177 | updating one outbox state in place touches nothing else |
| StateV2.DoneOutcome | actorlib/state2.py:114-133 | `apply_done` rejects, in order, a non-final status, an unknown id and a status other than EXECUTE or OUTBOX; then the outbox objects go and the message is done: one needing an ack waits, not acked, in its upstream's done set; one needing none is completed at once |
| StateV2.DoneLeavesFinal | actorlib/state2.py:130 | a successful `apply_done` leaves the message with that final status |
| StateV2.DoneTwice | actorlib/state2.py:121-124 | a message cannot be done twice |
| StateV2.ExportOutcome | actorlib/state2.py:158-181 | `apply_export` moves an outbox message from OUTBOX to EXPORT, with its `retry_at` when it needs an ack and acked OK at once when it needs none; any other outbox status raises |
| StateV2.AllOkAssign | actorlib/state2.py:205-209 | after the ack is recorded, every outbox message is OK exactly when the ack is OK and every other one was OK already |
| StateV2.AckedOutcome | actorlib/state2.py:183-214 | `apply_acked` rejects an unknown object, a non-final status, a bad parent and an outbox message not in EXPORT; ERROR_NOTRY finishes the parent as ERROR_NOTRY; OK finishes it as OK when every other outbox message is OK, and otherwise leaves a bare `{status: OK}` and the message reduced to its meta; ERROR is recorded and waits for a retry |
| StateV2.AckedFinishes | actorlib/state2.py:205-211 | an ERROR_NOTRY ack, or the OK ack of the last outbox message not yet OK, finishes a parent that needs an ack with that status |
| StateV2.RetryOutcome | actorlib/state2.py:216-244 | `apply_retry` puts an ERROR or EXPORT outbox message back to OUTBOX with its executed count raised by one, or, given a count, an OUTBOX one with that count; other statuses raise, and nothing else changes |
| StateV2.DoneEachOutcome | actorlib/state2.py:252-253 | `apply_done(ERROR)` over distinct executing messages marks each ERROR, acked at once when it needs no ack, and leaves the rest |
| StateV2.RestartOutcome | actorlib/state2.py:246-253 | `apply_restart` turns every EXECUTE message into ERROR, acked at once when it needs no ack, and leaves every other message as it was |
| StateV2.CompleteMoves | actorlib/state2.py:135-156 | `apply_complete` with a final status leaves every message's status unchanged or final |
| StateV2.DoneMoves | actorlib/state2.py:114-133 | `apply_done` leaves every message's status unchanged or final |
| StateV2.AckedMoves | actorlib/state2.py:183-214 | `apply_acked` leaves every message's status unchanged or final |
| StateV2.ExportMoves | actorlib/state2.py:158-181 | `apply_export` leaves every message's status unchanged or final |
| StateV2.RetryMoves | actorlib/state2.py:216-244 | `apply_retry` changes no message's status |
| StateV2.DoneEachMoves | actorlib/state2.py:246-253 | `apply_restart`'s loop leaves every message's status unchanged or final |
| StateV2.StatusMoves | actorlib/state2.py:59-253 | no `apply` call moves a message's status outside INBOX -> EXECUTE -> OUTBOX -> final, or back to INBOX from ERROR or ERROR_NOTRY, except `apply_complete` given a non-final status for a known message, which writes it unchecked |
| StateV2.ActorState2.constructor | actorlib/state2.py:39-47 | a new state is empty |
| StateV2.ActorState2.ApplyNotify | actorlib/state2.py:62-68 | the in-place `apply_notify` is the reference transition |
| StateV2.ActorState2.ApplyInbox | actorlib/state2.py:70-79 | the in-place `apply_inbox` raises and updates as the reference transition does |
| StateV2.ActorState2.ApplyExecute | actorlib/state2.py:81-91 | the in-place `apply_execute` raises and updates as the reference transition does |
| StateV2.ActorState2.ApplyOutbox | actorlib/state2.py:93-112 | the parent-checking loop and the state-building loop together raise and update as the reference transition does |
| StateV2.ActorState2.DropObjects | actorlib/state2.py:127-129 | the pop loop removes exactly the outbox message objects |
| StateV2.ActorState2.ApplyDone | actorlib/state2.py:114-133 | the in-place `apply_done` raises and updates as the reference transition does |
| StateV2.ActorState2.ApplyComplete | actorlib/state2.py:135-156 | the in-place `apply_complete` raises and updates as the reference transition does |
| StateV2.ActorState2.PutChild | actorlib/state2.py:177 | one outbox state is written back through its parent |
| StateV2.ActorState2.ApplyExport | actorlib/state2.py:158-181 | the in-place `apply_export` raises and updates as the reference transition does |
| StateV2.ActorState2.ApplyAcked | actorlib/state2.py:183-214 | the in-place `apply_acked` raises and updates as the reference transition does |
| StateV2.ActorState2.ApplyRetry | actorlib/state2.py:216-244 | the in-place `apply_retry` raises and updates as the reference transition does |
| StateV2.ActorState2.CollectExecuting | actorlib/state2.py:248-251 | the loop collects the ids still executing, in order |
| StateV2.ActorState2.ApplyRestart | actorlib/state2.py:246-253 | the in-place `apply_restart` raises and updates as the reference transition does |
| StateV2.ActorState2.ApplyItem | actorlib/state2.py:59-60 | `apply(type, **kwargs)` dispatches to the transition the item names |
| StateV2Dump.OutboxMessages | actorlib/state2.py:292-297 | the `outbox` item lists the outbox message objects in the order of the outbox states, and fails with `KeyError` exactly when one of them is missing |
| StateV2Dump.DoneNotReplayable | actorlib/state2.py:275-280 | a message that needs an ack, executed and done is reached without error, is dumped as a lone `done` item, and that item replayed on a fresh state raises `MessageNotExistsError` |
| StateV2Replay.ReplayConcat | actorlib/state2.py:59-60 | applying the items of `a + b` is applying `a`, then, unless that raised, `b` |
| StateV2Replay.OutboxReplay | actorlib/state2.py:255-299 | the items dumped for a message in OUTBOX replay without error to the message in OUTBOX with the same outbox states, its object and those of its outbox messages stored |
| StateV2Replay.ReplayEntry | actorlib/state2.py:273-299 | the items dumped for the next message state replay without error and rebuild one message state more, with its objects and done ids |
| StateV2Replay.ReplayEntries | actorlib/state2.py:273-299 | the loop over all message states replays without error and rebuilds every message state in order |
| StateV2Replay.NodesReplay | actorlib/state2.py:301-302 | the available `notify` items of one `dst` add exactly its nodes to `upstream[dst]` and change nothing else |
| StateV2Replay.UpstreamReplay | actorlib/state2.py:300-302 | the `notify` items of every `dst` rebuild the upstream node sets and change nothing else |
| StateV2Replay.ReplayDump | actorlib/state2.py:272-302 | for every state meeting `Valid`, the dump (with a done message waiting for its ack dumped as `inbox`, `execute`, `done`) replayed on a fresh state raises nothing and gives back the message states in order, the objects they need, the done ids and the upstream nodes |
| StateV2Replay.FreshValid | actorlib/state2.py:37-45 | a fresh state meets `Valid` |
| StateV2Replay.CompleteWithoutStatusInvalid | actorlib/state2.py:135-150 | `apply_complete` without a status on an INBOX message succeeds and leaves a state outside `Valid`: the message stays INBOX with `is_acked` set |
| StateV2Tests.InboxExecuteOutbox | actorlib/state2.py:70-112 | a fresh state accepts `inbox` of the parent, then `execute`, then `outbox` with one child, and the parent ends in OUTBOX with the child's outbox state at count 0 and the child's object stored |
| StateV2Tests.ExportRetry | actorlib/state2.py:158-244 | for any count, `export` moves the child from OUTBOX to EXPORT, `retry` from EXPORT or ERROR puts it back in OUTBOX with the count one higher, and an ERROR ack moves it from EXPORT to ERROR, each without error |
| StateV2Tests.AckComplete | actorlib/state2.py:183-214 | the OK ack of the only child drops the child's object, marks the parent done OK (waiting for its own ack) and records it as done for its source node; `complete` then acks the parent and removes it from the done ids |
| StateV2Tests.InboxToOutbox | actorlib/tests/test_state.py:88-91 | the test's first three steps, followed by any further items, replay as those items replayed from the parent in OUTBOX |
| StateV2Tests.ExportThenRetry | actorlib/tests/test_state.py:92-93 | an export followed by a retry takes the child back to OUTBOX with count 1, whatever follows |
| StateV2Tests.ExportErrorRetry | actorlib/tests/test_state.py:94-97 | an export, an ERROR ack and a retry take the child back to OUTBOX with count 2, whatever follows |
| StateV2Tests.ExportOkComplete | actorlib/tests/test_state.py:98-100 | an export, an OK ack and the parent's completion end in the completed parent, whatever follows |
| StateV2Tests.RetryCompleteAccepted | actorlib/tests/test_state.py:88-103 | the whole sequence of `test_inbox_execute_outbox_retry_complete` raises nothing; the parent ends acked with status OK and the child's object is gone |
| StorageState.DropKeepsOthers | actorlib/storage.py:197-204 | skipping `done` items keeps every other item, in order |
| StorageState.DropRemovesEarliest | actorlib/storage.py:196-204 | skipping removes the earliest `done` items, as many as asked for or all of them |
| StorageState.SplitCount | actorlib/storage.py:197-203 | every dumped item is either a `done` item or not, so the two counts add up to the length |
| StorageState.CompactKeeps | actorlib/storage.py:191-205 | `compact(limit)` returns the dump itself with no limit or when it fits; otherwise it removes only `done` items, earliest first, keeps the order of the rest and has `max(limit, #non-done)` items |
| StorageState.DoneOutcome | actorlib/storage.py:93-99 | `apply_done` records the status, unregisters exactly the message's own children from `_send_messages`, keeps every other entry and appends the id to the done ids |
| StorageState.RetryOutcome | actorlib/storage.py:121-124 | `apply_retry` raises the child's count by one and changes nothing else |
| StorageState.AckOutcome | actorlib/storage.py:108-119 | an ERROR_NOTRY ack, or an OK ack when every sibling is OK, finishes the parent with that status and unregisters its children; an OK ack with a sibling not OK unregisters only that child and leaves the parent as it was |
| StorageState.AllOkIff | actorlib/storage.py:114-116 | after an OK assignment to one child, every child is OK exactly when every other child already was |
| StorageState.DoneRecordsFacts | actorlib/storage.py:139-145 | `pop_done_messages` reports exactly the ids marked done since the last pop, each with its status and source node |
| StorageState.DoneRecordsStuck | actorlib/storage.py:141-143 | once a done id without a source node raises `KeyError`, every longer prefix raises too |
| StorageState.LoadConcat | actorlib/storage.py:147-155 | loading two logs one after the other is loading the first and then, unless it raised, the second |
| StorageState.PartialAckBreaksDump | actorlib/storage.py:114-119 | after `begin`, a `send` of two children and an OK ack of one, the load raises nothing but `_dump` raises `KeyError`: the acked child was unregistered and `_dump` looks every child up |
| StorageState.RegisteredOk | actorlib/storage.py:170 | the registrations of a message's children can be read when every child is registered |
| StorageState.AckItemsOk | actorlib/storage.py:172-184 | the retry and ack items of a message's children raise nothing when every child is BEGIN or done |
| StorageState.EntriesDumpOk | actorlib/storage.py:162-186 | the items of a run of entries raise nothing when each entry is done, BEGIN, or SEND with its children, every child registered and BEGIN or done |
| StorageState.DumpableDumps | actorlib/storage.py:161-189 | `dump()` raises nothing on a state where every entry can be written that way and no child belongs to two messages |
| StorageState.EmptyDumpable | actorlib/storage.py:65-82 | a new state can be dumped |
| StorageState.BeginKeeps | actorlib/storage.py:84-91 | `apply_begin` keeps the state dumpable, on a duplicate as well |
| StorageState.DoneKeeps | actorlib/storage.py:93-99 | `apply_done` with a done status keeps the state dumpable: the children it unregisters belong to no other message |
| StorageState.EntryOkGrows | actorlib/storage.py:102-104 | registering more children keeps every entry writable |
| StorageState.SendKeeps | actorlib/storage.py:101-106 | `apply_send` of children no other message lists keeps the state dumpable, whether or not the parent is known |
| StorageState.ChildStatusOk | actorlib/storage.py:109-110 | in a dumpable state, a child found through its registration and its parent is BEGIN or done |
| StorageState.SetChildKeeps | actorlib/storage.py:110 | replacing a child's state by a BEGIN or done one keeps the state dumpable, since the parent lists the same children |
| StorageState.RetryKeeps | actorlib/storage.py:121-124 | `apply_retry` keeps the state dumpable |
| StorageState.AckFixedKeeps | actorlib/storage.py:108-119 | an ack with a done status that leaves the child registered while its parent is open keeps the state dumpable |
| StorageState.ApplyFixedKeeps | actorlib/storage.py:147-150 | with that ack, every item whose statuses are done and whose `send` lists new children keeps the state dumpable |
| StorageState.LoadFixedDumps | actorlib/storage.py:152-155 | with that ack, `dump()` raises nothing after loading any such log into a new state, wherever the load stopped |
| StorageState.PartialAckDumpsFixed | actorlib/storage.py:114-119 | with that ack, the log that breaks `dump()` loads without a raise and `dump()` raises nothing |
| StorageState.ActorState.constructor | actorlib/storage.py:65-82 | a new state has no entries, no registrations and no done ids |
| StorageState.ActorState.ApplyBegin | actorlib/storage.py:84-91 | an id present and not ERROR or ERROR_NOTRY is appended to the done ids and raises `DuplicateMessageError`; otherwise the entry becomes BEGIN with its source node |
| StorageState.ActorState.ApplyDone | actorlib/storage.py:93-99 | the new state is the `apply_done` outcome, the children popped one by one |
| StorageState.ActorState.ApplySend | actorlib/storage.py:101-106 | the children are registered with their parent and start in BEGIN with count 0; an unknown parent raises `KeyError` after the registration |
| StorageState.ActorState.ApplyAck | actorlib/storage.py:108-119 | the new state and the raise are those of the `apply_ack` outcome |
| StorageState.ActorState.ApplyRetry | actorlib/storage.py:121-124 | the new state and the raise are those of the `apply_retry` outcome |
| StorageState.ActorState.PopDoneMessages | actorlib/storage.py:139-145 | returns the done records and empties the done ids; a raise leaves the list as it was |
| StorageState.ActorState.Apply1 | actorlib/storage.py:147-150 | `apply` dispatches one item to its operation |
| StorageState.ActorState.LoadItems | actorlib/storage.py:152-155 | `load` applies the items in order and stops at the first raise |
| StorageState.ActorState.Compact | actorlib/storage.py:191-205 | the loop returns the compaction of the dump, or the dump's `KeyError` |
| Queue2.MinIndexLeast | actorlib/queue2.py:136-151 | the entry `heappop` takes has the least priority, and every entry before it a higher one |
| Queue2.WithoutFacts | actorlib/queue2.py:136-151 | taking one entry out of a heap keeps every other entry, in order |
| Queue2.PopFacts | actorlib/queue2.py:136-151 | `heappop` takes out exactly one entry, of least priority, and keeps the rest |
| Queue2.BoxesSizeAssign | actorlib/queue2.py:103-106 | writing one box changes the outbox total by the difference of the box sizes |
| Queue2.NodeBoxesSizeAssign | actorlib/queue2.py:105-106 | writing one node's dict changes the node-specific total by the difference of its sizes |
| Queue2.PushFiles | actorlib/queue2.py:187-193 | `push_outbox` files the message in the box of its destination node (when set and not empty) and destination, leaves every other box, the inbox and the fetcher alone, and grows `outbox_size()` by one |
| Queue2.PushAllSize | actorlib/queue2.py:103-148 | pushing a list of outbox messages grows `outbox_size()` by its length and leaves the inbox and the fetcher alone |
| Queue2.PushWellFormed | actorlib/queue2.py:187-193 | `push_outbox` keeps every dict of the queue with distinct keys |
| Queue2.PushAllWellFormed | actorlib/queue2.py:147-148 | so does pushing a list |
| Queue2.Tagged | actorlib/queue2.py:202-204 | each destination of a node dict is paired with its node |
| Queue2.KeysWhereNonEmpty | actorlib/queue2.py:198-200 | a destination is listed exactly when its generic box is not empty |
| Queue2.NodeInfoExact | actorlib/queue2.py:201-204 | a (node, destination) pair is listed exactly when its node-specific box is not empty |
| Queue2.OutboxInfoExact | actorlib/queue2.py:195-205 | `outbox_info` lists exactly the non-empty boxes, each destination once |
| Queue2.AutoFetchedStep | actorlib/queue2.py:213-235 | `auto_schedule_fetcher` leaves the heaps alone and schedules at most one fetcher, never while one is outstanding; when it schedules none, the queue was fetching, the outbox over its high size, the inbox over its low size, or no upstream node could be sampled |
| Queue2.FetchGrowthTrans | actorlib/queue2.py:179-181 | two such steps make one: between two `on_fetcher_done` calls at most one fetcher is scheduled |
| Queue2.SubsetOfSize | actorlib/queue2.py:207-211 | `random.sample` of a set can always return a subset of any size up to the set's |
| Queue2.ExecuteOne | actorlib/queue2.py:137-143 | after the pop, a pass that raises nothing keeps the message exactly when it has not expired; a kept message raised nothing, and any error is a state error |
| Queue2.CompleteAfterExecuteRaises | actorlib/queue2.py:138-141 | `apply_complete(status=ERROR_NOTRY)` right after a successful `apply_execute` raises, because EXECUTE is not a status it accepts |
| Queue2.ExecuteOneExpiredRaises | actorlib/queue2.py:137-142 | with the queue's own state steps, an expired message always makes the pass raise |
| Queue2.ExecuteRunNeverSkips | actorlib/queue2.py:134-143 | `op_execute` pops exactly one message and raises when it has expired: it never skips one |
| Queue2.PopDistinct | actorlib/queue2.py:136 | after a pop, the heap left has distinct ids and none equal to the popped one's |
| Queue2.ExpiredSkippedFixed | actorlib/queue2.py:137-142 | with the corrected step, an expired INBOX message is completed as ERROR_NOTRY and acked, nothing raises and the loop goes on |
| Queue2.UnexpiredSameFixed | actorlib/queue2.py:137-143 | the corrected step treats a message that has not expired exactly as the source's |
| Queue2.ReadyAfterComplete | actorlib/queue2.py:141 | completing one ready inbox message leaves every other one ready |
| Queue2.FixedRunNeverRaises | actorlib/queue2.py:134-143 | the corrected loop over ready messages with distinct ids returns a message or finds the heap empty, and never raises a state error |
| Queue2.ExecuteRunTaken | actorlib/queue2.py:134-143 | `op_execute` takes out of the inbox exactly the messages it pops |
| Queue2.ExecuteRunOrder | actorlib/queue2.py:134-143 | `op_execute` pops messages in ascending priority |
| Queue2.ExecuteRunLeast | actorlib/queue2.py:134-143 | no message `op_execute` pops has a higher priority than one it leaves in the inbox |
| Queue2.ExecuteRunResult | actorlib/queue2.py:134-143 | for any state steps, a returned message has not expired and every message popped before it had; an empty heap (`IndexError`) ends the loop only when every popped message had expired |
| Queue2.Backoff | actorlib/queue2.py:237-240 | the delay is the smaller of `8 ** executed_count` seconds plus the random jitter and `max_retry_time` |
| Queue2.ExportOne | actorlib/queue2.py:150-160 | after the pop, a pass that raises nothing keeps the message exactly when it has not expired, and a kept message raised nothing; a missing outbox state of one that has not expired raises with the state untouched |
| Queue2.AckNotryNeedsExport | actorlib/state2.py:195-210 | `apply_acked(status=ERROR_NOTRY)` succeeds only on an EXPORT outbox message and raises on one in any other status |
| Queue2.ExportOneExpiredRaises | actorlib/queue2.py:150-154 | an expired outbox message that is not EXPORT, as every one waiting in an outbox heap is OUTBOX, makes `_export_box` raise |
| Queue2.ChildOfAfterSet | actorlib/state2.py:177-179 | after an outbox state is replaced, the outbox message is found under the same parent with the new state |
| Queue2.ExpiredExportFixed | actorlib/queue2.py:150-154 | with the corrected branch, an expired OUTBOX message that needs an ack is dropped without error and finishes its parent as ERROR_NOTRY |
| Queue2.ExportBoxBound | actorlib/queue2.py:167-171 | a drain only appends, never past `maxsize`, and stops without error only when the box is empty or `maxsize` is reached |
| Queue2.ExportBoxTaken | actorlib/queue2.py:150-171 | a drain takes out of the box exactly the messages it pops |
| Queue2.ExportBoxContents | actorlib/queue2.py:150-171 | without an error, a drain returns exactly the popped messages that have not expired, in the order popped |
| Queue2.SetNodeBoxRead | actorlib/queue2.py:165-168 | the drained node-specific box is the one read back, and the generic boxes are untouched |
| Queue2.ExportRunSplit | actorlib/queue2.py:162-173 | `op_export` drains the node-specific box, keeps what is left of it, then drains the generic box |
| Queue2.DrainFacts | actorlib/queue2.py:167-171 | an error-free drain adds at most up to `maxsize`, only messages of the box, none expired, and stops short of `maxsize` only once the box is empty |
| Queue2.ExportOrder | actorlib/queue2.py:162-173 | `op_export` returns at most `maxsize` messages, none expired, the node-specific ones first and generic ones only once the node-specific box is empty; a node dict without a box for `dst` raises `KeyError` |
| Queue2.SetNodeBoxWellFormed | actorlib/queue2.py:165-168 | writing the node-specific box back keeps the dicts well formed |
| Queue2.ExportWellFormed | actorlib/queue2.py:162-173 | `op_export` keeps the dicts well formed |
| Queue2.UnexpiredFacts | actorlib/queue2.py:152-160 | the messages kept are among those popped, and none has expired |
| Queue2.ChildPicksExact | actorlib/queue2.py:248-256 | for one message, an outbox id is picked for ERROR_NOTRY exactly when it is EXPORT, due and out of retries, and for retry exactly when it is due and not out of retries |
| Queue2.PickedExact | actorlib/queue2.py:242-256 | over all messages in OUTBOX, the two lists pick exactly the due outbox states, split by whether they used up their retries |
| Queue2.RetryAllFrame | actorlib/queue2.py:259-266 | the retry loop never touches the inbox or the fetcher fields, and does the same whatever they are |
| Queue2.RetryStepFrame | actorlib/queue2.py:260-266 | so does one pass of it |
| Queue2.RetryAllWellFormed | actorlib/queue2.py:259-266 | the retry loop keeps the dicts well formed |
| Queue2.TimeoutWellFormed | actorlib/queue2.py:242-267 | `check_timeout_and_retry` keeps the dicts well formed |
| Queue2.TagSize | actorlib/queue2.py:107-108 | pairing a node's done ids with the node keeps their number |
| Queue2.DonePairsSplit | actorlib/queue2.py:107-108 | the done ids of one source node add their number to the pending total |
| Queue2.AckAllStops | actorlib/queue2.py:257-258 | once an ERROR_NOTRY ack raises, the later ids change nothing |
| Queue2.RetryAllStops | actorlib/queue2.py:259-266 | once a retry raises, the later ids change nothing |
| Queue2.ActorQueue.constructor | actorlib/queue2.py:65-95 | a new queue has empty heaps and is not fetching |
| Queue2.ActorQueue.SumBoxes | actorlib/queue2.py:104 | the sum of the box lengths of a dict |
| Queue2.ActorQueue.OutboxSizeNow | actorlib/queue2.py:103-109 | `outbox_size()` counts every outbox message plus the done ids of this actor waiting for their ack |
| Queue2.ActorQueue.IsInboxEmpty | actorlib/queue2.py:100-112 | true exactly when the inbox heap is empty |
| Queue2.ActorQueue.IsOutboxFull | actorlib/queue2.py:114-115 | true exactly when `outbox_size()` reaches `outbox_highsize` |
| Queue2.ActorQueue.AutoScheduleFetcher | actorlib/queue2.py:207-235 | schedules one fetcher for a sample of `min(len(upstream), fetcher_concurrency)` upstream nodes asking for `inbox_highsize - inbox_size` messages and marks the queue fetching, exactly when the guards allow it; otherwise nothing changes |
| Queue2.ActorQueue.OpNotify | actorlib/queue2.py:123-125 | the state is the `apply_notify` outcome, then the fetcher is scheduled as the guards allow |
| Queue2.ActorQueue.OpInbox | actorlib/queue2.py:127-132 | an expired message changes nothing; any other is recorded INBOX and the inbox grows by it, or the state's exception leaves the heap alone |
| Queue2.ActorQueue.OpExecute | actorlib/queue2.py:134-143 | the result, the new state and the inbox left are those of the pop loop with the queue's own state steps, and a fetcher is scheduled only after a message is returned |
| Queue2.ActorQueue.PushOutbox | actorlib/queue2.py:187-193 | the queue after `push_outbox`, its dicts well formed |
| Queue2.ActorQueue.OpOutbox | actorlib/queue2.py:145-148 | the state is the `apply_outbox` outcome; without an exception every outbox message is pushed, with one the boxes are left alone |
| Queue2.ActorQueue.ExportOneNow | actorlib/queue2.py:150-160 | one `_export_box` call after the pop, as `ExportOne` states |
| Queue2.ActorQueue.ExportFrom | actorlib/queue2.py:167-171 | the drain loop of one box, as `ExportBox` states |
| Queue2.ActorQueue.OpExport | actorlib/queue2.py:162-173 | the result, the state and the boxes are those of `op_export`'s two drains, then the fetcher is scheduled when it returns |
| Queue2.ActorQueue.ExportDrain | actorlib/queue2.py:162-171 | the two drains of `op_export` |
| Queue2.ActorQueue.ExportBoth | actorlib/queue2.py:165-171 | the two drains once the node dict, if any, has a box for `dst` |
| Queue2.ActorQueue.ExportGenericNow | actorlib/queue2.py:169-171 | the drain of the generic box after the node-specific one |
| Queue2.ActorQueue.WriteNodeBox | actorlib/queue2.py:165-168 | the drained node-specific box is kept in its node dict |
| Queue2.ActorQueue.OpDone | actorlib/queue2.py:175-177 | the state is the `apply_done` outcome, then the fetcher is scheduled as the guards allow |
| Queue2.ActorQueue.OnFetcherDone | actorlib/queue2.py:179-181 | the queue stops fetching and may schedule a new fetcher at once |
| Queue2.ActorQueue.OpAcked | actorlib/queue2.py:183-185 | the state is the `apply_acked` outcome, then the fetcher is scheduled as the guards allow |
| Queue2.ActorQueue.NonEmptyKeys | actorlib/queue2.py:198-200 | the destinations whose generic box is not empty, in dict order |
| Queue2.ActorQueue.AppendNodePairs | actorlib/queue2.py:202-204 | the (node, destination) pairs of one node dict's non-empty boxes, appended in order |
| Queue2.ActorQueue.OutboxInfo | actorlib/queue2.py:195-205 | the loop returns the non-empty boxes as `outbox_info` states |
| Queue2.ActorQueue.CollectChild | actorlib/queue2.py:248-256 | the inner loop picks a message's due outbox states, split by retries left |
| Queue2.ActorQueue.CollectPicks | actorlib/queue2.py:245-256 | the outer loop picks those of every message in OUTBOX |
| Queue2.ActorQueue.RetryOneNow | actorlib/queue2.py:260-266 | one pass of the retry loop as `RetryStep`: an expired message is acked ERROR_NOTRY, any other is retried and pushed back to its outbox, and the queue stays valid |
| Queue2.RetryExpiredAcked | actorlib/queue2.py:250-263 | on the EXPORT outbox messages the retry loop receives, acking an expired one ERROR_NOTRY raises nothing, leaves the queue alone and finishes the parent as ERROR_NOTRY |
| Queue2.ActorQueue.CheckTimeoutAndRetry | actorlib/queue2.py:242-267 | acks the exhausted due ones ERROR_NOTRY, retries the others, returns how many were acked, and schedules at most one fetcher |
| Registry.NetsOfSnoc | actorlib/registery.py:29-31 | one more spec network adds its url to the set of that network name, creating the set when the name is new |
| Registry.FromSpec | actorlib/registery.py:27-36 | `from_spec` keeps the name, makes the modules a set and groups the urls by network name |
| Registry.PairsFor | actorlib/registery.py:41-42 | one (name, url) pair for each url of one network |
| Registry.ListOf | actorlib/registery.py:43 | `list(set)` lists every element exactly once |
| Registry.PairSetConcat | actorlib/registery.py:39-42 | the pairs of two appended network lists are the union of their pairs |
| Registry.PairsInAdd | actorlib/registery.py:40-42 | one more network name adds exactly the pairs of its urls |
| Registry.ToSpec | actorlib/registery.py:38-43 | `to_spec` keeps the name, lists each module once and gives one (network name, url) pair per url of each network |
| Registry.SpecRoundTrip | actorlib/registery.py:27-43 | `from_spec` then `to_spec` keeps the name, the set of modules and the set of (network name, url) pairs |
| Registry.ModuleOf | actorlib/registery.py:92 | `Actor.get_module(dst)` has no dot and is `dst` itself or a prefix of it followed by a dot |
| Registry.AddNoModules | actorlib/registery.py:72-73 | a node without modules leaves the module index as it was |
| Registry.AddOneModule | actorlib/registery.py:72-73 | each module of a node adds the node's name to that module's set and to no other |
| Registry.ModuleIndexExact | actorlib/registery.py:60-75 | the module index maps each module to exactly the names of the indexed nodes that list it |
| Registry.NodeIndexExact | actorlib/registery.py:67-71 | the node index maps a node name to the urls of the last node of that name on the networks the current node also has |
| Registry.NodeIndexKeys | actorlib/registery.py:67-71 | a name is in the node index exactly when some indexed node has it |
| Registry.NodesOfKeys | actorlib/registery.py:76 | every indexed node's name is in the node dict, and no other name |
| Registry.ActorRegistery.constructor | actorlib/registery.py:48-58 | the registry node and the current node come from their specs, and the indexes are built over the given nodes, then the current node, then the registry node |
| Registry.ActorRegistery.NodeUrls | actorlib/registery.py:68-70 | the urls collected for a node are those on the networks it shares with the current node |
| Registry.ActorRegistery.IndexModules | actorlib/registery.py:72-73 | the loop over a node's modules adds its name under each of them |
| Registry.ActorRegistery.Update1 | actorlib/registery.py:60-76 | `_update` indexes the given nodes, then the current node, then the registry node, and the indexes are those of that list |
| Registry.ActorRegistery.Update | actorlib/registery.py:78-80 | `update` indexes the node infos built from the specs |
| Registry.ActorRegistery.Add | actorlib/registery.py:82-85 | `add` indexes the nodes already known followed by the new one |
| Registry.ActorRegistery.FindDstNodes | actorlib/registery.py:91-94 | the result is exactly the nodes that list the module of `dst` |
| Registry.ActorRegistery.CompleteMessage | actorlib/registery.py:96-117 | the source node defaults to the current node; a missing destination node is one serving the module, or `IndexError` when none does; a message for another node without a url gets one of that node's urls, or `KeyError` exactly when the node is unknown; nothing else changes |

## Left out

- `tests/models/test_story_sharding.py` imports `seaweed_fid_encode` and unpacks four fields, but `rssant_api/models/story_sharding.py` defines `seaweed_fid_for` and its decode returns five; the model follows the code.
- MD5, CRC-32, gzip and lz4 are parameters; an MD5 digest is any 16-byte value, and the UTF-8 encoding before hashing is folded into the `md5` parameter.
- FeedChecksum: `__repr__` and `copy` are not modelled; `__eq__` is equality of the version and of the ordered entry sequence, which is what the lemmas state.
- FeedChecksum.Checksum.Dump: `_check_key_value` inside the dump loop is an assertion of the model, since no valid table can fail it.
- FeedChecksum.Checksum.Load: an empty input raises `struct.error` in the source, not `ValueError`; the model reports it as its own error.
- MonthlyStoryCount: `dryness_formula`, `_average_dryness` and `dryness` use floating point; `__str__` and `__repr__` are formatting only.
- Detail: `re.I` matching and `Text.Lower`/`Text.Upper` are limited to ASCII case mapping; whitespace (`Text.IsSpace`) is Python's full `str.isspace` set.
- FeedHelper.GroupNameOf: `str.upper()` is ASCII case mapping only, so a group that only Python's full Unicode mapping turns into a system id (`sys:ſolo`, where `ſ` upper-cases to `S`) is returned unchanged by the model; `IsSystemGroup` has the same limit.
- Executor: `async_concurrency` is a float (`concurrency / num_async_workers`); the model keeps only its division by zero, as `ZeroDivisionError`.
- `FeedResponseBuilder.build` is not modelled: it passes `content_type=`, which `FeedResponse` does not accept, so the call would fail.
- `SeaweedData.version` is not modelled: the property calls itself.
- ResponseBuilder: the regular expressions, `cgi.parse_header`, `codecs.lookup` and cchardet are parameters; the third and fourth encoding doctests depend on what those return, so they are stated with those results as `requires`.
- FeedAnalysis: `compute_snapshot` and the display order by `record_sort_key` are not modelled; `query_feeds`, the Mako rendering and the email are I/O.
- FeedAnalysis: report keys are a datatype, so a domain literally named `ALL` or `other:...` stays apart from the totals, where the source's string keys would collide.
- Scheduler: an empty task is falsy in Python and counts as no task; the model uses `Option` and treats only `None` as no task.
- Env: `\d` matches ASCII digits only, and `$` does not accept a trailing newline; the node spec name and the module list are not modelled.
- DnsService: `refresh`, record validation and DNS-over-HTTPS are network I/O; the order of `list(ip_set)` is not modelled (the addresses are a set), and `random.choice` is a nondeterministic pick.
- ProxyWorker.ProxyHeaders: `headers.entries()` is taken as the origin's entries in order; the sorting by name and the combining of repeated names that the Fetch standard applies to it are not modelled.
- ProxyWorker: the outbound `fetch` is a parameter returning a result; an exception it throws on the GET path is not caught by the worker and is not modelled.
- StateV1: `dump`, `get_message_state`, `query_send_messages` and the logging calls are not modelled.
- StateV2: the tests in `actorlib/tests/test_state.py` also read `complete_message_state` and expect the parent to be gone after `complete`; `state2.py` has no such field and the line that would pop the parent is commented out, so only the accepted transition sequence of `test_inbox_execute_outbox_retry_complete` is modelled.
- StorageState: `query_message_ids`, `get_message_state` and `query_send_messages` are not modelled; `ActorStorageBase`, the local write-ahead-log storage and msgpack framing are I/O.
- StateV2Replay.ReplayDump: the round trip is proved for states meeting `Valid`, not for every state the operations reach, and no lemma shows that the operations keep `Valid`. Among the reachable states that `Valid` leaves out are an INBOX message that `apply_complete` acked without a status (`CompleteWithoutStatusInvalid`), and an outbox message id that `apply_outbox` gives to two messages or that is already a message id.
- Registry: `ActorRegistery.to_spec`, the registry lock and the random pick of `choice_dst_url` are not modelled beyond a nondeterministic choice.
- Queue2: `execute_priority` is floating point and is not modelled; the `random.sample` of upstream nodes is a nondeterministic pick, and the jitter of `backoff_delay` is a parameter.
- Queue2: `is_expired` is a parameter; `message.py` is not part of this model. The fetcher message keeps only its upstream nodes and `maxsize`; its generated id and fixed fields are not modelled.
- Queue2: the heaps are ordered by priority alone; the tie order of `heapq` among equal priorities is not modelled.
- Queue2: `ActorMessageQueue` (its lock, condition and actor scheduling) and the storage-backed `ActorStorageState` are not modelled.
- Queue2: time is integer milliseconds; the seconds of the source are multiplied by 1000.
- Queue2.Backoff: for a negative executed count Python's `8 ** count` is a fraction of a second; the model uses 0 there.
- Queue2: the `AttributeError`, `TypeError` and `KeyError` the source can raise on missing objects and counts are collapsed into `MissingKey` and `NoCount`.

## Findings

| source | as written | input that shows it | evidently intended | confidence | as-written member | corrected member |
|---|---|---|---|---|---|---|
| actorlib/queue2.py:137-141 | `op_execute` calls `apply_execute` before it checks expiry, then `apply_complete(status=ERROR_NOTRY)`, which accepts only INBOX or a final status | an expired message on the inbox heap: `apply_execute` makes it EXECUTE and `apply_complete` raises `ActorStateError` | the expired message is completed as ERROR_NOTRY and skipped, and the loop goes on to the next message | not executed | Queue2.ExecuteRunNeverSkips | Queue2.FixedRunNeverRaises |
| actorlib/queue2.py:150-154 | `_export_box` acks an expired message with `apply_acked(status=ERROR_NOTRY)`, which accepts only an EXPORT outbox message, but messages in an outbox heap are OUTBOX | an expired message pushed by `op_outbox`: `apply_acked` raises `ActorStateError` | the expired message is acked as ERROR_NOTRY and dropped, finishing its parent | not executed | Queue2.ExportOneExpiredRaises | Queue2.ExpiredExportFixed |
| actorlib/storage.py:114-119 | an OK ack while a sibling is still pending pops the child from `_send_messages`, but the parent keeps listing it and `_dump` looks every listed child up there | `begin p`, `send p [a, b]`, `ack a OK`: the load raises nothing and `dump()` raises `KeyError` | the child stays registered until its parent is done, so `dump()` can write the state | not executed | StorageState.PartialAckBreaksDump | StorageState.AckFixedKeeps |
| rssant_api/models/story_storage/common/story_key.py:24-25 | `encode` asserts `0 <= reserve1 <= 255` and `0 <= reserve2 <= 255`, but the layout gives each reserve 4 bits | `encode(0, 0, reserve2=16) == encode(0, 1)`, and `encode(0, 0, reserve1=16) == 2**64` | reserves limited to [0, 15], so that `decode(encode(...))` gives the fields back and the key has 64 bits | not executed | StoryKey.Reserve2Overlaps | StoryKey.EncodeChecked |
| actorlib/state2.py:275-280 | `dump` yields a lone `done` item for a message that is done but still waits for its ack | `inbox` of a message that needs an ack, `execute`, `done` with OK, then `dump` gives `[done]`; replaying that on a fresh state raises `MessageNotExistsError` | replaying the dump rebuilds the state, so the message is dumped as `inbox`, `execute`, `done` | not executed | StateV2Dump.DoneNotReplayable | StateV2Replay.ReplayDump |
