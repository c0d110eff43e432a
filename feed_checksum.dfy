/** The feed checksum table (rssant_feedlib/feed_checksum.py): an insertion-
    ordered dictionary from 4-byte story-ident hashes to 8-byte content
    hashes, written as one version byte followed by 12 bytes per entry.
    The MD5 digest of a string's UTF-8 bytes is a parameter. */
module FeedChecksum {
  import opened Wrappers
  import opened Bytes
  import opened OrderedDict

  const KeyLen: nat := 4
  const ValLen: nat := 8
  const KeyValLen: nat := 12

  /** An MD5 digest. */
  type Digest = s: seq<byte> | |s| == 16 witness [0, 0, 0, 0, 0, 0, 0, 0, 0, 0, 0, 0, 0, 0, 0, 0]

  /** One `(story_ident_hash, story_content_hash)` pair of the `OrderedDict`. */
  type Entry = (seq<byte>, seq<byte>)

  datatype ChecksumError =
    | UnsupportedVersion(version: int)   // "not support version"
    | BadKeyLength                       // "key length must be 4 bytes"
    | BadValueLength                     // "value length must be 8 bytes"
    | EmptyIdentOrContent                // "ident and content can not empty"
    | NegativeCount                      // `bytearray` of a negative size
    | EmptyData                          // `struct.unpack('>B', b'')`
    | BadDataLength(length: nat)         // "unexpect data length"

  // ---- the ordered dictionary ----------------------------------------------

  /** Every key has 4 bytes and every value 8. */
  predicate Sized(m: seq<Entry>) {
    m == [] || (|m[0].0| == KeyLen && |m[0].1| == ValLen && Sized(m[1..]))
  }

  predicate WellFormed(m: seq<Entry>) {
    DistinctKeys(m) && Sized(m)
  }

  lemma {:induction false} AssignWellFormed(m: seq<Entry>, k: seq<byte>, v: seq<byte>)
    requires WellFormed(m) && |k| == KeyLen && |v| == ValLen
    ensures WellFormed(Assign(m, k, v))
  {
    AssignDistinct(m, k, v);
    AssignSized(m, k, v);
  }

  lemma {:induction false} AssignSized(m: seq<Entry>, k: seq<byte>, v: seq<byte>)
    requires Sized(m) && |k| == KeyLen && |v| == ValLen
    ensures Sized(Assign(m, k, v))
  {
    if m != [] && m[0].0 != k {
      AssignSized(m[1..], k, v);
    }
  }

  lemma {:induction false} SizedAll(m: seq<Entry>)
    ensures Sized(m) <==> AllSized(m)
  {
    if m != [] {
      SizedAll(m[1..]);
      assert forall i :: 1 <= i < |m| ==> m[i] == m[1..][i - 1];
    }
  }

  // ---- the constructor -----------------------------------------------------

  /** `_check_key_value`. */
  function CheckKeyValue(k: seq<byte>, v: seq<byte>): (r: Result<(), ChecksumError>)
    ensures r.Ok? <==> |k| == KeyLen && |v| == ValLen
  {
    if |k| != KeyLen then Err(BadKeyLength)
    else if |v| != ValLen then Err(BadValueLength)
    else Ok(())
  }

  /** The loop of `__init__`: check and assign each item in turn. */
  function BuildFrom(m: seq<Entry>, items: seq<Entry>): Result<seq<Entry>, ChecksumError>
    decreases |items|
  {
    if items == [] then Ok(m)
    else
      match CheckKeyValue(items[0].0, items[0].1)
      case Err(e) => Err(e)
      case Ok(_) => BuildFrom(Assign(m, items[0].0, items[0].1), items[1..])
  }

  /** `FeedChecksum(items, version)`: the version is checked first. */
  function Build(items: seq<Entry>, version: int): Result<seq<Entry>, ChecksumError> {
    if version != 1 then Err(UnsupportedVersion(version)) else BuildFrom([], items)
  }

  /** Every item of the right sizes. */
  predicate AllSized(items: seq<Entry>) {
    forall i :: 0 <= i < |items| ==> |items[i].0| == KeyLen && |items[i].1| == ValLen
  }

  lemma {:induction false} BuildFromResult(m: seq<Entry>, items: seq<Entry>)
    requires WellFormed(m)
    ensures BuildFrom(m, items).Ok? <==> AllSized(items)
    ensures BuildFrom(m, items).Ok? ==> WellFormed(BuildFrom(m, items).value)
    decreases |items|
  {
    if items != [] {
      assert forall i :: 1 <= i < |items| ==> items[i] == items[1..][i - 1];
      if CheckKeyValue(items[0].0, items[0].1).Ok? {
        AssignWellFormed(m, items[0].0, items[0].1);
        BuildFromResult(Assign(m, items[0].0, items[0].1), items[1..]);
      }
    }
  }

  /** The constructor succeeds exactly for version 1 and items of 4-byte keys
      and 8-byte values, and then holds a well-formed table. */
  lemma {:induction false} BuildResult(items: seq<Entry>, version: int)
    ensures Build(items, version).Ok? <==> version == 1 && AllSized(items)
    ensures version != 1 ==> Build(items, version) == Err(UnsupportedVersion(version))
    ensures Build(items, version).Ok? ==> WellFormed(Build(items, version).value)
  {
    BuildFromResult([], items);
  }

  /** The rejected items of the error unit test. */
  lemma {:induction false} BuildExamples()
    ensures Build([([49, 50, 51, 52], [49, 50, 51, 52, 53, 54, 55, 56])], 1) ==
      Ok([([49, 50, 51, 52], [49, 50, 51, 52, 53, 54, 55, 56])])
    ensures Build([([49, 50, 51], [49, 50, 51, 52, 53, 54])], 1) == Err(BadKeyLength)
    ensures Build([([49, 50], [49, 50, 51, 52, 53])], 1) == Err(BadKeyLength)
  {
  }

  /** Items that are already a well-formed table, none of whose keys is in
      `m`, are appended unchanged and in order. */
  lemma {:induction false} BuildFromFresh(m: seq<Entry>, items: seq<Entry>)
    requires WellFormed(items)
    requires forall i :: 0 <= i < |items| ==> Lookup(m, items[i].0).None?
    ensures BuildFrom(m, items) == Ok(m + items)
    decreases |items|
  {
    if items == [] {
      assert m + items == m;
    } else {
      var e := items[0];
      var rest := items[1..];
      AssignShape(m, e.0, e.1);
      LookupNone(rest, e.0);
      forall i | 0 <= i < |rest|
        ensures Lookup(m + [e], rest[i].0).None?
      {
        assert rest[i] == items[i + 1];
        LookupAppend(m, e, rest[i].0);
      }
      BuildFromFresh(m + [e], rest);
      assert m + [e] + rest == m + items;
    }
  }

  // ---- update --------------------------------------------------------------

  /** `_hash`: the first `length` bytes of the digest. */
  function Hash(md5: string -> Digest, value: string, length: nat): (h: seq<byte>)
    ensures |h| == if length < 16 then length else 16
    ensures h == md5(value)[..|h|]
  {
    md5(value)[..if length < 16 then length else 16]
  }

  function KeyOf(md5: string -> Digest, ident: string): seq<byte> {
    Hash(md5, ident, KeyLen)
  }

  function SumOf(md5: string -> Digest, content: string): seq<byte> {
    Hash(md5, content, ValLen)
  }

  /** `update`: whether the table changed, and the new table. */
  function UpdateSpec(md5: string -> Digest, m: seq<Entry>, ident: string, content: string)
    : Result<(bool, seq<Entry>), ChecksumError>
  {
    if ident == [] || content == [] then Err(EmptyIdentOrContent)
    else
      var key := KeyOf(md5, ident);
      var oldSum := Lookup(m, key);
      var newSum := SumOf(md5, content);
      if oldSum.None? || oldSum.value == [] || oldSum.value != newSum then Ok((true, Assign(m, key, newSum)))
      else Ok((false, m))
  }

  /** `update` fails exactly on an empty ident or content; it reports a change
      exactly when the stored sum differs from the new one, after which the
      ident's key holds the new sum and every other key is untouched. */
  lemma {:induction false} UpdateResult(md5: string -> Digest, m: seq<Entry>, ident: string, content: string, k: seq<byte>)
    ensures UpdateSpec(md5, m, ident, content).Ok? <==> ident != [] && content != []
    ensures UpdateSpec(md5, m, ident, content).Ok? ==>
      var (changed, m') := UpdateSpec(md5, m, ident, content).value;
      && (changed <==> Lookup(m, KeyOf(md5, ident)) != Some(SumOf(md5, content)))
      && (!changed ==> m' == m)
      && Lookup(m', KeyOf(md5, ident)) == Some(SumOf(md5, content))
      && (k != KeyOf(md5, ident) ==> Lookup(m', k) == Lookup(m, k))
  {
    if ident != [] && content != [] {
      AssignLookup(m, KeyOf(md5, ident), SumOf(md5, content), k);
      AssignLookup(m, KeyOf(md5, ident), SumOf(md5, content), KeyOf(md5, ident));
    }
  }

  /** `update` keeps the table well formed and grows `size()` by at most one. */
  lemma {:induction false} UpdateSize(md5: string -> Digest, m: seq<Entry>, ident: string, content: string)
    requires WellFormed(m) && UpdateSpec(md5, m, ident, content).Ok?
    ensures WellFormed(UpdateSpec(md5, m, ident, content).value.1)
    ensures |m| <= |UpdateSpec(md5, m, ident, content).value.1| <= |m| + 1
  {
    var key := KeyOf(md5, ident);
    var sum := SumOf(md5, content);
    AssignShape(m, key, sum);
    AssignWellFormed(m, key, sum);
  }

  /** Repeating an update reports no change and leaves the table as it is. */
  lemma {:induction false} UpdateAgain(md5: string -> Digest, m: seq<Entry>, ident: string, content: string)
    requires UpdateSpec(md5, m, ident, content).Ok?
    ensures var m' := UpdateSpec(md5, m, ident, content).value.1;
      UpdateSpec(md5, m', ident, content) == Ok((false, m'))
  {
    UpdateResult(md5, m, ident, content, KeyOf(md5, ident));
  }

  /** A sequence of `update` calls: the results in order and the final table. */
  function UpdateAll(md5: string -> Digest, m: seq<Entry>, stories: seq<(string, string)>)
    : Result<(seq<bool>, seq<Entry>), ChecksumError>
    decreases |stories|
  {
    if stories == [] then Ok(([], m))
    else
      match UpdateSpec(md5, m, stories[0].0, stories[0].1)
      case Err(e) => Err(e)
      case Ok((c, m1)) =>
        match UpdateAll(md5, m1, stories[1..])
        case Err(e) => Err(e)
        case Ok((cs, m2)) => Ok(([c] + cs, m2))
  }

  /** Stories with non-empty idents and contents. */
  predicate NonEmptyStories(stories: seq<(string, string)>) {
    forall i :: 0 <= i < |stories| ==> stories[i].0 != [] && stories[i].1 != []
  }

  /** No two stories' idents hash to the same key. */
  predicate DistinctIdentKeys(md5: string -> Digest, stories: seq<(string, string)>) {
    forall i, j :: 0 <= i < j < |stories| ==> KeyOf(md5, stories[i].0) != KeyOf(md5, stories[j].0)
  }

  /** The table holds each story's content sum under its ident's key. */
  predicate Agrees(md5: string -> Digest, m: seq<Entry>, stories: seq<(string, string)>) {
    forall i :: 0 <= i < |stories| ==> Lookup(m, KeyOf(md5, stories[i].0)) == Some(SumOf(md5, stories[i].1))
  }

  lemma {:induction false} UpdateAllOk(md5: string -> Digest, m: seq<Entry>, stories: seq<(string, string)>)
    requires NonEmptyStories(stories)
    ensures UpdateAll(md5, m, stories).Ok?
    ensures |UpdateAll(md5, m, stories).value.0| == |stories|
    decreases |stories|
  {
    if stories != [] {
      assert stories[1..] == stories[1..];
      assert NonEmptyStories(stories[1..]) by {
        forall i | 0 <= i < |stories[1..]| ensures stories[1..][i].0 != [] && stories[1..][i].1 != [] {
          assert stories[1..][i] == stories[i + 1];
        }
      }
      UpdateAllOk(md5, UpdateSpec(md5, m, stories[0].0, stories[0].1).value.1, stories[1..]);
    }
  }

  /** Keys that no story hashes to keep their value. */
  lemma {:induction false} UpdateAllOther(md5: string -> Digest, m: seq<Entry>, stories: seq<(string, string)>, k: seq<byte>)
    requires UpdateAll(md5, m, stories).Ok?
    requires forall i :: 0 <= i < |stories| ==> KeyOf(md5, stories[i].0) != k
    ensures Lookup(UpdateAll(md5, m, stories).value.1, k) == Lookup(m, k)
    decreases |stories|
  {
    if stories != [] {
      var m1 := UpdateSpec(md5, m, stories[0].0, stories[0].1).value.1;
      UpdateResult(md5, m, stories[0].0, stories[0].1, k);
      forall i | 0 <= i < |stories[1..]| ensures KeyOf(md5, stories[1..][i].0) != k {
        assert stories[1..][i] == stories[i + 1];
      }
      UpdateAllOther(md5, m1, stories[1..], k);
    }
  }

  /** After updating with stories whose idents hash apart, the table agrees
      with every story. */
  lemma {:induction false} UpdateAllAgrees(md5: string -> Digest, m: seq<Entry>, stories: seq<(string, string)>)
    requires UpdateAll(md5, m, stories).Ok? && DistinctIdentKeys(md5, stories)
    ensures Agrees(md5, UpdateAll(md5, m, stories).value.1, stories)
    decreases |stories|
  {
    if stories != [] {
      var (ident, content) := stories[0];
      var m1 := UpdateSpec(md5, m, ident, content).value.1;
      var rest := stories[1..];
      var m2 := UpdateAll(md5, m, stories).value.1;
      assert forall i :: 0 <= i < |rest| ==> rest[i] == stories[i + 1];
      UpdateAllAgrees(md5, m1, rest);
      UpdateResult(md5, m, ident, content, KeyOf(md5, ident));
      UpdateAllOther(md5, m1, rest, KeyOf(md5, ident));
      forall i | 0 <= i < |stories|
        ensures Lookup(m2, KeyOf(md5, stories[i].0)) == Some(SumOf(md5, stories[i].1))
      {
        if i > 0 { assert stories[i] == rest[i - 1]; }
      }
    }
  }

  /** A table that agrees with every story: updating with them all reports no
      change each time and keeps the table. */
  lemma {:induction false} UpdateAllAgreeing(md5: string -> Digest, m: seq<Entry>, stories: seq<(string, string)>)
    requires NonEmptyStories(stories) && Agrees(md5, m, stories)
    ensures UpdateAll(md5, m, stories) == Ok((seq(|stories|, _ => false), m))
    decreases |stories|
  {
    if stories != [] {
      var rest := stories[1..];
      assert forall i :: 0 <= i < |rest| ==> rest[i] == stories[i + 1];
      var (ident, content) := stories[0];
      assert Lookup(m, KeyOf(md5, ident)) == Some(SumOf(md5, content));
      assert |SumOf(md5, content)| == ValLen;
      assert UpdateSpec(md5, m, ident, content) == Ok((false, m));
      assert Agrees(md5, m, rest);
      UpdateAllAgreeing(md5, m, rest);
      assert [false] + seq(|rest|, _ => false) == seq(|stories|, _ => false);
    } else {
      assert seq(|stories|, _ => false) == [];
    }
  }

  /** The basic unit test: every first update of distinct idents into an
      empty table reports a change, the table then has one entry per story,
      and a second round reports no change and keeps the table. */
  lemma {:induction false} UpdateTwice(md5: string -> Digest, stories: seq<(string, string)>)
    requires NonEmptyStories(stories) && DistinctIdentKeys(md5, stories)
    ensures UpdateAll(md5, [], stories).Ok?
    ensures var (cs, m) := UpdateAll(md5, [], stories).value;
      && cs == seq(|stories|, _ => true)
      && |m| == |stories| && WellFormed(m)
      && UpdateAll(md5, m, stories) == Ok((seq(|stories|, _ => false), m))
  {
    UpdateAllOk(md5, [], stories);
    FirstRound(md5, [], stories);
    var m := UpdateAll(md5, [], stories).value.1;
    UpdateAllAgrees(md5, [], stories);
    UpdateAllAgreeing(md5, m, stories);
  }

  lemma {:induction false} FirstRound(md5: string -> Digest, m: seq<Entry>, stories: seq<(string, string)>)
    requires NonEmptyStories(stories) && DistinctIdentKeys(md5, stories) && WellFormed(m)
    requires forall i :: 0 <= i < |stories| ==> Lookup(m, KeyOf(md5, stories[i].0)).None?
    ensures UpdateAll(md5, m, stories).Ok?
    ensures var (cs, m') := UpdateAll(md5, m, stories).value;
      cs == seq(|stories|, _ => true) && |m'| == |m| + |stories| && WellFormed(m')
    decreases |stories|
  {
    UpdateAllOk(md5, m, stories);
    if stories != [] {
      var (ident, content) := stories[0];
      var key := KeyOf(md5, ident);
      var m1 := UpdateSpec(md5, m, ident, content).value.1;
      var rest := stories[1..];
      assert forall i :: 0 <= i < |rest| ==> rest[i] == stories[i + 1];
      UpdateResult(md5, m, ident, content, key);
      UpdateSize(md5, m, ident, content);
      AssignShape(m, key, SumOf(md5, content));
      forall i | 0 <= i < |rest| ensures Lookup(m1, KeyOf(md5, rest[i].0)).None? {
        UpdateResult(md5, m, ident, content, KeyOf(md5, rest[i].0));
      }
      FirstRound(md5, m1, rest);
      assert [true] + seq(|rest|, _ => true) == seq(|stories|, _ => true);
    }
  }

  // ---- dump and load -------------------------------------------------------

  /** The entries `dump(limit)` writes: the last `limit` of them when there
      are more. */
  function Selected(m: seq<Entry>, limit: Option<int>): (s: seq<Entry>)
    requires limit.None? || limit.value >= 0
  {
    if limit.Some? && |m| > limit.value then m[|m| - limit.value..] else m
  }

  /** The 12-byte records of the entries, in order. */
  function Pack(items: seq<Entry>): seq<byte> {
    if items == [] then [] else items[0].0 + items[0].1 + Pack(items[1..])
  }

  /** `dump(limit)`. */
  function DumpSpec(version: byte, m: seq<Entry>, limit: Option<int>): Result<seq<byte>, ChecksumError> {
    var length := |m|;
    var n := if limit.None? then length else if length < limit.value then length else limit.value;
    if 1 + KeyValLen * n < 0 then Err(NegativeCount)
    else Ok([version] + Pack(Selected(m, limit)))
  }

  /** The records of a body whose length is a multiple of 12. */
  function Unpack(body: seq<byte>): seq<Entry>
    requires |body| % KeyValLen == 0
  {
    if body == [] then [] else [(body[..KeyLen], body[KeyLen..KeyValLen])] + Unpack(body[KeyValLen..])
  }

  /** `load(data)`: version byte, length check, then the constructor. */
  function LoadSpec(data: seq<byte>): Result<seq<Entry>, ChecksumError> {
    if data == [] then Err(EmptyData)
    else if data[0] != 1 then Err(UnsupportedVersion(data[0]))
    else if (|data| - 1) % KeyValLen != 0 then Err(BadDataLength(|data|))
    else Build(Unpack(data[1..]), data[0])
  }

  lemma {:induction false} PackLength(items: seq<Entry>)
    requires Sized(items)
    ensures |Pack(items)| == KeyValLen * |items|
  {
    if items != [] { PackLength(items[1..]); }
  }

  lemma {:induction false} PackAppend(items: seq<Entry>, e: Entry)
    ensures Pack(items + [e]) == Pack(items) + e.0 + e.1
  {
    if items == [] {
      assert items + [e] == [e];
    } else {
      assert (items + [e])[1..] == items[1..] + [e];
      PackAppend(items[1..], e);
    }
  }

  lemma {:induction false} PackStep(items: seq<Entry>, i: nat)
    requires i < |items|
    ensures Pack(items[..i + 1]) == Pack(items[..i]) + items[i].0 + items[i].1
  {
    PackAppend(items[..i], items[i]);
    assert items[..i + 1] == items[..i] + [items[i]];
  }

  lemma {:induction false} UnpackPack(items: seq<Entry>)
    requires Sized(items)
    ensures |Pack(items)| % KeyValLen == 0 && Unpack(Pack(items)) == items
  {
    PackLength(items);
    if items != [] {
      UnpackPack(items[1..]);
      var p := Pack(items);
      var e := items[0];
      assert p == e.0 + e.1 + Pack(items[1..]);
      assert p[..KeyLen] == e.0 && p[KeyLen..KeyValLen] == e.1 && p[KeyValLen..] == Pack(items[1..]);
      assert items == [e] + items[1..];
    }
  }

  lemma {:induction false} UnpackConcat(a: seq<byte>, b: seq<byte>)
    requires |a| % KeyValLen == 0 && |b| % KeyValLen == 0
    ensures |a + b| % KeyValLen == 0 && Unpack(a + b) == Unpack(a) + Unpack(b)
  {
    RecordMultiples(|a|, |b|);
    if a == [] {
      assert a + b == b;
    } else {
      assert (a + b)[..KeyLen] == a[..KeyLen] && (a + b)[KeyLen..KeyValLen] == a[KeyLen..KeyValLen];
      assert (a + b)[KeyValLen..] == a[KeyValLen..] + b;
      UnpackConcat(a[KeyValLen..], b);
    }
  }

  /** Whole records added or taken off leave whole records. */
  lemma RecordMultiples(x: nat, y: nat)
    requires x % KeyValLen == 0 && y % KeyValLen == 0
    ensures (x + y) % KeyValLen == 0
    ensures x > 0 ==> x >= KeyValLen && (x - KeyValLen) % KeyValLen == 0
  {
  }

  lemma {:induction false} WellFormedSuffix(m: seq<Entry>, j: nat)
    requires WellFormed(m) && j <= |m|
    ensures WellFormed(m[j..])
    decreases j
  {
    if j > 0 {
      assert m[j..] == m[1..][j - 1..];
      WellFormedSuffix(m[1..], j - 1);
    }
  }

  /** `dump(limit)` fails on a negative limit; otherwise it is one version byte
      and 12 bytes for each of the last min(size, limit) entries. */
  lemma {:induction false} DumpLength(m: seq<Entry>, limit: Option<int>)
    requires Sized(m)
    ensures DumpSpec(1, m, limit).Ok? <==> limit.None? || limit.value >= 0
    ensures DumpSpec(1, m, limit).Ok? ==>
      |DumpSpec(1, m, limit).value| ==
        1 + KeyValLen * (if limit.None? || |m| < limit.value then |m| else limit.value)
      && DumpSpec(1, m, limit).value[0] == 1
  {
    if limit.None? || limit.value >= 0 {
      var s := Selected(m, limit);
      if s != m {
        SizedSuffix(m, |m| - limit.value);
      }
      PackLength(s);
    }
  }

  lemma {:induction false} SizedSuffix(m: seq<Entry>, j: nat)
    requires Sized(m) && j <= |m|
    ensures Sized(m[j..])
    decreases j
  {
    if j > 0 {
      assert m[j..] == m[1..][j - 1..];
      SizedSuffix(m[1..], j - 1);
    }
  }

  /** `load(dump(limit))` gives back the last `limit` entries in their order,
      and `load(dump())` the whole table. */
  lemma {:induction false} DumpLoad(m: seq<Entry>, limit: Option<int>)
    requires WellFormed(m) && (limit.None? || limit.value >= 0)
    ensures DumpSpec(1, m, limit).Ok?
    ensures LoadSpec(DumpSpec(1, m, limit).value) == Ok(Selected(m, limit))
    ensures limit.None? ==> LoadSpec(DumpSpec(1, m, limit).value) == Ok(m)
  {
    var s := Selected(m, limit);
    if s != m {
      WellFormedSuffix(m, |m| - limit.value);
    }
    var data := DumpSpec(1, m, limit).value;
    UnpackPack(s);
    assert data[1..] == Pack(s);
    BuildFromFresh([], s);
    assert [] + s == s;
  }

  /** `load` rejects empty data, a version byte other than 1, and any length
      that is not 1 plus a multiple of 12. */
  lemma {:induction false} LoadRejects(data: seq<byte>)
    ensures data == [] ==> LoadSpec(data) == Err(EmptyData)
    ensures data != [] && data[0] != 1 ==> LoadSpec(data) == Err(UnsupportedVersion(data[0]))
    ensures data != [] && data[0] == 1 && (|data| - 1) % KeyValLen != 0 ==> LoadSpec(data) == Err(BadDataLength(|data|))
    ensures LoadSpec(data).Ok? <==> data != [] && data[0] == 1 && (|data| - 1) % KeyValLen == 0
  {
    if data != [] && data[0] == 1 && (|data| - 1) % KeyValLen == 0 {
      var items := Unpack(data[1..]);
      UnpackSized(data[1..]);
      BuildResult(items, 1);
    }
  }

  lemma {:induction false} UnpackSized(body: seq<byte>)
    requires |body| % KeyValLen == 0
    ensures AllSized(Unpack(body))
  {
    if body != [] {
      UnpackSized(body[KeyValLen..]);
      var u := Unpack(body);
      assert forall i :: 1 <= i < |u| ==> u[i] == Unpack(body[KeyValLen..])[i - 1];
    }
  }

  /** The error unit test: a dump with three trailing bytes does not load. */
  lemma {:induction false} TrailingBytesRejected()
    ensures var m := [([49, 50, 51, 52], [49, 50, 51, 52, 53, 54, 55, 56])];
      DumpSpec(1, m, None).Ok? &&
      LoadSpec(DumpSpec(1, m, None).value + [49, 50, 51]) == Err(BadDataLength(16))
  {
    var m: seq<Entry> := [([49, 50, 51, 52], [49, 50, 51, 52, 53, 54, 55, 56])];
    DumpLength(m, None);
  }

  // ---- the class -----------------------------------------------------------

  /** `buffer[offset : offset + len(b)] = b`. */
  method WriteAt(buffer: array<byte>, offset: nat, b: seq<byte>)
    requires offset + |b| <= buffer.Length
    modifies buffer
    ensures buffer[..offset + |b|] == old(buffer[..offset]) + b
  {
    forall j | 0 <= j < |b| {
      buffer[offset + j] := b[j];
    }
    assert forall j :: 0 <= j < offset ==> buffer[j] == old(buffer[j]);
  }

  /** The two slice assignments of one record. */
  method WriteRecord(buffer: array<byte>, offset: nat, key: seq<byte>, value: seq<byte>)
    requires |key| == KeyLen && |value| == ValLen && offset + KeyValLen <= buffer.Length
    modifies buffer
    ensures buffer[..offset + KeyValLen] == old(buffer[..offset]) + key + value
  {
    WriteAt(buffer, offset, key);
    WriteAt(buffer, offset + KeyLen, value);
  }

  /** The loop of `dump`: each record goes at the next `offset`. */
  method WriteRecords(buffer: array<byte>, items: seq<Entry>)
    requires AllSized(items) && buffer.Length == 1 + KeyValLen * |items| && buffer[0] == 1
    modifies buffer
    ensures buffer[..] == [1] + Pack(items)
  {
    var offset := 1;
    var i := 0;
    assert items[..0] == [];
    assert buffer[..1] == [1];
    while i < |items|
      invariant 0 <= i <= |items| && offset == 1 + KeyValLen * i
      invariant buffer[..offset] == [1] + Pack(items[..i])
    {
      var (key, value) := items[i];
      // `_check_key_value` always passes on a valid table.
      assert |key| == KeyLen && |value| == ValLen;
      ghost var before := buffer[..offset];
      WriteRecord(buffer, offset, key, value);
      PackStep(items, i);
      assert before + key + value == [1] + Pack(items[..i + 1]);
      offset := offset + KeyValLen;
      i := i + 1;
    }
    assert items[..i] == items;
    assert buffer[..] == buffer[..offset];
  }

  /** `FeedChecksum`: its version and its `_map`. */
  class Checksum {
    var version: int
    var entries: seq<Entry>

    ghost predicate Valid()
      reads this
    {
      version == 1 && WellFormed(entries)
    }

    constructor Init(version: int)
      ensures this.version == version && entries == []
    {
      this.version := version;
      entries := [];
    }

    /** `FeedChecksum(items, version)`. */
    static method New(items: seq<Entry>, version: int) returns (r: Result<Checksum, ChecksumError>)
      ensures r.Ok? <==> Build(items, version).Ok?
      ensures r.Ok? ==> fresh(r.value) && r.value.Valid() && r.value.entries == Build(items, version).value
      ensures r.Err? ==> r.error == Build(items, version).error
    {
      BuildResult(items, version);
      if version != 1 {
        return Err(UnsupportedVersion(version));
      }
      var c := new Checksum.Init(version);
      var i := 0;
      assert items[0..] == items;
      while i < |items|
        invariant 0 <= i <= |items| && c.version == 1 && WellFormed(c.entries)
        invariant Build(items, version) == BuildFrom(c.entries, items[i..])
        modifies c
      {
        var (key, value) := items[i];
        var check := CheckKeyValue(key, value);
        if check.Err? {
          return Err(check.error);
        }
        assert items[i..][1..] == items[i + 1..];
        AssignWellFormed(c.entries, key, value);
        c.entries := Assign(c.entries, key, value);
        i := i + 1;
      }
      return Ok(c);
    }

    /** `size()`. */
    function Size(): nat
      reads this
    {
      |entries|
    }

    /** `update`: on an error the table is unchanged. */
    method Update(md5: string -> Digest, ident: string, content: string) returns (r: Result<bool, ChecksumError>)
      requires Valid()
      modifies this
      ensures Valid() && version == old(version)
      ensures r.Ok? <==> UpdateSpec(md5, old(entries), ident, content).Ok?
      ensures r.Ok? ==> (r.value, entries) == UpdateSpec(md5, old(entries), ident, content).value
      ensures r.Err? ==> r.error == EmptyIdentOrContent && entries == old(entries)
    {
      if ident == [] || content == [] {
        return Err(EmptyIdentOrContent);
      }
      var key := Hash(md5, ident, KeyLen);
      var oldSum := Lookup(entries, key);
      var newSum := Hash(md5, content, ValLen);
      if oldSum.None? || oldSum.value == [] || oldSum.value != newSum {
        AssignWellFormed(entries, key, newSum);
        entries := Assign(entries, key, newSum);
        return Ok(true);
      }
      return Ok(false);
    }

    /** `dump(limit)`: fills a buffer of 1 + 12·n bytes, record by record. */
    method Dump(limit: Option<int>) returns (r: Result<seq<byte>, ChecksumError>)
      requires Valid()
      ensures r == DumpSpec(1, entries, limit)
    {
      var length := |entries|;
      var n := if limit.None? then length else if length < limit.value then length else limit.value;
      if 1 + KeyValLen * n < 0 {
        return Err(NegativeCount);
      }
      var buffer := new byte[1 + KeyValLen * n](_ => 0);
      buffer[0] := version;
      var items := entries;
      if limit.Some? && length > limit.value {
        items := entries[length - limit.value..];
        SizedSuffix(entries, length - limit.value);
      }
      assert items == Selected(entries, limit) && |items| == n;
      SizedAll(items);
      WriteRecords(buffer, items);
      return Ok(buffer[..]);
    }

    /** `load(data)`: reads the records one by one, then builds the table. */
    static method Load(data: seq<byte>) returns (r: Result<Checksum, ChecksumError>)
      ensures r.Ok? <==> LoadSpec(data).Ok?
      ensures r.Ok? ==> fresh(r.value) && r.value.Valid() && r.value.entries == LoadSpec(data).value
      ensures r.Err? ==> r.error == LoadSpec(data).error
    {
      if |data| == 0 {
        return Err(EmptyData);
      }
      var version := data[0];
      if version != 1 {
        return Err(UnsupportedVersion(version));
      }
      var n := (|data| - 1) / KeyValLen;
      var remain := (|data| - 1) % KeyValLen;
      if remain != 0 {
        return Err(BadDataLength(|data|));
      }
      var body := data[1..];
      var items: seq<Entry> := [];
      var i := 0;
      assert body[..0] == [];
      while i < n
        invariant 0 <= i <= n && |body| == KeyValLen * n
        invariant items == Unpack(body[..KeyValLen * i])
      {
        var offset := 1 + i * KeyValLen;
        var key := data[offset..offset + KeyLen];
        var value := data[offset + KeyLen..offset + KeyValLen];
        LoadStep(body, i, n);
        SliceOfTail(data, offset, offset + KeyLen);
        SliceOfTail(data, offset + KeyLen, offset + KeyValLen);
        items := items + [(key, value)];
        i := i + 1;
      }
      assert body[..KeyValLen * n] == body;
      r := New(items, version);
    }
  }

  lemma {:induction false} SliceOfTail(data: seq<byte>, a: nat, b: nat)
    requires 1 <= a <= b <= |data|
    ensures data[a..b] == data[1..][a - 1..b - 1]
  {
    forall k | 0 <= k < b - a
      ensures data[a..b][k] == data[1..][a - 1..b - 1][k]
    {
      assert data[1..][a - 1 + k] == data[a + k];
    }
  }

  /** One record more of the body. */
  lemma {:induction false} LoadStep(body: seq<byte>, i: nat, n: nat)
    requires i < n && |body| == KeyValLen * n
    ensures Unpack(body[..KeyValLen * (i + 1)]) ==
      Unpack(body[..KeyValLen * i]) + [(body[KeyValLen * i..KeyValLen * i + KeyLen], body[KeyValLen * i + KeyLen..KeyValLen * (i + 1)])]
  {
    var a := body[..KeyValLen * i];
    var b := body[KeyValLen * i..KeyValLen * (i + 1)];
    assert body[..KeyValLen * (i + 1)] == a + b;
    UnpackConcat(a, b);
    assert b[KeyValLen..] == [];
    assert b[..KeyLen] == body[KeyValLen * i..KeyValLen * i + KeyLen];
    assert b[KeyLen..KeyValLen] == body[KeyValLen * i + KeyLen..KeyValLen * (i + 1)];
  }
}
