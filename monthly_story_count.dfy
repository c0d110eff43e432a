/** Per-month story counts of a feed (rssant_api/monthly_story_count.py).
    A month is addressed by its month id, the number of months since
    January 1970; the table keeps a count of at most 255 per month and is
    stored as a 2-byte base month id followed by (offset, count) byte pairs. */
module MonthlyStoryCount {
  import opened Wrappers
  import opened Bytes

  datatype CountError = NegativeMonthId | YearOutOfRange | MonthOutOfRange | NegativeCount

  /** The month id of December 9999, the last month `_check_year_month` accepts. */
  const MaxMonthId: int := (9999 - 1970) * 12 + 11

  predicate ValidMonth(year: int, month: int) {
    1970 <= year <= 9999 && 1 <= month <= 12
  }

  /** `_check_year_month`: the year is checked before the month. */
  function CheckYearMonth(year: int, month: int): (r: Result<(), CountError>)
    ensures r.Ok? <==> ValidMonth(year, month)
    ensures !(1970 <= year <= 9999) ==> r == Err(YearOutOfRange)
    ensures 1970 <= year <= 9999 && !(1 <= month <= 12) ==> r == Err(MonthOutOfRange)
  {
    if !(1970 <= year <= 9999) then Err(YearOutOfRange)
    else if !(1 <= month <= 12) then Err(MonthOutOfRange)
    else Ok(())
  }

  function IdOf(year: int, month: int): int {
    (year - 1970) * 12 + month - 1
  }

  function MonthOf(monthId: nat): (int, int) {
    (monthId / 12 + 1970, monthId % 12 + 1)
  }

  /** `month_of_id`. */
  function MonthOfId(monthId: int): Result<(int, int), CountError> {
    if monthId < 0 then Err(NegativeMonthId) else Ok(MonthOf(monthId))
  }

  /** `id_of_month`. */
  function IdOfMonth(year: int, month: int): Result<int, CountError> {
    var _ :- CheckYearMonth(year, month);
    Ok(IdOf(year, month))
  }

  lemma {:induction false} IdOfMonthOf(monthId: nat)
    ensures ValidMonth(MonthOf(monthId).0, MonthOf(monthId).1) <==> monthId <= MaxMonthId
    ensures IdOf(MonthOf(monthId).0, MonthOf(monthId).1) == monthId
  {
  }

  lemma {:induction false} MonthOfIdOf(year: int, month: int)
    requires ValidMonth(year, month)
    ensures 0 <= IdOf(year, month) <= MaxMonthId
    ensures MonthOf(IdOf(year, month)) == (year, month)
  {
    DivModOf(IdOf(year, month), 12, year - 1970, month - 1);
  }

  /** The two functions are inverse on every month id and every valid month. */
  lemma {:induction false} MonthIdRoundTrip(monthId: int, year: int, month: int)
    ensures monthId >= 0 ==> MonthOfId(monthId).Ok?
    ensures 0 <= monthId <= MaxMonthId ==>
      var ym := MonthOfId(monthId).value; IdOfMonth(ym.0, ym.1) == Ok(monthId)
    ensures IdOfMonth(year, month).Ok? <==> ValidMonth(year, month)
    ensures IdOfMonth(year, month).Ok? ==> MonthOfId(IdOfMonth(year, month).value) == Ok((year, month))
  {
    if monthId >= 0 {
      IdOfMonthOf(monthId);
    }
    if ValidMonth(year, month) {
      MonthOfIdOf(year, month);
    }
  }

  /** The doctests of `month_of_id` and `id_of_month`. */
  lemma {:induction false} MonthIdExamples()
    ensures MonthOfId(0) == Ok((1970, 1)) && MonthOfId(10) == Ok((1970, 11))
    ensures MonthOfId(12) == Ok((1971, 1)) && MonthOfId(13) == Ok((1971, 2))
    ensures MonthOfId(130) == Ok((1980, 11))
    ensures IdOfMonth(1970, 1) == Ok(0) && IdOfMonth(1970, 12) == Ok(11)
    ensures IdOfMonth(1971, 1) == Ok(12) && IdOfMonth(1980, 11) == Ok(130)
  {
  }

  /** What every table satisfies: valid months and counts in 0..255. */
  ghost predicate ValidTable(d: map<(int, int), int>) {
    forall k :: k in d ==> ValidMonth(k.0, k.1) && 0 <= d[k] <= 255
  }

  /** `put` on the dictionary. */
  function PutSpec(d: map<(int, int), int>, year: int, month: int, count: int): (r: Result<map<(int, int), int>, CountError>)
    ensures r.Ok? <==> ValidMonth(year, month) && count >= 0
    ensures r.Ok? ==> r.value == d[(year, month) := if count < 255 then count else 255]
    ensures r.Err? && ValidMonth(year, month) ==> r.error == NegativeCount
  {
    var _ :- CheckYearMonth(year, month);
    if count < 0 then Err(NegativeCount)
    else Ok(d[(year, month) := if count < 255 then count else 255])
  }

  /** `get` on the dictionary. */
  function GetSpec(d: map<(int, int), int>, year: int, month: int): (r: Result<int, CountError>)
    ensures r.Ok? <==> ValidMonth(year, month)
    ensures r.Ok? && (year, month) !in d ==> r.value == 0
  {
    var _ :- CheckYearMonth(year, month);
    Ok(if (year, month) in d then d[(year, month)] else 0)
  }

  /** After a successful `put` the month reads back as the count capped at 255,
      every other month reads as before, and the table stays valid. */
  lemma {:induction false} PutThenGet(d: map<(int, int), int>, year: int, month: int, count: int, y2: int, m2: int)
    requires ValidTable(d) && PutSpec(d, year, month, count).Ok?
    ensures ValidTable(PutSpec(d, year, month, count).value)
    ensures GetSpec(PutSpec(d, year, month, count).value, year, month) == Ok(if count < 255 then count else 255)
    ensures (y2, m2) != (year, month) ==>
      GetSpec(PutSpec(d, year, month, count).value, y2, m2) == GetSpec(d, y2, m2)
  {
  }

  /** The constructor's loop: `put` every item in turn. */
  function PutAll(d: map<(int, int), int>, items: seq<(int, int, int)>): Result<map<(int, int), int>, CountError>
    decreases |items|
  {
    if items == [] then Ok(d)
    else
      var d' :- PutSpec(d, items[0].0, items[0].1, items[0].2);
      PutAll(d', items[1..])
  }

  function ItemId(item: (int, int, int)): int {
    IdOf(item.0, item.1)
  }

  /** `sorted(self._data.items())`: the months present, from month id `lo` on. */
  function ItemsFrom(d: map<(int, int), int>, lo: nat): seq<(int, int, int)>
    decreases MaxMonthId + 1 - lo
  {
    if lo > MaxMonthId then []
    else
      var k := MonthOf(lo);
      (if k in d then [(k.0, k.1, d[k])] else []) + ItemsFrom(d, lo + 1)
  }

  /** Every item is an entry of the table, at a valid month from `lo` on. */
  predicate EntryFrom(d: map<(int, int), int>, lo: int, x: (int, int, int)) {
    (x.0, x.1) in d && d[(x.0, x.1)] == x.2 && lo <= ItemId(x) <= MaxMonthId && ValidMonth(x.0, x.1)
  }

  /** One step of `ItemsFrom`: the month at id `lo`, when present, heads the
      list as an entry from `lo` on. */
  lemma {:induction false} ItemsFromHead(d: map<(int, int), int>, lo: nat) returns (present: bool, e: (int, int, int))
    requires lo <= MaxMonthId
    ensures present ==>
      ItemsFrom(d, lo) == [e] + ItemsFrom(d, lo + 1) && EntryFrom(d, lo, e) && ItemId(e) == lo
    ensures !present ==> ItemsFrom(d, lo) == ItemsFrom(d, lo + 1)
  {
    IdOfMonthOf(lo);
    var k := MonthOf(lo);
    present := k in d;
    if present {
      e := (k.0, k.1, d[k]);
    } else {
      e := (k.0, k.1, 0);
    }
  }

  predicate AllEntriesFrom(d: map<(int, int), int>, lo: int, items: seq<(int, int, int)>) {
    forall i :: 0 <= i < |items| ==> EntryFrom(d, lo, items[i])
  }

  lemma {:induction false} ConsEntries(d: map<(int, int), int>, lo: int, e: (int, int, int), rest: seq<(int, int, int)>)
    requires EntryFrom(d, lo, e) && AllEntriesFrom(d, lo + 1, rest)
    ensures AllEntriesFrom(d, lo, [e] + rest) && AllEntriesFrom(d, lo, rest)
  {
    forall i | 0 <= i < |[e] + rest|
      ensures EntryFrom(d, lo, ([e] + rest)[i])
    {
      if i > 0 {
        assert ([e] + rest)[i] == rest[i - 1];
        assert EntryFrom(d, lo + 1, rest[i - 1]);
      }
    }
    forall i | 0 <= i < |rest|
      ensures EntryFrom(d, lo, rest[i])
    {
      assert EntryFrom(d, lo + 1, rest[i]);
    }
  }

  lemma {:induction false} WeakenEntries(d: map<(int, int), int>, lo: int, rest: seq<(int, int, int)>)
    requires AllEntriesFrom(d, lo + 1, rest)
    ensures AllEntriesFrom(d, lo, rest)
  {
    forall i | 0 <= i < |rest|
      ensures EntryFrom(d, lo, rest[i])
    {
      assert EntryFrom(d, lo + 1, rest[i]);
    }
  }

  lemma {:induction false} ConsIncreasing(d: map<(int, int), int>, lo: int, e: (int, int, int), rest: seq<(int, int, int)>,
                       s: seq<(int, int, int)>)
    requires ItemId(e) == lo && AllEntriesFrom(d, lo + 1, rest) && Increasing(rest) && s == [e] + rest
    ensures Increasing(s)
  {
    forall i, j | 0 <= i < j < |s|
      ensures ItemId(s[i]) < ItemId(s[j])
    {
      assert s[j] == rest[j - 1];
      assert EntryFrom(d, lo + 1, rest[j - 1]);
      if i > 0 {
        assert s[i] == rest[i - 1];
      }
    }
  }

  lemma {:induction false} ItemsFromSound(d: map<(int, int), int>, lo: nat)
    ensures AllEntriesFrom(d, lo, ItemsFrom(d, lo))
    decreases MaxMonthId + 1 - lo
  {
    if lo <= MaxMonthId {
      ItemsFromSound(d, lo + 1);
      var present, e := ItemsFromHead(d, lo);
      if present {
        ConsEntries(d, lo, e, ItemsFrom(d, lo + 1));
      } else {
        WeakenEntries(d, lo, ItemsFrom(d, lo + 1));
      }
    }
  }

  /** The items come in strictly ascending month order. */
  lemma {:induction false} ItemsFromIncreasing(d: map<(int, int), int>, lo: nat)
    ensures Increasing(ItemsFrom(d, lo))
    decreases MaxMonthId + 1 - lo
  {
    if lo <= MaxMonthId {
      var rest := ItemsFrom(d, lo + 1);
      ItemsFromIncreasing(d, lo + 1);
      var present, e := ItemsFromHead(d, lo);
      if present {
        ItemsFromSound(d, lo + 1);
        ConsIncreasing(d, lo, e, rest, ItemsFrom(d, lo));
      } else {
        assert ItemsFrom(d, lo) == rest;
      }
    } else {
      assert ItemsFrom(d, lo) == [];
    }
  }

  /** Every entry of the table at a valid month from `lo` on is an item. */
  lemma {:induction false} ItemsFromComplete(d: map<(int, int), int>, lo: nat, k: (int, int))
    requires k in d && ValidMonth(k.0, k.1) && IdOf(k.0, k.1) >= lo
    ensures (k.0, k.1, d[k]) in ItemsFrom(d, lo)
    decreases MaxMonthId + 1 - lo
  {
    MonthOfIdOf(k.0, k.1);
    if IdOf(k.0, k.1) == lo {
      assert MonthOf(lo) == k;
    } else {
      ItemsFromComplete(d, lo + 1, k);
    }
  }

  /** Month-id order is (year, month) order. */
  lemma {:induction false} IdOrder(y1: int, m1: int, y2: int, m2: int)
    requires ValidMonth(y1, m1) && ValidMonth(y2, m2) && IdOf(y1, m1) < IdOf(y2, m2)
    ensures y1 < y2 || (y1 == y2 && m1 < m2)
  {
    if y1 > y2 {
      MulAtLeast(y1 - y2, 12);
      MulSub(y1 - 1970, y2 - 1970, 12);
    }
  }

  /** `__iter__` lists exactly the table's entries, each once, in ascending
      (year, month) order. */
  lemma {:induction false} ItemsSpec(d: map<(int, int), int>)
    requires ValidTable(d)
    ensures var r := ItemsFrom(d, 0);
      Increasing(r) && ValidItems(r)
      && (forall i :: 0 <= i < |r| ==> (r[i].0, r[i].1) in d && d[(r[i].0, r[i].1)] == r[i].2)
      && (forall k :: k in d ==> (k.0, k.1, d[k]) in r)
      && (forall i, j :: 0 <= i < j < |r| ==> r[i].0 < r[j].0 || (r[i].0 == r[j].0 && r[i].1 < r[j].1))
  {
    var r := ItemsFrom(d, 0);
    ItemsFromSound(d, 0);
    ItemsFromIncreasing(d, 0);
    forall k | k in d
      ensures (k.0, k.1, d[k]) in r
    {
      MonthOfIdOf(k.0, k.1);
      ItemsFromComplete(d, 0, k);
    }
    forall i, j | 0 <= i < j < |r|
      ensures r[i].0 < r[j].0 || (r[i].0 == r[j].0 && r[i].1 < r[j].1)
    {
      assert EntryFrom(d, 0, r[i]) && EntryFrom(d, 0, r[j]);
      IdOrder(r[i].0, r[i].1, r[j].0, r[j].1);
    }
  }

  /** The items are ordered, at valid months, with counts of at most 255. */
  lemma {:induction false} ItemsOrdered(d: map<(int, int), int>)
    requires ValidTable(d)
    ensures Increasing(ItemsFrom(d, 0)) && ValidItems(ItemsFrom(d, 0)) && SmallCounts(ItemsFrom(d, 0))
  {
    var r := ItemsFrom(d, 0);
    ItemsFromSound(d, 0);
    ItemsFromIncreasing(d, 0);
    forall i | 0 <= i < |r|
      ensures ValidMonth(r[i].0, r[i].1) && 0 <= r[i].2 <= 255
    {
      assert EntryFrom(d, 0, r[i]);
    }
  }

  lemma {:induction false} ItemsEmpty(d: map<(int, int), int>)
    requires ValidTable(d)
    ensures ItemsFrom(d, 0) == [] <==> d == map[]
  {
    if d != map[] {
      var k :| k in d;
      MonthOfIdOf(k.0, k.1);
      ItemsFromComplete(d, 0, k);
    }
    if ItemsFrom(d, 0) != [] {
      ItemsFromSound(d, 0);
      assert EntryFrom(d, 0, ItemsFrom(d, 0)[0]);
    }
  }

  /** The last item has the largest month id. */
  lemma {:induction false} LastIsLargest(items: seq<(int, int, int)>)
    requires Increasing(items) && items != []
    ensures forall i :: 0 <= i < |items| ==> ItemId(items[i]) <= ItemId(items[|items| - 1])
  {
  }

  /** A month id names exactly one valid month. */
  lemma {:induction false} MonthIdUnique(monthId: nat)
    ensures forall k: (int, int) :: ValidMonth(k.0, k.1) && IdOf(k.0, k.1) == monthId ==> k == MonthOf(monthId)
  {
    forall k: (int, int) | ValidMonth(k.0, k.1) && IdOf(k.0, k.1) == monthId
      ensures k == MonthOf(monthId)
    {
      MonthOfIdOf(k.0, k.1);
    }
  }

  /** Ids strictly increasing. */
  predicate Increasing(items: seq<(int, int, int)>) {
    forall i, j :: 0 <= i < j < |items| ==> ItemId(items[i]) < ItemId(items[j])
  }

  predicate SmallCounts(items: seq<(int, int, int)>) {
    forall i :: 0 <= i < |items| ==> items[i].2 <= 255
  }

  predicate ValidItems(items: seq<(int, int, int)>) {
    forall i :: 0 <= i < |items| ==> ValidMonth(items[i].0, items[i].1) && items[i].2 >= 0
  }

  /** `struct.pack('>2B', offset, min(255, count))` for a kept item, nothing
      for an item before the base. */
  function Entry(item: (int, int, int), base: int): seq<byte>
    requires ItemId(item) <= base + 255 && item.2 >= 0
  {
    if ItemId(item) < base then [] else [ItemId(item) - base, if item.2 < 255 then item.2 else 255]
  }

  /** Every item lies at most 255 months after the base, with a count of at least 0. */
  predicate Bounded(items: seq<(int, int, int)>, base: int) {
    forall i :: 0 <= i < |items| ==> ItemId(items[i]) <= base + 255 && items[i].2 >= 0
  }

  function DumpBody(items: seq<(int, int, int)>, base: int): seq<byte>
    requires Bounded(items, base)
  {
    if items == [] then [] else Entry(items[0], base) + DumpBody(items[1..], base)
  }

  /** One step of `dump`'s loop. */
  lemma {:induction false} DumpBodyStep(items: seq<(int, int, int)>, i: int, base: int)
    requires Bounded(items, base) && 0 <= i < |items|
    ensures Bounded(items[i..], base) && Bounded(items[i + 1..], base)
    ensures DumpBody(items[i..], base) == Entry(items[i], base) + DumpBody(items[i + 1..], base)
  {
    assert items[i..][1..] == items[i + 1..];
    assert forall j :: 0 <= j < |items[i..]| ==> items[i..][j] == items[i + j];
  }

  /** `month_id_base`: the later of the first month and the last month minus 255. */
  function DumpBase(items: seq<(int, int, int)>): int
    requires items != []
  {
    var minId := ItemId(items[0]);
    var maxId := ItemId(items[|items| - 1]);
    if minId > maxId - 255 then minId else maxId - 255
  }

  /** `struct.pack('>H')` rejects a base month id of 65536 or more. */
  datatype DumpError = BaseOutOfRange

  /** `dump` of the sorted items. */
  function DumpSpec(items: seq<(int, int, int)>): Result<seq<byte>, DumpError>
    requires Increasing(items) && ValidItems(items)
  {
    if items == [] then Ok([])
    else
      var base := DumpBase(items);
      assert forall i :: 0 <= i < |items| ==> ItemId(items[i]) <= ItemId(items[|items| - 1]);
      if base >= 0x1_0000 then Err(BaseOutOfRange)
      else Ok(Be16(base) + DumpBody(items, base))
  }

  /** `dump` of a table. */
  function Dumped(d: map<(int, int), int>): Result<seq<byte>, DumpError>
    requires ValidTable(d)
  {
    ItemsOrdered(d);
    DumpSpec(ItemsFrom(d, 0))
  }

  /** `struct.iter_unpack('>2B', ...)` followed by `month_of_id(base + offset)`. */
  function DecodePairs(base: nat, body: seq<byte>): seq<(int, int, int)>
    requires |body| % 2 == 0
  {
    if body == [] then []
    else
      var ym := MonthOf(base + body[0]);
      [(ym.0, ym.1, body[1] as int)] + DecodePairs(base, body[2..])
  }

  datatype LoadError = LengthMismatch | BadItem(e: CountError)

  /** `load`. */
  function LoadSpec(data: seq<byte>): Result<map<(int, int), int>, LoadError> {
    if data == [] then Ok(map[])
    else if |data| % 2 != 0 then Err(LengthMismatch)
    else
      match PutAll(map[], DecodePairs(FromBe(data[..2]), data[2..]))
      case Ok(d) => Ok(d)
      case Err(e) => Err(BadItem(e))
  }

  /** The items `dump` keeps: those at or after the base. */
  function Kept(items: seq<(int, int, int)>, base: int): seq<(int, int, int)> {
    if items == [] then []
    else (if ItemId(items[0]) < base then [] else [items[0]]) + Kept(items[1..], base)
  }

  /** The table restricted to months from `lo` and from `base` on. */
  function Restrict(d: map<(int, int), int>, lo: int, base: int): map<(int, int), int> {
    map k | k in d && IdOf(k.0, k.1) >= lo && IdOf(k.0, k.1) >= base :: d[k]
  }

  /** Decoding one entry gives back the item when it is kept. */
  lemma {:induction false} DecodeEntry(x: (int, int, int), base: nat, tail: seq<byte>)
    requires ItemId(x) <= base + 255 && ValidMonth(x.0, x.1) && 0 <= x.2 <= 255
    requires |tail| % 2 == 0
    ensures |Entry(x, base) + tail| % 2 == 0
    ensures DecodePairs(base, Entry(x, base) + tail) ==
      (if ItemId(x) < base then [] else [x]) + DecodePairs(base, tail)
  {
    var body := Entry(x, base) + tail;
    if ItemId(x) >= base {
      MonthOfIdOf(x.0, x.1);
      assert body[0] == ItemId(x) - base && body[1] == x.2;
      assert body[2..] == tail;
      assert MonthOf(base + body[0]) == (x.0, x.1);
    } else {
      assert body == tail;
    }
  }

  lemma {:induction false} DecodeDumpBody(items: seq<(int, int, int)>, base: nat)
    requires forall i :: 0 <= i < |items| ==>
      ItemId(items[i]) <= base + 255 && ValidMonth(items[i].0, items[i].1) && 0 <= items[i].2 <= 255
    ensures |DumpBody(items, base)| % 2 == 0
    ensures DecodePairs(base, DumpBody(items, base)) == Kept(items, base)
    decreases |items|
  {
    if items != [] {
      DecodeDumpBody(items[1..], base);
      DecodeEntry(items[0], base, DumpBody(items[1..], base));
    }
  }

  /** The table entry at month id `lo`, if any, and `base` allows it. */
  function KeepAt(d: map<(int, int), int>, lo: nat, base: int, m: map<(int, int), int>): map<(int, int), int> {
    var k := MonthOf(lo);
    if k in d && lo >= base then m[k := d[k]] else m
  }

  lemma {:induction false} RestrictStep(d: map<(int, int), int>, lo: nat, base: int, m: map<(int, int), int>)
    requires ValidTable(d)
    ensures KeepAt(d, lo, base, m) + Restrict(d, lo + 1, base) == m + Restrict(d, lo, base)
  {
    IdOfMonthOf(lo);
    MonthIdUnique(lo);
  }

  lemma {:induction false} PutAllStep(d: map<(int, int), int>, lo: nat, base: int, m: map<(int, int), int>)
    requires ValidTable(d) && lo <= MaxMonthId
    ensures PutAll(m, Kept(ItemsFrom(d, lo), base)) == PutAll(KeepAt(d, lo, base, m), Kept(ItemsFrom(d, lo + 1), base))
  {
    var k := MonthOf(lo);
    IdOfMonthOf(lo);
    var items := ItemsFrom(d, lo);
    var rest := ItemsFrom(d, lo + 1);
    assert items == (if k in d then [(k.0, k.1, d[k])] else []) + rest;
    if k in d {
      assert items[0] == (k.0, k.1, d[k]) && items[1..] == rest;
      assert ItemId(items[0]) == lo;
      if lo >= base {
        assert Kept(items, base) == [items[0]] + Kept(rest, base);
        assert PutSpec(m, k.0, k.1, d[k]) == Ok(m[k := d[k]]);
        assert ([items[0]] + Kept(rest, base))[1..] == Kept(rest, base);
      } else {
        assert Kept(items, base) == Kept(rest, base);
      }
    } else {
      assert items == rest;
    }
  }

  lemma {:induction false} PutAllKept(d: map<(int, int), int>, lo: nat, base: int, m: map<(int, int), int>)
    requires ValidTable(d)
    ensures PutAll(m, Kept(ItemsFrom(d, lo), base)) == Ok(m + Restrict(d, lo, base))
    decreases MaxMonthId + 1 - lo
  {
    if lo > MaxMonthId {
      assert ItemsFrom(d, lo) == [];
      assert Restrict(d, lo, base) == map[] by {
        forall k | k in d
          ensures IdOf(k.0, k.1) < lo
        {
          MonthOfIdOf(k.0, k.1);
        }
      }
      assert m + map[] == m;
    } else {
      PutAllStep(d, lo, base, m);
      PutAllKept(d, lo + 1, base, KeepAt(d, lo, base, m));
      RestrictStep(d, lo, base, m);
    }
  }

  /** `load(dump(x))` keeps exactly the months at or after the dump's base,
      that is, drops the months more than 255 before the last one. */
  lemma {:induction false} DumpLoad(d: map<(int, int), int>)
    requires ValidTable(d)
    requires Dumped(d).Ok?
    ensures var items := ItemsFrom(d, 0);
      LoadSpec(Dumped(d).value) == Ok(if items == [] then d else Restrict(d, 0, DumpBase(items)))
  {
    var items := ItemsFrom(d, 0);
    ItemsOrdered(d);
    ItemsEmpty(d);
    if items != [] {
      var base := DumpBase(items);
      LastIsLargest(items);
      var body := DumpBody(items, base);
      var data := Be16(base) + body;
      assert Dumped(d) == Ok(data);
      DecodeDumpBody(items, base);
      assert data[..2] == Be16(base) && data[2..] == body;
      Be16RoundTrip(base);
      assert DecodePairs(FromBe(data[..2]), data[2..]) == Kept(items, base);
      PutAllKeptFromEmpty(d, base);
      var kept := Kept(items, base);
      var rd := Restrict(d, 0, base);
      assert PutAll(map[], kept) == Ok(rd);
      assert DecodePairs(FromBe(data[..2]), data[2..]) == kept;
      assert PutAll(map[], DecodePairs(FromBe(data[..2]), data[2..])) == Ok(rd);
      assert |data| == 2 + |body|;
      DivModOf(|body|, 2, |body| / 2, 0);
      DivModOf(|data|, 2, |body| / 2 + 1, 0);
      LoadOfPairs(data, rd);
    }
  }

  lemma {:induction false} PutAllKeptFromEmpty(d: map<(int, int), int>, base: int)
    requires ValidTable(d)
    ensures PutAll(map[], Kept(ItemsFrom(d, 0), base)) == Ok(Restrict(d, 0, base))
  {
    var r := Restrict(d, 0, base);
    PutAllKept(d, 0, base, map[]);
    EmptyUnion(r);
  }

  lemma {:induction false} EmptyUnion(m: map<(int, int), int>)
    ensures map[] + m == m
  {
  }

  lemma {:induction false} LoadOfPairs(data: seq<byte>, m: map<(int, int), int>)
    requires |data| >= 2 && |data| % 2 == 0
    requires PutAll(map[], DecodePairs(FromBe(data[..2]), data[2..])) == Ok(m)
    ensures LoadSpec(data) == Ok(m)
  {
  }

  /** When the months span at most 256 month ids, `load(dump(x))` is `x`. */
  lemma {:induction false} DumpLoadShortSpan(d: map<(int, int), int>)
    requires ValidTable(d)
    requires Dumped(d).Ok?
    requires forall k1, k2 :: k1 in d && k2 in d ==> IdOf(k2.0, k2.1) - IdOf(k1.0, k1.1) <= 255
    ensures LoadSpec(Dumped(d).value) == Ok(d)
  {
    DumpLoad(d);
    var items := ItemsFrom(d, 0);
    if items != [] {
      var base := DumpBase(items);
      ItemsFromSound(d, 0);
      ItemsFromIncreasing(d, 0);
      forall k | k in d
        ensures IdOf(k.0, k.1) >= 0 && IdOf(k.0, k.1) >= base
      {
        MonthOfIdOf(k.0, k.1);
        AboveBase(d, items, k);
      }
      RestrictAll(d, 0, base);
    }
  }

  lemma {:induction false} RestrictAll(d: map<(int, int), int>, lo: int, base: int)
    requires forall k :: k in d ==> IdOf(k.0, k.1) >= lo && IdOf(k.0, k.1) >= base
    ensures Restrict(d, lo, base) == d
  {
  }

  /** Under a span of at most 256 months every month of the table is at or
      after the dump base. */
  lemma {:induction false} AboveBase(d: map<(int, int), int>, items: seq<(int, int, int)>, k: (int, int))
    requires ValidTable(d) && items == ItemsFrom(d, 0) && items != [] && k in d
    requires AllEntriesFrom(d, 0, items) && Increasing(items)
    requires forall k1, k2 :: k1 in d && k2 in d ==> IdOf(k2.0, k2.1) - IdOf(k1.0, k1.1) <= 255
    ensures IdOf(k.0, k.1) >= DumpBase(items)
  {
    MonthOfIdOf(k.0, k.1);
    ItemsFromComplete(d, 0, k);
    var j :| 0 <= j < |items| && items[j] == (k.0, k.1, d[k]);
    assert ItemId(items[0]) <= ItemId(items[j]);
    var last := items[|items| - 1];
    assert EntryFrom(d, 0, last);
    assert IdOf(last.0, last.1) - IdOf(k.0, k.1) <= 255;
  }

  /** The kept items: their body has two bytes each, they lie in the
      255-month window from the base, and they stay in ascending order. */
  lemma {:induction false} KeptLength(items: seq<(int, int, int)>, base: int)
    requires Bounded(items, base)
    ensures |DumpBody(items, base)| == 2 * |Kept(items, base)|
    ensures forall i :: 0 <= i < |Kept(items, base)| ==> base <= ItemId(Kept(items, base)[i]) <= base + 255
    ensures Increasing(items) ==> Increasing(Kept(items, base))
  {
    KeptBodyLength(items, base);
    KeptSound(items, base);
    var kept := Kept(items, base);
    forall i | 0 <= i < |kept|
      ensures base <= ItemId(kept[i]) <= base + 255
    {
      var j :| 0 <= j < |items| && items[j] == kept[i];
    }
    if Increasing(items) {
      KeptIncreasing(items, base);
    }
  }

  lemma {:induction false} KeptBodyLength(items: seq<(int, int, int)>, base: int)
    requires Bounded(items, base)
    ensures |DumpBody(items, base)| == 2 * |Kept(items, base)|
    decreases |items|
  {
    if items != [] {
      DumpBodyStep(items, 0, base);
      assert items[0..] == items;
      KeptBodyLength(items[1..], base);
    }
  }

  /** Every kept item is an item at or after the base. */
  lemma {:induction false} KeptSound(items: seq<(int, int, int)>, base: int)
    ensures forall i :: 0 <= i < |Kept(items, base)| ==>
      Kept(items, base)[i] in items && ItemId(Kept(items, base)[i]) >= base
    decreases |items|
  {
    if items != [] {
      KeptSound(items[1..], base);
      var h: seq<(int, int, int)> := if ItemId(items[0]) < base then [] else [items[0]];
      var rest := Kept(items[1..], base);
      assert Kept(items, base) == h + rest;
      forall i | 0 <= i < |h + rest|
        ensures (h + rest)[i] in items && ItemId((h + rest)[i]) >= base
      {
        if i >= |h| {
          assert (h + rest)[i] == rest[i - |h|];
          assert rest[i - |h|] in items[1..];
        }
      }
    }
  }

  lemma {:induction false} KeptIncreasing(items: seq<(int, int, int)>, base: int)
    requires Increasing(items)
    ensures Increasing(Kept(items, base))
    decreases |items|
  {
    if items != [] {
      assert Increasing(items[1..]);
      KeptIncreasing(items[1..], base);
      var rest := Kept(items[1..], base);
      if ItemId(items[0]) >= base {
        KeptSound(items[1..], base);
        forall i | 0 <= i < |rest|
          ensures ItemId(items[0]) < ItemId(rest[i])
        {
          var j :| 0 <= j < |items[1..]| && items[1..][j] == rest[i];
          assert items[1..][j] == items[j + 1];
        }
        assert Kept(items, base) == [items[0]] + rest;
        ConsAbove(items[0], rest, Kept(items, base));
      }
    }
  }

  /** An item below every element of an increasing list heads an increasing list. */
  lemma {:induction false} ConsAbove(e: (int, int, int), rest: seq<(int, int, int)>, s: seq<(int, int, int)>)
    requires Increasing(rest) && s == [e] + rest
    requires forall i :: 0 <= i < |rest| ==> ItemId(e) < ItemId(rest[i])
    ensures Increasing(s)
  {
    forall i, j | 0 <= i < j < |s|
      ensures ItemId(s[i]) < ItemId(s[j])
    {
      assert s[j] == rest[j - 1];
      if i > 0 {
        assert s[i] == rest[i - 1];
      }
    }
  }

  /** A strictly increasing run of ids inside a window of w ids has at most w elements. */
  lemma {:induction false} IncreasingBound(items: seq<(int, int, int)>, lo: int, hi: int)
    requires Increasing(items) && lo <= hi + 1
    requires forall i :: 0 <= i < |items| ==> lo <= ItemId(items[i]) <= hi
    ensures |items| <= hi - lo + 1
    decreases |items|
  {
    if items != [] {
      assert Increasing(items[1..]);
      assert forall i :: 0 <= i < |items[1..]| ==> items[1..][i] == items[i + 1];
      IncreasingBound(items[1..], ItemId(items[0]) + 1, hi);
    }
  }

  /** A dump is empty exactly for an empty table; otherwise it is the 2-byte
      base followed by one byte pair per kept month, at most 514 bytes, and
      every offset byte stays within 255 of the base. */
  lemma {:induction false} DumpShape(d: map<(int, int), int>)
    requires ValidTable(d)
    requires Dumped(d).Ok?
    ensures var items := ItemsFrom(d, 0); var data := Dumped(d).value;
      (data == [] <==> d == map[])
      && (data != [] ==>
            |data| == 2 + 2 * |Kept(items, DumpBase(items))| && |data| <= 514
            && FromBe(data[..2]) == DumpBase(items))
  {
    var items := ItemsFrom(d, 0);
    ItemsOrdered(d);
    ItemsEmpty(d);
    if items != [] {
      var base := DumpBase(items);
      LastIsLargest(items);
      KeptLength(items, base);
      IncreasingBound(Kept(items, base), base, base + 255);
      var data := Dumped(d).value;
      assert data[..2] == Be16(base);
      Be16RoundTrip(base);
    }
  }

  /** `put` accepts any year up to 9999, but a base month id of 65536 or more
      (a year after 7431) makes `dump` fail in `struct.pack('>H')`. */
  lemma {:induction false} DumpOverflows()
    ensures PutSpec(map[], 9999, 12, 1).Ok?
    ensures var d := PutSpec(map[], 9999, 12, 1).value;
      ItemsFrom(d, MaxMonthId) == [(9999, 12, 1)] && DumpBase([(9999, 12, 1)]) == MaxMonthId
      && DumpSpec([(9999, 12, 1)]) == Err(BaseOutOfRange)
  {
    var d := PutSpec(map[], 9999, 12, 1).value;
    assert MonthOf(MaxMonthId) == (9999, 12);
    assert ItemsFrom(d, MaxMonthId + 1) == [];
  }

  /** Load never fails on a well-formed length and gives a valid table; empty
      data gives the empty table and odd lengths are rejected. */
  lemma {:induction false} LoadShape(data: seq<byte>)
    ensures data == [] ==> LoadSpec(data) == Ok(map[])
    ensures |data| % 2 != 0 ==> LoadSpec(data) == Err(LengthMismatch)
    ensures |data| % 2 == 0 ==> LoadSpec(data).Ok? && ValidTable(LoadSpec(data).value)
  {
    if data != [] && |data| % 2 == 0 {
      FromBeBound(data[..2]);
      LoadedItemsValid(FromBe(data[..2]), data[2..]);
      PutAllValid(map[], DecodePairs(FromBe(data[..2]), data[2..]));
    }
  }

  lemma {:induction false} LoadedItemsValid(base: nat, body: seq<byte>)
    requires base < 0x1_0000 && |body| % 2 == 0
    ensures ValidItems(DecodePairs(base, body))
    decreases |body|
  {
    if body != [] {
      LoadedItemsValid(base, body[2..]);
      var ym := MonthOf(base + body[0]);
      IdOfMonthOf(base + body[0]);
    }
  }

  lemma {:induction false} PutAllValid(d: map<(int, int), int>, items: seq<(int, int, int)>)
    requires ValidTable(d) && ValidItems(items)
    ensures PutAll(d, items).Ok? && ValidTable(PutAll(d, items).value)
    decreases |items|
  {
    if items != [] {
      var d' := PutSpec(d, items[0].0, items[0].1, items[0].2).value;
      assert ValidItems(items[1..]);
      PutAllValid(d', items[1..]);
    }
  }

  /** The loop of `dump`: one byte pair per item at or after the base. */
  lemma {:induction false} EvenLength(k: int)
    ensures (2 * k) % 2 == 0
  {
    DivModOf(2 * k, 2, k, 0);
  }

  /** One step of `load`'s loop over the byte pairs. */
  lemma {:induction false} LoadStep(base: nat, body: seq<byte>, i: nat, n: int, items: seq<(int, int, int)>)
    requires i < |body| && |body| - i == 2 * (n - i / 2) && i / 2 <= n
    requires |body| % 2 == 0 && |body[i..]| % 2 == 0
    requires DecodePairs(base, body) == items + DecodePairs(base, body[i..])
    ensures i + 2 <= |body| && |body| - (i + 2) == 2 * (n - (i + 2) / 2) && (i + 2) / 2 <= n
    ensures |body[i + 2..]| % 2 == 0
    ensures DecodePairs(base, body) ==
      (items + [(MonthOf(base + body[i]).0, MonthOf(base + body[i]).1, body[i + 1] as int)])
      + DecodePairs(base, body[i + 2..])
  {
    assert (i + 2) / 2 == i / 2 + 1;
    EvenLength(n - (i + 2) / 2);
    assert body[i..][2..] == body[i + 2..];
  }

  /** One step of `dump`'s loop: append the entry of item `i`. */
  lemma {:induction false} DumpEntriesStep(items: seq<(int, int, int)>, i: int, base: int, buffer: seq<byte>)
    requires Bounded(items, base) && 0 <= i < |items| && Bounded(items[i..], base)
    requires DumpBody(items, base) == buffer + DumpBody(items[i..], base)
    ensures ItemId(items[i]) <= base + 255 && items[i].2 >= 0 && Bounded(items[i + 1..], base)
    ensures DumpBody(items, base) == (buffer + Entry(items[i], base)) + DumpBody(items[i + 1..], base)
  {
    DumpBodyStep(items, i, base);
    var e := Entry(items[i], base);
    var rest := DumpBody(items[i + 1..], base);
    assert buffer + (e + rest) == (buffer + e) + rest;
  }

  method DumpEntries(items: seq<(int, int, int)>, base: int) returns (buffer: seq<byte>)
    requires Bounded(items, base)
    ensures buffer == DumpBody(items, base)
  {
    buffer := [];
    var i := 0;
    assert items[0..] == items;
    while i < |items|
      invariant 0 <= i <= |items| && Bounded(items[i..], base)
      invariant DumpBody(items, base) == buffer + DumpBody(items[i..], base)
    {
      var id := IdOf(items[i].0, items[i].1);
      DumpEntriesStep(items, i, base, buffer);
      var pair: seq<byte> := [];
      if id >= base {
        pair := [id - base, if items[i].2 < 255 then items[i].2 else 255];
      }
      assert pair == Entry(items[i], base);
      buffer := buffer + pair;
      i := i + 1;
    }
    assert buffer + [] == buffer;
  }

  /** The table (`MonthlyStoryCount` with its `_data` dictionary). */
  class Table {
    var data: map<(int, int), int>

    ghost predicate Valid()
      reads this
    {
      ValidTable(data)
    }

    /** `MonthlyStoryCount()`. */
    constructor ()
      ensures data == map[] && Valid()
    {
      data := map[];
    }

    /** `MonthlyStoryCount(items)`: `put` every item; the first invalid one raises. */
    static method FromItems(items: seq<(int, int, int)>) returns (r: Result<Table, CountError>)
      ensures r.Ok? <==> PutAll(map[], items).Ok?
      ensures r.Ok? ==> fresh(r.value) && r.value.data == PutAll(map[], items).value
      ensures r.Err? ==> r.error == PutAll(map[], items).error
    {
      var t := new Table();
      var i := 0;
      assert items[0..] == items;
      while i < |items|
        invariant 0 <= i <= |items|
        invariant PutAll(map[], items) == PutAll(t.data, items[i..])
        modifies t
      {
        var e := t.Put(items[i].0, items[i].1, items[i].2);
        if e.Err? {
          return Err(e.error);
        }
        assert items[i..][1..] == items[i + 1..];
        i := i + 1;
      }
      return Ok(t);
    }

    /** `__bool__`. */
    function NonEmpty(): bool
      reads this
    {
      data != map[]
    }

    /** `get`. */
    function Get(year: int, month: int): (r: Result<int, CountError>)
      reads this
      ensures r == GetSpec(data, year, month)
    {
      var _ :- CheckYearMonth(year, month);
      Ok(if (year, month) in data then data[(year, month)] else 0)
    }

    /** `put`: on an error the table is unchanged. */
    method Put(year: int, month: int, count: int) returns (r: Result<(), CountError>)
      modifies this
      ensures r.Ok? <==> PutSpec(old(data), year, month, count).Ok?
      ensures r.Ok? ==> data == PutSpec(old(data), year, month, count).value
      ensures r.Err? ==> data == old(data) && r.error == PutSpec(old(data), year, month, count).error
      ensures old(Valid()) ==> Valid()
    {
      var c := CheckYearMonth(year, month);
      if c.Err? {
        return Err(c.error);
      }
      if count < 0 {
        return Err(NegativeCount);
      }
      data := data[(year, month) := if count < 255 then count else 255];
      return Ok(());
    }

    /** `__iter__`: (year, month, count) in ascending month order. */
    function Items(): seq<(int, int, int)>
      reads this
    {
      ItemsFrom(data, 0)
    }

    /** `dump`. */
    method Dump() returns (r: Result<seq<byte>, DumpError>)
      requires Valid()
      ensures r == Dumped(data)
    {
      var d := data;
      var items := ItemsFrom(d, 0);
      ItemsOrdered(d);
      if items == [] {
        return Ok([]);
      }
      var minId := IdOf(items[0].0, items[0].1);
      var maxId := IdOf(items[|items| - 1].0, items[|items| - 1].1);
      var base := if minId > maxId - 255 then minId else maxId - 255;
      assert base == DumpBase(items);
      if base >= 0x1_0000 {
        return Err(BaseOutOfRange);
      }
      LastIsLargest(items);
      var body := DumpEntries(items, base);
      return Ok(Be16(base) + body);
    }

    /** `load`: decode the pairs into items, then build the table from them. */
    static method Load(data: seq<byte>) returns (r: Result<Table, LoadError>)
      ensures r.Ok? <==> LoadSpec(data).Ok?
      ensures r.Ok? ==> fresh(r.value) && r.value.data == LoadSpec(data).value
      ensures r.Err? ==> r.error == LoadSpec(data).error
    {
      if data == [] {
        var t := new Table();
        return Ok(t);
      }
      if |data| % 2 != 0 {
        return Err(LengthMismatch);
      }
      var base := FromBe(data[..2]);
      var body := data[2..];
      var n := |body| / 2;
      DivModOf(|data| - 2, 2, n, 0);
      var items: seq<(int, int, int)> := [];
      var i := 0;
      EvenLength(n);
      while i < |body|
        invariant 0 <= i <= |body| && |body| - i == 2 * (n - i / 2) && i / 2 <= n
        invariant |body| % 2 == 0 && |body[i..]| % 2 == 0
        invariant DecodePairs(base, body) == items + DecodePairs(base, body[i..])
      {
        var ym := MonthOf(base + body[i]);
        LoadStep(base, body, i, n, items);
        items := items + [(ym.0, ym.1, body[i + 1] as int)];
        i := i + 2;
      }
      assert items + [] == items;
      var t := FromItems(items);
      match t
      case Ok(table) => return Ok(table);
      case Err(e) => return Err(BadItem(e));
    }
  }
}
