/** The feed analysis report of the command-line tools: per-domain
    statistics of the feeds (status, proxy use, last response status,
    freeze level), the values one domain contributes to the report, the
    change between two snapshots, and the report that groups the domains. */
module FeedAnalysis {
  import opened Counters

  datatype Feed = Feed(id: int, domain: string, status: string, useProxy: bool, responseStatus: int, freezeLevel: int)

  /** `compute_group_stats`: the number of feeds, how many use the proxy,
      and a counter per attribute. */
  datatype GroupStats = GroupStats(
    total: int, useProxy: int,
    status: Counter<string>, responseStatus: Counter<int>, freezeLevel: Counter<int>)

  function Statuses(feeds: seq<Feed>): seq<string> {
    seq(|feeds|, i requires 0 <= i < |feeds| => feeds[i].status)
  }

  function ProxyFlags(feeds: seq<Feed>): seq<bool> {
    seq(|feeds|, i requires 0 <= i < |feeds| => feeds[i].useProxy)
  }

  function ResponseStatuses(feeds: seq<Feed>): seq<int> {
    seq(|feeds|, i requires 0 <= i < |feeds| => feeds[i].responseStatus)
  }

  function FreezeLevels(feeds: seq<Feed>): seq<int> {
    seq(|feeds|, i requires 0 <= i < |feeds| => feeds[i].freezeLevel)
  }

  /** The statistics as tallies of the feeds' attributes; `use_proxy` keeps
      only the count under `True`. */
  function GroupStatsSpec(feeds: seq<Feed>): GroupStats {
    GroupStats(
      |feeds|, Get(Tally(ProxyFlags(feeds)), true),
      Tally(Statuses(feeds)), Tally(ResponseStatuses(feeds)), Tally(FreezeLevels(feeds)))
  }

  /** `compute_group_stats(feeds)`. */
  method ComputeGroupStats(feeds: seq<Feed>) returns (stats: GroupStats)
    ensures stats == GroupStatsSpec(feeds)
  {
    var status: Counter<string> := [];
    var proxy: Counter<bool> := [];
    var response: Counter<int> := [];
    var freeze: Counter<int> := [];
    for i := 0 to |feeds|
      invariant status == Tally(Statuses(feeds[..i]))
      invariant proxy == Tally(ProxyFlags(feeds[..i]))
      invariant response == Tally(ResponseStatuses(feeds[..i]))
      invariant freeze == Tally(FreezeLevels(feeds[..i]))
    {
      ProjectionsSnoc(feeds[..i], feeds[i]);
      assert feeds[..i + 1] == feeds[..i] + [feeds[i]];
      TallySnoc(Statuses(feeds[..i]), feeds[i].status);
      TallySnoc(ProxyFlags(feeds[..i]), feeds[i].useProxy);
      TallySnoc(ResponseStatuses(feeds[..i]), feeds[i].responseStatus);
      TallySnoc(FreezeLevels(feeds[..i]), feeds[i].freezeLevel);
      status := Add(status, feeds[i].status, 1);
      proxy := Add(proxy, feeds[i].useProxy, 1);
      response := Add(response, feeds[i].responseStatus, 1);
      freeze := Add(freeze, feeds[i].freezeLevel, 1);
    }
    assert feeds[..|feeds|] == feeds;
    stats := GroupStats(|feeds|, Get(proxy, true), status, response, freeze);
  }

  lemma {:induction false} ProjectionsSnoc(feeds: seq<Feed>, f: Feed)
    ensures Statuses(feeds + [f]) == Statuses(feeds) + [f.status]
    ensures ProxyFlags(feeds + [f]) == ProxyFlags(feeds) + [f.useProxy]
    ensures ResponseStatuses(feeds + [f]) == ResponseStatuses(feeds) + [f.responseStatus]
    ensures FreezeLevels(feeds + [f]) == FreezeLevels(feeds) + [f.freezeLevel]
  {
  }

  lemma {:induction false} TallySnoc<K>(vs: seq<K>, v: K)
    ensures Tally(vs + [v]) == Add(Tally(vs), v, 1)
  {
    assert (vs + [v])[..|vs|] == vs;
  }

  /** Every counter sums to the number of feeds; each counts the feeds with
      that value, and `use_proxy` the feeds that use the proxy. */
  lemma {:induction false} GroupStatsCounts(feeds: seq<Feed>, status: string, code: int)
    ensures var s := GroupStatsSpec(feeds);
      s.total == |feeds| && Total(s.status) == |feeds| &&
      Total(s.responseStatus) == |feeds| && Total(s.freezeLevel) == |feeds| &&
      s.useProxy == multiset(ProxyFlags(feeds))[true] &&
      Get(s.status, status) == multiset(Statuses(feeds))[status] &&
      Get(s.responseStatus, code) == multiset(ResponseStatuses(feeds))[code]
  {
    TallyCounts(Statuses(feeds), status);
    TallyCounts(ProxyFlags(feeds), true);
    TallyCounts(ResponseStatuses(feeds), code);
    TallyCounts(FreezeLevels(feeds), 0);
  }

  // ---- the values of one domain ------------------------------------------------

  datatype StatusBucket = StatusOk | NetworkError | Deny | ClientError | ServerError | OtherStatus

  /** The bucket of a response status; 401 and 403 are taken out of the 4xx
      range. */
  function BucketOfStatus(status: int): (b: StatusBucket)
    ensures b == StatusOk <==> status == 200 || status == 304
    ensures b == NetworkError <==> -299 <= status <= -200
    ensures b == Deny <==> status == 401 || status == 403
    ensures b == ClientError <==> 400 <= status <= 499 && status != 401 && status != 403
    ensures b == ServerError <==> 500 <= status <= 599
  {
    if status == 200 || status == 304 then StatusOk
    else if -299 <= status <= -200 then NetworkError
    else if status == 401 || status == 403 then Deny
    else if 400 <= status <= 499 then ClientError
    else if 500 <= status <= 599 then ServerError
    else OtherStatus
  }

  datatype FreezeBucket = Level1To3 | Level4To11 | Level12To167 | Level168Plus

  /** The bucket of a freeze level; levels below 4, 0 included, go to `1-3`. */
  function BucketOfLevel(level: int): (b: FreezeBucket)
    ensures b == Level168Plus <==> level >= 168
    ensures b == Level12To167 <==> 12 <= level < 168
    ensures b == Level4To11 <==> 4 <= level < 12
    ensures b == Level1To3 <==> level < 4
  {
    if level >= 168 then Level168Plus
    else if level >= 12 then Level12To167
    else if level >= 4 then Level4To11
    else Level1To3
  }

  /** The keys of a domain's values: `total`, `use_proxy`,
      `response_status:<bucket>` and `freeze_level:<bucket>`. */
  datatype ValueKey = TotalKey | UseProxyKey | StatusKey(status: StatusBucket) | LevelKey(level: FreezeBucket)

  /** The loop over `response_status`, on a prefix of its entries. */
  function StatusInto(acc: Counter<ValueKey>, c: Counter<int>): Counter<ValueKey>
    decreases |c|
  {
    if c == [] then acc
    else
      var e := c[|c| - 1];
      Add(StatusInto(acc, c[..|c| - 1]), StatusKey(BucketOfStatus(e.0)), e.1)
  }

  /** The loop over `freeze_level`, on a prefix of its entries. */
  function LevelInto(acc: Counter<ValueKey>, c: Counter<int>): Counter<ValueKey>
    decreases |c|
  {
    if c == [] then acc
    else
      var e := c[|c| - 1];
      Add(LevelInto(acc, c[..|c| - 1]), LevelKey(BucketOfLevel(e.0)), e.1)
  }

  function RecordValuesSpec(s: GroupStats): Counter<ValueKey> {
    LevelInto(StatusInto([(TotalKey, s.total), (UseProxyKey, s.useProxy)], s.responseStatus), s.freezeLevel)
  }

  /** `compute_record_values(domain_snapshot)`. */
  method ComputeRecordValues(s: GroupStats) returns (result: Counter<ValueKey>)
    ensures result == RecordValuesSpec(s)
  {
    var start: Counter<ValueKey> := [(TotalKey, s.total), (UseProxyKey, s.useProxy)];
    result := start;
    var statuses := s.responseStatus;
    for i := 0 to |statuses|
      invariant result == StatusInto(start, statuses[..i])
    {
      assert statuses[..i + 1][..i] == statuses[..i];
      var (status, count) := statuses[i];
      result := Add(result, StatusKey(BucketOfStatus(status)), count);
    }
    assert statuses[..|statuses|] == statuses;
    var afterStatus := result;
    var levels := s.freezeLevel;
    for i := 0 to |levels|
      invariant result == LevelInto(afterStatus, levels[..i])
    {
      assert levels[..i + 1][..i] == levels[..i];
      var (level, count) := levels[i];
      result := Add(result, LevelKey(BucketOfLevel(level)), count);
    }
    assert levels[..|levels|] == levels;
  }

  /** The counts of the statuses that fall in bucket `b`. */
  function StatusCount(c: Counter<int>, b: StatusBucket): int
    decreases |c|
  {
    if c == [] then 0
    else
      var e := c[|c| - 1];
      StatusCount(c[..|c| - 1], b) + (if BucketOfStatus(e.0) == b then e.1 else 0)
  }

  function LevelCount(c: Counter<int>, b: FreezeBucket): int
    decreases |c|
  {
    if c == [] then 0
    else
      var e := c[|c| - 1];
      LevelCount(c[..|c| - 1], b) + (if BucketOfLevel(e.0) == b then e.1 else 0)
  }

  function StatusBucketsSum(c: Counter<int>): int {
    StatusCount(c, StatusOk) + StatusCount(c, NetworkError) + StatusCount(c, Deny) +
    StatusCount(c, ClientError) + StatusCount(c, ServerError) + StatusCount(c, OtherStatus)
  }

  function LevelBucketsSum(c: Counter<int>): int {
    LevelCount(c, Level1To3) + LevelCount(c, Level4To11) + LevelCount(c, Level12To167) + LevelCount(c, Level168Plus)
  }

  lemma {:induction false} StatusIntoGet(acc: Counter<ValueKey>, c: Counter<int>, k: ValueKey)
    ensures Get(StatusInto(acc, c), k) == Get(acc, k) + (if k.StatusKey? then StatusCount(c, k.status) else 0)
    decreases |c|
  {
    if c != [] {
      var e := c[|c| - 1];
      StatusIntoGet(acc, c[..|c| - 1], k);
      AddGet(StatusInto(acc, c[..|c| - 1]), StatusKey(BucketOfStatus(e.0)), e.1, k);
    }
  }

  lemma {:induction false} LevelIntoGet(acc: Counter<ValueKey>, c: Counter<int>, k: ValueKey)
    ensures Get(LevelInto(acc, c), k) == Get(acc, k) + (if k.LevelKey? then LevelCount(c, k.level) else 0)
    decreases |c|
  {
    if c != [] {
      var e := c[|c| - 1];
      LevelIntoGet(acc, c[..|c| - 1], k);
      AddGet(LevelInto(acc, c[..|c| - 1]), LevelKey(BucketOfLevel(e.0)), e.1, k);
    }
  }

  /** Each status lands in exactly one bucket, so the buckets add up to the
      counter's total. */
  lemma {:induction false} StatusBucketsTotal(c: Counter<int>)
    ensures StatusBucketsSum(c) == Total(c)
    decreases |c|
  {
    if c != [] {
      var init := c[..|c| - 1];
      StatusBucketsTotal(init);
      assert c == init + [c[|c| - 1]];
      TotalSnoc(init, c[|c| - 1]);
    }
  }

  lemma {:induction false} LevelBucketsTotal(c: Counter<int>)
    ensures LevelBucketsSum(c) == Total(c)
    decreases |c|
  {
    if c != [] {
      var init := c[..|c| - 1];
      LevelBucketsTotal(init);
      assert c == init + [c[|c| - 1]];
      TotalSnoc(init, c[|c| - 1]);
    }
  }

  /** A domain's values: its total and proxy count as given, each status
      bucket the sum of its statuses' counts, and the buckets summing to the
      counters' totals. */
  /** Reading one key of a domain's values. */
  lemma {:induction false} RecordValuesGet(s: GroupStats, k: ValueKey)
    ensures Get(RecordValuesSpec(s), k) ==
      (if k == TotalKey then s.total else if k == UseProxyKey then s.useProxy else 0) +
      (if k.StatusKey? then StatusCount(s.responseStatus, k.status) else 0) +
      (if k.LevelKey? then LevelCount(s.freezeLevel, k.level) else 0)
  {
    var start: Counter<ValueKey> := [(TotalKey, s.total), (UseProxyKey, s.useProxy)];
    LevelIntoGet(StatusInto(start, s.responseStatus), s.freezeLevel, k);
    StatusIntoGet(start, s.responseStatus, k);
    assert start[1..][1..] == [];
    assert Get(start[1..], k) == (if k == UseProxyKey then s.useProxy else 0) + Get(start[1..][1..], k);
  }

  /** A domain's values: its total and proxy count as given, each status
      bucket the sum of its statuses' counts, and the buckets summing to the
      counters' totals. */
  lemma {:induction false} RecordValuesMeaning(s: GroupStats, b: StatusBucket, f: FreezeBucket)
    ensures var r := RecordValuesSpec(s);
      Get(r, TotalKey) == s.total && Get(r, UseProxyKey) == s.useProxy &&
      Get(r, StatusKey(b)) == StatusCount(s.responseStatus, b) &&
      Get(r, LevelKey(f)) == LevelCount(s.freezeLevel, f)
    ensures var r := RecordValuesSpec(s);
      Get(r, StatusKey(StatusOk)) + Get(r, StatusKey(NetworkError)) + Get(r, StatusKey(Deny)) +
      Get(r, StatusKey(ClientError)) + Get(r, StatusKey(ServerError)) + Get(r, StatusKey(OtherStatus)) ==
      Total(s.responseStatus)
    ensures var r := RecordValuesSpec(s);
      Get(r, LevelKey(Level1To3)) + Get(r, LevelKey(Level4To11)) + Get(r, LevelKey(Level12To167)) +
      Get(r, LevelKey(Level168Plus)) == Total(s.freezeLevel)
  {
    RecordValuesGet(s, TotalKey);
    RecordValuesGet(s, UseProxyKey);
    RecordValuesGet(s, StatusKey(b));
    RecordValuesGet(s, LevelKey(f));
    RecordValuesGet(s, StatusKey(StatusOk));
    RecordValuesGet(s, StatusKey(NetworkError));
    RecordValuesGet(s, StatusKey(Deny));
    RecordValuesGet(s, StatusKey(ClientError));
    RecordValuesGet(s, StatusKey(ServerError));
    RecordValuesGet(s, StatusKey(OtherStatus));
    RecordValuesGet(s, LevelKey(Level1To3));
    RecordValuesGet(s, LevelKey(Level4To11));
    RecordValuesGet(s, LevelKey(Level12To167));
    RecordValuesGet(s, LevelKey(Level168Plus));
    StatusBucketsTotal(s.responseStatus);
    LevelBucketsTotal(s.freezeLevel);
  }

  /** For the statistics of a list of feeds, the status buckets and the
      level buckets each add up to the number of feeds. */
  lemma {:induction false} BucketsCoverFeeds(feeds: seq<Feed>)
    ensures var r := RecordValuesSpec(GroupStatsSpec(feeds));
      Get(r, StatusKey(StatusOk)) + Get(r, StatusKey(NetworkError)) + Get(r, StatusKey(Deny)) +
      Get(r, StatusKey(ClientError)) + Get(r, StatusKey(ServerError)) + Get(r, StatusKey(OtherStatus)) ==
      |feeds|
    ensures var r := RecordValuesSpec(GroupStatsSpec(feeds));
      Get(r, LevelKey(Level1To3)) + Get(r, LevelKey(Level4To11)) + Get(r, LevelKey(Level12To167)) +
      Get(r, LevelKey(Level168Plus)) == |feeds|
  {
    RecordValuesMeaning(GroupStatsSpec(feeds), StatusOk, Level1To3);
    GroupStatsCounts(feeds, "", 0);
  }

  // ---- the change between two snapshots ------------------------------------------

  /** `_compute_record_deltas(values1, values2)`: one entry per key of
      either, the second value minus the first, a missing one read as 0.
      The keys come from a set, so their order is not fixed. */
  method RecordDeltas(values1: Counter<ValueKey>, values2: Counter<ValueKey>) returns (deltas: Counter<ValueKey>)
    ensures Keys(deltas) == Keys(values1) + Keys(values2)
    ensures Distinct(deltas)
    ensures forall k :: Get(deltas, k) == Get(values2, k) - Get(values1, k)
  {
    var keys := Keys(values1) + Keys(values2);
    var remaining := keys;
    deltas := [];
    while remaining != {}
      invariant remaining <= keys
      invariant Keys(deltas) == keys - remaining
      invariant Distinct(deltas)
      invariant forall k :: k in Keys(deltas) ==> Get(deltas, k) == Get(values2, k) - Get(values1, k)
      decreases |remaining|
    {
      var k :| k in remaining;
      var entry := (k, Get(values2, k) - Get(values1, k));
      DeltaSnoc(deltas, entry);
      forall j | j in Keys(deltas + [entry])
        ensures Get(deltas + [entry], j) == Get(values2, j) - Get(values1, j)
      {
        assert Get(deltas + [entry], j) == Get(deltas, j) + (if j == k then entry.1 else 0);
        if j != k {
          assert j in Keys(deltas);
        } else {
          GetMissing(deltas, k);
        }
      }
      deltas := deltas + [entry];
      remaining := remaining - {k};
    }
    forall j ensures Get(deltas, j) == Get(values2, j) - Get(values1, j) {
      if j !in keys {
        GetMissing(deltas, j);
        GetMissing(values1, j);
        GetMissing(values2, j);
      }
    }
  }

  lemma {:induction false} DeltaSnoc(c: Counter<ValueKey>, e: (ValueKey, int))
    requires Distinct(c) && e.0 !in Keys(c)
    ensures Keys(c + [e]) == Keys(c) + {e.0}
    ensures Distinct(c + [e])
    ensures forall k :: Get(c + [e], k) == Get(c, k) + (if k == e.0 then e.1 else 0)
  {
    var r := c + [e];
    assert forall i :: 0 <= i < |c| ==> r[i] == c[i];
    assert r[|c|] == e;
    forall x | x in Keys(r) ensures x in Keys(c) + {e.0} {
      var i :| 0 <= i < |r| && r[i].0 == x;
    }
    forall k ensures Get(c + [e], k) == Get(c, k) + (if k == e.0 then e.1 else 0) {
      GetSnoc(c, e, k);
    }
  }

  lemma {:induction false} GetSnoc<K>(c: Counter<K>, e: (K, int), k: K)
    ensures Get(c + [e], k) == Get(c, k) + (if k == e.0 then e.1 else 0)
    decreases |c|
  {
    if c != [] {
      assert (c + [e])[1..] == c[1..] + [e];
      GetSnoc(c[1..], e, k);
    } else {
      assert [e][1..] == [];
    }
  }

  // ---- one record per domain -------------------------------------------------------

  /** One item of a snapshot: a domain and the statistics of its feeds. */
  datatype SnapshotItem = SnapshotItem(domain: string, stats: GroupStats)

  /** `{x['domain']: x for x in snapshot['items']}`: a later item for the
      same domain replaces an earlier one. */
  function IndexByDomain(items: seq<SnapshotItem>): (m: map<string, GroupStats>)
    ensures m.Keys == set i | 0 <= i < |items| :: items[i].domain
    decreases |items|
  {
    if items == [] then map[]
    else
      var init := items[..|items| - 1];
      var last := items[|items| - 1];
      var m0 := IndexByDomain(init);
      assert (set i | 0 <= i < |items| :: items[i].domain) ==
        (set i | 0 <= i < |init| :: init[i].domain) + {last.domain} by {
        assert forall i :: 0 <= i < |init| ==> init[i] == items[i];
      }
      m0[last.domain := last.stats]
  }

  /** The item that wins for `domain` is its last one. */
  lemma {:induction false} IndexByDomainLast(items: seq<SnapshotItem>, j: int)
    requires 0 <= j < |items|
    requires forall i :: j < i < |items| ==> items[i].domain != items[j].domain
    ensures IndexByDomain(items)[items[j].domain] == items[j].stats
    decreases |items|
  {
    if j < |items| - 1 {
      var init := items[..|items| - 1];
      assert init[j] == items[j];
      forall i | j < i < |init| ensures init[i].domain != init[j].domain {
        assert init[i] == items[i];
      }
      IndexByDomainLast(init, j);
    }
  }

  /** `empty_domain`. */
  const EmptyDomain := GroupStats(0, 0, [], [], [])

  function StatsOf(m: map<string, GroupStats>, domain: string): GroupStats {
    if domain in m then m[domain] else EmptyDomain
  }

  datatype DomainRecord = DomainRecord(domain: string, total: int, snapshot1: GroupStats, snapshot2: GroupStats)

  /** The record of one domain: its statistics in each snapshot, and the
      larger of its two totals. */
  function RecordFor(m1: map<string, GroupStats>, m2: map<string, GroupStats>, domain: string): (r: DomainRecord)
    ensures r.domain == domain && r.snapshot1 == StatsOf(m1, domain) && r.snapshot2 == StatsOf(m2, domain)
    ensures r.total >= r.snapshot1.total && r.total >= r.snapshot2.total
    ensures r.total == r.snapshot1.total || r.total == r.snapshot2.total
  {
    var d1 := StatsOf(m1, domain);
    var d2 := StatsOf(m2, domain);
    DomainRecord(domain, if d1.total >= d2.total then d1.total else d2.total, d1, d2)
  }

  function Domains(rs: seq<DomainRecord>): set<string> {
    set i | 0 <= i < |rs| :: rs[i].domain
  }

  predicate DistinctDomains(rs: seq<DomainRecord>) {
    forall i, j :: 0 <= i < j < |rs| ==> rs[i].domain != rs[j].domain
  }

  predicate SortedByTotal(rs: seq<DomainRecord>) {
    forall i, j :: 0 <= i < j < |rs| ==> rs[i].total >= rs[j].total
  }

  /** Puts `x` after every record whose total is at least its own. */
  function Insert(rs: seq<DomainRecord>, x: DomainRecord): (r: seq<DomainRecord>)
    ensures multiset(r) == multiset(rs) + multiset{x}
    decreases |rs|
  {
    if rs == [] then [x]
    else if rs[0].total >= x.total then
      assert rs == [rs[0]] + rs[1..];
      [rs[0]] + Insert(rs[1..], x)
    else [x] + rs
  }

  lemma {:induction false} InsertSorted(rs: seq<DomainRecord>, x: DomainRecord)
    requires SortedByTotal(rs)
    ensures SortedByTotal(Insert(rs, x))
    decreases |rs|
  {
    if rs != [] && rs[0].total >= x.total {
      var tail := Insert(rs[1..], x);
      assert SortedByTotal(rs[1..]) by {
        assert forall i :: 0 <= i < |rs[1..]| ==> rs[1..][i] == rs[i + 1];
      }
      InsertSorted(rs[1..], x);
      var r := [rs[0]] + tail;
      forall j | 0 < j < |r| ensures rs[0].total >= r[j].total {
        assert r[j] == tail[j - 1];
        InsertBounded(rs, x, j - 1);
      }
      forall i, j | 0 <= i < j < |r| ensures r[i].total >= r[j].total {
        if i > 0 {
          assert r[i] == tail[i - 1] && r[j] == tail[j - 1];
        }
      }
    }
  }

  /** The head of a sorted list bounds everything inserted behind it. */
  lemma {:induction false} InsertBounded(rs: seq<DomainRecord>, x: DomainRecord, k: int)
    requires SortedByTotal(rs) && rs != [] && rs[0].total >= x.total
    requires 0 <= k < |Insert(rs[1..], x)|
    ensures rs[0].total >= Insert(rs[1..], x)[k].total
  {
    var tail := Insert(rs[1..], x);
    assert tail[k] in multiset(tail);
    assert tail[k] == x || tail[k] in multiset(rs[1..]);
    if tail[k] != x {
      var m :| 0 <= m < |rs[1..]| && rs[1..][m] == tail[k];
      assert rs[m + 1] == tail[k];
    }
  }

  /** `sorted(records, key=lambda x: x.total, reverse=True)`: a stable sort
      by descending total. */
  function SortByTotal(rs: seq<DomainRecord>): (r: seq<DomainRecord>)
    ensures multiset(r) == multiset(rs)
    ensures SortedByTotal(r)
    decreases |rs|
  {
    if rs == [] then []
    else
      assert rs == rs[..|rs| - 1] + [rs[|rs| - 1]];
      InsertSorted(SortByTotal(rs[..|rs| - 1]), rs[|rs| - 1]);
      Insert(SortByTotal(rs[..|rs| - 1]), rs[|rs| - 1])
  }

  /** What a permutation keeps: the domains, their distinctness, and every
      property of each element. */
  lemma {:induction false} SameElements(a: seq<DomainRecord>, b: seq<DomainRecord>)
    requires multiset(a) == multiset(b)
    ensures Domains(a) == Domains(b)
    ensures DistinctDomains(a) ==> DistinctDomains(b)
    ensures forall x :: x in a <==> x in b
  {
    assert forall x :: x in a <==> x in multiset(a);
    forall d | d in Domains(a) ensures d in Domains(b) {
      var i :| 0 <= i < |a| && a[i].domain == d;
      assert a[i] in multiset(b);
      var j :| 0 <= j < |b| && b[j] == a[i];
    }
    forall d | d in Domains(b) ensures d in Domains(a) {
      var i :| 0 <= i < |b| && b[i].domain == d;
      assert b[i] in multiset(a);
      var j :| 0 <= j < |a| && a[j] == b[i];
    }
    if DistinctDomains(a) {
      forall i, j | 0 <= i < j < |b| ensures b[i].domain != b[j].domain {
        if b[i].domain == b[j].domain {
          DistinctCount(a, b, i, j);
        }
      }
    }
  }

  /** Two elements of a permutation of a list with distinct domains cannot
      share their domain. */
  lemma {:induction false} DistinctCount(a: seq<DomainRecord>, b: seq<DomainRecord>, i: int, j: int)
    requires multiset(a) == multiset(b) && DistinctDomains(a)
    requires 0 <= i < j < |b|
    ensures b[i].domain != b[j].domain
  {
    assert b[i] in multiset(a) && b[j] in multiset(a);
    var p :| 0 <= p < |a| && a[p] == b[i];
    var q :| 0 <= q < |a| && a[q] == b[j];
    if p == q {
      assert b == b[..i] + [b[i]] + b[i + 1..j] + [b[j]] + b[j + 1..];
      assert multiset(b)[b[i]] >= 2;
      UniqueCount(a, p);
      assert false;
    } else if p < q {
      assert a[p].domain != a[q].domain;
    } else {
      assert a[q].domain != a[p].domain;
    }
  }

  /** In a list with distinct domains every element occurs once. */
  lemma {:induction false} UniqueCount(a: seq<DomainRecord>, p: int)
    requires DistinctDomains(a) && 0 <= p < |a|
    ensures multiset(a)[a[p]] == 1
    decreases |a|
  {
    var init := a[..|a| - 1];
    assert a == init + [a[|a| - 1]];
    assert forall i :: 0 <= i < |init| ==> init[i] == a[i];
    if p == |a| - 1 {
      assert a[p] !in init;
    } else {
      UniqueCount(init, p);
      assert a[|a| - 1] != a[p];
    }
  }

  predicate DomainRecordsOf(items1: seq<SnapshotItem>, items2: seq<SnapshotItem>, rs: seq<DomainRecord>) {
    var m1 := IndexByDomain(items1);
    var m2 := IndexByDomain(items2);
    Domains(rs) == m1.Keys + m2.Keys && DistinctDomains(rs) &&
    (forall i :: 0 <= i < |rs| ==> rs[i] == RecordFor(m1, m2, rs[i].domain)) &&
    SortedByTotal(rs)
  }

  /** `_compute_domain_records(snapshot1, snapshot2)`: one record per domain of
      either snapshot, largest total first. Domains come from a set, so the
      order among equal totals is not fixed. */
  method ComputeDomainRecords(items1: seq<SnapshotItem>, items2: seq<SnapshotItem>) returns (records: seq<DomainRecord>)
    ensures DomainRecordsOf(items1, items2, records)
  {
    var m1 := IndexByDomain(items1);
    var m2 := IndexByDomain(items2);
    var unsorted := RecordsFor(m1, m2, m1.Keys + m2.Keys);
    records := SortByTotal(unsorted);
    SortedRecords(unsorted, records, m1, m2);
  }

  /** The loop over the domains, in the set's order. */
  method RecordsFor(m1: map<string, GroupStats>, m2: map<string, GroupStats>, domains: set<string>)
    returns (unsorted: seq<DomainRecord>)
    ensures Domains(unsorted) == domains && DistinctDomains(unsorted)
    ensures forall i :: 0 <= i < |unsorted| ==> unsorted[i] == RecordFor(m1, m2, unsorted[i].domain)
  {
    var remaining := domains;
    unsorted := [];
    while remaining != {}
      invariant remaining <= domains
      invariant Domains(unsorted) == domains - remaining
      invariant DistinctDomains(unsorted)
      invariant forall i :: 0 <= i < |unsorted| ==> unsorted[i] == RecordFor(m1, m2, unsorted[i].domain)
      decreases |remaining|
    {
      var domain :| domain in remaining;
      AppendRecord(unsorted, RecordFor(m1, m2, domain));
      unsorted := unsorted + [RecordFor(m1, m2, domain)];
      remaining := remaining - {domain};
    }
  }

  lemma {:induction false} AppendRecord(rs: seq<DomainRecord>, x: DomainRecord)
    requires DistinctDomains(rs) && x.domain !in Domains(rs)
    ensures Domains(rs + [x]) == Domains(rs) + {x.domain}
    ensures DistinctDomains(rs + [x])
    ensures forall i :: 0 <= i < |rs| ==> (rs + [x])[i] == rs[i]
  {
    var next := rs + [x];
    assert forall i :: 0 <= i < |rs| ==> next[i] == rs[i];
    assert next[|rs|] == x;
    forall i, j | 0 <= i < j < |next| ensures next[i].domain != next[j].domain {
      if j == |rs| {
        assert rs[i].domain in Domains(rs);
      }
    }
  }

  lemma {:induction false} SortedRecords(unsorted: seq<DomainRecord>, records: seq<DomainRecord>,
                      m1: map<string, GroupStats>, m2: map<string, GroupStats>)
    requires multiset(records) == multiset(unsorted) && DistinctDomains(unsorted)
    requires forall i :: 0 <= i < |unsorted| ==> unsorted[i] == RecordFor(m1, m2, unsorted[i].domain)
    ensures Domains(records) == Domains(unsorted) && DistinctDomains(records)
    ensures forall i :: 0 <= i < |records| ==> records[i] == RecordFor(m1, m2, records[i].domain)
  {
    SameElements(unsorted, records);
    forall i | 0 <= i < |records| ensures records[i] == RecordFor(m1, m2, records[i].domain) {
      assert records[i] in unsorted;
    }
  }

  // ---- the report ----------------------------------------------------------------

  /** The rows of the report: the first 30 domains by name, the others in
      `other:<n>`, `other:4-9`, `other:10-99` or `other:100+` by total, and
      `ALL`. */
  datatype ReportKey = DomainRow(domain: string) | OtherExactly(total: int) | Other4To9 | Other10To99 | Other100Plus | AllRows

  /** The row the record at `index` goes to, besides `ALL`. */
  function KeyOf(index: int, r: DomainRecord): (k: ReportKey)
    ensures k.DomainRow? <==> index < 30
    ensures k.DomainRow? ==> k.domain == r.domain
    ensures k.OtherExactly? <==> index >= 30 && r.total <= 3
    ensures k.OtherExactly? ==> k.total == r.total
    ensures k == Other4To9 <==> index >= 30 && 4 <= r.total <= 9
    ensures k == Other10To99 <==> index >= 30 && 10 <= r.total <= 99
    ensures k == Other100Plus <==> index >= 30 && r.total >= 100
    ensures k != AllRows
  {
    if index < 30 then DomainRow(r.domain)
    else if r.total <= 3 then OtherExactly(r.total)
    else if r.total <= 9 then Other4To9
    else if r.total <= 99 then Other10To99
    else Other100Plus
  }

  /** `_default_domain_report()` and what a row accumulates. */
  datatype ReportEntry = ReportEntry(total: int, base: Counter<ValueKey>, delta: Counter<ValueKey>)

  const EmptyEntry := ReportEntry(0, [], [])

  function EntryOf(rows: map<ReportKey, ReportEntry>, k: ReportKey): ReportEntry {
    if k in rows then rows[k] else EmptyEntry
  }

  /** The record at `index` adds into row `k`. */
  predicate Feeds(index: int, r: DomainRecord, k: ReportKey) {
    k == AllRows || k == KeyOf(index, r)
  }

  function Values1(r: DomainRecord): Counter<ValueKey> { RecordValuesSpec(r.snapshot1) }

  function Values2(r: DomainRecord): Counter<ValueKey> { RecordValuesSpec(r.snapshot2) }

  /** Some record of `rs` adds into row `k`. */
  predicate Reached(rs: seq<DomainRecord>, k: ReportKey)
    decreases |rs|
  {
    rs != [] && (Feeds(|rs| - 1, rs[|rs| - 1], k) || Reached(rs[..|rs| - 1], k))
  }

  /** The sum of the totals of the records that add into row `k`. */
  function RowTotal(rs: seq<DomainRecord>, k: ReportKey): int
    decreases |rs|
  {
    if rs == [] then 0
    else RowTotal(rs[..|rs| - 1], k) + (if Feeds(|rs| - 1, rs[|rs| - 1], k) then rs[|rs| - 1].total else 0)
  }

  /** The sum of the first snapshot's values under `v`, over those records. */
  function RowBase(rs: seq<DomainRecord>, k: ReportKey, v: ValueKey): int
    decreases |rs|
  {
    if rs == [] then 0
    else RowBase(rs[..|rs| - 1], k, v) + (if Feeds(|rs| - 1, rs[|rs| - 1], k) then Get(Values1(rs[|rs| - 1]), v) else 0)
  }

  /** The sum of the changes under `v`, over those records. */
  function RowDelta(rs: seq<DomainRecord>, k: ReportKey, v: ValueKey): int
    decreases |rs|
  {
    if rs == [] then 0
    else
      var r := rs[|rs| - 1];
      RowDelta(rs[..|rs| - 1], k, v) + (if Feeds(|rs| - 1, r, k) then Get(Values2(r), v) - Get(Values1(r), v) else 0)
  }

  /** A row holds the sums of the records that add into it. */
  ghost predicate RowMatches(e: ReportEntry, rs: seq<DomainRecord>, k: ReportKey) {
    e.total == RowTotal(rs, k) &&
    (forall v :: Get(e.base, v) == RowBase(rs, k, v)) &&
    (forall v :: Get(e.delta, v) == RowDelta(rs, k, v))
  }

  ghost predicate ReportOf(rs: seq<DomainRecord>, rows: map<ReportKey, ReportEntry>) {
    (forall k :: k in rows <==> Reached(rs, k)) &&
    (forall k :: k in rows ==> RowMatches(rows[k], rs, k))
  }

  /** `for k, v in d.items(): counter[k] += v`. */
  method AddInto(c: Counter<ValueKey>, d: Counter<ValueKey>) returns (r: Counter<ValueKey>)
    ensures r == AddAll(c, d)
  {
    r := c;
    for i := 0 to |d|
      invariant AddAll(r, d[i..]) == AddAll(c, d)
    {
      assert d[i..][1..] == d[i + 1..];
      r := Add(r, d[i].0, d[i].1);
    }
  }

  /** `next` is `rows` after record `r` added into row `k`: every other row
      unchanged, row `k` grown by the record's total, its first values and
      its changes. */
  ghost predicate Added(rows: map<ReportKey, ReportEntry>, k: ReportKey, r: DomainRecord, next: map<ReportKey, ReportEntry>) {
    next.Keys == rows.Keys + {k} &&
    (forall j :: j in rows && j != k ==> next[j] == rows[j]) &&
    next[k].total == EntryOf(rows, k).total + r.total &&
    (forall v :: Get(next[k].base, v) == Get(EntryOf(rows, k).base, v) + Get(Values1(r), v)) &&
    (forall v :: Get(next[k].delta, v) == Get(EntryOf(rows, k).delta, v) + Get(Values2(r), v) - Get(Values1(r), v))
  }

  /** One pass of `for key in (key, 'ALL')`: the record adds its total, its
      first values and its changes into row `k`, created empty when absent. */
  method AddRecord(rows: map<ReportKey, ReportEntry>, k: ReportKey, r: DomainRecord)
    returns (next: map<ReportKey, ReportEntry>)
    ensures Added(rows, k, r, next)
  {
    var e := EntryOf(rows, k);
    var values1 := ComputeRecordValues(r.snapshot1);
    var base := AddInto(e.base, values1);
    var values2 := ComputeRecordValues(r.snapshot2);
    var deltas := RecordDeltas(values1, values2);
    var delta := AddInto(e.delta, deltas);
    forall v ensures Get(base, v) == Get(e.base, v) + Get(Values1(r), v) {
      AddAllGet(e.base, values1, v);
    }
    forall v ensures Get(delta, v) == Get(e.delta, v) + Get(Values2(r), v) - Get(Values1(r), v) {
      AddAllGet(e.delta, deltas, v);
    }
    next := rows[k := ReportEntry(e.total + r.total, base, delta)];
    AddedEntry(rows, k, r, base, delta);
  }

  /** Row `k` replaced by an entry with the record's sums is `Added`. */
  lemma {:induction false} AddedEntry(rows: map<ReportKey, ReportEntry>, k: ReportKey, r: DomainRecord,
                                      base: Counter<ValueKey>, delta: Counter<ValueKey>)
    requires forall v :: Get(base, v) == Get(EntryOf(rows, k).base, v) + Get(Values1(r), v)
    requires forall v :: Get(delta, v) == Get(EntryOf(rows, k).delta, v) + Get(Values2(r), v) - Get(Values1(r), v)
    ensures Added(rows, k, r, rows[k := ReportEntry(EntryOf(rows, k).total + r.total, base, delta)])
  {
  }

  /** `compute_report(snapshot1, snapshot2)`, up to the final ordering of
      its rows: the domain records, and each row with the sums of the
      records that add into it. */
  method ComputeReport(items1: seq<SnapshotItem>, items2: seq<SnapshotItem>)
    returns (records: seq<DomainRecord>, rows: map<ReportKey, ReportEntry>)
    ensures DomainRecordsOf(items1, items2, records)
    ensures ReportOf(records, rows)
  {
    records := ComputeDomainRecords(items1, items2);
    rows := ReportRows(records);
  }

  /** The loop of `compute_report` over the domain records in order. */
  method ReportRows(records: seq<DomainRecord>) returns (rows: map<ReportKey, ReportEntry>)
    ensures ReportOf(records, rows)
  {
    rows := map[];
    for i := 0 to |records|
      invariant ReportOf(records[..i], rows)
    {
      var r := records[i];
      var key := KeyOf(i, r);
      var rows1 := AddRecord(rows, key, r);
      var rows2 := AddRecord(rows1, AllRows, r);
      assert records[..i + 1] == records[..i] + [r];
      ReportStep(records[..i], r, rows, key, rows1, rows2);
      rows := rows2;
    }
    assert records[..|records|] == records;
  }

  /** An empty row holds no sums. */
  lemma {:induction false} Unreached(rs: seq<DomainRecord>, k: ReportKey, v: ValueKey)
    requires !Reached(rs, k)
    ensures RowTotal(rs, k) == 0 && RowBase(rs, k, v) == 0 && RowDelta(rs, k, v) == 0
    decreases |rs|
  {
    if rs != [] {
      Unreached(rs[..|rs| - 1], k, v);
    }
  }

  /** The two passes of one record keep every row equal to its sums. */
  lemma {:induction false} ReportStep(p: seq<DomainRecord>, r: DomainRecord, rows: map<ReportKey, ReportEntry>, key: ReportKey,
                   rows1: map<ReportKey, ReportEntry>, rows2: map<ReportKey, ReportEntry>)
    requires ReportOf(p, rows) && key == KeyOf(|p|, r)
    requires Added(rows, key, r, rows1) && Added(rows1, AllRows, r, rows2)
    ensures ReportOf(p + [r], rows2)
  {
    var q := p + [r];
    assert q[..|q| - 1] == p;
    forall k ensures k in rows2 <==> Reached(q, k) {
    }
    assert EntryOf(rows1, AllRows) == EntryOf(rows, AllRows);
    forall k | k in rows2 ensures RowMatches(rows2[k], q, k) {
      if k == AllRows || k == key {
        RowGrows(p, r, rows, rows2, k);
      } else {
        assert rows2[k] == rows[k];
      }
    }
  }

  /** A row the record adds into grows by exactly that record's share. */
  lemma {:induction false} RowGrows(p: seq<DomainRecord>, r: DomainRecord, rows: map<ReportKey, ReportEntry>,
                 rows2: map<ReportKey, ReportEntry>, k: ReportKey)
    requires ReportOf(p, rows) && k in rows2 && Feeds(|p|, r, k)
    requires rows2[k].total == EntryOf(rows, k).total + r.total
    requires forall v :: Get(rows2[k].base, v) == Get(EntryOf(rows, k).base, v) + Get(Values1(r), v)
    requires forall v :: Get(rows2[k].delta, v) == Get(EntryOf(rows, k).delta, v) + Get(Values2(r), v) - Get(Values1(r), v)
    ensures RowMatches(rows2[k], p + [r], k)
  {
    var q := p + [r];
    assert q[..|q| - 1] == p;
    if k !in rows {
      Unreached(p, k, TotalKey);
    }
    assert RowTotal(q, k) == RowTotal(p, k) + r.total;
    forall v ensures Get(EntryOf(rows, k).base, v) == RowBase(p, k, v)
      && Get(EntryOf(rows, k).delta, v) == RowDelta(p, k, v)
      && EntryOf(rows, k).total == RowTotal(p, k)
    {
      if k !in rows {
        Unreached(p, k, v);
      }
    }
  }

  // ---- what the report promises ------------------------------------------------------

  /** The sum of all the records' totals. */
  function SumTotals(rs: seq<DomainRecord>): int
    decreases |rs|
  {
    if rs == [] then 0 else rs[0].total + SumTotals(rs[1..])
  }

  lemma {:induction false} SumTotalsSnoc(rs: seq<DomainRecord>, r: DomainRecord)
    ensures SumTotals(rs + [r]) == SumTotals(rs) + r.total
    decreases |rs|
  {
    if rs != [] {
      assert (rs + [r])[1..] == rs[1..] + [r];
      SumTotalsSnoc(rs[1..], r);
    } else {
      assert [r][1..] == [];
    }
  }

  /** The `ALL` row holds the sum of every domain's total, and exists as
      soon as there is a domain. */
  lemma {:induction false} AllRowSumsAll(rs: seq<DomainRecord>)
    ensures RowTotal(rs, AllRows) == SumTotals(rs)
    ensures Reached(rs, AllRows) <==> rs != []
    decreases |rs|
  {
    if rs != [] {
      var init := rs[..|rs| - 1];
      AllRowSumsAll(init);
      assert rs == init + [rs[|rs| - 1]];
      SumTotalsSnoc(init, rs[|rs| - 1]);
    }
  }

  /** A row other than `ALL` exists exactly when some record's key is that
      row. */
  lemma {:induction false} ReachedIff(rs: seq<DomainRecord>, k: ReportKey)
    requires k != AllRows
    ensures Reached(rs, k) <==> exists j :: 0 <= j < |rs| && KeyOf(j, rs[j]) == k
    decreases |rs|
  {
    if rs != [] {
      var init := rs[..|rs| - 1];
      ReachedIff(init, k);
      if Reached(rs, k) && !Feeds(|rs| - 1, rs[|rs| - 1], k) {
        var j :| 0 <= j < |init| && KeyOf(j, init[j]) == k;
        assert rs[j] == init[j];
      }
      if exists j :: 0 <= j < |rs| && KeyOf(j, rs[j]) == k {
        var j :| 0 <= j < |rs| && KeyOf(j, rs[j]) == k;
        if j < |init| {
          assert init[j] == rs[j];
        }
      }
    }
  }

  /** Only the first 30 domains have a row of their own. */
  lemma {:induction false} DomainRowIff(rs: seq<DomainRecord>, d: string)
    ensures Reached(rs, DomainRow(d)) <==> exists j :: 0 <= j < |rs| && j < 30 && rs[j].domain == d
  {
    ReachedIff(rs, DomainRow(d));
    if exists j :: 0 <= j < |rs| && j < 30 && rs[j].domain == d {
      var j :| 0 <= j < |rs| && j < 30 && rs[j].domain == d;
      assert KeyOf(j, rs[j]) == DomainRow(d);
    }
  }

  /** With distinct domains, the row of one of the first 30 domains holds
      exactly that domain's total, first values and changes. */
  lemma {:induction false} OwnRow(rs: seq<DomainRecord>, j: int, v: ValueKey)
    requires DistinctDomains(rs) && 0 <= j < |rs| && j < 30
    ensures RowTotal(rs, DomainRow(rs[j].domain)) == rs[j].total
    ensures RowBase(rs, DomainRow(rs[j].domain), v) == Get(Values1(rs[j]), v)
    ensures RowDelta(rs, DomainRow(rs[j].domain), v) == Get(Values2(rs[j]), v) - Get(Values1(rs[j]), v)
    decreases |rs|
  {
    var init := rs[..|rs| - 1];
    var k := DomainRow(rs[j].domain);
    assert forall i :: 0 <= i < |init| ==> init[i] == rs[i];
    assert DistinctDomains(init);
    if j == |rs| - 1 {
      assert forall i :: 0 <= i < |init| ==> init[i].domain != rs[j].domain;
      ReachedIff(init, k);
      Unreached(init, k, v);
    } else {
      assert rs[|rs| - 1].domain != rs[j].domain;
      OwnRow(init, j, v);
    }
  }

  /** The report of two unchanged snapshots records no change anywhere. */
  lemma {:induction false} NoChange(rs: seq<DomainRecord>, k: ReportKey, v: ValueKey)
    requires forall i :: 0 <= i < |rs| ==> rs[i].snapshot1 == rs[i].snapshot2
    ensures RowDelta(rs, k, v) == 0
    decreases |rs|
  {
    if rs != [] {
      var init := rs[..|rs| - 1];
      assert forall i :: 0 <= i < |init| ==> init[i] == rs[i];
      NoChange(init, k, v);
    }
  }
}
