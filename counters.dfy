/** A `defaultdict(lambda: 0)` used as a counter: its entries in insertion
    order. Reading a key sums its entries, so a missing key reads as 0 and
    the laws below need no side condition on repeated keys. */
module Counters {
  type Counter<K> = seq<(K, int)>

  /** `counter[k]`. */
  function Get<K(==)>(c: Counter<K>, k: K): int
    decreases |c|
  {
    if c == [] then 0 else (if c[0].0 == k then c[0].1 else 0) + Get(c[1..], k)
  }

  function Keys<K>(c: Counter<K>): set<K> {
    set i | 0 <= i < |c| :: c[i].0
  }

  /** Every key appears once, as in a dict. */
  predicate Distinct<K(==)>(c: Counter<K>) {
    forall i, j :: 0 <= i < j < |c| ==> c[i].0 != c[j].0
  }

  /** The sum of all counts. */
  function Total<K>(c: Counter<K>): int
    decreases |c|
  {
    if c == [] then 0 else c[0].1 + Total(c[1..])
  }

  /** `counter[k] += n`: the first entry for `k` grows, or a new entry is
      appended. */
  function Add<K(==)>(c: Counter<K>, k: K, n: int): Counter<K>
    decreases |c|
  {
    if c == [] then [(k, n)]
    else if c[0].0 == k then [(k, c[0].1 + n)] + c[1..]
    else [c[0]] + Add(c[1..], k, n)
  }

  /** `for k, v in d.items(): counter[k] += v`. */
  function AddAll<K(==)>(c: Counter<K>, d: Counter<K>): Counter<K>
    decreases |d|
  {
    if d == [] then c else AddAll(Add(c, d[0].0, d[0].1), d[1..])
  }

  /** `counter[v] += 1` for each value in turn. */
  function Tally<K(==)>(vs: seq<K>): Counter<K>
    decreases |vs|
  {
    if vs == [] then [] else Add(Tally(vs[..|vs| - 1]), vs[|vs| - 1], 1)
  }

  // ---- laws ------------------------------------------------------------------

  lemma {:induction false} AddGet<K>(c: Counter<K>, k: K, n: int, j: K)
    ensures Get(Add(c, k, n), j) == Get(c, j) + (if j == k then n else 0)
    decreases |c|
  {
    if c != [] && c[0].0 != k {
      AddGet(c[1..], k, n, j);
      assert ([c[0]] + Add(c[1..], k, n))[1..] == Add(c[1..], k, n);
    } else if c != [] {
      assert ([(k, c[0].1 + n)] + c[1..])[1..] == c[1..];
    }
  }

  lemma {:induction false} AddTotal<K>(c: Counter<K>, k: K, n: int)
    ensures Total(Add(c, k, n)) == Total(c) + n
    decreases |c|
  {
    if c != [] && c[0].0 != k {
      AddTotal(c[1..], k, n);
      assert ([c[0]] + Add(c[1..], k, n))[1..] == Add(c[1..], k, n);
    } else if c != [] {
      assert ([(k, c[0].1 + n)] + c[1..])[1..] == c[1..];
    }
  }

  lemma {:induction false} AddKeys<K>(c: Counter<K>, k: K, n: int)
    ensures Keys(Add(c, k, n)) == Keys(c) + {k}
    ensures Distinct(c) ==> Distinct(Add(c, k, n))
    decreases |c|
  {
    var r := Add(c, k, n);
    if c == [] {
      assert r[0].0 == k;
    } else if c[0].0 == k {
      assert forall i :: 0 <= i < |c| ==> r[i].0 == c[i].0;
    } else {
      var tail := Add(c[1..], k, n);
      AddKeys(c[1..], k, n);
      assert r == [c[0]] + tail;
      KeysCons(c[0], tail);
      KeysCons(c[0], c[1..]);
      assert [c[0]] + c[1..] == c;
      if Distinct(c) {
        DistinctCons(c);
        DistinctConsBack(c[0], tail);
      }
    }
  }

  lemma {:induction false} KeysCons<K>(e: (K, int), t: Counter<K>)
    ensures Keys([e] + t) == {e.0} + Keys(t)
  {
    var r := [e] + t;
    forall x | x in Keys(r) ensures x in {e.0} + Keys(t) {
      var i :| 0 <= i < |r| && r[i].0 == x;
      if i > 0 {
        assert t[i - 1].0 == x;
      }
    }
    forall x | x in Keys(t) ensures x in Keys(r) {
      var i :| 0 <= i < |t| && t[i].0 == x;
      assert r[i + 1].0 == x;
    }
    assert r[0].0 == e.0;
  }

  lemma {:induction false} DistinctCons<K>(c: Counter<K>)
    requires c != [] && Distinct(c)
    ensures Distinct(c[1..]) && c[0].0 !in Keys(c[1..])
  {
    assert forall i :: 0 <= i < |c[1..]| ==> c[1..][i] == c[i + 1];
  }

  lemma {:induction false} DistinctConsBack<K>(e: (K, int), t: Counter<K>)
    requires Distinct(t) && e.0 !in Keys(t)
    ensures Distinct([e] + t)
  {
    var r := [e] + t;
    forall i, j | 0 <= i < j < |r| ensures r[i].0 != r[j].0 {
      assert r[j] == t[j - 1];
      if i > 0 {
        assert r[i] == t[i - 1];
      }
    }
  }

  /** A key no entry names reads as 0. */
  lemma {:induction false} GetMissing<K>(c: Counter<K>, k: K)
    requires k !in Keys(c)
    ensures Get(c, k) == 0
    decreases |c|
  {
    if c != [] {
      assert c[0].0 in Keys(c);
      forall i | 0 <= i < |c[1..]| ensures c[1..][i].0 != k {
        assert c[1..][i] == c[i + 1];
      }
      GetMissing(c[1..], k);
    }
  }

  /** Adding a whole counter adds it key by key and adds its total. */
  lemma {:induction false} AddAllGet<K>(c: Counter<K>, d: Counter<K>, j: K)
    ensures Get(AddAll(c, d), j) == Get(c, j) + Get(d, j)
    ensures Total(AddAll(c, d)) == Total(c) + Total(d)
    decreases |d|
  {
    if d != [] {
      AddGet(c, d[0].0, d[0].1, j);
      AddTotal(c, d[0].0, d[0].1);
      AddAllGet(Add(c, d[0].0, d[0].1), d[1..], j);
    }
  }

  /** A tally counts every value as often as it occurs, and nothing else. */
  lemma {:induction false} TallyCounts<K>(vs: seq<K>, k: K)
    ensures Get(Tally(vs), k) == multiset(vs)[k]
    ensures Total(Tally(vs)) == |vs|
    ensures Keys(Tally(vs)) == set v | v in vs
    ensures Distinct(Tally(vs))
    decreases |vs|
  {
    if vs != [] {
      var init := vs[..|vs| - 1];
      var last := vs[|vs| - 1];
      assert vs == init + [last];
      TallyCounts(init, k);
      AddGet(Tally(init), last, 1, k);
      AddTotal(Tally(init), last, 1);
      AddKeys(Tally(init), last, 1);
      assert (set v | v in vs) == (set v | v in init) + {last};
    }
  }

  /** The total of a counter read from its last entry. */
  lemma {:induction false} TotalSnoc<K>(c: Counter<K>, e: (K, int))
    ensures Total(c + [e]) == Total(c) + e.1
    decreases |c|
  {
    if c != [] {
      assert (c + [e])[1..] == c[1..] + [e];
      TotalSnoc(c[1..], e);
    } else {
      assert ([e])[1..] == [];
    }
  }
}
