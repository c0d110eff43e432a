/** Python's insertion-ordered dictionary (`dict`, `OrderedDict`) as a
    sequence of key-value pairs: assignment to an existing key keeps its
    position, a new key goes last. */
module OrderedDict {
  import opened Wrappers

  /** `d.get(key)`. */
  function Lookup<K(==), V>(m: seq<(K, V)>, k: K): Option<V> {
    if m == [] then None else if m[0].0 == k then Some(m[0].1) else Lookup(m[1..], k)
  }

  /** `d[key] = value`. */
  function Assign<K(==), V>(m: seq<(K, V)>, k: K, v: V): seq<(K, V)> {
    if m == [] then [(k, v)]
    else if m[0].0 == k then [(k, v)] + m[1..]
    else [m[0]] + Assign(m[1..], k, v)
  }

  /** No key occurs twice, as in any dictionary. */
  predicate DistinctKeys<K(==), V>(m: seq<(K, V)>) {
    forall i, j :: 0 <= i < j < |m| ==> m[i].0 != m[j].0
  }

  /** Keys are distinct exactly when the first key is not among the rest
      and the rest are distinct. */
  lemma {:induction false} DistinctKeysCons<K, V>(m: seq<(K, V)>)
    requires m != []
    ensures DistinctKeys(m) <==> Lookup(m[1..], m[0].0).None? && DistinctKeys(m[1..])
  {
    LookupNone(m[1..], m[0].0);
    assert forall i :: 1 <= i < |m| ==> m[i] == m[1..][i - 1];
  }

  /** After an assignment the key reads back as the new value and every
      other key reads as before. */
  lemma {:induction false} AssignLookup<K, V>(m: seq<(K, V)>, k: K, v: V, k': K)
    ensures Lookup(Assign(m, k, v), k') == if k' == k then Some(v) else Lookup(m, k')
  {
    if m != [] && m[0].0 != k {
      AssignLookup(m[1..], k, v, k');
    }
  }

  /** A second write to the same key replaces the first. */
  lemma {:induction false} AssignTwice<K, V>(m: seq<(K, V)>, k: K, v: V, w: V)
    ensures Assign(Assign(m, k, v), k, w) == Assign(m, k, w)
  {
    if m != [] && m[0].0 != k {
      AssignTwice(m[1..], k, v, w);
      assert ([m[0]] + Assign(m[1..], k, v))[1..] == Assign(m[1..], k, v);
    } else if m != [] {
      assert ([(k, v)] + m[1..])[1..] == m[1..];
    }
  }

  /** A new key is appended; an existing key is replaced in place, so the
      size grows by one exactly when the key was missing. */
  lemma {:induction false} AssignShape<K, V>(m: seq<(K, V)>, k: K, v: V)
    ensures Lookup(m, k).None? ==> Assign(m, k, v) == m + [(k, v)]
    ensures |Assign(m, k, v)| == if Lookup(m, k).None? then |m| + 1 else |m|
    ensures Lookup(m, k) == Some(v) ==> Assign(m, k, v) == m
  {
    if m != [] && m[0].0 != k {
      AssignShape(m[1..], k, v);
      assert m == [m[0]] + m[1..];
      if Lookup(m, k).None? {
        assert [m[0]] + (m[1..] + [(k, v)]) == m + [(k, v)];
      }
    } else if m != [] {
      assert m == [m[0]] + m[1..];
    }
  }

  /** Assignment keeps the keys distinct. */
  lemma {:induction false} AssignDistinct<K, V>(m: seq<(K, V)>, k: K, v: V)
    requires DistinctKeys(m)
    ensures DistinctKeys(Assign(m, k, v))
  {
    if m != [] {
      DistinctKeysCons(m);
      if m[0].0 != k {
        AssignDistinct(m[1..], k, v);
        AssignLookup(m[1..], k, v, m[0].0);
        DistinctKeysCons(Assign(m, k, v));
      } else {
        DistinctKeysCons(Assign(m, k, v));
      }
    }
  }

  /** With distinct keys, the key at position `j` reads as the value there,
      and assigning it replaces that position. */
  lemma {:induction false} AssignAt<K, V>(m: seq<(K, V)>, j: nat, v: V)
    requires DistinctKeys(m) && j < |m|
    ensures Lookup(m, m[j].0) == Some(m[j].1)
    ensures Assign(m, m[j].0, v) == m[j := (m[j].0, v)]
  {
    if j > 0 {
      assert m[1..][j - 1] == m[j];
      DistinctKeysCons(m);
      LookupNone(m[1..], m[0].0);
      AssignAt(m[1..], j - 1, v);
      assert m[j := (m[j].0, v)] == [m[0]] + m[1..][j - 1 := (m[j].0, v)];
    } else {
      assert m[0 := (m[0].0, v)] == [(m[0].0, v)] + m[1..];
    }
  }

  /** The position an assignment writes: the first entry with the key,
      replaced in place, or a new last entry when there is none. */
  lemma {:induction false} AssignIndex<K, V>(m: seq<(K, V)>, k: K, v: V) returns (j: nat)
    ensures j <= |m| && forall i :: 0 <= i < j ==> m[i].0 != k
    ensures j == |m| ==> Lookup(m, k).None? && Assign(m, k, v) == m + [(k, v)]
    ensures j < |m| ==> m[j].0 == k && Lookup(m, k) == Some(m[j].1) && Assign(m, k, v) == m[j := (k, v)]
  {
    if m == [] {
      j := 0;
    } else if m[0].0 == k {
      j := 0;
      assert Assign(m, k, v) == m[0 := (k, v)];
    } else {
      var j' := AssignIndex(m[1..], k, v);
      j := j' + 1;
      if j' == |m| - 1 {
        assert [m[0]] + (m[1..] + [(k, v)]) == m + [(k, v)];
      } else {
        assert [m[0]] + m[1..][j' := (k, v)] == m[j := (k, v)];
      }
      forall i | 0 <= i < j ensures m[i].0 != k {
        if i > 0 {
          assert m[i] == m[1..][i - 1];
        }
      }
    }
  }

  /** A lookup finds nothing exactly when no entry has the key. */
  lemma {:induction false} LookupNone<K, V>(m: seq<(K, V)>, k: K)
    ensures Lookup(m, k).None? <==> forall i :: 0 <= i < |m| ==> m[i].0 != k
  {
    if m != [] {
      LookupNone(m[1..], k);
      assert forall i :: 1 <= i < |m| ==> m[i] == m[1..][i - 1];
    }
  }

  lemma {:induction false} LookupAppend<K, V>(m: seq<(K, V)>, e: (K, V), k: K)
    ensures Lookup(m + [e], k) == if Lookup(m, k).Some? then Lookup(m, k) else if e.0 == k then Some(e.1) else None
  {
    if m != [] {
      assert (m + [e])[1..] == m[1..] + [e];
      LookupAppend(m[1..], e, k);
    }
  }

  /** `del d[key]` and `d.pop(key, None)`: the entry for the key goes,
      the others keep their order. */
  function Remove<K(==), V>(m: seq<(K, V)>, k: K): (r: seq<(K, V)>)
    ensures |r| <= |m|
  {
    if m == [] then []
    else if m[0].0 == k then Remove(m[1..], k)
    else [m[0]] + Remove(m[1..], k)
  }

  /** The number of values that satisfy `p`. */
  function Count<K, V>(m: seq<(K, V)>, p: V -> bool): nat {
    if m == [] then 0 else (if p(m[0].1) then 1 else 0) + Count(m[1..], p)
  }

  /** After a removal the key is gone and every other key reads as before. */
  lemma {:induction false} RemoveLookup<K, V>(m: seq<(K, V)>, k: K, k': K)
    ensures Lookup(Remove(m, k), k') == if k' == k then None else Lookup(m, k')
  {
    if m != [] {
      RemoveLookup(m[1..], k, k');
    }
  }

  lemma {:induction false} RemoveDistinct<K, V>(m: seq<(K, V)>, k: K)
    requires DistinctKeys(m)
    ensures DistinctKeys(Remove(m, k))
  {
    if m != [] {
      DistinctKeysCons(m);
      RemoveDistinct(m[1..], k);
      RemoveLookup(m[1..], k, m[0].0);
      if m[0].0 != k {
        DistinctKeysCons(Remove(m, k));
      }
    }
  }

  /** Removing a key not present changes nothing. */
  lemma {:induction false} RemoveMissing<K, V>(m: seq<(K, V)>, k: K)
    requires Lookup(m, k).None?
    ensures Remove(m, k) == m
  {
    if m != [] {
      RemoveMissing(m[1..], k);
      assert m == [m[0]] + m[1..];
    }
  }

  /** An assignment counts the new value instead of the old one. */
  lemma {:induction false} CountAssign<K, V>(m: seq<(K, V)>, k: K, v: V, p: V -> bool)
    requires DistinctKeys(m)
    ensures Count(Assign(m, k, v), p) ==
      Count(m, p) - (if Lookup(m, k).Some? && p(Lookup(m, k).value) then 1 else 0) + (if p(v) then 1 else 0)
  {
    if m != [] && m[0].0 != k {
      DistinctKeysCons(m);
      CountAssign(m[1..], k, v, p);
      assert ([m[0]] + Assign(m[1..], k, v))[1..] == Assign(m[1..], k, v);
    } else if m != [] {
      assert ([(k, v)] + m[1..])[1..] == m[1..];
    }
  }

  /** A removal uncounts the removed value. */
  lemma {:induction false} CountRemove<K, V>(m: seq<(K, V)>, k: K, p: V -> bool)
    requires DistinctKeys(m)
    ensures Count(Remove(m, k), p) == Count(m, p) - (if Lookup(m, k).Some? && p(Lookup(m, k).value) then 1 else 0)
  {
    if m != [] && m[0].0 != k {
      DistinctKeysCons(m);
      CountRemove(m[1..], k, p);
      assert ([m[0]] + Remove(m[1..], k))[1..] == Remove(m[1..], k);
    } else if m != [] {
      DistinctKeysCons(m);
      RemoveMissing(m[1..], k);
    }
  }

  /** `list(d.keys())`. */
  function KeyList<K, V>(m: seq<(K, V)>): (r: seq<K>)
    ensures |r| == |m| && forall i :: 0 <= i < |m| ==> r[i] == m[i].0
  {
    seq(|m|, i requires 0 <= i < |m| => m[i].0)
  }

  /** The keys whose values satisfy `p`, in order. */
  function KeysWhere<K, V>(m: seq<(K, V)>, p: V -> bool): seq<K> {
    if m == [] then [] else (if p(m[0].1) then [m[0].0] else []) + KeysWhere(m[1..], p)
  }

  /** `for k in ks: d.pop(k, None)`. */
  function RemoveAll<K(==), V>(m: seq<(K, V)>, ks: seq<K>): seq<(K, V)>
    decreases |ks|
  {
    if ks == [] then m else RemoveAll(Remove(m, ks[0]), ks[1..])
  }

  /** No element occurs twice. */
  predicate Unique<K(==)>(ks: seq<K>) {
    forall i, j :: 0 <= i < j < |ks| ==> ks[i] != ks[j]
  }

  lemma {:induction false} RemoveAllLookup<K, V>(m: seq<(K, V)>, ks: seq<K>, k: K)
    ensures Lookup(RemoveAll(m, ks), k) == if k in ks then None else Lookup(m, k)
    decreases |ks|
  {
    if ks != [] {
      RemoveAllLookup(Remove(m, ks[0]), ks[1..], k);
      RemoveLookup(m, ks[0], k);
      assert k in ks <==> k == ks[0] || k in ks[1..];
    }
  }

  lemma {:induction false} RemoveAllDistinct<K, V>(m: seq<(K, V)>, ks: seq<K>)
    requires DistinctKeys(m)
    ensures DistinctKeys(RemoveAll(m, ks))
    decreases |ks|
  {
    if ks != [] {
      RemoveDistinct(m, ks[0]);
      RemoveAllDistinct(Remove(m, ks[0]), ks[1..]);
    }
  }

  /** Removing distinct keys whose values all satisfy `p` uncounts each of
      them once, and leaves the count of any `r` that excludes `p` alone. */
  lemma {:induction false} CountRemoveAll<K, V>(m: seq<(K, V)>, ks: seq<K>, p: V -> bool, r: V -> bool)
    requires DistinctKeys(m) && Unique(ks)
    requires forall i :: 0 <= i < |ks| ==> Lookup(m, ks[i]).Some? && p(Lookup(m, ks[i]).value)
    requires forall i :: 0 <= i < |ks| ==> !r(Lookup(m, ks[i]).value)
    ensures Count(RemoveAll(m, ks), p) == Count(m, p) - |ks|
    ensures Count(RemoveAll(m, ks), r) == Count(m, r)
    decreases |ks|
  {
    if ks != [] {
      var m1 := Remove(m, ks[0]);
      CountRemove(m, ks[0], p);
      CountRemove(m, ks[0], r);
      RemoveDistinct(m, ks[0]);
      forall i | 0 <= i < |ks[1..]|
        ensures Lookup(m1, ks[1..][i]) == Lookup(m, ks[1..][i])
      {
        assert ks[1..][i] == ks[i + 1] != ks[0];
        RemoveLookup(m, ks[0], ks[1..][i]);
      }
      assert forall i :: 0 <= i < |ks[1..]| ==> ks[1..][i] == ks[i + 1];
      CountRemoveAll(m1, ks[1..], p, r);
    }
  }

  /** The selected keys are keys of `m` whose values satisfy `p`, each once,
      as many as there are such values. */
  lemma {:induction false} KeysWhereFacts<K, V>(m: seq<(K, V)>, p: V -> bool)
    requires DistinctKeys(m)
    ensures var ks := KeysWhere(m, p);
      Unique(ks) && |ks| == Count(m, p) &&
      (forall i :: 0 <= i < |ks| ==> Lookup(m, ks[i]).Some? && p(Lookup(m, ks[i]).value))
    ensures forall k :: Lookup(m, k).Some? && p(Lookup(m, k).value) ==> k in KeysWhere(m, p)
  {
    if m != [] {
      var tail := KeysWhere(m[1..], p);
      DistinctKeysCons(m);
      KeysWhereFacts(m[1..], p);
      var head := if p(m[0].1) then [m[0].0] else [];
      var ks := head + tail;
      assert Lookup(m[1..], m[0].0).None?;
      assert forall i :: 0 <= i < |tail| ==> tail[i] != m[0].0;
      forall i, j | 0 <= i < j < |ks| ensures ks[i] != ks[j] {
        if |head| == 1 && i == 0 {
          assert ks[j] == tail[j - 1];
        } else {
          assert ks[i] == tail[i - |head|] && ks[j] == tail[j - |head|];
        }
      }
      forall i | 0 <= i < |ks| ensures Lookup(m, ks[i]).Some? && p(Lookup(m, ks[i]).value) {
        if i >= |head| {
          assert ks[i] == tail[i - |head|];
        }
      }
    }
  }

  /** Removing the first selected key leaves the later ones selected. */
  lemma {:induction false} KeysWhereRemoveFirst<K, V>(m: seq<(K, V)>, p: V -> bool)
    requires DistinctKeys(m) && KeysWhere(m, p) != []
    ensures KeysWhere(Remove(m, KeysWhere(m, p)[0]), p) == KeysWhere(m, p)[1..]
  {
    var ks := KeysWhere(m, p);
    DistinctKeysCons(m);
    if p(m[0].1) {
      RemoveMissing(m[1..], m[0].0);
    } else {
      KeysWhereFacts(m[1..], p);
      assert Lookup(m[1..], ks[0]).Some?;
      assert ks[0] != m[0].0;
      KeysWhereRemoveFirst(m[1..], p);
      assert ([m[0]] + Remove(m[1..], ks[0]))[1..] == Remove(m[1..], ks[0]);
    }
  }

  /** Removing the first `n` selected keys leaves exactly the others
      selected, in order. */
  lemma {:induction false} KeysWhereRemovePrefix<K, V>(m: seq<(K, V)>, p: V -> bool, n: nat)
    requires DistinctKeys(m) && n <= |KeysWhere(m, p)|
    ensures KeysWhere(RemoveAll(m, KeysWhere(m, p)[..n]), p) == KeysWhere(m, p)[n..]
    decreases n
  {
    var ks := KeysWhere(m, p);
    if n > 0 {
      var m1 := Remove(m, ks[0]);
      KeysWhereRemoveFirst(m, p);
      RemoveDistinct(m, ks[0]);
      KeysWhereRemovePrefix(m1, p, n - 1);
      assert ks[..n][1..] == ks[1..][..n - 1];
      assert ks[1..][n - 1..] == ks[n..];
    }
  }

  /** A key that reads as something is among the keys. */
  lemma {:induction false} LookupKeyList<K, V>(m: seq<(K, V)>, k: K)
    requires Lookup(m, k).Some?
    ensures k in KeyList(m)
  {
    if m[0].0 != k {
      LookupKeyList(m[1..], k);
      var i :| 0 <= i < |m[1..]| && KeyList(m[1..])[i] == k;
      assert KeyList(m)[i + 1] == k;
    } else {
      assert KeyList(m)[0] == k;
    }
  }

  lemma {:induction false} KeysWhereConcat<K, V>(a: seq<(K, V)>, b: seq<(K, V)>, p: V -> bool)
    ensures KeysWhere(a + b, p) == KeysWhere(a, p) + KeysWhere(b, p)
  {
    if a != [] {
      assert (a + b)[1..] == a[1..] + b;
      KeysWhereConcat(a[1..], b, p);
    } else {
      assert a + b == b;
    }
  }
}
