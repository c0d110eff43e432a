/** The paging cursor of the API: a small insertion-ordered mapping printed
    as `k1:v1,k2:v2` and parsed back from that text, optionally against a
    set of allowed keys. */
module Cursors {
  import opened Wrappers
  import opened Text
  import opened OrderedDict

  /** The cursor's `_items`, in insertion order. */
  type Items = seq<(string, string)>

  /** The `ValueError`s of `from_string`. */
  datatype CursorError =
    | InvalidSegment(segment: string)
    | InvalidKey(key: string)
    | MissingKeys(missing: set<string>)

  /** The keys present in an item list. */
  function KeysOf<V>(items: seq<(string, V)>): (r: set<string>)
    ensures forall k :: k in r <==> Lookup(items, k).Some?
  {
    if items == [] then {} else {items[0].0} + KeysOf(items[1..])
  }

  // ---- printing: __str__ --------------------------------------------------

  /** The `k:v` segment of every item, in order. */
  function SegmentsOf(items: Items): (r: seq<string>)
    ensures |r| == |items|
    ensures forall i :: 0 <= i < |items| ==> r[i] == items[i].0 + [':'] + items[i].1
  {
    if items == [] then [] else [items[0].0 + [':'] + items[0].1] + SegmentsOf(items[1..])
  }

  /** `str(cursor)`: the segments joined with commas. */
  function Format(items: Items): string {
    Join(SegmentsOf(items), ',')
  }

  // ---- parsing: the loop of from_string -----------------------------------

  /** The segments `from_string` walks: the stripped text split on commas. */
  function Segments(value: string): seq<string> {
    Split(Strip(value), ',')
  }

  /** What one segment does to the dictionary being built: it must hold a
      colon, the text before the first colon is the key and must be allowed,
      and the rest is assigned to it. */
  function Step(m: Items, segment: string, keys: Option<set<string>>): (r: Result<Items, CursorError>)
    ensures SplitOnce(segment, ':').None? ==> r == Err(InvalidSegment(segment))
    ensures SplitOnce(segment, ':').Some? ==>
      var (k, v) := SplitOnce(segment, ':').value;
      r == if keys.Some? && k !in keys.value then Err(InvalidKey(k)) else Ok(Assign(m, k, v))
  {
    match SplitOnce(segment, ':')
    case None => Err(InvalidSegment(segment))
    case Some((k, v)) =>
      if keys.Some? && k !in keys.value then Err(InvalidKey(k)) else Ok(Assign(m, k, v))
  }

  /** The dictionary built from a list of segments, stopping at the first
      segment that fails. */
  function Collect(segments: seq<string>, keys: Option<set<string>>): Result<Items, CursorError>
  {
    if segments == [] then Ok([])
    else
      match Collect(segments[..|segments| - 1], keys)
      case Err(e) => Err(e)
      case Ok(m) => Step(m, segments[|segments| - 1], keys)
  }

  /** The items the loop of `from_string` collects from `value`. */
  function ParseItems(value: string, keys: Option<set<string>>): Result<Items, CursorError> {
    Collect(Segments(value), keys)
  }

  /** The loop of `from_string`, building `items` segment by segment. */
  method CollectItems(value: string, keys: Option<set<string>>) returns (r: Result<Items, CursorError>)
    ensures r == ParseItems(value, keys)
  {
    var segments := Segments(value);
    var items: Items := [];
    var i := 0;
    while i < |segments|
      invariant 0 <= i <= |segments|
      invariant Collect(segments[..i], keys) == Ok(items)
    {
      CollectNext(segments, keys, i, items);
      var next := StepSegment(items, segments[i], keys);
      if next.Err? {
        return next;
      }
      items := next.value;
      i := i + 1;
    }
    assert segments[..i] == segments;
    r := Ok(items);
  }

  /** One pass of the loop of `from_string`: split the segment at its first
      colon, check the key and assign the value. */
  method StepSegment(items: Items, p: string, keys: Option<set<string>>) returns (r: Result<Items, CursorError>)
    ensures r == Step(items, p, keys)
  {
    var kv := SplitOnce(p, ':');
    if kv.None? {
      return Err(InvalidSegment(p));
    }
    var (key, v) := kv.value;
    if keys.Some? && key !in keys.value {
      return Err(InvalidKey(key));
    }
    r := Ok(Assign(items, key, v));
  }

  // ---- the constructor and the missing-key check --------------------------

  /** The keyword arguments of `Cursor(**items)`, with `None` for a missing
      value. */
  type Given = seq<(string, Option<string>)>

  /** Whether the constructor keeps a value: it drops `None` and `''`. */
  predicate Kept(v: Option<string>) {
    v.Some? && v.value != ""
  }

  /** The constructor's filter: the items whose value is kept, in order. */
  function Filter(given: Given): (r: Items)
    ensures forall i :: 0 <= i < |r| ==> r[i].1 != ""
    ensures |r| <= |given|
  {
    if given == [] then []
    else if Kept(given[0].1) then [(given[0].0, given[0].1.value)] + Filter(given[1..])
    else Filter(given[1..])
  }

  /** Every value of a parsed dictionary, passed to the constructor. */
  function Lift(items: Items): (r: Given)
    ensures |r| == |items| && forall i :: 0 <= i < |items| ==> r[i] == (items[i].0, Some(items[i].1))
  {
    if items == [] then [] else [(items[0].0, Some(items[0].1))] + Lift(items[1..])
  }

  /** `','.join(missing)` is empty exactly when nothing is missing or only the
      empty key is, so only then does `_check_missing_keys` pass. */
  predicate NothingMissing(missing: set<string>) {
    missing == {} || missing == {""}
  }

  /** `_check_missing_keys`: the error, if any, for a cursor holding `items`. */
  function MissingError(keys: Option<set<string>>, items: Items): Option<CursorError> {
    if keys.Some? && !NothingMissing(keys.value - KeysOf(items)) then Some(MissingKeys(keys.value - KeysOf(items)))
    else None
  }

  /** `Cursor.from_string(value, keys)`: the parsed items, filtered by the
      constructor, then checked for missing keys. */
  function FromStringItems(value: string, keys: Option<set<string>>): Result<Items, CursorError> {
    match ParseItems(value, keys)
    case Err(e) => Err(e)
    case Ok(m) =>
      var c := Filter(Lift(m));
      match MissingError(keys, c)
      case Some(e) => Err(e)
      case None => Ok(c)
  }

  class Cursor {
    var items: Items

    predicate Valid()
      reads this
    {
      DistinctKeys(items)
    }

    /** `Cursor(**items)`: keyword arguments have distinct names. */
    constructor (given: Given)
      requires DistinctKeys(given)
      ensures items == Filter(given) && Valid()
    {
      FilterKeepsDistinct(given);
      items := Filter(given);
    }

    /** `cursor.key` and `cursor[key]`; `KeyError` when missing. */
    function Get(key: string): (r: Option<string>)
      reads this
      ensures r.Some? <==> key in KeysOf(items)
    {
      Lookup(items, key)
    }

    /** `cursor.key = value` and `cursor[key] = value`, which do not filter. */
    method Set(key: string, value: string)
      requires Valid()
      modifies this
      ensures Valid() && items == Assign(old(items), key, value)
      ensures Get(key) == Some(value)
      ensures forall k :: k != key ==> Get(k) == old(Get(k))
    {
      AssignDistinct(items, key, value);
      AssignLookup(items, key, value, key);
      forall k | k != key ensures Lookup(Assign(items, key, value), k) == Lookup(items, k) {
        AssignLookup(items, key, value, k);
      }
      items := Assign(items, key, value);
    }

    /** `_check_missing_keys`. */
    method CheckMissingKeys(keys: Option<set<string>>) returns (e: Option<CursorError>)
      ensures e == MissingError(keys, items)
    {
      e := None;
      if keys.Some? {
        var missing := keys.value - KeysOf(items);
        if !NothingMissing(missing) {
          e := Some(MissingKeys(missing));
        }
      }
    }

    /** `str(cursor)`. */
    function Str(): (s: string)
      reads this
      ensures items != [] ==> s != ""
    {
      FormatNonEmpty(items);
      Format(items)
    }

    /** `Cursor.from_string(value, keys)`. */
    static method FromString(value: string, keys: Option<set<string>>) returns (r: Result<Cursor, CursorError>)
      ensures r.Err? <==> FromStringItems(value, keys).Err?
      ensures r.Err? ==> r.error == FromStringItems(value, keys).error
      ensures r.Ok? ==> fresh(r.value) && r.value.Valid() && r.value.items == FromStringItems(value, keys).value
    {
      var parsed := CollectItems(value, keys);
      if parsed.Err? {
        return Err(parsed.error);
      }
      CollectDistinct(Segments(value), keys);
      LiftKeepsDistinct(parsed.value);
      var c := new Cursor(Lift(parsed.value));
      var e := c.CheckMissingKeys(keys);
      if e.Some? {
        return Err(e.value);
      }
      return Ok(c);
    }
  }

  // ---- lemmas -------------------------------------------------------------

  /** One more segment: the next dictionary is the step's result, and a
      failing step is the outcome of the whole parse. */
  lemma {:induction false} CollectNext(segments: seq<string>, keys: Option<set<string>>, i: nat, items: Items)
    requires i < |segments| && Collect(segments[..i], keys) == Ok(items)
    ensures Collect(segments[..i + 1], keys) == Step(items, segments[i], keys)
    ensures Step(items, segments[i], keys).Err? ==> Collect(segments, keys) == Step(items, segments[i], keys)
  {
    assert segments[..i + 1][..i] == segments[..i];
    if Step(items, segments[i], keys).Err? {
      CollectOk(segments[..i], keys);
      CollectFirstError(segments, keys, i);
    }
  }

  lemma {:induction false} FormatNonEmpty(items: Items)
    ensures items != [] ==> Format(items) != ""
  {
    if items != [] {
      var s := SegmentsOf(items);
      assert |s[0]| >= 1;
      if |s| > 1 {
        assert |Format(items)| >= |s[0]|;
      }
    }
  }

  /** Whether one segment passes: it holds a colon and its key is allowed. */
  predicate SegmentOk(segment: string, keys: Option<set<string>>) {
    ':' in segment && (keys.Some? ==> SplitOnce(segment, ':').value.0 in keys.value)
  }

  /** The error of a segment that does not pass. */
  function SegmentError(segment: string): CursorError {
    if ':' in segment then InvalidKey(SplitOnce(segment, ':').value.0) else InvalidSegment(segment)
  }

  /** Parsing succeeds exactly when every segment passes. */
  lemma {:induction false} CollectOk(segments: seq<string>, keys: Option<set<string>>)
    ensures Collect(segments, keys).Ok? <==> forall i :: 0 <= i < |segments| ==> SegmentOk(segments[i], keys)
  {
    if segments != [] {
      var n := |segments| - 1;
      var front := segments[..n];
      CollectOk(front, keys);
      CollectSnoc(segments, keys);
      assert forall i :: 0 <= i < n ==> front[i] == segments[i];
    }
  }

  /** A step fails exactly when its segment does not pass, with that
      segment's error. */
  lemma {:induction false} StepOk(m: Items, segment: string, keys: Option<set<string>>)
    ensures Step(m, segment, keys).Ok? <==> SegmentOk(segment, keys)
    ensures Step(m, segment, keys).Err? ==> Step(m, segment, keys) == Err(SegmentError(segment))
  {
  }

  /** The parse of a non-empty list succeeds exactly when the parse of all
      but the last segment succeeds and the last segment passes. */
  lemma {:induction false} CollectSnoc(segments: seq<string>, keys: Option<set<string>>)
    requires segments != []
    ensures var front := segments[..|segments| - 1];
      (Collect(segments, keys).Ok? <==> Collect(front, keys).Ok? && SegmentOk(segments[|segments| - 1], keys)) &&
      (Collect(front, keys).Ok? && !SegmentOk(segments[|segments| - 1], keys) ==>
        Collect(segments, keys) == Err(SegmentError(segments[|segments| - 1]))) &&
      (Collect(front, keys).Err? ==> Collect(segments, keys) == Collect(front, keys))
  {
    var front := segments[..|segments| - 1];
    if Collect(front, keys).Ok? {
      StepOk(Collect(front, keys).value, segments[|segments| - 1], keys);
    }
  }

  /** The first segment that fails decides the error. */
  lemma {:induction false} CollectFirstError(segments: seq<string>, keys: Option<set<string>>, i: nat)
    requires i < |segments| && !SegmentOk(segments[i], keys)
    requires forall j :: 0 <= j < i ==> SegmentOk(segments[j], keys)
    ensures Collect(segments, keys) == Err(SegmentError(segments[i]))
  {
    var p := segments[..i + 1];
    assert p[..i] == segments[..i];
    assert forall j :: 0 <= j < i ==> segments[..i][j] == segments[j];
    CollectOk(segments[..i], keys);
    CollectSnoc(p, keys);
    CollectErrStays(segments, keys, i + 1);
  }

  /** Once a prefix fails, the whole parse fails the same way. */
  lemma {:induction false} CollectErrStays(segments: seq<string>, keys: Option<set<string>>, k: nat)
    requires 0 < k <= |segments| && Collect(segments[..k], keys).Err?
    ensures Collect(segments, keys) == Collect(segments[..k], keys)
    decreases |segments| - k
  {
    if k < |segments| {
      var q := segments[..k + 1];
      assert q[..k] == segments[..k];
      CollectSnoc(q, keys);
      CollectErrStays(segments, keys, k + 1);
    } else {
      assert segments[..k] == segments;
    }
  }

  /** The value the last segment with key `k` gives it, if any. */
  function LastValue(segments: seq<string>, k: string): Option<string> {
    if segments == [] then None
    else
      var p := segments[|segments| - 1];
      if ':' in p && SplitOnce(p, ':').value.0 == k then Some(SplitOnce(p, ':').value.1)
      else LastValue(segments[..|segments| - 1], k)
  }

  /** A parsed dictionary holds, for every key, the value of the last segment
      naming it, and its keys are distinct. */
  lemma {:induction false} CollectLookup(segments: seq<string>, keys: Option<set<string>>, k: string)
    requires Collect(segments, keys).Ok?
    ensures Lookup(Collect(segments, keys).value, k) == LastValue(segments, k)
  {
    if segments != [] {
      var n := |segments| - 1;
      CollectLookup(segments[..n], keys, k);
      var (a, b) := SplitOnce(segments[n], ':').value;
      AssignLookup(Collect(segments[..n], keys).value, a, b, k);
    }
  }

  lemma {:induction false} CollectDistinct(segments: seq<string>, keys: Option<set<string>>)
    requires Collect(segments, keys).Ok?
    ensures DistinctKeys(Collect(segments, keys).value)
  {
    if segments != [] {
      var n := |segments| - 1;
      CollectDistinct(segments[..n], keys);
      var (a, b) := SplitOnce(segments[n], ':').value;
      AssignDistinct(Collect(segments[..n], keys).value, a, b);
    }
  }

  /** With allowed keys given, every parsed key is one of them. */
  lemma {:induction false} CollectKeysAllowed(segments: seq<string>, ks: set<string>)
    requires Collect(segments, Some(ks)).Ok?
    ensures KeysOf(Collect(segments, Some(ks)).value) <= ks
  {
    if segments != [] {
      var n := |segments| - 1;
      CollectKeysAllowed(segments[..n], ks);
      var m := Collect(segments[..n], Some(ks)).value;
      var (a, b) := SplitOnce(segments[n], ':').value;
      forall k | k in KeysOf(Assign(m, a, b)) ensures k in ks {
        AssignLookup(m, a, b, k);
      }
    }
  }

  lemma {:induction false} FilterLookupNone(given: Given, k: string)
    requires Lookup(given, k).None?
    ensures Lookup(Filter(given), k).None?
  {
    if given != [] {
      FilterLookupNone(given[1..], k);
    }
  }

  /** The constructor keeps exactly the keys whose value is neither `None` nor
      empty, each with its value. */
  lemma {:induction false} FilterLookup(given: Given, k: string)
    requires DistinctKeys(given)
    ensures Lookup(Filter(given), k) == if Lookup(given, k).Some? && Kept(Lookup(given, k).value) then Lookup(given, k).value else None
  {
    if given != [] {
      DistinctKeysCons(given);
      FilterLookup(given[1..], k);
      if given[0].0 == k {
        FilterLookupNone(given[1..], k);
      }
    }
  }

  lemma {:induction false} FilterKeepsDistinct(given: Given)
    requires DistinctKeys(given)
    ensures DistinctKeys(Filter(given))
  {
    if given != [] {
      DistinctKeysCons(given);
      FilterKeepsDistinct(given[1..]);
      FilterLookupNone(given[1..], given[0].0);
      if Filter(given) != [] {
        DistinctKeysCons(Filter(given));
      }
    }
  }

  lemma {:induction false} LiftLookup(items: Items, k: string)
    ensures Lookup(Lift(items), k) == if Lookup(items, k).Some? then Some(Some(Lookup(items, k).value)) else None
  {
    if items != [] {
      LiftLookup(items[1..], k);
      assert Lift(items)[1..] == Lift(items[1..]);
    }
  }

  lemma {:induction false} LiftKeepsDistinct(items: Items)
    requires DistinctKeys(items)
    ensures DistinctKeys(Lift(items))
  {
    if items != [] {
      assert Lift(items)[1..] == Lift(items[1..]);
      LiftKeepsDistinct(items[1..]);
      LiftLookup(items[1..], items[0].0);
    }
  }

  /** `from_string` succeeds exactly when every segment holds a colon and an
      allowed key, and no required key other than the empty one is missing
      or left empty. */
  lemma {:induction false} FromStringOk(value: string, keys: Option<set<string>>)
    ensures ParseItems(value, keys).Ok? <==> forall i :: 0 <= i < |Segments(value)| ==> SegmentOk(Segments(value)[i], keys)
    ensures FromStringItems(value, keys).Ok? <==>
      ParseItems(value, keys).Ok? &&
      (keys.Some? ==> NothingMissing(keys.value - KeysOf(Filter(Lift(ParseItems(value, keys).value)))))
  {
    CollectOk(Segments(value), keys);
  }

  /** What a successful `from_string` yields: distinct keys, only allowed
      ones, every required non-empty key present, and for every key the
      value of the last segment naming it unless that value is empty. */
  lemma {:induction false} FromStringResult(value: string, keys: Option<set<string>>, k: string)
    requires FromStringItems(value, keys).Ok?
    ensures DistinctKeys(FromStringItems(value, keys).value)
    ensures keys.Some? ==> KeysOf(FromStringItems(value, keys).value) <= keys.value
    ensures keys.Some? ==> keys.value - {""} <= KeysOf(FromStringItems(value, keys).value)
    ensures Lookup(FromStringItems(value, keys).value, k) ==
      if LastValue(Segments(value), k).Some? && LastValue(Segments(value), k).value != "" then LastValue(Segments(value), k) else None
  {
    var segments := Segments(value);
    var m := Collect(segments, keys).value;
    CollectDistinct(segments, keys);
    LiftKeepsDistinct(m);
    FilterKeepsDistinct(Lift(m));
    CollectLookup(segments, keys, k);
    LiftLookup(m, k);
    FilterLookup(Lift(m), k);
    var c := Filter(Lift(m));
    if keys.Some? {
      CollectKeysAllowed(segments, keys.value);
      forall x | x in KeysOf(c) ensures x in keys.value {
        FilterLookup(Lift(m), x);
        LiftLookup(m, x);
      }
    }
  }

  /** A value left empty counts as missing: `from_string('a:', {'a'})` fails. */
  lemma {:induction false} EmptyValueIsMissing()
    ensures FromStringItems("a:", Some({"a"})) == Err(MissingKeys({"a"}))
  {
    StripNoOp("a:");
    SplitWithoutSep("a:", ',');
    SplitSegment("a", "");
    assert "a" + [':'] + "" == "a:";
    assert Segments("a:") == ["a:"];
    assert ["a:"][..0] == [];
    assert Collect(["a:"], Some({"a"})) == Ok([("a", "")]);
    assert Filter(Lift([("a", "")])) == [];
    assert "a" != "";
    var none: Items := [];
    assert {"a"} - KeysOf(none) == {"a"};
  }

  /** The empty cursor prints as `''`, which does not parse back. */
  lemma {:induction false} EmptyCursorUnreadable(keys: Option<set<string>>)
    ensures Format([]) == ""
    ensures FromStringItems("", keys) == Err(InvalidSegment(""))
  {
    assert Strip("") == "";
    assert Collect([""], keys) == Err(InvalidSegment(""));
  }

  /** Item lists that print unambiguously: distinct keys free of colons,
      commas and leading whitespace, values free of commas and trailing
      whitespace. */
  predicate Printable(items: Items) {
    DistinctKeys(items) &&
    forall i :: 0 <= i < |items| ==>
      ':' !in items[i].0 && ',' !in items[i].0 && ',' !in items[i].1 &&
      (items[i].0 != "" ==> !IsSpace(items[i].0[0])) &&
      (items[i].1 != "" ==> !IsSpace(items[i].1[|items[i].1| - 1]))
  }

  /** Splitting a printed segment at its first colon gives key and value back. */
  lemma {:induction false} SplitSegment(k: string, v: string)
    requires ':' !in k
    ensures SplitOnce(k + [':'] + v, ':') == Some((k, v))
  {
    if k != [] {
      assert (k + [':'] + v)[1..] == k[1..] + [':'] + v;
      SplitSegment(k[1..], v);
      assert [k[0]] + k[1..] == k;
    }
  }

  lemma {:induction false} DistinctFront(items: Items)
    requires DistinctKeys(items) && items != []
    ensures DistinctKeys(items[..|items| - 1])
    ensures Lookup(items[..|items| - 1], items[|items| - 1].0).None?
  {
    var n := |items| - 1;
    if n > 0 {
      assert items[1..][..n - 1] == items[..n][1..];
      assert items[1..][n - 1] == items[n];
      DistinctFront(items[1..]);
      LookupNone(items[1..], items[0].0);
      LookupNone(items[..n][1..], items[0].0);
      assert forall i :: 0 <= i < n - 1 ==> items[..n][1..][i] == items[1..][i];
    }
  }

  lemma {:induction false} KeysOfAppend(m: Items, e: (string, string))
    ensures KeysOf(m + [e]) == KeysOf(m) + {e.0}
  {
    if m != [] {
      assert (m + [e])[1..] == m[1..] + [e];
      KeysOfAppend(m[1..], e);
    }
  }

  lemma {:induction false} PrintableFront(items: Items)
    requires items != [] && Printable(items)
    ensures Printable(items[..|items| - 1])
  {
    DistinctFront(items);
    var front := items[..|items| - 1];
    assert forall i :: 0 <= i < |front| ==> front[i] == items[i];
  }

  lemma {:induction false} SegmentsFront(items: Items)
    requires items != []
    ensures SegmentsOf(items)[..|items| - 1] == SegmentsOf(items[..|items| - 1])
  {
    var a := SegmentsOf(items)[..|items| - 1];
    var b := SegmentsOf(items[..|items| - 1]);
    assert |a| == |b|;
    forall i | 0 <= i < |a| ensures a[i] == b[i] {
      assert items[..|items| - 1][i] == items[i];
    }
  }

  /** Parsing the segments of printable items rebuilds the items. */
  lemma {:induction false} CollectSegments(items: Items, keys: Option<set<string>>)
    requires Printable(items)
    requires keys.Some? ==> KeysOf(items) <= keys.value
    ensures Collect(SegmentsOf(items), keys) == Ok(items)
  {
    if items != [] {
      var n := |items| - 1;
      var front := items[..n];
      var (k, v) := items[n];
      assert items == front + [(k, v)];
      DistinctFront(items);
      KeysOfAppend(front, (k, v));
      PrintableFront(items);
      SegmentsFront(items);
      CollectSegments(front, keys);
      SplitSegment(k, v);
      AssignShape(front, k, v);
    }
  }

  /** Printing printable items and parsing the text back gives them again,
      with or without a key set that covers theirs. */
  lemma {:induction false} ParseFormat(items: Items, keys: Option<set<string>>)
    requires items != [] && Printable(items)
    requires keys.Some? ==> KeysOf(items) <= keys.value
    ensures ParseItems(Format(items), keys) == Ok(items)
  {
    var segments := SegmentsOf(items);
    forall p | p in segments ensures ',' !in p {
      var i :| 0 <= i < |segments| && segments[i] == p;
      assert p == items[i].0 + [':'] + items[i].1;
    }
    FormatEnds(items);
    StripNoOp(Format(items));
    SplitJoin(segments, ',');
    CollectSegments(items, keys);
  }

  /** The printed text starts with the first key (or its colon) and ends with
      the last value (or its colon). */
  lemma {:induction false} FormatEnds(items: Items)
    requires items != [] && Printable(items)
    ensures Format(items) != [] && !IsSpace(Format(items)[0]) && !IsSpace(Format(items)[|Format(items)| - 1])
  {
    FormatFirst(SegmentsOf(items));
    FormatLast(SegmentsOf(items));
    var s := SegmentsOf(items);
    var n := |items| - 1;
    assert s[0] == items[0].0 + [':'] + items[0].1;
    assert s[n] == items[n].0 + [':'] + items[n].1;
    assert s[0][0] == if items[0].0 != "" then items[0].0[0] else ':';
    assert s[n][|s[n]| - 1] == if items[n].1 != "" then items[n].1[|items[n].1| - 1] else ':';
  }

  lemma {:induction false} FormatFirst(parts: seq<string>)
    requires |parts| >= 1 && parts[0] != []
    ensures Join(parts, ',') != [] && Join(parts, ',')[0] == parts[0][0]
  {
  }

  lemma {:induction false} FormatLast(parts: seq<string>)
    requires |parts| >= 1 && parts[|parts| - 1] != []
    ensures Join(parts, ',') != [] && Join(parts, ',')[|Join(parts, ',')| - 1] == parts[|parts| - 1][|parts[|parts| - 1]| - 1]
  {
    if |parts| > 1 {
      FormatLast(parts[1..]);
    }
  }

  lemma {:induction false} FilterLiftNonEmpty(items: Items)
    requires forall i :: 0 <= i < |items| ==> items[i].1 != ""
    ensures Filter(Lift(items)) == items
  {
    if items != [] {
      assert Lift(items)[1..] == Lift(items[1..]);
      FilterLiftNonEmpty(items[1..]);
    }
  }

  /** `from_string(str(c), keys)` gives the cursor's items back when they
      print unambiguously, every value is non-empty, and `keys` is absent or
      exactly the cursor's keys. */
  lemma {:induction false} RoundTrip(items: Items, keys: Option<set<string>>)
    requires items != [] && Printable(items)
    requires forall i :: 0 <= i < |items| ==> items[i].1 != ""
    requires keys.Some? ==> keys.value == KeysOf(items)
    ensures FromStringItems(Format(items), keys) == Ok(items)
  {
    ParseFormat(items, keys);
    FilterLiftNonEmpty(items);
  }
}
