/** Feed groups and OPML export: the system groups `SYS:SOLO` and
    `SYS:MUSHROOM` shown under display names, and the attributes written for
    each feed in an OPML outline. */
module FeedHelper {
  import opened Wrappers
  import opened Text

  const SoloId: string := "SYS:SOLO"
  const MushroomId: string := "SYS:MUSHROOM"
  /** The display names of the two system groups ("no group" and "reading"). */
  const SoloName: string := "\U{65E0}\U{5206}\U{7EC4}"
  const MushroomName: string := "\U{54C1}\U{8BFB}"
  const SystemPrefix: string := "SYS:"

  /** `is_system_group(group)`: a non-empty group whose upper case starts
      with `SYS:`. */
  predicate IsSystemGroup(group: Option<string>) {
    group.Some? && group.value != "" && StartsWith(Upper(group.value), SystemPrefix)
  }

  /** `_FEED_GROUP_NAME_MAP.get(...)`: the display name of a system group id. */
  function DisplayName(key: string): Option<string> {
    if key == SoloId then Some(SoloName)
    else if key == MushroomId then Some(MushroomName)
    else None
  }

  /** `_FEED_GROUP_ID_MAP.get(...)`, the inverted map. */
  function GroupIdOfName(name: string): Option<string> {
    if name == SoloName then Some(SoloId)
    else if name == MushroomName then Some(MushroomId)
    else None
  }

  /** `group_name_of(group)`: the display name when the upper-cased group is
      a system id; anything else, None included, unchanged. */
  function GroupNameOf(group: Option<string>): (r: Option<string>)
    ensures DisplayName(Upper(group.GetOr(""))).Some? ==> r == DisplayName(Upper(group.GetOr("")))
    ensures DisplayName(Upper(group.GetOr(""))).None? ==> r == group
  {
    match DisplayName(Upper(group.GetOr("")))
    case Some(n) => Some(n)
    case None => group
  }

  /** `group_id_of(group)`: the system id of a display name; anything else
      unchanged. */
  function GroupIdOf(group: Option<string>): (r: Option<string>)
    ensures group.Some? && GroupIdOfName(group.value).Some? ==> r == GroupIdOfName(group.value)
    ensures (group.None? || GroupIdOfName(group.value).None?) ==> r == group
  {
    if group.Some? && GroupIdOfName(group.value).Some? then GroupIdOfName(group.value) else group
  }

  /** The two maps are inverse to each other. */
  lemma {:induction false} MapsInverse(key: string, name: string)
    ensures DisplayName(key) == Some(name) <==> GroupIdOfName(name) == Some(key)
  {
  }

  /** Mapping a system id to its display name and back gives the id in
      upper case; any other group that is not itself a display name comes
      back unchanged. */
  lemma {:induction false} NameThenId(group: Option<string>)
    ensures DisplayName(Upper(group.GetOr(""))).Some? ==> GroupIdOf(GroupNameOf(group)) == Some(Upper(group.GetOr("")))
    ensures DisplayName(Upper(group.GetOr(""))).None? && (group.None? || GroupIdOfName(group.value).None?) ==>
      GroupIdOf(GroupNameOf(group)) == group
  {
    MapsInverse(Upper(group.GetOr("")), SoloName);
    MapsInverse(Upper(group.GetOr("")), MushroomName);
  }

  /** A display name shown to the user maps back to a name that shows as
      itself. */
  lemma {:induction false} IdThenName(name: string)
    requires GroupIdOfName(name).Some?
    ensures GroupNameOf(GroupIdOf(Some(name))) == Some(name)
  {
    if name == SoloName {
      SoloRoundTrip();
    } else {
      MushroomRoundTrip();
    }
  }

  lemma {:induction false} SoloRoundTrip()
    ensures GroupNameOf(Some(SoloId)) == Some(SoloName)
  {
    SystemIdsAreUpper();
  }

  lemma {:induction false} MushroomRoundTrip()
    ensures GroupNameOf(Some(MushroomId)) == Some(MushroomName)
  {
    SystemIdsAreUpper();
  }

  lemma {:induction false} SystemIdsAreUpper()
    ensures Upper(SoloId) == SoloId && Upper(MushroomId) == MushroomId
  {
    UpperFixed(SoloId);
    UpperFixed(MushroomId);
  }

  /** Text without lower-case letters is its own upper case. */
  lemma {:induction false} UpperFixed(s: string)
    requires forall i :: 0 <= i < |s| ==> !('a' <= s[i] <= 'z')
    ensures Upper(s) == s
  {
  }

  /** System groups are case-insensitive, and the empty or absent group is
      never one. */
  lemma {:induction false} SystemGroupFacts(g: string)
    ensures IsSystemGroup(Some(g)) <==> IsSystemGroup(Some(Upper(g)))
    ensures !IsSystemGroup(None) && !IsSystemGroup(Some(""))
  {
    assert Upper(Upper(g)) == Upper(g);
  }

  /** Display names are not system groups, so `group_name_of` never yields
      one from a system id. */
  lemma {:induction false} DisplayNamesAreNotSystem()
    ensures !IsSystemGroup(Some(SoloName)) && !IsSystemGroup(Some(MushroomName))
  {
    assert Upper(SoloName)[0] == SoloName[0];
    assert Upper(MushroomName)[0] == MushroomName[0];
  }

  // ---- OPML attributes ------------------------------------------------------

  /** The feed fields read for the outline, in order, and the XML attribute
      each becomes. */
  const Fields: seq<string> := ["title", "url", "version", "group", "origin_title", "link"]
  const XmlKeys: seq<string> := ["text", "xmlUrl", "type", "category", "title", "htmlUrl"]
  const GroupField: nat := 3

  /** Whether field `i` with this value is written: it must be set and
      non-empty, and the group must not be a system group. */
  predicate Written(i: nat, value: Option<string>) {
    value.Some? && value.value != "" && !(i == GroupField && IsSystemGroup(value))
  }

  /** The attributes for the first `n` fields; `quote` is
      `xml_quote(xml_escape(.))`. */
  function AttrsUpTo(values: seq<Option<string>>, n: nat, quote: string -> string): (r: seq<string>)
    requires n <= |values| && n <= |XmlKeys|
    ensures |r| <= n
  {
    if n == 0 then []
    else
      var prev := AttrsUpTo(values, n - 1, quote);
      if Written(n - 1, values[n - 1]) then prev + [XmlKeys[n - 1] + "=" + quote(values[n - 1].value)] else prev
  }

  /** The loop over `zip(fields, xml_keys)` for one feed. */
  method FeedAttrs(values: seq<Option<string>>, quote: string -> string) returns (attrs: seq<string>)
    requires |values| == |Fields|
    ensures attrs == AttrsUpTo(values, |Fields|, quote)
  {
    attrs := [];
    var i := 0;
    while i < |Fields|
      invariant 0 <= i <= |Fields|
      invariant attrs == AttrsUpTo(values, i, quote)
    {
      var value := values[i];
      if value.Some? && value.value != "" && !(Fields[i] == "group" && IsSystemGroup(value)) {
        attrs := attrs + [XmlKeys[i] + "=" + quote(value.value)];
      }
      i := i + 1;
    }
  }

  /** The attribute written for a field, or nothing. */
  function AttrOf(i: nat, value: Option<string>, quote: string -> string): seq<string>
    requires i < |XmlKeys|
  {
    if Written(i, value) then [XmlKeys[i] + "=" + quote(value.value)] else []
  }

  /** The positions of the written fields among the first `n`. */
  function WrittenSet(values: seq<Option<string>>, n: nat): (r: set<int>)
    requires n <= |values|
    ensures forall i :: i in r <==> 0 <= i < n && Written(i, values[i])
  {
    if n == 0 then {} else WrittenSet(values, n - 1) + (if Written(n - 1, values[n - 1]) then {n - 1} else {})
  }

  /** The attributes are, in field order, exactly one per written field. */
  lemma {:induction false} AttrsAreWrittenFields(values: seq<Option<string>>, n: nat, quote: string -> string)
    requires n <= |values| && n <= |XmlKeys|
    ensures |AttrsUpTo(values, n, quote)| == |WrittenSet(values, n)|
    ensures n > 0 ==> AttrsUpTo(values, n, quote) == AttrsUpTo(values, n - 1, quote) + AttrOf(n - 1, values[n - 1], quote)
  {
    if n > 0 {
      AttrsAreWrittenFields(values, n - 1, quote);
      WrittenSetStep(values, n);
    }
  }

  /** One field more adds its position exactly when it is written. */
  lemma {:induction false} WrittenSetStep(values: seq<Option<string>>, n: nat)
    requires 0 < n <= |values|
    ensures |WrittenSet(values, n)| == |WrittenSet(values, n - 1)| + (if Written(n - 1, values[n - 1]) then 1 else 0)
  {
    assert n - 1 !in WrittenSet(values, n - 1);
  }

  /** Only written fields contribute: there is a category attribute exactly
      when the group is set, non-empty and not a system group. */
  lemma {:induction false} CategoryIffUserGroup(values: seq<Option<string>>, quote: string -> string)
    requires |values| == |Fields|
    ensures (exists a :: a in AttrsUpTo(values, |Fields|, quote) && StartsWith(a, "category=")) <==>
      Written(GroupField, values[GroupField])
  {
    var all := AttrsUpTo(values, |Fields|, quote);
    KeysOfAttrs(values, |Fields|, quote);
    if Written(GroupField, values[GroupField]) {
      AttrIn(values, GroupField, |Fields|, quote);
      var a := XmlKeys[GroupField] + "=" + quote(values[GroupField].value);
      assert a[..9] == "category=";
    } else {
      forall a | a in all ensures !StartsWith(a, "category=") {
        var i :| 0 <= i < |Fields| && i != GroupField && StartsWith(a, XmlKeys[i] + "=");
        KeyPrefixesDiffer(i, a);
      }
    }
  }

  lemma {:induction false} KeyPrefixesDiffer(i: nat, a: string)
    requires i < |XmlKeys| && i != GroupField && StartsWith(a, XmlKeys[i] + "=")
    ensures !StartsWith(a, "category=")
  {
    var p := XmlKeys[i] + "=";
    assert a[..|p|] == p;
    assert a[0] == p[0] != 'c';
  }

  /** Every attribute starts with the key of a written field. */
  lemma {:induction false} KeysOfAttrs(values: seq<Option<string>>, n: nat, quote: string -> string)
    requires n <= |values| && n <= |XmlKeys|
    ensures forall a :: a in AttrsUpTo(values, n, quote) ==>
      exists i :: 0 <= i < n && Written(i, values[i]) && StartsWith(a, XmlKeys[i] + "=")
  {
    if n > 0 {
      KeysOfAttrs(values, n - 1, quote);
      var i := n - 1;
      if Written(i, values[i]) {
        var a := XmlKeys[i] + "=" + quote(values[i].value);
        assert a[..|XmlKeys[i] + "="|] == XmlKeys[i] + "=";
      }
    }
  }

  /** A written field's attribute is among the attributes. */
  lemma {:induction false} AttrIn(values: seq<Option<string>>, i: nat, n: nat, quote: string -> string)
    requires i < n <= |values| && n <= |XmlKeys|
    requires Written(i, values[i])
    ensures XmlKeys[i] + "=" + quote(values[i].value) in AttrsUpTo(values, n, quote)
  {
    if i < n - 1 {
      AttrIn(values, i, n - 1, quote);
    }
  }
}
