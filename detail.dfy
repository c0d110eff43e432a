/** The `detail` request parameter (rssant_common/detail.py): which fields of
    a resource a response includes.  A schema names its default `fields` and
    its `extra_fields`; a value selects among them:
      `true`/`1`          every field,
      `false`/`0`         the default fields only,
      `f1,f2`             only the listed fields (`-` for none),
      `+f1,f2!f3`         the default fields, plus f1 and f2, minus f3. */
module Detail {
  import opened Wrappers
  import opened Text

  /** `Detail`: the flag, the excluded fields and all fields of the schema.
      `__eq__` compares exactly these three, the two sets as sets. */
  datatype Detail = Detail(detail: bool, excludeFields: set<string>, allFields: set<string>)

  /** `include_fields`: the schema's fields that are not excluded. */
  function IncludeFields(d: Detail): (r: set<string>)
    ensures r <= d.allFields && r !! d.excludeFields
    ensures forall f :: f in d.allFields ==> f in r || f in d.excludeFields
  {
    d.allFields - d.excludeFields
  }

  // ---- the schema's field lists: _parse_fields ----------------------------

  /** `SchemaError`: no field at all, or names listed in both lists. */
  datatype SchemaError = NoFields | DuplicatedFields(names: set<string>)

  /** `_parse_one`: a missing or empty list is empty; otherwise the names
      separated by commas or whitespace. */
  function ParseOne(text: Option<string>): set<string> {
    if text.None? || text.value == "" then {}
    else NameSet(text.value)
  }

  /** `_parse_fields`. */
  function ParseFields(fields: Option<string>, extraFields: Option<string>): (r: Result<(set<string>, set<string>), SchemaError>)
    ensures r.Ok? <==> (ParseOne(fields) != {} || ParseOne(extraFields) != {}) && ParseOne(fields) !! ParseOne(extraFields)
    ensures r.Ok? ==> r.value == (ParseOne(fields), ParseOne(extraFields))
    ensures ParseOne(fields) == {} && ParseOne(extraFields) == {} ==> r == Err(NoFields)
    ensures (ParseOne(fields) != {} || ParseOne(extraFields) != {}) && !(ParseOne(fields) !! ParseOne(extraFields)) ==>
      r == Err(DuplicatedFields(ParseOne(fields) * ParseOne(extraFields)))
  {
    var f := ParseOne(fields);
    var e := ParseOne(extraFields);
    if f == {} && e == {} then Err(NoFields)
    else if !(f !! e) then Err(DuplicatedFields(f * e))
    else Ok((f, e))
  }

  // ---- the detail value grammar: RE_DETAIL and _parse_detail_value --------

  predicate IsSign(c: char) {
    c == '+' || c == '!'
  }

  /** `[^,!\+\s]`. */
  predicate IsFieldChar(c: char) {
    c != ',' && !IsSign(c) && !IsSpace(c)
  }

  /** The language `[^,!\+\s]+(?:,[^,!\+\s]+)*`: field names separated by
      single commas. */
  predicate IsFieldList(s: string) {
    s != [] && s[0] != ',' && s[|s| - 1] != ',' &&
    (forall i :: 0 <= i < |s| ==> s[i] == ',' || IsFieldChar(s[i])) &&
    (forall i :: 0 <= i < |s| - 1 ==> !(s[i] == ',' && s[i + 1] == ','))
  }

  /** The position of the first sign, or the length when there is none. */
  function FirstSign(s: string): (n: nat)
    ensures n <= |s|
    ensures forall i :: 0 <= i < n ==> !IsSign(s[i])
    ensures n < |s| ==> IsSign(s[n])
  {
    if s == [] || IsSign(s[0]) then 0 else 1 + FirstSign(s[1..])
  }

  /** The fourth alternative of `RE_DETAIL`: one signed field list, possibly
      followed by a second one; the groups are returned without splitting,
      the second as "" when absent. */
  function SignedGroups(t: string): (r: Option<(string, string)>)
    ensures r.Some? ==> t == r.value.0 + r.value.1
    ensures r.Some? ==> |r.value.0| >= 2 && IsSign(r.value.0[0]) && IsFieldList(r.value.0[1..])
    ensures r.Some? && r.value.1 != "" ==> |r.value.1| >= 2 && IsSign(r.value.1[0]) && IsFieldList(r.value.1[1..])
  {
    if t == [] || !IsSign(t[0]) then None
    else
      var j := 1 + FirstSign(t[1..]);
      var g1, g2 := t[..j], t[j..];
      assert g1[1..] == t[1..][..j - 1];
      if IsFieldList(g1[1..]) && (g2 == "" || IsFieldList(g2[1..])) then
        assert t == g1 + g2;
        Some((g1, g2))
      else None
  }

  /** `InvalidDetailValue`, reported by the validator as `Invalid`. */
  datatype DetailError = InvalidDetailValue

  /** The four results of `_parse_detail_value`: a flag, a select list, or
      the include and exclude lists of the signed form. */
  datatype Parsed = Flag(b: bool) | Select(fields: seq<string>) | Extra(added: Option<seq<string>>, removed: Option<seq<string>>)

  predicate IsTrueText(t: string) {
    Lower(t) == "true" || t == "1"
  }

  predicate IsFalseText(t: string) {
    Lower(t) == "false" || t == "0"
  }

  /** The list of a signed group with sign `c`, if one of the two has it. */
  function ListWithSign(g1: string, g2: string, c: char): Option<seq<string>>
    requires g1 != []
  {
    if g1[0] == c then Some(Split(g1[1..], ','))
    else if g2 != "" && g2[0] == c then Some(Split(g2[1..], ','))
    else None
  }

  /** What `_parse_detail_value` returns, by the alternative of `RE_DETAIL`
      that matches the whole stripped text, tried in order. */
  function DetailValueOf(text: string): Result<Parsed, DetailError> {
    var t := Strip(text);
    if IsTrueText(t) then Ok(Flag(true))
    else if IsFalseText(t) then Ok(Flag(false))
    else if IsFieldList(t) then Ok(Select(if t == "-" then [] else Split(t, ',')))
    else match SignedGroups(t)
      case None => Err(InvalidDetailValue)
      case Some((g1, g2)) =>
        if g2 != "" && g1[0] == g2[0] then Err(InvalidDetailValue)
        else Ok(Extra(ListWithSign(g1, g2, '+'), ListWithSign(g1, g2, '!')))
  }

  /** `_parse_detail_value`: the signed groups are filed by their sign in a
      dictionary by the loop over both groups. */
  method ParseDetailValue(text: string) returns (r: Result<Parsed, DetailError>)
    ensures r == DetailValueOf(text)
  {
    var t := Strip(text);
    if IsTrueText(t) {
      return Ok(Flag(true));
    }
    if IsFalseText(t) {
      return Ok(Flag(false));
    }
    if IsFieldList(t) {
      var selectFields := if t == "-" then [] else Split(t, ',');
      return Ok(Select(selectFields));
    }
    var groups := SignedGroups(t);
    if groups.None? {
      return Err(InvalidDetailValue);
    }
    var (g1, g2) := groups.value;
    if g2 != "" && g1[0] == g2[0] {
      return Err(InvalidDetailValue);
    }
    var extraFields: map<char, seq<string>> := map[];
    var both := [g1, g2];
    assert both[0] == g1 && both[1] == g2;
    for k := 0 to 2
      invariant k >= 1 ==> g1[0] in extraFields && extraFields[g1[0]] == Split(g1[1..], ',')
      invariant k >= 2 && g2 != "" ==> g2[0] in extraFields && extraFields[g2[0]] == Split(g2[1..], ',')
      invariant forall c :: c in extraFields <==> (k >= 1 && c == g1[0]) || (k >= 2 && g2 != "" && c == g2[0])
    {
      var tExtra := both[k];
      if tExtra != "" {
        extraFields := extraFields[tExtra[0] := Split(tExtra[1..], ',')];
      }
    }
    var added := if '+' in extraFields then Some(extraFields['+']) else None;
    var removed := if '!' in extraFields then Some(extraFields['!']) else None;
    SignedLists(g1, g2, extraFields);
    return Ok(Extra(added, removed));
  }

  /** The dictionary the loop fills holds each group's list under its sign. */
  lemma {:induction false} SignedLists(g1: string, g2: string, extraFields: map<char, seq<string>>)
    requires g1 != [] && IsSign(g1[0]) && (g2 != "" ==> IsSign(g2[0]) && g1[0] != g2[0])
    requires forall c :: c in extraFields <==> c == g1[0] || (g2 != "" && c == g2[0])
    requires g1[0] in extraFields && extraFields[g1[0]] == Split(g1[1..], ',')
    requires g2 != "" ==> g2[0] in extraFields && extraFields[g2[0]] == Split(g2[1..], ',')
    ensures ListWithSign(g1, g2, '+') == if '+' in extraFields then Some(extraFields['+']) else None
    ensures ListWithSign(g1, g2, '!') == if '!' in extraFields then Some(extraFields['!']) else None
  {
  }

  // ---- the validator ------------------------------------------------------

  /** The values a validator is called with: the two booleans, which it
      handles before parsing; a text; or any other object, which the parser
      rejects. */
  datatype Value = Bool(b: bool) | Text(s: string) | DetailObject(d: Detail) | Other(truthy: bool)

  /** The excluded fields for a parsed select or signed value. */
  function ExcludeOf(p: Parsed, fields: set<string>, extraFields: set<string>): set<string>
    requires !p.Flag?
  {
    var all := fields + extraFields;
    if p.Select? then all - SetOf(p.fields)
    else
      var afterInclude := if p.added.Some? then extraFields - SetOf(p.added.value) else extraFields;
      if p.removed.Some? then afterInclude + (all * SetOf(p.removed.value)) else afterInclude
  }

  /** `detail_validator(fields=..., extra_fields=...)`'s inner `validate`,
      given the parsed field sets. */
  function Validate(fields: set<string>, extraFields: set<string>, value: Value): (r: Result<Detail, DetailError>)
    ensures r.Ok? ==> r.value.allFields == fields + extraFields
    ensures value.Bool? ==> r.Ok?
    ensures value.DetailObject? || value.Other? ==> r == Err(InvalidDetailValue)
  {
    var all := fields + extraFields;
    match value
    case Bool(b) => if b then Ok(Detail(true, {}, all)) else Ok(Detail(false, extraFields, all))
    case Text(s) =>
      var p :- DetailValueOf(s);
      if p == Flag(true) then Ok(Detail(true, {}, all))
      else if p == Flag(false) then Ok(Detail(false, extraFields, all))
      else
        var exclude := ExcludeOf(p, fields, extraFields);
        Ok(Detail(!(extraFields <= exclude), exclude, all))
    case _ => Err(InvalidDetailValue)
  }

  /** Python truthiness of a value. */
  function Truthy(value: Value): bool {
    match value
    case Bool(b) => b
    case Text(s) => s != ""
    case DetailObject(d) => d.detail
    case Other(t) => t
  }

  /** `Detail.from_schema`: a `Detail` is kept as it is; any other value
      gives all fields when truthy and the default fields otherwise. */
  function FromSchema(value: Value, fieldsParam: Option<string>, extraParam: Option<string>): (r: Result<Detail, SchemaError>)
    ensures value.DetailObject? ==> r == Ok(value.d)
    ensures !value.DetailObject? ==> (r.Ok? <==> ParseFields(fieldsParam, extraParam).Ok?)
    ensures !value.DetailObject? && r.Ok? ==>
      var (f, e) := ParseFields(fieldsParam, extraParam).value;
      r.value.allFields == f + e && r.value.detail == Truthy(value) &&
      r.value.excludeFields == (if Truthy(value) then {} else e) &&
      (Truthy(value) ==> IncludeFields(r.value) == f + e) &&
      (!Truthy(value) ==> IncludeFields(r.value) == f)
  {
    if value.DetailObject? then Ok(value.d)
    else
      var (fields, extraFields) :- ParseFields(fieldsParam, extraParam);
      var all := fields + extraFields;
      if Truthy(value) then Ok(Detail(true, {}, all)) else Ok(Detail(false, extraFields, all))
  }

  // ---- properties ---------------------------------------------------------

  /** `True`, `'true'` (in any case) and `'1'` include every field; `False`,
      `'false'` and `'0'` exclude exactly the extra fields, so that the
      default fields remain when the field lists are disjoint. */
  lemma {:induction false} FlagValues(fields: set<string>, extraFields: set<string>, s: string)
    ensures IsTrueText(Strip(s)) ==> Validate(fields, extraFields, Text(s)) == Ok(Detail(true, {}, fields + extraFields))
    ensures IsFalseText(Strip(s)) ==> Validate(fields, extraFields, Text(s)) == Ok(Detail(false, extraFields, fields + extraFields))
    ensures Validate(fields, extraFields, Bool(true)) == Ok(Detail(true, {}, fields + extraFields))
    ensures Validate(fields, extraFields, Bool(false)) == Ok(Detail(false, extraFields, fields + extraFields))
    ensures fields !! extraFields ==> IncludeFields(Validate(fields, extraFields, Bool(false)).value) == fields
  {
    if IsFalseText(Strip(s)) {
      assert !IsTrueText(Strip(s)) by {
        if Lower(Strip(s)) == "false" {
          assert |Strip(s)| == 5;
        }
      }
    }
  }

  /** A select list excludes every field it does not name, and `-` excludes
      all fields. */
  lemma {:induction false} SelectValue(fields: set<string>, extraFields: set<string>, s: string)
    requires !IsTrueText(Strip(s)) && !IsFalseText(Strip(s)) && IsFieldList(Strip(s))
    ensures Validate(fields, extraFields, Text(s)).Ok?
    ensures Strip(s) != "-" ==>
      Validate(fields, extraFields, Text(s)).value.excludeFields == (fields + extraFields) - SetOf(Split(Strip(s), ','))
    ensures Strip(s) == "-" ==> Validate(fields, extraFields, Text(s)).value.excludeFields == fields + extraFields
  {
  }

  /** `+a!b` starts from the extra fields, takes back those named after `+`
      and adds the schema's fields named after `!`; the order of the two
      groups does not matter. */
  lemma {:induction false} SignedValue(fields: set<string>, extraFields: set<string>, a: string, b: string)
    requires IsFieldList(a) && IsFieldList(b)
    ensures Validate(fields, extraFields, Text("+" + a + "!" + b)).Ok?
    ensures Validate(fields, extraFields, Text("+" + a + "!" + b)).value.excludeFields ==
      (extraFields - SetOf(Split(a, ','))) + ((fields + extraFields) * SetOf(Split(b, ',')))
    ensures Validate(fields, extraFields, Text("!" + b + "+" + a)) == Validate(fields, extraFields, Text("+" + a + "!" + b))
  {
    var t1, t2 := "+" + a + "!" + b, "!" + b + "+" + a;
    SignedParse('+', a, '!', b);
    SignedParse('!', b, '+', a);
    assert DetailValueOf(t1) == DetailValueOf(t2);
    ValidateParsed(fields, extraFields, t1);
    ValidateParsed(fields, extraFields, t2);
  }

  /** What the validator makes of a parsed select or signed value. */
  lemma {:induction false} ValidateParsed(fields: set<string>, extraFields: set<string>, s: string)
    requires DetailValueOf(s).Ok? && !DetailValueOf(s).value.Flag?
    ensures var exclude := ExcludeOf(DetailValueOf(s).value, fields, extraFields);
      Validate(fields, extraFields, Text(s)) == Ok(Detail(!(extraFields <= exclude), exclude, fields + extraFields))
  {
  }

  /** A text made of two signed lists parses into those two lists. */
  lemma {:induction false} SignedParse(c1: char, a: string, c2: char, b: string)
    requires IsSign(c1) && IsSign(c2) && c1 != c2 && IsFieldList(a) && IsFieldList(b)
    ensures
      var t := [c1] + a + [c2] + b;
      DetailValueOf(t) == Ok(Extra(
        Some(Split(if c1 == '+' then a else b, ',')),
        Some(Split(if c1 == '!' then a else b, ','))))
  {
    var t := [c1] + a + [c2] + b;
    SignedGroupsOf(c1, a, c2, b);
    ParseSigned(t, [c1] + a, [c2] + b);
    assert ([c1] + a)[1..] == a && ([c2] + b)[1..] == b;
  }

  /** How the fourth alternative splits a text made of two signed lists. */
  lemma {:induction false} SignedGroupsOf(c1: char, a: string, c2: char, b: string)
    requires IsSign(c1) && IsSign(c2) && IsFieldList(a) && IsFieldList(b)
    ensures var t := [c1] + a + [c2] + b;
      Strip(t) == t && !IsFieldList(t) && SignedGroups(t) == Some(([c1] + a, [c2] + b))
  {
    var t := [c1] + a + [c2] + b;
    assert t[|t| - 1] == b[|b| - 1];
    StripSigned(t);
    assert !IsFieldChar(t[0]);
    assert t[1..] == a + ([c2] + b);
    FirstSignAfter(a, [c2] + b);
    assert t[..1 + |a|] == [c1] + a;
    assert t[1 + |a|..] == [c2] + b;
    assert ([c1] + a)[1..] == a && ([c2] + b)[1..] == b;
  }

  /** The signed alternative applies once the earlier ones fail. */
  lemma {:induction false} ParseSigned(t: string, g1: string, g2: string)
    requires Strip(t) == t && t != [] && IsSign(t[0]) && !IsFieldList(t)
    requires SignedGroups(t) == Some((g1, g2)) && g2 != "" && g1[0] != g2[0]
    ensures DetailValueOf(t) == Ok(Extra(ListWithSign(g1, g2, '+'), ListWithSign(g1, g2, '!')))
  {
    NotFlagText(t);
  }

  /** A field list followed by anything: its first sign is after the list. */
  lemma {:induction false} FirstSignAfter(a: string, rest: string)
    requires IsFieldList(a) && rest != [] && IsSign(rest[0])
    ensures FirstSign(a + rest) == |a|
  {
    assert forall i :: 0 <= i < |a| ==> (a + rest)[i] == a[i];
    assert (a + rest)[|a|] == rest[0];
  }

  /** A text that starts with a sign and ends with a field character is
      its own strip. */
  lemma {:induction false} StripSigned(t: string)
    requires |t| >= 2 && IsSign(t[0]) && IsFieldChar(t[|t| - 1])
    ensures Strip(t) == t
  {
    StripNoOp(t);
  }

  /** A text that starts with a sign is not `true`, `false`, `1` or `0`. */
  lemma {:induction false} NotFlagText(t: string)
    requires t != [] && IsSign(t[0])
    ensures !IsTrueText(t) && !IsFalseText(t)
  {
    assert Lower(t)[0] == t[0];
  }

  /** The flag of a select or signed value says whether some extra field is
      still included. */
  lemma {:induction false} FlagMeansExtra(fields: set<string>, extraFields: set<string>, s: string)
    requires !IsTrueText(Strip(s)) && !IsFalseText(Strip(s))
    requires Validate(fields, extraFields, Text(s)).Ok?
    ensures var d := Validate(fields, extraFields, Text(s)).value;
      d.detail <==> exists f :: f in extraFields && f !in d.excludeFields
  {
    var d := Validate(fields, extraFields, Text(s)).value;
    if d.detail {
      assert !(extraFields <= d.excludeFields);
    }
  }

  /** A sign inside a select list is rejected (`f1+f2`, `a,b+c`). */
  lemma {:induction false} SignInSelectRejected(fields: set<string>, extraFields: set<string>)
    ensures Validate(fields, extraFields, Text("f1+f2")) == Err(InvalidDetailValue)
    ensures Validate(fields, extraFields, Text("a,b+c")) == Err(InvalidDetailValue)
  {
    SignInF1F2();
    SignInABC();
  }

  lemma {:induction false} SignInF1F2()
    ensures DetailValueOf("f1+f2") == Err(InvalidDetailValue)
  {
    assert Lower("f1+f2")[1] == '1';
    UnsignedStart("f1+f2", 2);
  }

  lemma {:induction false} SignInABC()
    ensures DetailValueOf("a,b+c") == Err(InvalidDetailValue)
  {
    assert Lower("a,b+c")[1] == ',';
    UnsignedStart("a,b+c", 3);
  }

  /** A text whose first character is not a sign, with a sign inside it, does
      not parse. */
  lemma {:induction false} UnsignedStart(t: string, k: nat)
    requires |t| >= 2 && k < |t| && IsFieldChar(t[0]) && IsFieldChar(t[|t| - 1]) && IsSign(t[k])
    requires Lower(t) != "true" && Lower(t) != "false" && t != "1" && t != "0"
    ensures DetailValueOf(t) == Err(InvalidDetailValue)
  {
    StripNoOp(t);
    assert !IsFieldChar(t[k]);
  }

  /** The same sign twice is rejected. */
  lemma {:induction false} RepeatedSignRejected(fields: set<string>, extraFields: set<string>)
    ensures Validate(fields, extraFields, Text("+a+b")) == Err(InvalidDetailValue)
  {
    var t := "+a+b";
    StripNoOp(t);
    NotFlagText(t);
    assert !IsFieldChar(t[0]);
    assert t[1..] == "a" + "+b";
    FirstSignAfter("a", "+b");
    assert t[..2] == "+a" && t[2..] == "+b";
  }

  /** An empty or blank value matches no alternative. */
  lemma {:induction false} BlankRejected(fields: set<string>, extraFields: set<string>)
    ensures Validate(fields, extraFields, Text("")) == Err(InvalidDetailValue)
  {
    assert Strip("") == "";
  }

  /** The module's doctests, for the schema `fields='f1,f2'`,
      `extra_fields='f3'`. */
  lemma {:induction false} Doctests()
    ensures Validate({"f1", "f2"}, {"f3"}, Text("true")) == Ok(Detail(true, {}, {"f1", "f2", "f3"}))
    ensures Validate({"f1", "f2"}, {"f3"}, Bool(false)) == Ok(Detail(false, {"f3"}, {"f1", "f2", "f3"}))
    ensures Validate({"f1", "f2"}, {"f3"}, Text("f2,f3")) == Ok(Detail(true, {"f1"}, {"f1", "f2", "f3"}))
    ensures Validate({"f1", "f2"}, {"f3"}, Text("+f3!f1")) == Ok(Detail(true, {"f1"}, {"f1", "f2", "f3"}))
  {
    TrueDoctest();
    SelectDoctest();
    SignedDoctest();
  }

  lemma {:induction false} TrueDoctest()
    ensures Validate({"f1", "f2"}, {"f3"}, Text("true")) == Ok(Detail(true, {}, {"f1", "f2", "f3"}))
  {
    StripNoOp("true");
    assert Lower("true") == "true";
    FlagValues({"f1", "f2"}, {"f3"}, "true");
    assert {"f1", "f2"} + {"f3"} == {"f1", "f2", "f3"};
  }

  lemma {:induction false} SelectDoctest()
    ensures Validate({"f1", "f2"}, {"f3"}, Text("f2,f3")) == Ok(Detail(true, {"f1"}, {"f1", "f2", "f3"}))
  {
    var t := "f2,f3";
    SelectParse();
    ValidateParsed({"f1", "f2"}, {"f3"}, t);
    DistinctNames();
    ThreeNames("f1", "f2", "f3");
  }

  lemma {:induction false} SelectParse()
    ensures DetailValueOf("f2,f3") == Ok(Select(["f2", "f3"]))
  {
    var t := "f2,f3";
    StripNoOp(t);
    assert Lower(t)[1] == '2';
    FieldListF2F3();
    SplitF2F3();
    FieldListValue(t);
  }

  lemma {:induction false} FieldListF2F3()
    ensures IsFieldList("f2,f3")
  {
  }

  lemma {:induction false} SplitF2F3()
    ensures Split("f2,f3", ',') == ["f2", "f3"]
  {
    SplitJoin(["f2", "f3"], ',');
    assert Join(["f2", "f3"], ',') == "f2,f3";
  }

  /** A stripped field list other than a flag word parses to its fields. */
  lemma {:induction false} FieldListValue(t: string)
    requires Strip(t) == t && !IsTrueText(t) && !IsFalseText(t) && IsFieldList(t) && t != "-"
    ensures DetailValueOf(t) == Ok(Select(Split(t, ',')))
  {
  }

  lemma {:induction false} SignedDoctest()
    ensures Validate({"f1", "f2"}, {"f3"}, Text("+f3!f1")) == Ok(Detail(true, {"f1"}, {"f1", "f2", "f3"}))
  {
    var t := "+f3!f1";
    SignedDoctestParse();
    ValidateParsed({"f1", "f2"}, {"f3"}, t);
    DistinctNames();
    ThreeNames("f1", "f2", "f3");
  }

  lemma {:induction false} SignedDoctestParse()
    ensures DetailValueOf("+f3!f1") == Ok(Extra(Some(["f3"]), Some(["f1"])))
  {
    assert "+f3!f1" == ['+'] + "f3" + ['!'] + "f1";
    SignedParse('+', "f3", '!', "f1");
    SplitWithoutSep("f3", ',');
    SplitWithoutSep("f1", ',');
  }

  /** The set algebra of the doctests, for three distinct names. */
  lemma {:induction false} ThreeNames(a: string, b: string, c: string)
    requires a != b && a != c && b != c
    ensures {a, b} + {c} == {a, b, c} && !({c} <= {a})
    ensures ExcludeOf(Select([b, c]), {a, b}, {c}) == {a}
    ensures ExcludeOf(Extra(Some([c]), Some([a])), {a, b}, {c}) == {a}
  {
    assert SetOf([b, c]) == {b, c};
    assert SetOf([c]) == {c} && SetOf([a]) == {a};
  }

  lemma {:induction false} DistinctNames()
    ensures "f1" != "f2" && "f1" != "f3" && "f2" != "f3"
  {
    assert "f1"[1] != "f2"[1] && "f1"[1] != "f3"[1] && "f2"[1] != "f3"[1];
  }
}
