/** The `cursor` and `cursor_string` schema validators of the REST layer:
    `cursor` parses `k1:v1,k2:v2` into a cursor, optionally against the keys
    the schema lists; `cursor_string` prints a cursor back. Unlike the
    common cursor, this one keeps empty values. */
module CursorValidator {
  import opened Wrappers
  import opened Text
  import opened OrderedDict
  import opened Cursors

  /** What the schema's `keys` option becomes: absent, a set of names, or
      left as the empty text (which `if keys:` does not convert). */
  datatype KeyRule = AnyKey | Allowed(names: set<string>) | KeysText

  /** `cursor_validator(keys=...)`: a non-empty `keys` is read as names
      separated by commas or whitespace. */
  function CompileKeys(keys: Option<string>): (r: KeyRule)
    ensures r.Allowed? ==> "" !in r.names && forall k :: k in r.names ==> ',' !in k
    ensures r == KeysText <==> keys == Some("")
    ensures r == AnyKey <==> keys.None?
  {
    if keys.None? then AnyKey
    else if keys.value == "" then KeysText
    else Allowed(NameSet(keys.value))
  }

  /** The keys `key in keys` admits: all, the listed names, or, for the
      empty text, only the empty key (`'' in ''` is the only substring test
      that holds). */
  function Membership(rule: KeyRule): Option<set<string>> {
    match rule
    case AnyKey => None
    case Allowed(names) => Some(names)
    case KeysText => Some({""})
  }

  /** `Invalid` with its reason, or the `TypeError` of subtracting a set
      from the text `''`. */
  datatype ValidateError = Invalid(reason: CursorError) | KeysTypeError

  /** What the inner `validate` returns for `value`: the parsed items, with
      no filtering, after the missing-key check. */
  function ValidateItems(rule: KeyRule, value: string): Result<Items, ValidateError> {
    match ParseItems(value, Membership(rule))
    case Err(e) => Err(Invalid(e))
    case Ok(m) =>
      if rule.KeysText? then Err(KeysTypeError)
      else
        match MissingError(Membership(rule), m)
        case Some(e) => Err(Invalid(e))
        case None => Ok(m)
  }

  /** The cursor type the validator produces: `Cursor(**items)` keeps every
      item as given. */
  class Cursor {
    var items: Items

    predicate Valid()
      reads this
    {
      DistinctKeys(items)
    }

    constructor (given: Items)
      requires DistinctKeys(given)
      ensures items == given && Valid()
    {
      items := given;
    }

    /** `cursor.key` and `cursor[key]`; `KeyError` when missing. */
    function Get(key: string): (r: Option<string>)
      reads this
      ensures r.Some? <==> key in KeysOf(items)
    {
      Lookup(items, key)
    }

    /** `cursor.key = value` and `cursor[key] = value`. */
    method Set(key: string, value: string)
      requires Valid()
      modifies this
      ensures Valid() && items == Assign(old(items), key, value)
      ensures Get(key) == Some(value)
      ensures forall k :: k != key ==> Get(k) == old(Get(k))
    {
      AssignDistinct(items, key, value);
      AssignLookup(items, key, value, key);
      forall k | k != key ensures Lookup(Assign(items, key, value), k) == Lookup(items, k) {
        AssignLookup(items, key, value, k);
      }
      items := Assign(items, key, value);
    }
  }

  /** The inner `validate` of `cursor_validator`. */
  method Validate(rule: KeyRule, value: string) returns (r: Result<Cursor, ValidateError>)
    ensures r.Err? <==> ValidateItems(rule, value).Err?
    ensures r.Err? ==> r.error == ValidateItems(rule, value).error
    ensures r.Ok? ==> fresh(r.value) && r.value.Valid() && r.value.items == ValidateItems(rule, value).value
  {
    var keys := Membership(rule);
    var parsed := CollectItems(value, keys);
    if parsed.Err? {
      return Err(Invalid(parsed.error));
    }
    var items := parsed.value;
    if rule.KeysText? {
      return Err(KeysTypeError);
    }
    if keys.Some? {
      var missing := keys.value - KeysOf(items);
      if !NothingMissing(missing) {
        return Err(Invalid(MissingKeys(missing)));
      }
    }
    CollectDistinct(Segments(value), keys);
    var c := new Cursor(items);
    return Ok(c);
  }

  /** What `cursor_string` is given: a cursor (by its items) or anything else. */
  datatype Input = CursorInput(items: Items) | OtherInput

  datatype StringError = NotACursor

  /** `cursor_string_validator`'s `validate`. */
  function CursorString(v: Input): (r: Result<string, StringError>)
    ensures r.Ok? <==> v.CursorInput?
    ensures v.CursorInput? && v.items != [] ==> r.value != ""
  {
    if v.OtherInput? then Err(NotACursor)
    else
      FormatNonEmpty(v.items);
      Ok(Format(v.items))
  }

  // ---- lemmas -------------------------------------------------------------

  /** Validation succeeds exactly when every segment holds a colon and an
      admitted key, `keys` is not the empty text, and every listed name is
      present; the missing-key check is exact here, since no listed name is
      empty. */
  lemma {:induction false} ValidateOk(rule: KeyRule, value: string)
    requires rule.Allowed? ==> "" !in rule.names
    ensures ParseItems(value, Membership(rule)).Ok? <==>
      forall i :: 0 <= i < |Segments(value)| ==> SegmentOk(Segments(value)[i], Membership(rule))
    ensures ValidateItems(rule, value).Ok? <==>
      ParseItems(value, Membership(rule)).Ok? && !rule.KeysText? &&
      (rule.Allowed? ==> rule.names <= KeysOf(ParseItems(value, Membership(rule)).value))
  {
    CollectOk(Segments(value), Membership(rule));
    if rule.Allowed? && ParseItems(value, Membership(rule)).Ok? {
      var missing := rule.names - KeysOf(ParseItems(value, Membership(rule)).value);
      assert "" !in missing;
    }
  }

  /** With `keys=''` every value is rejected, by `Invalid` or by the
      `TypeError` after the loop. */
  lemma {:induction false} KeysTextRejects(value: string)
    ensures ValidateItems(KeysText, value).Err?
  {
  }

  /** What a successful validation yields: distinct keys, exactly the listed
      names when there are any, and for every key the value of the last
      segment naming it, empty or not. */
  lemma {:induction false} ValidateResult(rule: KeyRule, value: string, k: string)
    requires rule.Allowed? ==> "" !in rule.names
    requires ValidateItems(rule, value).Ok?
    ensures DistinctKeys(ValidateItems(rule, value).value)
    ensures rule.Allowed? ==> KeysOf(ValidateItems(rule, value).value) == rule.names
    ensures Lookup(ValidateItems(rule, value).value, k) == LastValue(Segments(value), k)
  {
    CollectDistinct(Segments(value), Membership(rule));
    CollectLookup(Segments(value), Membership(rule), k);
    ValidateOk(rule, value);
    if rule.Allowed? {
      CollectKeysAllowed(Segments(value), rule.names);
    }
  }

  /** An empty value is kept here and dropped by the common cursor. */
  lemma {:induction false} EmptyValueKept()
    ensures ValidateItems(AnyKey, "a:") == Ok([("a", "")])
    ensures FromStringItems("a:", None) == Ok([])
  {
    SplitSegment("a", "");
    assert "a" + [':'] + "" == "a:";
    StripNoOp("a:");
    SplitWithoutSep("a:", ',');
    assert Segments("a:") == ["a:"];
    assert ["a:"][..0] == [];
    assert Collect(["a:"], None) == Ok([("a", "")]);
    assert Filter(Lift([("a", "")])) == [];
  }

  /** Printing a validated cursor and validating the text again gives the
      same items, when they print unambiguously (values may be empty) and
      the rule admits them. */
  lemma {:induction false} RoundTrip(items: Items, rule: KeyRule)
    requires items != [] && Printable(items)
    requires rule == AnyKey || rule == Allowed(KeysOf(items))
    ensures CursorString(CursorInput(items)).Ok?
    ensures ValidateItems(rule, CursorString(CursorInput(items)).value) == Ok(items)
  {
    ParseFormat(items, Membership(rule));
  }
}
