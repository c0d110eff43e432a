/** `coerce_url`: turn what a user typed into a URL with a scheme. */
module CoerceUrl {
  import opened Text

  const SchemeSep: string := "://"
  const FeedPrefix: string := "feed://"

  /** The stripped url with `feed://` replaced by, or a missing scheme filled
      with, the default scheme; anything else that names a scheme stays. */
  function CoerceUrl(url: string, defaultSchema: string): (r: string)
    ensures StartsWith(Strip(url), FeedPrefix) ==> r == defaultSchema + SchemeSep + Strip(url)[7..]
    ensures !StartsWith(Strip(url), FeedPrefix) && !Contains(Strip(url), SchemeSep) ==> r == defaultSchema + SchemeSep + Strip(url)
    ensures !StartsWith(Strip(url), FeedPrefix) && Contains(Strip(url), SchemeSep) ==> r == Strip(url)
  {
    var u := Strip(url);
    if StartsWith(u, FeedPrefix) then defaultSchema + SchemeSep + u[7..]
    else if !Contains(u, SchemeSep) then defaultSchema + SchemeSep + u
    else u
  }

  lemma {:induction false} ContainsSep(ds: string, rest: string)
    ensures Contains(ds + SchemeSep + rest, SchemeSep)
  {
    var s := ds + SchemeSep + rest;
    assert s[|ds|..|ds| + 3] == SchemeSep;
    ContainsAt(s, SchemeSep, |ds|);
  }

  /** Every result names a scheme. */
  lemma {:induction false} AlwaysHasScheme(url: string, defaultSchema: string)
    ensures Contains(CoerceUrl(url, defaultSchema), SchemeSep)
  {
    var u := Strip(url);
    if StartsWith(u, FeedPrefix) {
      ContainsSep(defaultSchema, u[7..]);
    } else if !Contains(u, SchemeSep) {
      ContainsSep(defaultSchema, u);
    }
  }

  /** A scheme name: no colon and no whitespace. */
  predicate SchemeName(ds: string) {
    forall i :: 0 <= i < |ds| ==> ds[i] != ':' && !IsSpace(ds[i])
  }

  /** Gluing a scheme name to a suffix of a stripped text gives a stripped
      text. */
  lemma {:induction false} GluedIsStripped(ds: string, u: string, k: nat)
    requires SchemeName(ds)
    requires k <= |u| && Strip(u) == u
    ensures Strip(ds + SchemeSep + u[k..]) == ds + SchemeSep + u[k..]
  {
    var s := ds + SchemeSep + u[k..];
    if k < |u| {
      assert u != [];
      StripNoOpInverse(u);
      assert s[|s| - 1] == u[|u| - 1];
    } else {
      assert s[|s| - 1] == '/';
    }
    if ds != [] {
      assert s[0] == ds[0];
    } else {
      assert s[0] == ':';
    }
    StripNoOp(s);
  }

  /** A text that stripping leaves alone starts and ends with non-space. */
  lemma {:induction false} StripNoOpInverse(u: string)
    requires u != [] && Strip(u) == u
    ensures !IsSpace(u[0]) && !IsSpace(u[|u| - 1])
  {
    var l := StripLeft(u);
    StripLeftIsSuffix(u);
    StripRightIsPrefix(l);
    assert |l| == |u|;
    assert l == u;
  }

  /** A scheme name other than `feed` glued in front never looks like
      `feed://`. */
  lemma {:induction false} GluedNotFeed(ds: string, rest: string)
    requires SchemeName(ds) && ds != "feed"
    ensures !StartsWith(ds + SchemeSep + rest, FeedPrefix)
  {
    var s := ds + SchemeSep + rest;
    if |ds| > 4 {
      assert s[..7][4] == ds[4];
    } else if |ds| < 4 {
      assert s[|ds|] == ':';
      assert |s| < 7 || s[..7][|ds|] == ':';
    } else {
      assert s[..4] == ds;
    }
  }

  /** Coercing twice is coercing once, for any default scheme that is a
      scheme name, `feed` included. */
  lemma {:induction false} Idempotent(url: string, defaultSchema: string)
    requires SchemeName(defaultSchema)
    ensures CoerceUrl(CoerceUrl(url, defaultSchema), defaultSchema) == CoerceUrl(url, defaultSchema)
  {
    var u := Strip(url);
    StripIsIdempotent(url);
    var k := if StartsWith(u, FeedPrefix) then 7 else 0;
    if StartsWith(u, FeedPrefix) || !Contains(u, SchemeSep) {
      assert u[0..] == u;
      var r := defaultSchema + SchemeSep + u[k..];
      assert CoerceUrl(url, defaultSchema) == r;
      GluedIsStripped(defaultSchema, u, k);
      ContainsSep(defaultSchema, u[k..]);
      if defaultSchema == "feed" {
        assert r[7..] == u[k..];
      } else {
        GluedNotFeed(defaultSchema, u[k..]);
      }
    }
  }

  /** Text without a colon names no scheme. */
  lemma {:induction false} NoColonNoScheme(s: string)
    requires forall i :: 0 <= i < |s| ==> s[i] != ':'
    ensures !Contains(s, SchemeSep)
  {
    if s != [] {
      assert s[0] != ':';
      NoColonNoScheme(s[1..]);
    }
  }

  /** Examples: a bare host gets the default scheme, `feed://` is
      replaced, and an explicit scheme stays. */
  lemma {:induction false} BareHostExample()
    ensures CoerceUrl(" example.com ", "http") == "http" + SchemeSep + "example.com"
  {
    var t := "example.com";
    assert " example.com "[1..] == t + " ";
    assert (t + " ")[..|t|] == t;
    assert StripLeft(" example.com ") == StripLeft("example.com ") == "example.com ";
    assert StripRight("example.com ") == StripRight("example.com") == "example.com";
    NoColonNoScheme(t);
    assert Strip(" example.com ") == t;
    assert !StartsWith(t, FeedPrefix) by {
      assert t[..7] != FeedPrefix by {
        assert t[..7][0] == 'e';
      }
    }
  }

  lemma {:induction false} FeedExample()
    ensures CoerceUrl("feed://example.com", "https") == "https://example.com"
  {
    var u := "feed://example.com";
    StripNoOp(u);
    assert u[..7] == FeedPrefix;
    assert StartsWith(Strip(u), FeedPrefix);
    assert u[7..] == "example.com";
    assert "https" + SchemeSep + "example.com" == "https://example.com";
  }
}
