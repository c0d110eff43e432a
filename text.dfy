/** Python string operations the core relies on, over `string` (= seq<char>).
    Whitespace is Python's; case mapping and digit recognition are limited
    to ASCII. */
module Text {
  import opened Wrappers

  /** `str.isspace()`: the characters `str.strip()` and `str.split()`
      treat as whitespace. */
  predicate IsSpace(c: char) {
    c == ' ' || c == '\t' || c == '\n' || c == '\r' || ('\U{0B}' <= c <= '\U{0C}') || ('\U{1C}' <= c <= '\U{1F}') ||
    c == '\U{85}' || c == '\U{A0}' || c == '\U{1680}' || ('\U{2000}' <= c <= '\U{200A}') ||
    c == '\U{2028}' || c == '\U{2029}' || c == '\U{202F}' || c == '\U{205F}' || c == '\U{3000}'
  }

  function StripLeft(s: string): (r: string)
    ensures |r| <= |s|
    ensures r != [] ==> !IsSpace(r[0])
  {
    if s != [] && IsSpace(s[0]) then StripLeft(s[1..]) else s
  }

  function StripRight(s: string): (r: string)
    ensures |r| <= |s|
    ensures r != [] ==> !IsSpace(r[|r| - 1])
  {
    if s != [] && IsSpace(s[|s| - 1]) then StripRight(s[..|s| - 1]) else s
  }

  /** `str.strip()` with no argument. */
  function Strip(s: string): string {
    StripRight(StripLeft(s))
  }

  lemma {:induction false} StripNoOp(s: string)
    requires s != [] ==> !IsSpace(s[0]) && !IsSpace(s[|s| - 1])
    ensures Strip(s) == s
  {
  }

  /** Stripping on the left keeps a suffix of the text. */
  lemma {:induction false} StripLeftIsSuffix(s: string)
    ensures StripLeft(s) == s[|s| - |StripLeft(s)|..]
  {
    if s != [] && IsSpace(s[0]) {
      StripLeftIsSuffix(s[1..]);
    }
  }

  /** Stripping on the right keeps a prefix of the text. */
  lemma {:induction false} StripRightIsPrefix(s: string)
    ensures StripRight(s) == s[..|StripRight(s)|]
  {
    if s != [] && IsSpace(s[|s| - 1]) {
      StripRightIsPrefix(s[..|s| - 1]);
    }
  }

  lemma {:induction false} StripIsIdempotent(s: string)
    ensures Strip(Strip(s)) == Strip(s)
  {
    var t := Strip(s);
    var l := StripLeft(s);
    StripRightIsPrefix(l);
    if t != [] {
      assert t == l[..|t|];
      assert t[0] == l[0];
    }
  }

  /** `s.startswith(p)`, for strings and bytes alike. */
  predicate StartsWith<T(==)>(s: seq<T>, p: seq<T>) {
    |p| <= |s| && s[..|p|] == p
  }

  /** `p in s` for strings and bytes (substring test). */
  predicate Contains<T(==)>(s: seq<T>, p: seq<T>)
    decreases |s|
  {
    StartsWith(s, p) || (s != [] && Contains(s[1..], p))
  }

  /** Concatenation is associative (stated once, for any element type). */
  lemma {:induction false} ConcatAssoc<T>(a: seq<T>, b: seq<T>, c: seq<T>)
    ensures (a + b) + c == a + (b + c)
  {
  }

  lemma {:induction false} ContainsAt<T>(s: seq<T>, p: seq<T>, i: nat)
    requires i + |p| <= |s| && s[i..i + |p|] == p
    ensures Contains(s, p)
    decreases i
  {
    if i > 0 {
      assert s[1..][i - 1..i - 1 + |p|] == s[i..i + |p|];
      ContainsAt(s[1..], p, i - 1);
    }
  }

  lemma {:induction false} ContainsPrefixOf<T>(s: seq<T>, t: seq<T>, p: seq<T>)
    requires Contains(s, p)
    ensures Contains(s + t, p)
    decreases |s|
  {
    if StartsWith(s, p) {
      assert (s + t)[..|p|] == s[..|p|];
    } else {
      assert (s + t)[1..] == s[1..] + t;
      ContainsPrefixOf(s[1..], t, p);
    }
  }

  /** ASCII `str.lower()`. */
  function LowerChar(c: char): char {
    if 'A' <= c <= 'Z' then (c as int + 32) as char else c
  }

  /** ASCII `str.upper()`. */
  function UpperChar(c: char): char {
    if 'a' <= c <= 'z' then (c as int - 32) as char else c
  }

  function Lower(s: string): (r: string)
    ensures |r| == |s| && forall i :: 0 <= i < |s| ==> r[i] == LowerChar(s[i])
  {
    if s == [] then [] else [LowerChar(s[0])] + Lower(s[1..])
  }

  function Upper(s: string): (r: string)
    ensures |r| == |s| && forall i :: 0 <= i < |s| ==> r[i] == UpperChar(s[i])
  {
    if s == [] then [] else [UpperChar(s[0])] + Upper(s[1..])
  }

  /** `s.replace(a, b)` for single characters. */
  function ReplaceChar(s: string, a: char, b: char): (r: string)
    ensures |r| == |s|
    ensures forall i :: 0 <= i < |s| ==> r[i] == if s[i] == a then b else s[i]
  {
    if s == [] then [] else [if s[0] == a then b else s[0]] + ReplaceChar(s[1..], a, b)
  }

  /** `s.split(sep)` for a one-character separator: never empty, and an empty
      string splits into one empty part. */
  function Split(s: string, sep: char): (r: seq<string>)
    ensures |r| >= 1
  {
    if s == [] then [""]
    else
      var rest := Split(s[1..], sep);
      if s[0] == sep then [""] + rest
      else [[s[0]] + rest[0]] + rest[1..]
  }

  /** `sep.join(parts)`. */
  function Join(parts: seq<string>, sep: char): string {
    if |parts| == 0 then ""
    else if |parts| == 1 then parts[0]
    else parts[0] + [sep] + Join(parts[1..], sep)
  }

  lemma {:induction false} SplitPartsHaveNoSep(s: string, sep: char)
    ensures forall p :: p in Split(s, sep) ==> sep !in p
  {
    if s != [] {
      SplitPartsHaveNoSep(s[1..], sep);
      var rest := Split(s[1..], sep);
      if s[0] != sep {
        assert rest[0] in rest;
        forall p | p in Split(s, sep) ensures sep !in p {
          if p != [s[0]] + rest[0] {
            assert p in rest[1..];
          }
        }
      }
    }
  }

  lemma {:induction false} JoinSplit(s: string, sep: char)
    ensures Join(Split(s, sep), sep) == s
  {
    if s != [] {
      JoinSplit(s[1..], sep);
      var rest := Split(s[1..], sep);
      if s[0] == sep {
        assert Split(s, sep)[1..] == rest;
      } else {
        var r := Split(s, sep);
        if |rest| == 1 {
          assert Join(r, sep) == [s[0]] + rest[0];
        } else {
          assert r[1..] == rest[1..];
          assert Join(rest, sep) == rest[0] + [sep] + Join(rest[1..], sep);
        }
      }
    }
  }

  /** Splitting a separator-free prefix followed by anything extends the first part. */
  lemma {:induction false} SplitPrefix(p: string, t: string, sep: char)
    requires sep !in p
    ensures Split(p + t, sep) == [p + Split(t, sep)[0]] + Split(t, sep)[1..]
  {
    if p != [] {
      var st := Split(t, sep);
      assert (p + t)[1..] == p[1..] + t;
      SplitPrefix(p[1..], t, sep);
      var rest := Split(p[1..] + t, sep);
      assert rest == [p[1..] + st[0]] + st[1..];
      assert p[0] in p;
      assert Split(p + t, sep) == [[p[0]] + rest[0]] + rest[1..];
      assert [p[0]] + (p[1..] + st[0]) == p + st[0];
    } else {
      assert p + t == t;
      assert p + Split(t, sep)[0] == Split(t, sep)[0];
      assert Split(t, sep) == [Split(t, sep)[0]] + Split(t, sep)[1..];
    }
  }

  lemma {:induction false} SplitJoin(parts: seq<string>, sep: char)
    requires |parts| >= 1
    requires forall p :: p in parts ==> sep !in p
    ensures Split(Join(parts, sep), sep) == parts
  {
    if |parts| == 1 {
      SplitPrefix(parts[0], "", sep);
      assert parts[0] + "" == parts[0];
    } else {
      var tail := Join(parts[1..], sep);
      SplitJoin(parts[1..], sep);
      assert parts[0] + [sep] + tail == parts[0] + ([sep] + tail);
      SplitPrefix(parts[0], [sep] + tail, sep);
      assert ([sep] + tail)[1..] == tail;
      assert Split([sep] + tail, sep) == [""] + Split(tail, sep);
      assert parts[0] + "" == parts[0];
    }
  }

  lemma {:induction false} SplitWithoutSep(s: string, sep: char)
    requires sep !in s
    ensures Split(s, sep) == [s]
  {
    SplitPrefix(s, "", sep);
    assert s + "" == s;
  }

  /** Number of leading characters that are not whitespace. */
  function WordLen(s: string): (n: nat)
    ensures n <= |s|
    ensures forall i :: 0 <= i < n ==> !IsSpace(s[i])
    ensures n < |s| ==> IsSpace(s[n])
  {
    if s == [] || IsSpace(s[0]) then 0 else 1 + WordLen(s[1..])
  }

  /** `s.split()` with no argument: the maximal runs of non-whitespace. */
  function Words(s: string): (r: seq<string>)
    ensures forall w :: w in r ==> w != [] && forall i :: 0 <= i < |w| ==> !IsSpace(w[i])
    decreases |s|
  {
    if s == [] then []
    else if IsSpace(s[0]) then Words(s[1..])
    else
      var n := WordLen(s);
      [s[..n]] + Words(s[n..])
  }

  lemma {:induction false} WordsOfWord(w: string)
    requires w != [] && forall i :: 0 <= i < |w| ==> !IsSpace(w[i])
    ensures Words(w) == [w]
  {
    assert WordLen(w) == |w|;
    assert w[..|w|] == w;
    assert w[|w|..] == [];
  }

  /** Every character of every word comes from the text. */
  lemma {:induction false} WordsChars(s: string)
    ensures forall w, i :: w in Words(s) && 0 <= i < |w| ==> w[i] in s
    decreases |s|
  {
    if s != [] {
      if IsSpace(s[0]) {
        WordsChars(s[1..]);
      } else {
        var n := WordLen(s);
        WordsChars(s[n..]);
        forall w, i | w in Words(s) && 0 <= i < |w| ensures w[i] in s {
          if w == s[..n] {
            assert w[i] == s[i];
          } else {
            assert w in Words(s[n..]);
            assert w[i] in s[n..];
          }
        }
      }
    }
  }

  function SetOf(s: seq<string>): set<string> {
    set x | x in s
  }

  /** `set(text.strip().replace(',', ' ').split())`: the names of a list
      separated by commas or whitespace; none is empty, and none holds a
      comma or whitespace. */
  function NameSet(text: string): (r: set<string>)
    ensures forall k :: k in r ==> k != "" && ',' !in k && forall i :: 0 <= i < |k| ==> !IsSpace(k[i])
  {
    var t := ReplaceChar(Strip(text), ',', ' ');
    WordsChars(t);
    SetOf(Words(t))
  }

  /** `s.split(sep, 1)`: the text before and after the first separator, if any. */
  function SplitOnce(s: string, sep: char): (r: Option<(string, string)>)
    ensures r.None? <==> sep !in s
    ensures r.Some? ==> s == r.value.0 + [sep] + r.value.1 && sep !in r.value.0
  {
    if s == [] then None
    else if s[0] == sep then Some(([], s[1..]))
    else
      match SplitOnce(s[1..], sep)
      case None => None
      case Some((a, b)) => Some(([s[0]] + a, b))
  }

  // ---- integers ----------------------------------------------------------

  /** The lower-case digit character for `d`, as Python prints it. */
  function DigitChar(d: nat): char
    requires d < 16
  {
    if d < 10 then ('0' as int + d) as char else ('a' as int + d - 10) as char
  }

  predicate IsDigitChar(c: char) {
    '0' <= c <= '9' || 'a' <= c <= 'f'
  }

  /** The digits of `n` in `base`, most significant first, without leading zeros. */
  function NatDigits(n: nat, base: nat): (r: string)
    requires 2 <= base <= 16
    ensures r != []
    ensures forall i :: 0 <= i < |r| ==> IsDigitChar(r[i])
    decreases n
  {
    if n < base then [DigitChar(n)]
    else
      DivFacts(n, base);
      NatDigits(n / base, base) + [DigitChar(n % base)]
  }

  lemma {:induction false} DivFacts(n: nat, base: nat)
    requires 2 <= base <= n
    ensures 0 <= n % base < base && n / base < n && n == (n / base) * base + n % base
  {
  }

  /** `str(n)` for a Python int. */
  function DecimalString(n: int): string {
    if n < 0 then "-" + NatDigits(-n, 10) else NatDigits(n, 10)
  }

  /** `'%x' % n` for a Python int. */
  function HexString(n: int): string {
    if n < 0 then "-" + NatDigits(-n, 16) else NatDigits(n, 16)
  }

  /** The value of one digit character in `base`, or None. */
  function DigitValue(c: char, base: nat): (r: Option<nat>)
    requires 2 <= base <= 16
    ensures r.Some? ==> r.value < base
  {
    var d :=
      if '0' <= c <= '9' then c as int - '0' as int
      else if 'a' <= c <= 'f' then c as int - 'a' as int + 10
      else if 'A' <= c <= 'F' then c as int - 'A' as int + 10
      else 16;
    if d < base then Some(d) else None
  }

  lemma {:induction false} DigitValueOfDigitChar(d: nat, base: nat)
    requires 2 <= base <= 16 && d < base
    ensures DigitValue(DigitChar(d), base) == Some(d)
  {
  }

  /** Value of a non-empty run of digits with no underscores. */
  function ParseDigits(s: string, base: nat): (r: Option<nat>)
    requires 2 <= base <= 16
    ensures s == [] ==> r.None?
  {
    if s == [] then None
    else if |s| == 1 then DigitValue(s[0], base)
    else
      match (ParseDigits(s[..|s| - 1], base), DigitValue(s[|s| - 1], base))
      case (Some(hi), Some(lo)) => MulNat(hi, base); Some(hi * base + lo)
      case _ => None
  }

  lemma {:induction false} MulNat(a: nat, b: nat)
    ensures a * b >= 0
  {
  }

  /** Python's rule for digit groups: `_` only between two digits. */
  predicate UnderscoresBetweenDigits(s: string) {
    s != [] && s[0] != '_' && s[|s| - 1] != '_' &&
    forall i :: 0 <= i < |s| - 1 ==> !DoubleUnderscoreAt(s, i)
  }

  predicate DoubleUnderscoreAt(s: string, i: nat)
    requires i < |s| - 1
  {
    s[i] == '_' && s[i + 1] == '_'
  }

  function RemoveUnderscores(s: string): (r: string)
    ensures '_' !in s ==> r == s
  {
    if s == [] then [] else (if s[0] == '_' then [] else [s[0]]) + RemoveUnderscores(s[1..])
  }

  /** The unsigned part of `int(s, base)`: for base 16 an optional `0x`/`0X`
      prefix, which may be followed by one `_`. */
  function ParseUnsigned(s: string, base: nat): Option<nat>
    requires base == 10 || base == 16
  {
    if base == 16 && |s| >= 2 && s[0] == '0' && (s[1] == 'x' || s[1] == 'X') then
      var t := if |s| >= 3 && s[2] == '_' then s[3..] else s[2..];
      if UnderscoresBetweenDigits(t) then ParseDigits(RemoveUnderscores(t), base) else None
    else if UnderscoresBetweenDigits(s) then ParseDigits(RemoveUnderscores(s), base)
    else None
  }

  /** `int(s, base)`: surrounding whitespace, an optional sign, digits;
      None where Python raises ValueError. */
  function ParseInt(s: string, base: nat): (r: Option<int>)
    requires base == 10 || base == 16
  {
    var t := Strip(s);
    var signed := t != [] && (t[0] == '-' || t[0] == '+');
    var negative := t != [] && t[0] == '-';
    SignedValue(ParseUnsigned(if signed then t[1..] else t, base), negative)
  }

  function SignedValue(v: Option<nat>, negative: bool): Option<int> {
    match v
    case None => None
    case Some(v) => Some(if negative then -(v as int) else v as int)
  }

  lemma {:induction false} ParseNatDigits(n: nat, base: nat)
    requires 2 <= base <= 16
    ensures ParseDigits(NatDigits(n, base), base) == Some(n)
    decreases n
  {
    if n < base {
      DigitValueOfDigitChar(n, base);
    } else {
      DivFacts(n, base);
      var q, r := n / base, n % base;
      var hi := NatDigits(q, base);
      var s := hi + [DigitChar(r)];
      assert NatDigits(n, base) == s;
      assert s[..|s| - 1] == hi;
      ParseNatDigits(q, base);
      DigitValueOfDigitChar(r, base);
      assert ParseDigits(hi, base) == Some(q);
      assert DigitValue(s[|s| - 1], base) == Some(r);
      assert ParseDigits(s, base) == Some(q * base + r);
    }
  }

  lemma {:induction false} NatDigitsShape(n: nat, base: nat)
    requires 2 <= base <= 16
    ensures var s := NatDigits(n, base);
      '_' !in s && s[0] != '-' && s[0] != '+' && !IsSpace(s[0]) && !IsSpace(s[|s| - 1])
  {
    var s := NatDigits(n, base);
    assert IsDigitChar(s[0]) && IsDigitChar(s[|s| - 1]);
  }

  /** A digit string with no sign or surrounding space parses, bare or
      after a minus sign, to the value of its digits. */
  lemma {:induction false} ParseSignedText(d: string, m: nat, base: nat)
    requires base == 10 || base == 16
    requires d != [] && d[0] != '-' && d[0] != '+' && !IsSpace(d[0]) && !IsSpace(d[|d| - 1])
    requires ParseUnsigned(d, base) == Some(m)
    ensures ParseInt(d, base) == Some(m)
    ensures ParseInt("-" + d, base) == Some(-(m as int))
  {
    ParsePositive(d, m, base);
    ParseNegative(d, m, base);
  }

  lemma {:induction false} ParsePositive(d: string, m: nat, base: nat)
    requires base == 10 || base == 16
    requires d != [] && d[0] != '-' && d[0] != '+' && !IsSpace(d[0]) && !IsSpace(d[|d| - 1])
    requires ParseUnsigned(d, base) == Some(m)
    ensures ParseInt(d, base) == Some(m)
  {
    StripNoOp(d);
  }

  lemma {:induction false} StripMinus(d: string)
    requires d != [] && !IsSpace(d[|d| - 1])
    ensures |"-" + d| == |d| + 1 && ("-" + d)[1..] == d
    ensures Strip("-" + d) == "-" + d
  {
    var s := "-" + d;
    assert s[0] == '-' && s[|s| - 1] == d[|d| - 1];
    StripNoOp(s);
  }

  lemma {:induction false} ParseNegative(d: string, m: nat, base: nat)
    requires base == 10 || base == 16
    requires d != [] && !IsSpace(d[|d| - 1])
    requires ParseUnsigned(d, base) == Some(m)
    ensures ParseInt("-" + d, base) == Some(-(m as int))
  {
    StripMinus(d);
    var s := "-" + d;
    assert s[0] == '-';
  }

  /** `int(text, base) == n` for the rendering of a signed number. */
  lemma {:induction false} ParseSignedDigits(n: int, base: nat)
    requires base == 10 || base == 16
    ensures var m := if n < 0 then -n else n;
      ParseInt(if n < 0 then "-" + NatDigits(m, base) else NatDigits(m, base), base) == Some(n)
  {
    var m := if n < 0 then -n else n;
    NatDigitsShape(m, base);
    ParseUnsignedDigits(m, base);
    ParseSignedText(NatDigits(m, base), m, base);
  }

  /** `int(str(n)) == n`. */
  lemma {:induction false} ParseDecimalString(n: int)
    ensures ParseInt(DecimalString(n), 10) == Some(n)
  {
    ParseSignedDigits(n, 10);
  }

  lemma {:induction false} ParseUnsignedDigits(m: nat, base: nat)
    requires base == 10 || base == 16
    ensures ParseUnsigned(NatDigits(m, base), base) == Some(m)
  {
    var d := NatDigits(m, base);
    NatDigitsShape(m, base);
    ParseNatDigits(m, base);
    assert UnderscoresBetweenDigits(d);
    assert RemoveUnderscores(d) == d;
    // A multi-digit rendering never starts with 0, so it has no 0x prefix.
    NatDigitsLeading(m, base);
  }

  /** `int('%x' % n, 16) == n`. */
  lemma {:induction false} ParseHexString(n: int)
    ensures ParseInt(HexString(n), 16) == Some(n)
  {
    ParseSignedDigits(n, 16);
  }

  lemma {:induction false} NatDigitsLeading(n: nat, base: nat)
    requires 2 <= base <= 16
    ensures |NatDigits(n, base)| >= 2 ==> NatDigits(n, base)[0] != '0'
    decreases n
  {
    if n >= base {
      NatDigitsLeading(n / base, base);
      var hi := NatDigits(n / base, base);
      assert NatDigits(n, base)[0] == hi[0];
      if |hi| == 1 {
        assert n / base >= 1;
        assert hi == [DigitChar(n / base)];
      }
    }
  }
}
