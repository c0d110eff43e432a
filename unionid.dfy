/** The "unionid" text encoding of tuples of non-negative integers below 2^64
    (rssant_common/unionid.py).

    Each number becomes 2, 4, 7, 10 or 13 characters of a 32-symbol alphabet:
    a lead character whose upper bits say the length and whose low bits hold
    the most significant bits of the number, followed by base-32 digits, most
    significant first.  The bit operations of the source on small non-negative
    integers are written with `/`, `%` and `+`: `n & 31` is `n % 32`,
    `n >> 5` is `n / 32`, `v << 5k` is `v * Pow32(k)`, and every `|` combines
    values whose bits do not overlap, so it is `+` (see `DigitsValueBound`). */
module UnionId {
  import opened Wrappers
  import Text

  /** UNION_ID_CHARS: the digits and the lower-case letters without i, j, l and o. */
  const Chars: string := "0123456789abcdefghkmnpqrstuvwxyz"

  const N2Max: nat := 0x7f                     // 2^7 - 1
  const N4Max: nat := 0x1_ffff                 // 2^17 - 1
  const N7Max: nat := 0xffff_ffff              // 2^32 - 1
  const N10Max: nat := 0x7fff_ffff_ffff        // 2^47 - 1
  const N13Max: nat := 0xffff_ffff_ffff_ffff   // 2^64 - 1

  datatype EncodeError = NegativeNumber | NumberTooLarge
  datatype DecodeError = NotAscii | InvalidChar(c: char) | LengthIncorrect

  function Pow32(k: nat): (p: nat)
    ensures p >= 1
  {
    if k == 0 then 1 else 32 * Pow32(k - 1)
  }

  /** The alphabet symbol for a 5-bit value. */
  function CharOf(v: nat): char
    requires v < 32
  {
    if v < 10 then ('0' as int + v) as char
    else if v < 18 then ('a' as int + v - 10) as char
    else if v == 18 then 'k'
    else if v < 21 then ('m' as int + v - 19) as char
    else ('p' as int + v - 21) as char
  }

  lemma {:induction false} CharOfIsTable(v: nat)
    requires v < 32
    ensures CharOf(v) == Chars[v]
  {
  }

  /** `_value_of_char`: the position of `c` in the alphabet. */
  function ValueOfChar(c: char): (r: Result<nat, DecodeError>)
    ensures r.Ok? ==> r.value < 32 && CharOf(r.value) == c
    ensures r.Err? ==> r.error == InvalidChar(c)
  {
    if '0' <= c <= '9' then Ok(c as int - '0' as int)
    else if 'a' <= c <= 'h' then Ok(c as int - 'a' as int + 10)
    else if c == 'k' then Ok(18)
    else if 'm' <= c <= 'n' then Ok(c as int - 'm' as int + 19)
    else if 'p' <= c <= 'z' then Ok(c as int - 'p' as int + 21)
    else Err(InvalidChar(c))
  }

  lemma {:induction false} ValueOfCharOf(v: nat)
    requires v < 32
    ensures ValueOfChar(CharOf(v)) == Ok(v)
  {
  }

  /** `_value_of_char` succeeds exactly on the alphabet, at the symbol's position. */
  lemma {:induction false} ValueOfCharInChars(c: char)
    ensures ValueOfChar(c).Ok? <==> c in Chars
    ensures ValueOfChar(c).Ok? ==> Chars[ValueOfChar(c).value] == c
  {
    if ValueOfChar(c).Ok? {
      CharOfIsTable(ValueOfChar(c).value);
    } else if c in Chars {
      var i :| 0 <= i < |Chars| && Chars[i] == c;
      CharOfIsTable(i);
      ValueOfCharOf(i);
    }
  }

  // ---- encoding ------------------------------------------------------------

  /** The encoded length of an encodable number, by the N*_MAX thresholds. */
  function Length(n: nat): nat
    requires n <= N13Max
  {
    if n <= N2Max then 2
    else if n <= N4Max then 4
    else if n <= N7Max then 7
    else if n <= N10Max then 10
    else 13
  }

  /** The N*_PREFIX bits of the lead character for each length. */
  function Prefix(length: nat): nat {
    if length == 13 then 16
    else if length == 10 then 12
    else if length == 7 then 8
    else if length == 4 then 4
    else 0
  }

  /** `n` after `k` shifts right by 5 bits. */
  function Shifted(n: nat, k: nat): nat {
    if k == 0 then n else Shifted(n, k - 1) / 32
  }

  /** The last `k` characters of an encoding: the low `k` base-32 digits of `n`,
      most significant first. */
  function Trail(n: nat, k: nat): (s: string)
    ensures |s| == k
  {
    if k == 0 then [] else [CharOf(Shifted(n, k - 1) % 32)] + Trail(n, k - 1)
  }

  /** The encoding of one number (`_encode_number`), as a reference definition. */
  function EncodeNumberSpec(n: int): Result<string, EncodeError> {
    if n < 0 then Err(NegativeNumber)
    else if n > N13Max then Err(NumberTooLarge)
    else
      var len := Length(n);
      LeadBound(n);
      Ok([CharOf(Shifted(n, len - 1) + Prefix(len))] + Trail(n, len - 1))
  }

  /** `encode(*numbers)`: the concatenation of the encodings; the first failing
      number decides the error. */
  function EncodeSpec(ns: seq<int>): Result<string, EncodeError> {
    if ns == [] then Ok("")
    else
      match EncodeNumberSpec(ns[0])
      case Err(e) => Err(e)
      case Ok(head) =>
        match EncodeSpec(ns[1..])
        case Err(e) => Err(e)
        case Ok(tail) => Ok(head + tail)
  }

  /** `_encode_number`: fills a buffer from the end, five bits at a time. */
  method EncodeNumber(n: int) returns (r: Result<string, EncodeError>)
    ensures r == EncodeNumberSpec(n)
  {
    if n < 0 {
      return Err(NegativeNumber);
    }
    var len: nat;
    if n <= N2Max {
      len := 2;
    } else if n <= N4Max {
      len := 4;
    } else if n <= N7Max {
      len := 7;
    } else if n <= N10Max {
      len := 10;
    } else if n <= N13Max {
      len := 13;
    } else {
      return Err(NumberTooLarge);
    }
    assert len == Length(n);
    var data := new char[len];
    var m := FillTrail(data, n);
    LeadBound(n);
    data[0] := CharOf(m + Prefix(len));
    assert data[..] == [data[0]] + data[1..];
    return Ok(data[..]);
  }

  /** The loop of `_encode_number`: writes the low base-32 digits of `n`
      from the end of the buffer towards index 1 and returns what is left
      of `n` for the lead character. */
  method FillTrail(data: array<char>, n: nat) returns (m: nat)
    requires data.Length >= 1
    modifies data
    ensures m == Shifted(n, data.Length - 1)
    ensures data[1..] == Trail(n, data.Length - 1)
  {
    var len := data.Length;
    m := n;
    var k := 0;
    while k < len - 1
      invariant 0 <= k <= len - 1
      invariant m == Shifted(n, k)
      invariant data[len - k..] == Trail(n, k)
    {
      data[len - 1 - k] := CharOf(m % 32);
      m := m / 32;
      k := k + 1;
    }
  }

  /** `encode`: appends the encoding of each number in turn. */
  method Encode(ns: seq<int>) returns (r: Result<string, EncodeError>)
    ensures r == EncodeSpec(ns)
  {
    var data := "";
    var i := 0;
    assert ns[0..] == ns;
    match EncodeSpec(ns) {
      case Ok(t) => assert "" + t == t;
      case Err(_) =>
    }
    while i < |ns|
      invariant 0 <= i <= |ns|
      invariant EncodeSpec(ns) == PrependText(data, EncodeSpec(ns[i..]))
    {
      assert ns[i..][0] == ns[i] && ns[i..][1..] == ns[i + 1..];
      var e := EncodeNumber(ns[i]);
      if e.Err? {
        return Err(e.error);
      }
      match EncodeSpec(ns[i + 1..]) {
        case Ok(tail) => assert data + (e.value + tail) == data + e.value + tail;
        case Err(_) =>
      }
      data := data + e.value;
      i := i + 1;
    }
    assert ns[i..] == [];
    assert data + "" == data;
    return Ok(data);
  }

  function PrependText(prefix: string, r: Result<string, EncodeError>): Result<string, EncodeError> {
    match r
    case Ok(s) => Ok(prefix + s)
    case Err(e) => Err(e)
  }

  // ---- decoding ------------------------------------------------------------

  /** The value of trailing digits, read from the last character backwards as
      `_decode_number` does, so the last invalid character is the one reported. */
  function DigitsValue(s: string): Result<nat, DecodeError>
  {
    if s == [] then Ok(0)
    else
      match DigitsValue(s[1..])
      case Err(e) => Err(e)
      case Ok(low) =>
        match ValueOfChar(s[0])
        case Err(e) => Err(e)
        case Ok(v) => Ok(v * Pow32(|s| - 1) + low)
  }

  /** Length and high part announced by a lead value (the branches of `decode`). */
  function Header(v: nat): (h: (nat, nat))
    requires v < 32
    ensures h.0 in {2, 4, 7, 10, 13}
  {
    if v / 16 % 2 == 1 then (13, v % 16 * Pow32(12))       // v & N13_PREFIX
    else
      var m := v / 4 % 4 * 4;                               // v & 0b1100
      var len := if m == 12 then 10 else if m == 8 then 7 else if m == 4 then 4 else 2;
      (len, v % 4 * Pow32(len - 1))                         // (v & 0b11) << 5(len-1)
  }

  /** The first number of a non-empty input and the length of its chunk. */
  function DecodeChunk(s: string): (r: Result<(nat, nat), DecodeError>)
    requires s != []
    ensures r.Ok? ==> 2 <= r.value.1 <= |s|
  {
    match ValueOfChar(s[0])
    case Err(e) => Err(e)
    case Ok(v) =>
      var h := Header(v);
      if h.0 > |s| then Err(LengthIncorrect)
      else
        match DigitsValue(s[1..h.0])
        case Err(e) => Err(e)
        case Ok(low) => Ok((h.1 + low, h.0))
  }

  /** The numbers of an ASCII input, one chunk at a time. */
  function DecodeChunks(s: string): Result<seq<nat>, DecodeError>
    decreases |s|
  {
    if s == [] then Ok([])
    else
      match DecodeChunk(s)
      case Err(e) => Err(e)
      case Ok(chunk) => PrependNumbers([chunk.0], DecodeChunks(s[chunk.1..]))
  }

  function PrependNumbers(xs: seq<nat>, r: Result<seq<nat>, DecodeError>): Result<seq<nat>, DecodeError> {
    match r
    case Ok(ys) => Ok(xs + ys)
    case Err(e) => Err(e)
  }

  lemma {:induction false} PrependNothing(r: Result<seq<nat>, DecodeError>)
    ensures PrependNumbers([], r) == r
  {
    if r.Ok? { assert [] + r.value == r.value; }
  }

  lemma {:induction false} PrependAssoc(xs: seq<nat>, ys: seq<nat>, r: Result<seq<nat>, DecodeError>)
    ensures PrependNumbers(xs, PrependNumbers(ys, r)) == PrependNumbers(xs + ys, r)
  {
    if r.Ok? { assert xs + (ys + r.value) == xs + ys + r.value; }
  }

  predicate IsAscii(s: string) {
    forall i :: 0 <= i < |s| ==> s[i] as int < 128
  }

  /** `decode`: a non-ASCII input fails before any chunk is read. */
  function DecodeSpec(s: string): Result<seq<nat>, DecodeError> {
    if !IsAscii(s) then Err(NotAscii) else DecodeChunks(s)
  }

  /** `_decode_number`: adds the digits to `value`, last digit first. */
  method DecodeNumber(value: nat, data: string) returns (r: Result<nat, DecodeError>)
    ensures r == match DigitsValue(data) case Ok(x) => Ok(value + x) case Err(e) => Err(e)
  {
    var acc := value;
    var j := 0;
    while j < |data|
      invariant 0 <= j <= |data|
      invariant DigitsValue(data[|data| - j..]).Ok?
      invariant acc == value + DigitsValue(data[|data| - j..]).value
    {
      var c := data[|data| - 1 - j];
      var v := ValueOfChar(c);
      assert data[|data| - 1 - j..][1..] == data[|data| - j..];
      if v.Err? {
        DigitsValueErrPropagates(data, |data| - 1 - j);
        return Err(v.error);
      }
      acc := acc + v.value * Pow32(j);
      j := j + 1;
    }
    assert data[|data| - j..] == data;
    return Ok(acc);
  }

  /** One pass of the loop of `decode`: the lead character, its header, the
      length check and `_decode_number` on the characters that follow. */
  method DecodeChunkAt(s: string, i: nat) returns (r: Result<(nat, nat), DecodeError>)
    requires i < |s|
    ensures r == DecodeChunk(s[i..])
  {
    ghost var t := s[i..];
    assert t[0] == s[i];
    var v := ValueOfChar(s[i]);
    if v.Err? {
      return Err(v.error);
    }
    var (len, high) := Header(v.value);
    if i + len > |s| {
      return Err(LengthIncorrect);
    }
    assert t[1..len] == s[i + 1..i + len];
    var x := DecodeNumber(high, s[i + 1..i + len]);
    if x.Err? {
      return Err(x.error);
    }
    return Ok((x.value, len));
  }

  /** `decode`. */
  method Decode(s: string) returns (r: Result<seq<nat>, DecodeError>)
    ensures r == DecodeSpec(s)
  {
    if !IsAscii(s) {
      return Err(NotAscii);
    }
    var i := 0;
    var ret: seq<nat> := [];
    assert s[0..] == s;
    PrependNothing(DecodeChunks(s));
    while i < |s|
      invariant 0 <= i <= |s|
      invariant DecodeChunks(s) == PrependNumbers(ret, DecodeChunks(s[i..]))
    {
      var c := DecodeChunkAt(s, i);
      DecodeStep(s, i, ret, c);
      if c.Err? {
        return Err(c.error);
      }
      var (x, len) := c.value;
      ret := ret + [x];
      i := i + len;
    }
    assert s[i..] == [];
    assert ret + [] == ret;
    return Ok(ret);
  }

  // ---- properties ----------------------------------------------------------

  /** One pass of the loop of `decode`: an error decides the result, a
      number joins the ones already read. */
  lemma {:induction false} DecodeStep(s: string, i: nat, ret: seq<nat>, c: Result<(nat, nat), DecodeError>)
    requires i < |s| && c == DecodeChunk(s[i..])
    requires DecodeChunks(s) == PrependNumbers(ret, DecodeChunks(s[i..]))
    ensures c.Err? ==> DecodeChunks(s) == Err(c.error)
    ensures c.Ok? ==> i + c.value.1 <= |s|
    ensures c.Ok? ==> DecodeChunks(s) == PrependNumbers(ret + [c.value.0], DecodeChunks(s[i + c.value.1..]))
  {
    ChunksAt(s, i);
    if c.Ok? {
      PrependAssoc(ret, [c.value.0], DecodeChunks(s[i + c.value.1..]));
    }
  }

  /** One step of `DecodeChunks` at position `i`. */
  lemma {:induction false} ChunksAt(s: string, i: nat)
    requires i < |s|
    ensures DecodeChunks(s[i..]) ==
      match DecodeChunk(s[i..])
      case Err(e) => Err(e)
      case Ok(c) => PrependNumbers([c.0], DecodeChunks(s[i + c.1..]))
  {
    var t := s[i..];
    if DecodeChunk(t).Ok? {
      var c := DecodeChunk(t).value;
      assert t[c.1..] == s[i + c.1..];
    }
  }

  lemma {:induction false} DigitsValueErrPropagates(s: string, k: nat)
    requires k <= |s| && DigitsValue(s[k..]).Err?
    ensures DigitsValue(s) == DigitsValue(s[k..])
    decreases k
  {
    if k > 0 {
      assert s[k - 1..][1..] == s[k..];
      DigitsValueErrPropagates(s, k - 1);
    }
  }

  /** The digits fill only the bits below the high part, so adding them is the
      same as the source's bitwise or. */
  lemma {:induction false} DigitsValueBound(s: string)
    requires DigitsValue(s).Ok?
    ensures DigitsValue(s).value < Pow32(|s|)
  {
    if s != [] {
      DigitsValueBound(s[1..]);
      var low := DigitsValue(s[1..]).value;
      var v := ValueOfChar(s[0]).value;
      var p := Pow32(|s| - 1);
      MulLe(v, 31, p);
      assert DigitsValue(s).value == v * p + low;
      assert Pow32(|s|) == 32 * p;
    }
  }

  lemma {:induction false} ShiftedSplit(n: nat, k: nat)
    ensures Shifted(n, k) * Pow32(k) <= n
    ensures DigitsValue(Trail(n, k)) == Ok(n - Shifted(n, k) * Pow32(k))
  {
    if k > 0 {
      ShiftedSplit(n, k - 1);
      var s := Shifted(n, k - 1);
      var p := Pow32(k - 1);
      var d := s % 32;
      var high := Shifted(n, k) * Pow32(k);
      assert high <= n && d * p + (n - s * p) == n - high by {
        assert Shifted(n, k) == s / 32;
        assert Pow32(k) == 32 * p;
        SplitArith(n, s, p);
      }
      ValueOfCharOf(d);
      DigitsValueCons(CharOf(d), Trail(n, k - 1));
    }
  }

  /** A valid digit in front of valid digits adds its value times the place. */
  lemma {:induction false} DigitsValueCons(c: char, rest: string)
    requires ValueOfChar(c).Ok? && DigitsValue(rest).Ok?
    ensures DigitsValue([c] + rest) == Ok(ValueOfChar(c).value * Pow32(|rest|) + DigitsValue(rest).value)
  {
    var s := [c] + rest;
    assert s[0] == c && s[1..] == rest && |s| - 1 == |rest|;
  }

  /** Taking one more base-32 digit off `s` keeps the split of `n`. */
  lemma {:induction false} SplitArith(n: nat, s: nat, p: nat)
    requires s * p <= n
    ensures (s / 32) * (32 * p) <= n
    ensures (s % 32) * p + (n - s * p) == n - (s / 32) * (32 * p)
  {
    Distrib(s / 32, s % 32, p);
  }

  lemma {:induction false} MulLe(a: nat, b: nat, c: nat)
    requires a <= b
    ensures a * c <= b * c
  {
  }

  lemma {:induction false} Distrib(q: int, d: int, p: int)
    ensures (32 * q + d) * p == q * (32 * p) + d * p
  {
  }

  lemma {:induction false} Pow32Values()
    ensures Pow32(1) == 32 && Pow32(3) == 0x8000 && Pow32(6) == 0x4000_0000
    ensures Pow32(9) == 0x2000_0000_0000 && Pow32(12) == 0x1000_0000_0000_0000
  {
  }

  lemma {:induction false} LeadBound(n: nat)
    requires n <= N13Max
    ensures Shifted(n, Length(n) - 1) + Prefix(Length(n)) < 32
    ensures Length(n) < 13 ==> Shifted(n, Length(n) - 1) < 4
    ensures Length(n) == 13 ==> Shifted(n, Length(n) - 1) < 16
  {
    var len := Length(n);
    var s := Shifted(n, len - 1);
    var p := Pow32(len - 1);
    ShiftedSplit(n, len - 1);
    Pow32Values();
    assert s * p <= n;
    if len == 13 {
      if s >= 16 { MulLe(16, s, p); }
    } else {
      if s >= 4 { MulLe(4, s, p); }
    }
  }

  /** Shape of one encoding: its length follows the thresholds, its lead value
      announces that length, and every character is in the alphabet. */
  lemma {:induction false} EncodedNumberShape(n: nat)
    requires n <= N13Max
    ensures EncodeNumberSpec(n).Ok?
    ensures var e := EncodeNumberSpec(n).value;
      && |e| == Length(n)
      && (forall c :: c in e ==> c in Chars)
      && IsAscii(e)
  {
    var e := EncodeNumberSpec(n).value;
    forall i | 0 <= i < |e| ensures e[i] in Chars && e[i] as int < 128 {
      var v :| v < 32 && e[i] == CharOf(v) by {
        if i == 0 {
          LeadBound(n);
        } else {
          TrailChars(n, Length(n) - 1, i - 1);
        }
      }
      CharOfIsTable(v);
    }
  }

  lemma {:induction false} TrailChars(n: nat, k: nat, i: nat)
    requires i < k
    ensures exists v :: v < 32 && Trail(n, k)[i] == CharOf(v)
  {
    if i == 0 {
      assert Trail(n, k)[0] == CharOf(Shifted(n, k - 1) % 32);
    } else {
      TrailChars(n, k - 1, i - 1);
    }
  }

  /** Each number encodes to exactly 2, 4, 7, 10 or 13 characters, chosen by
      the N2/N4/N7/N10/N13 thresholds; negative and too large numbers fail. */
  lemma {:induction false} EncodedLength(n: int)
    ensures n < 0 ==> EncodeNumberSpec(n) == Err(NegativeNumber)
    ensures n > N13Max ==> EncodeNumberSpec(n) == Err(NumberTooLarge)
    ensures 0 <= n <= N13Max ==>
      && EncodeNumberSpec(n).Ok?
      && |EncodeNumberSpec(n).value| ==
           (if n <= N2Max then 2 else if n <= N4Max then 4 else if n <= N7Max then 7
            else if n <= N10Max then 10 else 13)
  {
    if 0 <= n <= N13Max { EncodedNumberShape(n); }
  }

  /** The lead character of an encoding announces its length and high part. */
  lemma {:induction false} HeaderOfLead(n: nat)
    requires n <= N13Max
    ensures var len := Length(n);
      var e := EncodeNumberSpec(n).value;
      ValueOfChar(e[0]).Ok? &&
      Header(ValueOfChar(e[0]).value) == (len, Shifted(n, len - 1) * Pow32(len - 1))
  {
    var len := Length(n);
    LeadBound(n);
    var s := Shifted(n, len - 1);
    var v := s + Prefix(len);
    ValueOfCharOf(v);
    assert EncodeNumberSpec(n).value[0] == CharOf(v);
    if len == 13 {
      assert v / 16 % 2 == 1 && v % 16 == s;
    } else {
      assert v / 16 % 2 == 0;
      assert v % 4 == s;
      assert v / 4 % 4 * 4 == Prefix(len);
    }
  }

  /** Decoding an encoding followed by anything reads the number back and
      continues with the rest. */
  lemma {:induction false} DecodeEncodedNumber(n: nat, rest: string)
    requires n <= N13Max
    ensures EncodeNumberSpec(n).Ok?
    ensures DecodeChunks(EncodeNumberSpec(n).value + rest) == PrependNumbers([n], DecodeChunks(rest))
  {
    var s := EncodeNumberSpec(n).value + rest;
    DecodeEncodedChunk(n, rest);
    assert s[Length(n)..] == rest;
  }

  /** The first chunk of an encoding followed by anything is the number,
      spanning `Length(n)` characters. */
  lemma {:induction false} DecodeEncodedChunk(n: nat, rest: string)
    requires n <= N13Max
    ensures EncodeNumberSpec(n).Ok? && |EncodeNumberSpec(n).value| == Length(n)
    ensures DecodeChunk(EncodeNumberSpec(n).value + rest) == Ok((n, Length(n)))
  {
    var len := Length(n);
    var e := EncodeNumberSpec(n).value;
    EncodedNumberShape(n);
    HeaderOfLead(n);
    ShiftedSplit(n, len - 1);
    var s := e + rest;
    var high := Shifted(n, len - 1) * Pow32(len - 1);
    assert s[0] == e[0];
    assert s[1..len] == Trail(n, len - 1) by {
      assert e[1..] == Trail(n, len - 1);
      assert s[1..len] == e[1..];
    }
    ChunkFrom(s, len, high, n - high);
  }

  /** `DecodeChunk` on a lead character with header `(len, high)` followed by
      digits worth `low`. */
  lemma {:induction false} ChunkFrom(s: string, len: nat, high: nat, low: nat)
    requires 1 <= len <= |s| && ValueOfChar(s[0]).Ok?
    requires Header(ValueOfChar(s[0]).value) == (len, high)
    requires DigitsValue(s[1..len]) == Ok(low)
    ensures DecodeChunk(s) == Ok((high + low, len))
  {
  }

  /** `decode(encode(*ns)) == ns` for every tuple of numbers in [0, 2^64 - 1]. */
  lemma {:induction false} RoundTrip(ns: seq<int>)
    requires forall i :: 0 <= i < |ns| ==> 0 <= ns[i] <= N13Max
    ensures EncodeSpec(ns).Ok?
    ensures IsAscii(EncodeSpec(ns).value)
    ensures DecodeSpec(EncodeSpec(ns).value) == Ok(ns)
  {
    if ns != [] {
      RoundTrip(ns[1..]);
      var n: nat := ns[0];
      EncodedNumberShape(n);
      var head := EncodeNumberSpec(n).value;
      var tail := EncodeSpec(ns[1..]).value;
      EncodeSpecJoin(ns);
      DecodeEncodedNumber(n, tail);
      AsciiConcat(head, tail);
      assert [n] + ns[1..] == ns;
    }
  }

  lemma {:induction false} AsciiConcat(a: string, b: string)
    requires IsAscii(a) && IsAscii(b)
    ensures IsAscii(a + b)
  {
    forall i | 0 <= i < |a + b| ensures (a + b)[i] as int < 128 {
      if i >= |a| { assert (a + b)[i] == b[i - |a|]; }
    }
  }

  /** Encoding is the concatenation of the single encodings. */
  lemma {:induction false} EncodeConcat(xs: seq<int>, ys: seq<int>)
    requires EncodeSpec(xs).Ok? && EncodeSpec(ys).Ok?
    ensures EncodeSpec(xs + ys) == Ok(EncodeSpec(xs).value + EncodeSpec(ys).value)
  {
    if xs == [] {
      assert xs + ys == ys;
      assert "" + EncodeSpec(ys).value == EncodeSpec(ys).value;
    } else {
      var zs := xs + ys;
      EncodeSpecSplit(xs);
      EncodeConcat(xs[1..], ys);
      assert zs[0] == xs[0] && zs[1..] == xs[1..] + ys;
      EncodeSpecJoin(zs);
      var head := EncodeNumberSpec(xs[0]).value;
      var tx := EncodeSpec(xs[1..]).value;
      var ty := EncodeSpec(ys).value;
      Text.ConcatAssoc(head, tx, ty);
    }
  }

  lemma {:induction false} EncodeSpecSplit(xs: seq<int>)
    requires xs != [] && EncodeSpec(xs).Ok?
    ensures EncodeNumberSpec(xs[0]).Ok? && EncodeSpec(xs[1..]).Ok?
    ensures EncodeSpec(xs).value == EncodeNumberSpec(xs[0]).value + EncodeSpec(xs[1..]).value
  {
  }

  lemma {:induction false} EncodeSpecJoin(xs: seq<int>)
    requires xs != [] && EncodeNumberSpec(xs[0]).Ok? && EncodeSpec(xs[1..]).Ok?
    ensures EncodeSpec(xs) == Ok(EncodeNumberSpec(xs[0]).value + EncodeSpec(xs[1..]).value)
  {
  }

  /** Input that ends inside a number fails with "data length incorrect". */
  lemma {:induction false} Truncated(ns: seq<int>, n: nat, j: nat)
    requires forall i :: 0 <= i < |ns| ==> 0 <= ns[i] <= N13Max
    requires n <= N13Max && 0 < j < Length(n)
    ensures EncodeSpec(ns).Ok?
    ensures DecodeChunks(EncodeSpec(ns).value + EncodeNumberSpec(n).value[..j]) == Err(LengthIncorrect)
  {
    TruncatedChunk(n, j);
    DecodePrefixed(ns, EncodeNumberSpec(n).value[..j]);
  }

  lemma {:induction false} TruncatedChunk(n: nat, j: nat)
    requires n <= N13Max && 0 < j < Length(n)
    ensures EncodeNumberSpec(n).Ok? && j < |EncodeNumberSpec(n).value|
    ensures DecodeChunks(EncodeNumberSpec(n).value[..j]) == Err(LengthIncorrect)
  {
    EncodedNumberShape(n);
    HeaderOfLead(n);
    var cut := EncodeNumberSpec(n).value[..j];
    assert cut[0] == EncodeNumberSpec(n).value[0];
    assert DecodeChunk(cut) == Err(LengthIncorrect);
  }

  lemma {:induction false} DecodePrefixed(ns: seq<int>, rest: string)
    requires forall i :: 0 <= i < |ns| ==> 0 <= ns[i] <= N13Max
    ensures EncodeSpec(ns).Ok?
    ensures DecodeChunks(EncodeSpec(ns).value + rest) == PrependNumbers(ns, DecodeChunks(rest))
  {
    if ns != [] {
      DecodePrefixed(ns[1..], rest);
      var n: nat := ns[0];
      var tail := EncodeSpec(ns[1..]).value;
      DecodeEncodedNumber(n, tail + rest);
      EncodeSpecJoin(ns);
      DecodeCons(n, EncodeNumberSpec(n).value, tail, rest, ns[1..]);
      assert [n] + ns[1..] == ns;
    } else {
      assert EncodeSpec(ns).value + rest == rest;
      PrependNothing(DecodeChunks(rest));
    }
  }

  lemma {:induction false} DecodeCons(n: nat, head: string, tail: string, rest: string, ms: seq<nat>)
    requires DecodeChunks(head + (tail + rest)) == PrependNumbers([n], DecodeChunks(tail + rest))
    requires DecodeChunks(tail + rest) == PrependNumbers(ms, DecodeChunks(rest))
    ensures DecodeChunks(head + tail + rest) == PrependNumbers([n] + ms, DecodeChunks(rest))
  {
    assert head + tail + rest == head + (tail + rest);
    PrependAssoc([n], ms, DecodeChunks(rest));
  }

  lemma {:induction false} DigitsValueErrOnInvalid(s: string, i: nat)
    requires i < |s| && s[i] !in Chars
    ensures DigitsValue(s).Err?
    decreases i
  {
    if i == 0 {
      ValueOfCharInChars(s[0]);
    } else {
      DigitsValueErrOnInvalid(s[1..], i - 1);
    }
  }

  /** A character outside the alphabet anywhere in the input makes decoding fail. */
  lemma {:induction false} InvalidCharFails(s: string, i: nat)
    requires i < |s| && s[i] !in Chars
    ensures DecodeSpec(s).Err?
    decreases |s|
  {
    if IsAscii(s) {
      DecodeChunksErrOnInvalid(s, i);
    }
  }

  lemma {:induction false} DecodeChunksErrOnInvalid(s: string, i: nat)
    requires i < |s| && s[i] !in Chars
    ensures DecodeChunks(s).Err?
    decreases |s|
  {
    ValueOfCharInChars(s[0]);
    if ValueOfChar(s[0]).Ok? {
      var (len, high) := Header(ValueOfChar(s[0]).value);
      if len <= |s| {
        if i < len {
          assert i != 0;
          DigitsValueErrOnInvalid(s[1..len], i - 1);
        } else if DigitsValue(s[1..len]).Ok? {
          DecodeChunksErrOnInvalid(s[len..], i - len);
        }
      }
    }
  }
}
