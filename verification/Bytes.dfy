/** Bytes, C strings and the decimal numbers that sprintf prints and strtol reads. */
module Bytes {
  import Chunks

  type Byte = b: int | 0 <= b < 256

  const ZERO: Byte := 48

  /** The bytes of a text in the source's own writing. */
  function Ascii(text: string): (s: seq<Byte>)
    requires forall k :: 0 <= k < |text| ==> text[k] as int < 128
    ensures |s| == |text| && forall k :: 0 <= k < |s| ==> s[k] == text[k] as int
  {
    seq(|text|, k requires 0 <= k < |text| => text[k] as int)
  }

  const LONG_MAX: nat := 0x7FFF_FFFF_FFFF_FFFF
  const ULLONG_MAX: nat := 0xFFFF_FFFF_FFFF_FFFF

  datatype Option<+T> = None | Some(value: T)

  predicate IsDigit(b: Byte) {
    ZERO <= b < ZERO + 10
  }

  predicate AllDigits(s: seq<Byte>) {
    forall k :: 0 <= k < |s| ==> IsDigit(s[k])
  }

  /** What `sprintf("%lu", n)` writes, without the terminating NUL. */
  function Digits(n: nat): (s: seq<Byte>)
    ensures |s| > 0 && AllDigits(s)
  {
    if n < 10 then [ZERO + n] else Digits(n / 10) + [ZERO + n % 10]
  }

  function DecValue(s: seq<Byte>): nat
    requires AllDigits(s)
  {
    if s == [] then 0 else DecValue(s[..|s| - 1]) * 10 + (s[|s| - 1] - ZERO)
  }

  lemma {:induction false} DigitsRoundTrip(n: nat)
    ensures DecValue(Digits(n)) == n
  {
    if n >= 10 {
      DigitsRoundTrip(n / 10);
      assert Digits(n)[..|Digits(n)| - 1] == Digits(n / 10);
    } else {
      assert Digits(n)[..0] == [];
    }
  }

  function Pow10(k: nat): (p: nat)
    ensures p > 0
  {
    if k == 0 then 1 else 10 * Pow10(k - 1)
  }

  /** How many digits a number prints as, in both directions. */
  lemma {:induction false} DigitsLength(n: nat, k: nat)
    requires k > 0
    ensures |Digits(n)| <= k <==> n < Pow10(k)
  {
    if k == 1 {
      assert Pow10(1) == 10 * Pow10(0) == 10;
      if n >= 10 { assert |Digits(n / 10)| > 0; }
    } else if n < 10 {
      assert Pow10(k) == 10 * Pow10(k - 1);
    } else {
      DigitsLength(n / 10, k - 1);
      assert Pow10(k) == 10 * Pow10(k - 1);
    }
  }

  /** The source's _strnlen; a scan that meets the end of the buffer stops there. */
  function StrnLen(s: seq<Byte>, max: nat): (n: nat)
    ensures n <= max && n <= |s|
    ensures forall k :: 0 <= k < n ==> s[k] != 0
    ensures n < max && n < |s| ==> s[n] == 0
  {
    if max == 0 || s == [] || s[0] == 0 then 0 else 1 + StrnLen(s[1..], max - 1)
  }

  /** The digits strtol and strtoull stop after. */
  function LeadingDigits(s: seq<Byte>): (n: nat)
    ensures n <= |s| && AllDigits(s[..n])
    ensures n < |s| ==> !IsDigit(s[n])
  {
    if s == [] || !IsDigit(s[0]) then 0 else
    var n := 1 + LeadingDigits(s[1..]);
    assert s[..n] == [s[0]] + s[1..][..n - 1];
    n
  }

  /** strtol and strtoull on an unsigned decimal: they saturate at the type's maximum. */
  function ParseDecimal(s: seq<Byte>, limit: nat): (v: nat)
    ensures v <= limit
  {
    var v := DecValue(s[..LeadingDigits(s)]);
    if v > limit then limit else v
  }

  /** A number field of a header: its value, its length, and what follows its NUL. */
  datatype Field = Field(value: nat, raw: nat, rest: seq<Byte>)

  /** One field; None when no byte is left for the NUL after it. */
  function TakeField(s: seq<Byte>, max: nat, limit: nat): Option<Field> {
    var raw := StrnLen(s, max);
    if raw + 1 > |s| then None else Some(Field(ParseDecimal(s, limit), raw, s[raw + 1..]))
  }

  /** A decimal number, its NUL, and the bytes after them. */
  function PutField(n: nat, rest: seq<Byte>): (s: seq<Byte>)
    ensures |s| == |Digits(n)| + 1 + |rest|
  {
    Digits(n) + [0] + rest
  }

  lemma PutFieldAppend(n: nat, a: seq<Byte>, b: seq<Byte>)
    ensures PutField(n, a) + b == PutField(n, a + b)
  {
    assert Digits(n) + [0] + a + b == Digits(n) + [0] + (a + b);
  }

  lemma AfterPrefix(prefix: seq<Byte>, body: seq<Byte>, rest: seq<Byte>)
    ensures (prefix + body + rest)[|prefix|..] == body + rest
    ensures (prefix + body + rest)[..|prefix|] == prefix
    ensures (prefix + rest)[|prefix|..] == rest && (prefix + rest)[..|prefix|] == prefix
  {
  }

  /** A number field that a NUL ends is measured and read back whatever follows it. */
  lemma {:induction false} FieldRoundTrip(n: nat, rest: seq<Byte>, max: nat, limit: nat)
    requires |Digits(n)| <= max && n <= limit
    ensures TakeField(PutField(n, rest), max, limit) == Some(Field(n, |Digits(n)|, rest))
  {
    var d := Digits(n);
    var s := d + [0] + rest;
    assert forall k :: 0 <= k < |d| ==> s[k] == d[k];
    assert s[|d|] == 0;
    var len, lead := StrnLen(s, max), LeadingDigits(s);
    assert len == |d|;
    assert forall k :: 0 <= k < lead ==> IsDigit(s[..lead][k]) && s[..lead][k] == s[k];
    assert lead == |d|;
    assert s[..lead] == d && s[|d| + 1..] == rest;
    DigitsRoundTrip(n);
  }

  /** A field whose NUL lies within the first bytes is the same without the bytes behind them. */
  lemma {:induction false} FieldWithoutStale(bytes: seq<Byte>, stale: seq<Byte>, max: nat, limit: nat)
    requires TakeField(bytes + stale, max, limit).Some?
    requires TakeField(bytes + stale, max, limit).value.raw < |bytes|
    requires TakeField(bytes + stale, max, limit).value.raw < max
    ensures var f := TakeField(bytes + stale, max, limit).value;
            f.rest == bytes[f.raw + 1..] + stale
            && TakeField(bytes, max, limit) == Some(Field(f.value, f.raw, bytes[f.raw + 1..]))
  {
    var s := bytes + stale;
    var raw := StrnLen(s, max);
    assert s[raw] == bytes[raw] == 0;
    assert forall k :: 0 <= k < raw ==> s[k] != 0;
    assert forall k :: 0 <= k < |bytes| ==> s[k] == bytes[k];
    assert StrnLen(bytes, max) == raw;
    var a, b := LeadingDigits(s), LeadingDigits(bytes);
    assert forall k :: 0 <= k < a ==> s[k] == s[..a][k];
    assert forall k :: 0 <= k < b ==> bytes[k] == bytes[..b][k];
    assert a == b;
    assert s[..a] == bytes[..b];
    assert s[raw + 1..] == bytes[raw + 1..] + stale;
  }

  // ---------------------------------------------------------------- the decimals as sprintf and strtol know them

  /** Dividing by ten and then by a power is dividing by the next power. */
  lemma DivByTen(n: nat, p: nat)
    requires p > 0
    ensures n / 10 / p == n / (10 * p)
  {
    var q, r := n / 10 / p, n / 10 % p;
    assert n / 10 == q * p + r;
    assert n == 10 * (n / 10) + n % 10;
    assert n == q * (10 * p) + (10 * r + n % 10);
    Chunks.DivUnique(10 * p, n, q, 10 * r + n % 10);
  }

  /** Counted from the right, the k-th byte printed is the character of the k-th decimal digit, and no '0' leads. */
  lemma {:induction false} DigitsPrinted(n: nat, k: nat)
    requires k < |Digits(n)|
    ensures Digits(n)[|Digits(n)| - 1 - k] == '0' as int + n / Pow10(k) % 10
    ensures n > 0 ==> Digits(n)[0] != '0' as int
  {
    if n >= 10 {
      if k > 0 {
        DigitsPrinted(n / 10, k - 1);
        DivByTen(n, Pow10(k - 1));
        assert Digits(n)[|Digits(n)| - 1 - k] == Digits(n / 10)[|Digits(n / 10)| - 1 - (k - 1)];
      } else {
        DigitsPrinted(n / 10, 0);
      }
    }
  }

  /** What the decimal characters from position `i` on are worth. */
  function Worth(s: seq<Byte>, i: nat): int
    requires i <= |s|
    decreases |s| - i
  {
    if i == |s| then 0 else (s[i] - '0' as int) * Pow10(|s| - 1 - i) + Worth(s, i + 1)
  }

  lemma {:induction false} WorthNext(s: seq<Byte>, d: Byte, i: nat)
    requires i <= |s|
    ensures Worth(s + [d], i) == 10 * Worth(s, i) + (d - '0' as int)
    decreases |s| - i
  {
    if i < |s| {
      WorthNext(s, d, i + 1);
      assert Pow10(|s| - i) == 10 * Pow10(|s| - 1 - i);
      var v, p := s[i] - '0' as int, Pow10(|s| - 1 - i);
      assert v * (10 * p) == 10 * (v * p);
    } else {
      assert Worth(s + [d], i) == (d - '0' as int) * Pow10(0) + Worth(s + [d], i + 1);
    }
  }

  lemma {:induction false} ValueIsWorth(s: seq<Byte>)
    requires AllDigits(s)
    ensures DecValue(s) == Worth(s, 0)
    decreases |s|
  {
    if s != [] {
      var front, d := s[..|s| - 1], s[|s| - 1];
      ValueIsWorth(front);
      assert front + [d] == s;
      WorthNext(front, d, 0);
    }
  }

  /** strtol and strtoull read the longest run of the characters '0' to '9' as a decimal, up to the type's maximum. */
  lemma {:induction false} DecimalRead(s: seq<Byte>, limit: nat, n: nat)
    requires n <= |s| && forall k :: 0 <= k < n ==> '0' as int <= s[k] <= '9' as int
    requires n < |s| ==> !('0' as int <= s[n] <= '9' as int)
    ensures ParseDecimal(s, limit) == if Worth(s[..n], 0) > limit then limit else Worth(s[..n], 0)
  {
    var lead := LeadingDigits(s);
    assert forall k :: 0 <= k < lead ==> s[k] == s[..lead][k];
    assert n == lead;
    ValueIsWorth(s[..n]);
  }
}
