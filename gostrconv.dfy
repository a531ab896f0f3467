/** The Go number conversions the decoders rely on: `strconv.ParseUint(s, 10, 64)`,
    `strconv.ParseInt(s, 10, bits)` (and `strconv.Atoi`), `%d` / `%02d`
    formatting, and a decimal stand-in for `strconv.ParseFloat(s, 64)`.
    Integers are unbounded here, so the Go widths are explicit range checks. */
module GoStrconv {
  import opened Wrappers
  import GoStrings

  const MaxUint64: int := 0xFFFF_FFFF_FFFF_FFFF
  const MaxInt64: int := 0x7FFF_FFFF_FFFF_FFFF
  const MinInt64: int := -0x8000_0000_0000_0000
  const MaxInt32: int := 0x7FFF_FFFF
  const MinInt32: int := -0x8000_0000

  /** Go's `uint64`. */
  type U64 = n: int | 0 <= n <= MaxUint64

  /** `x * 1000` on `uint64`, which wraps around silently in Go. */
  function Times1000(x: U64): (r: U64)
    ensures x <= MaxUint64 / 1000 ==> r == x * 1000
    ensures (x * 1000 - r) % (MaxUint64 + 1) == 0
  {
    (x * 1000) % (MaxUint64 + 1)
  }

  predicate IsDigit(c: char) {
    '0' <= c <= '9'
  }

  predicate AllDigits(s: string) {
    forall k :: 0 <= k < |s| ==> IsDigit(s[k])
  }

  function DigitValue(c: char): nat
    requires IsDigit(c)
  {
    (c as int) - ('0' as int)
  }

  function DigitChar(d: nat): (c: char)
    requires d < 10
    ensures IsDigit(c) && DigitValue(c) == d
  {
    ('0' as int + d) as char
  }

  /** The value of a string of decimal digits ("" counts as 0). */
  function DigitsValue(s: string): nat
    requires AllDigits(s)
  {
    if |s| == 0 then 0 else DigitsValue(s[..|s| - 1]) * 10 + DigitValue(s[|s| - 1])
  }

  /** `strconv.ParseUint(s, 10, 64)`: one or more decimal digits (no sign, no
      underscore) whose value fits in 64 bits. */
  function ParseUint(s: string): (r: Option<U64>)
    ensures r.Some? <==> |s| > 0 && AllDigits(s) && DigitsValue(s) <= MaxUint64
    ensures r.Some? ==> r.value == DigitsValue(s)
  {
    if |s| > 0 && AllDigits(s) && DigitsValue(s) <= MaxUint64 then Some(DigitsValue(s)) else None
  }

  /** `strconv.ParseInt(s, 10, bits)`: an optional `+` or `-`, then what
      `ParseUint` accepts, in the signed range of `bits` bits. */
  function ParseInt(s: string, bits: nat): (r: Option<int>)
    requires bits == 32 || bits == 64
    ensures r.Some? ==> -HalfRange(bits) <= r.value < HalfRange(bits)
  {
    if |s| == 0 then None
    else
      var neg := s[0] == '-';
      var digits := if s[0] == '+' || s[0] == '-' then s[1..] else s;
      var u := ParseUint(digits);
      if u.None? then None
      else if !neg && u.value >= HalfRange(bits) then None
      else if neg && u.value > HalfRange(bits) then None
      else Some(if neg then -(u.value as int) else u.value)
  }

  /** `strconv.Atoi` on a 64-bit platform. */
  function Atoi(s: string): Option<int>
  {
    ParseInt(s, 64)
  }

  /** 2^(bits - 1), the bound of the signed range of `bits` bits. */
  function HalfRange(bits: nat): int
    requires bits == 32 || bits == 64
  {
    if bits == 32 then MaxInt32 + 1 else MaxInt64 + 1
  }

  function Pow10(n: nat): (r: nat)
    ensures r >= 1
  {
    if n == 0 then 1 else 10 * Pow10(n - 1)
  }

  /** The decimal digits of `n`, as `%d` prints a non-negative integer. */
  function Itoa(n: nat): (s: string)
    ensures |s| >= 1 && AllDigits(s) && DigitsValue(s) == n
    ensures s[0] != '0' || n == 0
  {
    if n < 10 then [DigitChar(n)]
    else
      var init := Itoa(n / 10);
      var s := init + [DigitChar(n % 10)];
      assert s[..|s| - 1] == init;
      s
  }

  /** `%d` of any integer. */
  function FormatInt(i: int): string
  {
    if i < 0 then "-" + Itoa(-i) else Itoa(i)
  }

  /** `%02d`: zero-padded to at least two characters. */
  function Format02(i: int): (s: string)
    ensures 0 <= i < 100 ==> |s| == 2 && AllDigits(s) && DigitsValue(s) == i
  {
    if 0 <= i < 10 then
      var s := "0" + Itoa(i);
      assert s[..1] == "0";
      s
    else
      assert 10 <= i < 100 ==> Itoa(i) == Itoa(i / 10) + [DigitChar(i % 10)];
      FormatInt(i)
  }

  /** `n` with a comma between each group of three digits, as the exchanges
      print volumes ("1,062,607"). */
  function FormatThousands(n: nat): string
  {
    if n < 1000 then Itoa(n) else FormatThousands(n / 1000) + "," + Pad3(n % 1000)
  }

  /** Three decimal digits with leading zeros. */
  function Pad3(n: nat): (s: string)
    requires n < 1000
  {
    [DigitChar(n / 100), DigitChar((n / 10) % 10), DigitChar(n % 10)]
  }

  // ---------------------------------------------------------------------
  // Floating point stand-in

  /** A decimal number `units / 10^scale`, the stand-in for `float64`. */
  datatype Decimal = Decimal(units: int, scale: nat)

  const Zero := Decimal(0, 0)

  /** `strconv.ParseFloat(s, 64)` restricted to plain decimal notation: an
      optional sign, then digits with at most one decimal point and at least
      one digit. */
  function ParseDecimal(s: string): (r: Option<Decimal>)
    ensures r.Some? ==> |s| > 0
  {
    if |s| == 0 then None
    else if s[0] == '+' then UnsignedDecimal(s[1..], false)
    else if s[0] == '-' then UnsignedDecimal(s[1..], true)
    else UnsignedDecimal(s, false)
  }

  /** Digits with at most one decimal point and at least one digit. */
  function UnsignedDecimal(body: string, negative: bool): Option<Decimal>
  {
    var parts := GoStrings.SplitFirst(body, '.');
    var whole := parts[0];
    var frac := if |parts| == 2 then parts[1] else "";
    if !AllDigits(whole) || !AllDigits(frac) || |whole| + |frac| == 0 then None
    else
      var u := DigitsValue(whole + frac);
      Some(Decimal(if negative then -(u as int) else u, |frac|))
  }

  // ---------------------------------------------------------------------
  // Properties

  lemma {:induction false} DigitsValueAppend(a: string, b: string)
    requires AllDigits(a) && AllDigits(b)
    ensures AllDigits(a + b)
    ensures DigitsValue(a + b) == DigitsValue(a) * Pow10(|b|) + DigitsValue(b)
  {
    if |b| == 0 {
      assert a + b == a;
    } else {
      var b' := b[..|b| - 1];
      var last := DigitValue(b[|b| - 1]);
      assert (a + b)[..|a + b| - 1] == a + b';
      assert (a + b)[|a + b| - 1] == b[|b| - 1];
      DigitsValueAppend(a, b');
      assert DigitsValue(a + b) == DigitsValue(a + b') * 10 + last;
      assert DigitsValue(b) == DigitsValue(b') * 10 + last;
      assert Pow10(|b|) == 10 * Pow10(|b'|);
      ShiftDigit(DigitsValue(a), Pow10(|b'|), DigitsValue(b'), last);
    }
  }

  lemma ShiftDigit(x: nat, p: nat, y: nat, d: nat)
    ensures (x * p + y) * 10 + d == x * (10 * p) + (y * 10 + d)
  {
  }

  /** `ParseUint` reads back what `%d` prints. */
  lemma {:induction false} ParseUintItoa(n: nat)
    requires n <= MaxUint64
    ensures ParseUint(Itoa(n)) == Some(n)
  {
  }

  /** `ParseInt` reads back what `%d` prints, for every value in range. */
  lemma {:induction false} ParseIntFormatInt(i: int, bits: nat)
    requires bits == 32 || bits == 64
    requires -HalfRange(bits) <= i < HalfRange(bits)
    ensures ParseInt(FormatInt(i), bits) == Some(i)
  {
    var s := FormatInt(i);
    if i < 0 {
      assert s[1..] == Itoa(-i);
    } else {
      assert IsDigit(s[0]);
    }
  }

  /** For a number of four or more digits, the decimal digits split into the
      thousands and the last three digits. */
  lemma {:induction false} ItoaThousands(n: nat)
    requires n >= 1000
    ensures Itoa(n) == Itoa(n / 1000) + Pad3(n % 1000)
  {
    var q, r := n / 1000, n % 1000;
    var n1, n2 := n / 10, n / 100;
    DivisionFacts(n);
    assert Itoa(n) == Itoa(n1) + [DigitChar(n % 10)];
    assert Itoa(n1) == Itoa(n2) + [DigitChar(n1 % 10)];
    assert Itoa(n2) == Itoa(q) + [DigitChar(n2 % 10)];
  }

  lemma {:induction false} DivisionFacts(n: nat)
    requires n >= 1000
    ensures (n / 10) / 10 == n / 100 && (n / 100) / 10 == n / 1000
    ensures n / 10 >= 100 && n / 100 >= 10
    ensures n % 10 == (n % 1000) % 10
    ensures (n / 10) % 10 == ((n % 1000) / 10) % 10
    ensures (n / 100) % 10 == (n % 1000) / 100
  {
  }

  /** Deleting the commas of a thousands-separated number leaves its digits. */
  lemma {:induction false} RemoveCommasOfThousands(n: nat)
    ensures GoStrings.RemoveAll(FormatThousands(n), ',') == Itoa(n)
  {
    if n >= 1000 {
      RemoveCommasOfThousands(n / 1000);
      var head := FormatThousands(n / 1000);
      GoStrings.RemoveAllAppend(head + ",", Pad3(n % 1000), ',');
      GoStrings.RemoveAllAppend(head, ",", ',');
      assert GoStrings.RemoveAll(",", ',') == "";
      ItoaThousands(n);
    }
  }

  /** Commas removed, a thousands-separated number parses back to itself:
      "1,062,607" reads as 1062607. */
  lemma {:induction false} ParseUintOfThousands(n: nat)
    requires n <= MaxUint64
    ensures ParseUint(GoStrings.RemoveAll(FormatThousands(n), ',')) == Some(n)
  {
    RemoveCommasOfThousands(n);
  }

  /** ParseDecimal of `whole.frac` gives the digits of both as units and the
      length of `frac` as scale. */
  lemma {:induction false} ParseDecimalPoint(whole: string, frac: string)
    requires AllDigits(whole) && AllDigits(frac) && |whole| > 0
    ensures ParseDecimal(whole + "." + frac)
         == Some(Decimal(DigitsValue(whole) * Pow10(|frac|) + DigitsValue(frac), |frac|))
  {
    UnsignedAtPoint(whole, frac);
    DigitsValueAppend(whole, frac);
  }

  lemma {:induction false} UnsignedAtPoint(whole: string, frac: string)
    requires AllDigits(whole) && AllDigits(frac) && |whole| > 0
    ensures AllDigits(whole + frac)
    ensures ParseDecimal(whole + "." + frac) == Some(Decimal(DigitsValue(whole + frac), |frac|))
  {
    var s := whole + "." + frac;
    assert s[0] == whole[0] && IsDigit(whole[0]);
    assert ParseDecimal(s) == UnsignedDecimal(s, false);
    SplitAtPoint(whole, frac);
    DigitsValueAppend(whole, frac);
  }

  lemma {:induction false} SplitAtPoint(whole: string, frac: string)
    requires AllDigits(whole)
    ensures GoStrings.SplitFirst(whole + "." + frac, '.') == [whole, frac]
  {
    var s := whole + "." + frac;
    assert '.' !in whole by {
      forall k | 0 <= k < |whole| ensures whole[k] != '.' { assert IsDigit(whole[k]); }
    }
    assert s == whole + ['.'] + frac;
    GoStrings.FirstIndexAfter(whole, '.', frac);
    assert s[..|whole|] == whole;
    assert s[|whole| + 1..] == frac;
  }

  /** Commas removed, a thousands-separated price parses to its value:
      "1,234.50" reads as 123450 / 10^2. */
  lemma {:induction false} ParseDecimalOfThousands(n: nat, frac: string)
    requires AllDigits(frac)
    ensures ParseDecimal(GoStrings.RemoveAll(FormatThousands(n) + "." + frac, ','))
         == Some(Decimal(n * Pow10(|frac|) + DigitsValue(frac), |frac|))
  {
    RemoveCommasOfPrice(n, frac);
    ParseDecimalOfItoa(n, frac);
  }

  lemma {:induction false} ParseDecimalOfItoa(n: nat, frac: string)
    requires AllDigits(frac)
    ensures ParseDecimal(Itoa(n) + "." + frac) == Some(Decimal(n * Pow10(|frac|) + DigitsValue(frac), |frac|))
  {
    ParseDecimalPoint(Itoa(n), frac);
  }

  lemma {:induction false} RemoveCommasOfPrice(n: nat, frac: string)
    requires AllDigits(frac)
    ensures GoStrings.RemoveAll(FormatThousands(n) + "." + frac, ',') == Itoa(n) + "." + frac
  {
    var head := FormatThousands(n);
    RemoveCommasOfThousands(n);
    GoStrings.RemoveAllAppend(head + ".", frac, ',');
    GoStrings.RemoveAllAppend(head, ".", ',');
    assert GoStrings.RemoveAll(".", ',') == ".";
    assert ',' !in frac by {
      forall k | 0 <= k < |frac| ensures frac[k] != ',' { assert IsDigit(frac[k]); }
    }
  }

  /** The two "no trading" placeholders are not numbers, so mapping them to
      zero never hides a parseable value. */
  lemma {:induction false} DashesAreNotDecimals()
    ensures ParseDecimal("--").None? && ParseDecimal("---").None?
  {
    assert !IsDigit('-');
    assert "--"[1..] == "-";
    assert GoStrings.SplitFirst("-", '.') == ["-"];
    assert "---"[1..] == "--";
    assert GoStrings.SplitFirst("--", '.') == ["--"];
  }
}
