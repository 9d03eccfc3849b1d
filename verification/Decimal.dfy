/** Bounded strings: printing and parsing decimal integers with exact ranges (rte_string.c). */
module Decimal {
  import opened Words

  const I64_MAX: int := 0x7FFF_FFFF_FFFF_FFFF
  const I32_MAX: int := 0x7FFF_FFFF
  const U64_DIGITS: nat := 20

  type i64 = x: int | -I64_MAX - 1 <= x <= I64_MAX
  type i32 = x: int | -I32_MAX - 1 <= x <= I32_MAX

  // ---- decimal notation -------------------------------------------------------------------------------------------

  predicate IsDigit(c: char) {
    '0' <= c <= '9'
  }

  predicate AllDigits(s: string) {
    forall c <- s :: IsDigit(c)
  }

  function DigitValue(c: char): nat
    requires IsDigit(c)
  {
    c as int - '0' as int
  }

  function DigitChar(d: nat): (c: char)
    requires d < 10
    ensures IsDigit(c) && DigitValue(c) == d
  {
    ('0' as int + d) as char
  }

  /** The number a string of digits denotes. */
  function Value(s: string): nat
    requires AllDigits(s)
  {
    if s == [] then 0 else Value(s[..|s| - 1]) * 10 + DigitValue(s[|s| - 1])
  }

  /** The notation without leading zeros. */
  function Digits(n: nat): (s: string)
    ensures s != [] && AllDigits(s)
  {
    if n < 10 then [DigitChar(n)] else Digits(n / 10) + [DigitChar(n % 10)]
  }

  function SignedText(n: int): string {
    if n < 0 then "-" + Digits(-n) else Digits(n)
  }

  lemma ValueSnoc(s: string, c: char)
    requires AllDigits(s) && IsDigit(c)
    ensures AllDigits(s + [c]) && Value(s + [c]) == Value(s) * 10 + DigitValue(c)
  {
    assert (s + [c])[..|s|] == s;
  }

  /** Printing and reading back is the identity. */
  lemma {:induction false} DigitsValue(n: nat)
    ensures Value(Digits(n)) == n
  {
    if n < 10 {
      ValueSnoc([], DigitChar(n));
      assert [] + [DigitChar(n)] == [DigitChar(n)];
    } else {
      DigitsValue(n / 10);
      ValueSnoc(Digits(n / 10), DigitChar(n % 10));
    }
  }

  lemma DigitCharValue(c: char)
    requires IsDigit(c)
    ensures DigitChar(DigitValue(c)) == c
  {}

  lemma {:induction false} NoLeadingZero(n: nat)
    ensures n > 0 ==> Digits(n)[0] != '0'
  {
    if n >= 10 {
      NoLeadingZero(n / 10);
    }
  }

  lemma LastDigit(v: nat, d: nat)
    requires d < 10
    ensures (v * 10 + d) / 10 == v && (v * 10 + d) % 10 == d
  {}

  /** Reading and printing back is, exactly for strings without leading zeros. */
  lemma {:induction false} CanonicalText(s: string)
    requires s != [] && AllDigits(s)
    ensures Digits(Value(s)) == s <==> s[0] != '0' || |s| == 1
    ensures s[0] != '0' ==> Value(s) > 0
    decreases |s|
  {
    var init, last := s[..|s| - 1], s[|s| - 1];
    DigitCharValue(last);
    NoLeadingZero(Value(s));
    if init == [] {
      assert s == [last];
    } else {
      CanonicalText(init);
      LastDigit(Value(init), DigitValue(last));
      assert s == init + [last];
    }
  }

  lemma {:induction false} ValueGrows(s: string, k: nat)
    requires AllDigits(s) && k <= |s|
    ensures Value(s[..k]) <= Value(s)
  {
    if k < |s| {
      ValueGrows(s[..|s| - 1], k);
      assert s[..|s| - 1][..k] == s[..k];
    } else {
      assert s[..k] == s;
    }
  }

  /** The longest prefix of digits. */
  function LeadingDigits(s: string): (k: nat)
    ensures k <= |s| && AllDigits(s[..k]) && (k < |s| ==> !IsDigit(s[k]))
  {
    if s == [] || !IsDigit(s[0]) then 0
    else
      var k := 1 + LeadingDigits(s[1..]);
      assert s[..k] == [s[0]] + s[1..][..k - 1];
      k
  }

  // ---- parsing ----------------------------------------------------------------------------------------------------

  /** The error a text deserves, by its first offending position: a number already too large before it, or a character
      that is no digit. */
  function U64Status(s: string): Status {
    if Value(s[..LeadingDigits(s)]) >= U64_LIMIT then ValueOutOfRange
    else if s == [] || LeadingDigits(s) < |s| then InvalidParam
    else Ok
  }

  /** The accepted texts are exactly the non-empty digit strings in range. */
  lemma U64Accepts(s: string)
    ensures U64Status(s).Ok? <==> s != [] && AllDigits(s) && Value(s) < U64_LIMIT
    ensures U64Status(s) in {Ok, InvalidParam, ValueOutOfRange}
  {
    var k := LeadingDigits(s);
    if k < |s| {
      assert s[k] in s;
    } else {
      assert s[..k] == s;
    }
  }

  lemma OverflowTest(acc: u64, digit: nat)
    requires digit < 10
    ensures acc > (U64_LIMIT - 1 - digit) / 10 <==> acc * 10 + digit >= U64_LIMIT
  {}

  /** The loop both parsers share: the value of the digits from start on, or the first error. */
  method ParseMagnitude(s: string) returns (status: Status, acc: u64)
    ensures status == if s == [] then Ok else U64Status(s)
    ensures status.Ok? ==> AllDigits(s) && acc == Value(s)
  {
    acc := 0;
    var i := 0;
    while i < |s|
      invariant 0 <= i <= |s| && AllDigits(s[..i]) && acc == Value(s[..i])
    {
      var c := s[i];
      PrefixStatus(s, i);
      if c < '0' || c > '9' {
        return InvalidParam, acc;
      }
      var digit := DigitValue(c);
      ValueSnoc(s[..i], c);
      assert s[..i] + [c] == s[..i + 1];
      OverflowTest(acc, digit);
      PrefixStatus(s, i + 1);
      if acc > (U64_LIMIT - 1 - digit) / 10 {
        return ValueOutOfRange, acc;
      }
      acc := acc * 10 + digit;
      i := i + 1;
    }
    assert s[..i] == s;
    PrefixStatus(s, |s|);
    return Ok, acc;
  }

  /** What a digit prefix says about the whole text. */
  lemma PrefixStatus(s: string, i: nat)
    requires i <= |s| && AllDigits(s[..i])
    ensures i <= LeadingDigits(s) && Value(s[..i]) <= Value(s[..LeadingDigits(s)])
    ensures i < |s| && !IsDigit(s[i]) ==> LeadingDigits(s) == i
    ensures i == |s| ==> LeadingDigits(s) == i
  {
    var k := LeadingDigits(s);
    assert forall j :: 0 <= j < i ==> s[..i][j] == s[j] && IsDigit(s[j]);
    ValueGrows(s[..k], i);
    assert s[..k][..i] == s[..i];
    if i < k {
      assert s[..k][i] == s[i];
    }
  }

  predicate IsNegative(s: string) {
    s != [] && s[0] == '-'
  }

  function Magnitude(s: string): string {
    if IsNegative(s) then s[1..] else s
  }

  function SignedValue(s: string): int
    requires AllDigits(Magnitude(s))
  {
    if IsNegative(s) then 0 - Value(Magnitude(s)) as int else Value(Magnitude(s)) as int
  }

  function I64Status(s: string): Status {
    var m := Magnitude(s);
    if m == [] then InvalidParam
    else if !U64Status(m).Ok? then U64Status(m)
    else if Value(m) > I64_MAX + (if IsNegative(s) then 1 else 0) then ValueOutOfRange
    else Ok
  }

  /** The accepted texts are exactly the optionally signed digit strings whose value is in range. */
  lemma I64Accepts(s: string)
    ensures I64Status(s).Ok?
            <==> Magnitude(s) != [] && AllDigits(Magnitude(s)) && -I64_MAX - 1 <= SignedValue(s) <= I64_MAX
  {
    U64Accepts(Magnitude(s));
  }

  // ---- the string object ------------------------------------------------------------------------------------------

  class BoundedString {
    const storage: array<char>
    var length: nat

    ghost predicate Valid()
      reads this
    {
      length <= storage.Length
    }

    ghost function Contents(): string
      reads this, storage
      requires Valid()
    {
      storage[..length]
    }

    constructor (storage: array<char>)
      ensures this.storage == storage && length == 0 && Valid()
    {
      this.storage := storage;
      length := 0;
    }

    /** rte_string_copy_n: all or nothing. */
    method CopyN(src: string) returns (status: Status)
      requires Valid()
      modifies this, storage
      ensures Valid()
      ensures status == if |src| <= storage.Length then Ok else ResourceExhausted
      ensures Contents() == if status.Ok? then src else old(Contents())
    {
      if |src| > storage.Length {
        return ResourceExhausted;
      }
      for i := 0 to |src|
        invariant storage[..i] == src[..i]
      {
        storage[i] := src[i];
      }
      assert src[..|src|] == src;
      length := |src|;
      return Ok;
    }

    method FromU64(value: u64) returns (status: Status)
      requires Valid()
      modifies this, storage
      ensures Valid()
      ensures status == if |Digits(value)| <= storage.Length then Ok else ResourceExhausted
      ensures Contents() == if status.Ok? then Digits(value) else old(Contents())
    {
      var digits := new char[U64_DIGITS];
      var n := FormatU64Digits(value, digits, 0);
      status := CopyN(digits[..n]);
    }

    method FromI64(value: i64) returns (status: Status)
      requires Valid()
      modifies this, storage
      ensures Valid()
      ensures status == if |SignedText(value)| <= storage.Length then Ok else ResourceExhausted
      ensures Contents() == if status.Ok? then SignedText(value) else old(Contents())
    {
      var buf := new char[U64_DIGITS + 1];
      var negative := value < 0;
      var magnitude: u64 := if negative then -(value + 1) + 1 else value;
      if negative {
        buf[0] := '-';
        var n := FormatU64Digits(magnitude, buf, 1);
        assert buf[..n + 1] == ['-'] + buf[1..1 + n];
        status := CopyN(buf[..n + 1]);
        return;
      }
      var n := FormatU64Digits(magnitude, buf, 0);
      status := CopyN(buf[..n]);
    }

    /** rte_string_to_u64; the value means something only on success. */
    method ToU64() returns (status: Status, value: u64)
      requires Valid()
      ensures status == U64Status(Contents())
      ensures status.Ok? ==> AllDigits(Contents()) && value == Value(Contents())
    {
      if length == 0 {
        return InvalidParam, 0;
      }
      status, value := ParseMagnitude(storage[..length]);
    }

    method ToI64() returns (status: Status, value: i64)
      requires Valid()
      ensures status == I64Status(Contents())
      ensures status.Ok? ==> AllDigits(Magnitude(Contents())) && value == SignedValue(Contents())
    {
      if length == 0 {
        return InvalidParam, 0;
      }
      var negative := storage[0] == '-';
      var start := if negative then 1 else 0;
      if start >= length {
        return InvalidParam, 0;
      }
      assert storage[start..length] == Magnitude(Contents());
      var acc;
      status, acc := ParseMagnitude(storage[start..length]);
      if !status.Ok? {
        return status, 0;
      }
      if negative {
        if acc > I64_MAX + 1 {
          return ValueOutOfRange, 0;
        }
        return Ok, -acc;
      }
      if acc > I64_MAX {
        return ValueOutOfRange, 0;
      }
      return Ok, acc;
    }

    method ToU32() returns (status: Status, value: u32)
      requires Valid()
      ensures status.Ok? <==> U64Status(Contents()).Ok? && Value(Contents()) < U32_LIMIT
      ensures !status.Ok? ==> status == if U64Status(Contents()).Ok? then ValueOutOfRange else U64Status(Contents())
      ensures status.Ok? ==> value == Value(Contents())
    {
      var wide;
      status, wide := ToU64();
      if !status.Ok? {
        return status, 0;
      }
      U64Accepts(Contents());
      if wide >= U32_LIMIT {
        return ValueOutOfRange, 0;
      }
      return Ok, wide;
    }

    method ToI32() returns (status: Status, value: i32)
      requires Valid()
      ensures status.Ok? <==> I64Status(Contents()).Ok? && -I32_MAX - 1 <= SignedValue(Contents()) <= I32_MAX
      ensures !status.Ok? ==> status == if I64Status(Contents()).Ok? then ValueOutOfRange else I64Status(Contents())
      ensures status.Ok? ==> value == SignedValue(Contents())
    {
      var wide;
      status, wide := ToI64();
      if !status.Ok? {
        return status, 0;
      }
      if wide < -I32_MAX - 1 || wide > I32_MAX {
        return ValueOutOfRange, 0;
      }
      return Ok, wide;
    }
  }

  function Pow10(n: nat): nat {
    if n == 0 then 1 else 10 * Pow10(n - 1)
  }

  lemma {:induction false} DigitsLength(n: nat, k: nat)
    requires k > 0
    ensures |Digits(n)| <= k <==> n < Pow10(k)
  {
    if k == 1 {
      assert Pow10(1) == 10;
    } else if n >= 10 {
      DigitsLength(n / 10, k - 1);
      assert n / 10 < Pow10(k - 1) <==> n < 10 * Pow10(k - 1);
    } else {
      PowPositive(k - 1);
    }
  }

  lemma {:induction false} PowPositive(k: nat)
    ensures Pow10(k) >= 1
  {
    if k > 0 {
      PowPositive(k - 1);
    }
  }

  lemma TwentyDigitsSuffice(n: u64)
    ensures |Digits(n)| <= U64_DIGITS
  {
    assert Pow10(5) == 100_000;
    assert Pow10(10) == 100_000 * Pow10(5);
    assert Pow10(15) == 100_000 * Pow10(10);
    assert Pow10(20) == 100_000 * Pow10(15);
    DigitsLength(n, U64_DIGITS);
  }

  lemma DigitsStep(v: nat)
    ensures Digits(v)[|Digits(v)| - 1] == DigitChar(v % 10)
    ensures if v < 10 then |Digits(v)| == 1 else Digits(v / 10) == Digits(v)[..|Digits(v)| - 1]
  {}

  /** The digits, last first. */
  method ReversedDigits(value: u64) returns (rev: array<char>, n: nat)
    requires value > 0
    ensures fresh(rev) && n == |Digits(value)| <= rev.Length == U64_DIGITS
    ensures forall i :: 0 <= i < n ==> rev[i] == Digits(value)[n - 1 - i]
  {
    hide Digits;
    TwentyDigitsSuffice(value);
    ghost var all := Digits(value);
    rev := new char[U64_DIGITS];
    var v: u64 := value;
    n := 0;
    while v > 0
      invariant n <= |all| && (v > 0 ==> Digits(v) == all[..|all| - n]) && (v == 0 ==> n == |all|)
      invariant forall i :: 0 <= i < n ==> rev[i] == all[|all| - 1 - i]
    {
      DigitsStep(v);
      rev[n] := DigitChar(v % 10);
      n := n + 1;
      v := v / 10;
    }
  }

  /** rte_string_format_u64_digits: the digits are produced last first and then reversed into place. */
  method FormatU64Digits(value: u64, out: array<char>, offset: nat) returns (n: nat)
    requires offset + U64_DIGITS <= out.Length
    modifies out
    ensures n == |Digits(value)| <= U64_DIGITS
    ensures out[offset..offset + n] == Digits(value)
    ensures forall i :: 0 <= i < offset ==> out[i] == old(out[i])
  {
    hide Digits;
    if value == 0 {
      ZeroDigit();
      out[offset] := '0';
      return 1;
    }
    var rev;
    rev, n := ReversedDigits(value);
    for i := 0 to n
      invariant forall j :: 0 <= j < n ==> rev[j] == Digits(value)[n - 1 - j]
      invariant out[offset..offset + i] == Digits(value)[..i]
      invariant forall j :: 0 <= j < offset ==> out[j] == old(out[j])
    {
      out[offset + i] := rev[n - 1 - i];
    }
  }

  lemma ZeroDigit()
    ensures Digits(0) == ['0']
  {}

  // ---- round trips ------------------------------------------------------------------------------------------------

  /** What is printed for any 64-bit value is accepted by the parsers as that value, INT64_MIN included. */
  lemma PrintedIsParsed(u: u64, i: i64)
    ensures U64Status(Digits(u)).Ok? && Value(Digits(u)) == u
    ensures I64Status(SignedText(i)).Ok? && SignedValue(SignedText(i)) == i
    ensures SignedText(i)[0] == '-' <==> i < 0
  {
    DigitsValue(u);
    U64Accepts(Digits(u));
    var m: int := if i < 0 then 0 - i else i;
    DigitsValue(m);
    assert Magnitude(SignedText(i)) == Digits(m) by {
      if i >= 0 {
        assert Digits(m)[0] in Digits(m);
      }
    }
    I64Accepts(SignedText(i));
  }
}
