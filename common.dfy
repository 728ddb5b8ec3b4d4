/** Option and Result wrappers, exact decimal arithmetic, and the `java.lang` string and number
    routines shared by the whole model. */
module Common {

  /** A value that may be absent (Java `null` or an empty `Optional`). */
  datatype Option<T> = None | Some(value: T)

  /** The outcome of an operation that either returns a value or throws a typed exception. */
  datatype Result<T, E> = Ok(value: T) | Err(error: E)

  /** Exact decimals: `java.math.BigDecimal` addition and multiplication are exact, so `real` models them. */
  type Money = real

  /** Multiplication of a decimal price by an integer quantity (`unitPrice.multiply(BigDecimal.valueOf(quantity))`). */
  function Times(price: Money, quantity: int): Money
  {
    price * quantity as real
  }

  lemma TimesNonNegative(price: Money, quantity: int)
    requires price >= 0.0 && quantity >= 0
    ensures Times(price, quantity) >= 0.0
  {
  }

  /** Character classes and case folding of `java.lang.String`, restricted to ASCII. */
  predicate IsAsciiUpper(c: char)
  {
    'A' <= c <= 'Z'
  }

  function LowerChar(c: char): (d: char)
    ensures IsAsciiUpper(c) ==> d as int == c as int + 32
    ensures !IsAsciiUpper(c) ==> d == c
  {
    if IsAsciiUpper(c) then (c as int + 32) as char else c
  }

  /** `String.toLowerCase()` for ASCII letters; every other character is kept. */
  function ToLower(s: string): (r: string)
    ensures |r| == |s|
    ensures forall i :: 0 <= i < |s| ==> r[i] == LowerChar(s[i])
  {
    if s == [] then [] else [LowerChar(s[0])] + ToLower(s[1..])
  }

  /** `String.equalsIgnoreCase`: same length and equal characters after folding. */
  predicate EqualsIgnoreCase(a: string, b: string)
  {
    ToLower(a) == ToLower(b)
  }

  lemma {:induction false} ToLowerIdempotent(s: string)
    ensures ToLower(ToLower(s)) == ToLower(s)
  {
    if s != [] {
      ToLowerIdempotent(s[1..]);
    }
  }

  /** `String.trim()`: strips every leading and trailing character whose code is at most U+0020. */
  predicate IsTrimmable(c: char)
  {
    c <= ' '
  }

  function TrimStart(s: string): (r: string)
    ensures |r| <= |s| && r == s[|s| - |r|..]
    ensures r == [] || !IsTrimmable(r[0])
    ensures forall i :: 0 <= i < |s| - |r| ==> IsTrimmable(s[i])
  {
    if s != [] && IsTrimmable(s[0]) then TrimStart(s[1..]) else s
  }

  function TrimEnd(s: string): (r: string)
    ensures |r| <= |s| && r == s[..|r|]
    ensures r == [] || !IsTrimmable(r[|r| - 1])
    ensures forall i :: |r| <= i < |s| ==> IsTrimmable(s[i])
  {
    if s != [] && IsTrimmable(s[|s| - 1]) then TrimEnd(s[..|s| - 1]) else s
  }

  function Trim(s: string): string
  {
    TrimEnd(TrimStart(s))
  }

  /** A string `trim()` leaves as it is. */
  predicate IsTrimmed(s: string)
  {
    s == [] || (!IsTrimmable(s[0]) && !IsTrimmable(s[|s| - 1]))
  }

  lemma TrimOfTrimmed(s: string)
    requires IsTrimmed(s)
    ensures Trim(s) == s
  {
  }

  /** The Java signed 64-bit range of `Long`. */
  const MinLong: int := -0x8000_0000_0000_0000
  const MaxLong: int := 0x7FFF_FFFF_FFFF_FFFF

  predicate IsDigit(c: char)
  {
    '0' <= c <= '9'
  }

  function DigitsValue(s: string): (n: nat)
    requires forall i :: 0 <= i < |s| ==> IsDigit(s[i])
  {
    if s == [] then 0
    else
      var last := s[|s| - 1];
      assert IsDigit(last);
      DigitsValue(s[..|s| - 1]) * 10 + (last as int - '0' as int)
  }

  predicate AllDigits(t: string)
  {
    forall i :: 0 <= i < |t| ==> IsDigit(t[i])
  }

  /** A leading `-` or `+`, which `Long.parseLong` accepts once, in front of the digits. */
  predicate HasSign(s: string)
  {
    s != [] && (s[0] == '-' || s[0] == '+')
  }

  /** What follows the optional sign. */
  function Unsigned(s: string): (t: string)
    ensures |t| <= |s|
  {
    if HasSign(s) then s[1..] else s
  }

  /** `Long.parseLong(s)` / `Long.valueOf(s)`: an optional sign, then one or more decimal digits,
      with a value inside the `Long` range; anything else throws `NumberFormatException` (here: None). */
  function ParseLong(s: string): (r: Option<int>)
    ensures r.Some? ==> MinLong <= r.value <= MaxLong
    ensures r.Some? <==> (Unsigned(s) != [] && AllDigits(Unsigned(s))
      && MinLong <= (if s[0] == '-' then -(DigitsValue(Unsigned(s)) as int) else DigitsValue(Unsigned(s))) <= MaxLong)
    ensures r.Some? ==> r.value == if s[0] == '-' then -(DigitsValue(Unsigned(s)) as int) else DigitsValue(Unsigned(s))
  {
    var sign := if s != [] && (s[0] == '-' || s[0] == '+') then s[0] else '+';
    var digits := if s != [] && (s[0] == '-' || s[0] == '+') then s[1..] else s;
    if digits == [] || exists i :: 0 <= i < |digits| && !IsDigit(digits[i]) then None
    else
      var v: int := if sign == '-' then -(DigitsValue(digits) as int) else DigitsValue(digits);
      if MinLong <= v <= MaxLong then Some(v) else None
  }

  /** `Long.toString(n)`: the decimal rendering, with a leading `-` for negative values. */
  function DecimalDigits(n: nat): (s: string)
    ensures s != [] && forall i :: 0 <= i < |s| ==> IsDigit(s[i])
    ensures DigitsValue(s) == n
  {
    if n < 10 then [(n + '0' as int) as char]
    else
      var s := DecimalDigits(n / 10) + [((n % 10) + '0' as int) as char];
      assert s[..|s| - 1] == DecimalDigits(n / 10);
      s
  }

  function LongToString(n: int): string
  {
    if n < 0 then "-" + DecimalDigits(-n) else DecimalDigits(n)
  }

  /** Rendering an order id and parsing it back (the `external_reference` round trip). */
  lemma {:induction false} ParseLongToString(n: int)
    requires MinLong <= n <= MaxLong
    ensures ParseLong(LongToString(n)) == Some(n)
  {
    var s := LongToString(n);
    if n < 0 {
      assert s[1..] == DecimalDigits(-n);
    } else {
      assert IsDigit(s[0]);
    }
  }
}
