/** Shared vocabulary of the model: failure-carrying results, the machine
    integer widths the compiler's Rust source uses, and decimal formatting of
    integers the way Rust's `{}` formatter writes them. */
module Base {

  datatype Option<+T> = None | Some(value: T)

  datatype Result<+T, +E> = Ok(value: T) | Err(error: E)

  /** A result that carries no value on success (Rust's `Result<(), E>`). */
  datatype Outcome<+E> = Pass | Fail(error: E)

  const I32_MIN: int := -0x8000_0000
  const I32_MAX: int := 0x7fff_ffff
  const U32_LIMIT: int := 0x1_0000_0000

  type int32 = x: int | -0x8000_0000 <= x < 0x8000_0000
  type int16 = x: int | -0x8000 <= x < 0x8000
  type uint8 = x: int | 0 <= x < 0x100
  type int8 = x: int | -0x80 <= x < 0x80
  type uint32 = x: int | 0 <= x < 0x1_0000_0000

  /** Rust's `as u32` on a `usize`: keeps the low 32 bits. */
  function UsizeAsU32(x: nat): (r: nat)
    ensures r < U32_LIMIT && r <= x
    ensures x < U32_LIMIT ==> r == x
  {
    x % U32_LIMIT
  }

  /** Rust's `as i32` on a `u32`: reinterprets the 32 bits as two's complement. */
  function U32AsI32(x: nat): (r: int32)
    requires x < U32_LIMIT
    ensures x <= I32_MAX ==> r == x
    ensures x > I32_MAX ==> r < 0
  {
    if x <= I32_MAX then x else x - U32_LIMIT
  }

  // ---------------------------------------------------------------------------
  // Decimal text of integers (Rust's `Display` for i32 and `to_string`).

  predicate IsDigit(c: char) {
    '0' <= c <= '9'
  }

  function DigitChar(d: nat): (c: char)
    requires d < 10
    ensures IsDigit(c)
  {
    (d + '0' as int) as char
  }

  function DigitValue(c: char): (d: nat)
    requires IsDigit(c)
    ensures d < 10 && DigitChar(d) == c
  {
    c as int - '0' as int
  }

  /** The shortest decimal numeral of `n` (no sign, no leading zeros). */
  function NatToString(n: nat): (s: string)
    decreases n
  {
    if n < 10 then [DigitChar(n)] else NatToString(n / 10) + [DigitChar(n % 10)]
  }

  /** Decimal text of `n`, with a leading `-` for negative values. */
  function IntToString(n: int): string {
    if n < 0 then "-" + NatToString(-n) else NatToString(n)
  }

  predicate AllDigits(s: string) {
    forall i :: 0 <= i < |s| ==> IsDigit(s[i])
  }

  /** The value of a non-empty string of decimal digits. */
  function DigitsValue(s: string): nat
    requires |s| > 0 && AllDigits(s)
    decreases |s|
  {
    if |s| == 1 then DigitValue(s[0])
    else DigitsValue(s[..|s| - 1]) * 10 + DigitValue(s[|s| - 1])
  }

  /** Reads back an optionally negated decimal numeral; an independent
      reference for `IntToString`. */
  function ParseInt(s: string): Option<int> {
    if |s| > 0 && s[0] == '-' then
      if |s| > 1 && AllDigits(s[1..]) then Some(0 - DigitsValue(s[1..]) as int) else None
    else if |s| > 0 && AllDigits(s) then Some(DigitsValue(s))
    else None
  }

  lemma {:induction false} NatToStringDigits(n: nat)
    ensures |NatToString(n)| > 0 && AllDigits(NatToString(n))
    ensures DigitsValue(NatToString(n)) == n
    ensures (|NatToString(n)| > 1 ==> NatToString(n)[0] != '0')
    decreases n
  {
    if n >= 10 {
      NatToStringDigits(n / 10);
      var s := NatToString(n);
      var p := NatToString(n / 10);
      assert s == p + [DigitChar(n % 10)];
      assert s[..|s| - 1] == p;
      assert s[0] == p[0];
      assert n / 10 > 0;
      assert |p| == 1 ==> p[0] != '0';
    }
  }

  /** Formatting then parsing gives back the integer. */
  lemma IntToStringRoundTrip(n: int)
    ensures ParseInt(IntToString(n)) == Some(n)
  {
    var m: nat := if n < 0 then -n else n;
    var p := NatToString(m);
    NatToStringDigits(m);
    assert IsDigit(p[0]);
    if n < 0 {
      var s := "-" + p;
      assert s[1..] == p;
      assert ParseInt(s) == Some(0 - DigitsValue(p) as int);
    } else {
      assert ParseInt(p) == Some(DigitsValue(p));
    }
  }

  /** Digits as a shortest numeral has them: at least one, and no leading
      zero unless the numeral is `0` itself. */
  predicate CanonicalDigits(d: string) {
    |d| > 0 && AllDigits(d) && (|d| > 1 ==> d[0] != '0')
  }

  /** An integer's decimal text as Rust's `{}` prints it: an optional `-`
      before canonical digits, and never `-0`. */
  predicate CanonicalInt(s: string) {
    if |s| > 0 && s[0] == '-' then CanonicalDigits(s[1..]) && s[1..] != "0"
    else CanonicalDigits(s)
  }

  lemma IntToStringCanonical(n: int)
    ensures CanonicalInt(IntToString(n))
  {
    var m: nat := if n < 0 then -n else n;
    var p := NatToString(m);
    NatToStringDigits(m);
    assert IsDigit(p[0]);
    if n < 0 {
      var s := "-" + p;
      assert s[1..] == p;
    }
  }

  /** Digits with no leading zero stand for a positive number, unless they
      are `0` itself. */
  lemma {:induction false} CanonicalDigitsPositive(d: string)
    requires CanonicalDigits(d) && d[0] != '0'
    ensures DigitsValue(d) > 0
    decreases |d|
  {
    if |d| > 1 {
      var p := d[..|d| - 1];
      assert p[0] == d[0];
      CanonicalDigitsPositive(p);
    }
  }

  /** Canonical digits are the shortest numeral of their value. */
  lemma {:induction false} CanonicalDigitsUnique(d: string)
    requires CanonicalDigits(d)
    ensures NatToString(DigitsValue(d)) == d
    decreases |d|
  {
    var c := d[|d| - 1];
    if |d| == 1 {
      assert d == [c];
    } else {
      var p := d[..|d| - 1];
      assert p[0] == d[0];
      CanonicalDigitsPositive(p);
      CanonicalDigitsUnique(p);
      var n := DigitsValue(d);
      assert n == DigitsValue(p) * 10 + DigitValue(c);
      assert n / 10 == DigitsValue(p) && n % 10 == DigitValue(c);
      assert d == p + [c];
    }
  }

  /** A canonical numeral is the one text `IntToString` gives its value, so
      text and integer determine each other. */
  lemma CanonicalIntUnique(s: string)
    requires CanonicalInt(s)
    ensures ParseInt(s).Some? && IntToString(ParseInt(s).value) == s
  {
    if |s| > 0 && s[0] == '-' {
      var d := s[1..];
      assert IsDigit(d[0]);
      CanonicalDigitsUnique(d);
      CanonicalDigitsPositive(d);
      assert s == "-" + d;
    } else {
      CanonicalDigitsUnique(s);
    }
  }

  /** Distinct integers have distinct decimal texts. */
  lemma IntToStringInjective(m: int, n: int)
    ensures IntToString(m) == IntToString(n) ==> m == n
  {
    IntToStringRoundTrip(m);
    IntToStringRoundTrip(n);
  }

  // ---------------------------------------------------------------------------
  // Sequence helpers.

  predicate NoDuplicates<T(==)>(s: seq<T>) {
    forall i, j :: 0 <= i < j < |s| ==> s[i] != s[j]
  }

  lemma NoDuplicatesSnoc<T>(s: seq<T>, x: T)
    ensures NoDuplicates(s + [x]) <==> NoDuplicates(s) && x !in s
  {
    assert forall i :: 0 <= i < |s| ==> (s + [x])[i] == s[i];
    if NoDuplicates(s + [x]) {
      forall i | 0 <= i < |s|
        ensures s[i] != x
      {
        assert (s + [x])[i] != (s + [x])[|s|];
      }
    }
  }

  /** The position of the first element equal to `x` (Rust's `iter().position`). */
  function IndexOf<T(==)>(s: seq<T>, x: T): (r: Option<nat>)
    ensures r.Some? <==> x in s
    ensures r.Some? ==> r.value < |s| && s[r.value] == x && x !in s[..r.value]
  {
    if |s| == 0 then None
    else if s[0] == x then Some(0)
    else match IndexOf(s[1..], x)
      case None => None
      case Some(i) => Some(i + 1)
  }

  /** Appending after the first occurrence does not move it. */
  lemma {:induction false} IndexOfPrefix<T>(s: seq<T>, prefix: seq<T>, x: T)
    requires |prefix| <= |s| && s[..|prefix|] == prefix
    requires x in prefix
    ensures IndexOf(s, x) == IndexOf(prefix, x)
  {
    var k := IndexOf(prefix, x).value;
    assert s[k] == prefix[k];
    assert s[..k] == prefix[..k];
  }

  /** `sep`-separated concatenation (Rust's `join`). */
  function Join(parts: seq<string>, sep: string): (r: string)
  {
    if |parts| == 0 then ""
    else if |parts| == 1 then parts[0]
    else parts[0] + sep + Join(parts[1..], sep)
  }
}
