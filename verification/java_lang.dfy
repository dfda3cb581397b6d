/**
 * The slice of the Java platform the lock services depend on: nullable references,
 * the exceptions that cross the service boundary, two's-complement `int` and `long`
 * arithmetic, the decimal text Java prints and parses for integers, and the
 * `String` operations the services call (`lastIndexOf`, `hashCode`, concatenation
 * of a possibly-null reference).
 */
module JavaLang {

  /** A Java reference that may be null. */
  datatype Option<+T> = None | Some(value: T)

  /** The exceptions that reach, or leave, the lock services. */
  datatype Exception =
    | SQLException(reason: string)
      /** `new LockException(String)` */
    | LockException(message: string)
      /** `new LockException(Throwable)`: a LockException whose cause is `cause` */
    | LockExceptionCausedBy(cause: Exception)
      /** any unchecked exception (`RuntimeException` and its subclasses) */
    | RuntimeException(message: string)

  /** The value a Java call returns, or the exception it throws instead. */
  datatype Result<+T> = Ok(value: T) | Err(error: Exception)

  const TWO_32: int := 0x1_0000_0000
  const TWO_64: int := 0x1_0000_0000_0000_0000
  const MIN_INT: int := -0x8000_0000
  const MAX_INT: int := 0x7FFF_FFFF
  const MIN_LONG: int := -0x8000_0000_0000_0000
  const MAX_LONG: int := 0x7FFF_FFFF_FFFF_FFFF

  /** The values of Java's `int`. */
  predicate IsInt(x: int) { MIN_INT <= x <= MAX_INT }

  /** The values of Java's `long`. */
  predicate IsLong(x: int) { MIN_LONG <= x <= MAX_LONG }

  /** The `int` that Java arithmetic produces for the mathematical value `x`
      (two's-complement wrap-around). */
  function WrapInt(x: int): (r: int)
    ensures IsInt(r)
    ensures r % TWO_32 == x % TWO_32
    ensures IsInt(x) ==> r == x
  {
    var m := x % TWO_32;
    if m <= MAX_INT then m else m - TWO_32
  }

  /** The `long` that Java arithmetic produces for the mathematical value `x`. */
  function WrapLong(x: int): (r: int)
    ensures IsLong(r)
    ensures r % TWO_64 == x % TWO_64
    ensures IsLong(x) ==> r == x
  {
    var m := x % TWO_64;
    if m <= MAX_LONG then m else m - TWO_64
  }

  /** Adding a multiple of the modulus does not change a Euclidean remainder. */
  lemma {:induction false} ModAddMultiple(a: int, k: int)
    ensures (a + k * TWO_32) % TWO_32 == a % TWO_32
    decreases if k < 0 then -k else k
  {
    if k > 0 {
      ModAddMultiple(a, k - 1);
      assert a + k * TWO_32 == (a + (k - 1) * TWO_32) + TWO_32;
    } else if k < 0 {
      ModAddMultiple(a, k + 1);
      assert a + k * TWO_32 == (a + (k + 1) * TWO_32) - TWO_32;
    }
  }

  /** `31 * h + u` wraps to the same `int` whether or not `h` was wrapped first,
      so a loop that wraps after every step computes the wrapped polynomial. */
  lemma WrapIntStep(h: int, u: int)
    ensures WrapInt(31 * WrapInt(h) + u) == WrapInt(31 * h + u)
  {
    var w := WrapInt(h);
    var q := h / TWO_32;
    var k := if h % TWO_32 <= MAX_INT then q else q + 1;
    assert h == q * TWO_32 + h % TWO_32;
    assert w == h - k * TWO_32;
    assert 31 * w + u == (31 * h + u) + (-31 * k) * TWO_32;
    ModAddMultiple(31 * h + u, -31 * k);
  }

  // ---------------------------------------------------------------------------
  // Decimal text of integers

  predicate IsDigit(c: char) { '0' <= c <= '9' }

  predicate AllDigits(s: string) { forall i :: 0 <= i < |s| ==> IsDigit(s[i]) }

  function DigitChar(d: int): (c: char)
    requires 0 <= d < 10
    ensures IsDigit(c) && c as int - '0' as int == d
  {
    ('0' as int + d) as char
  }

  /** The decimal digits of a natural number, most significant first, no leading zero. */
  function NatToDecimal(n: nat): (s: string)
    decreases n
  {
    if n < 10 then [DigitChar(n)] else NatToDecimal(n / 10) + [DigitChar(n % 10)]
  }

  /** `String.valueOf(n)` for a Java integer, which is also what `"text" + n` appends. */
  function IntToDecimal(n: int): string
  {
    if n < 0 then "-" + NatToDecimal(-n) else NatToDecimal(n)
  }

  /** The value of a string of decimal digits. */
  function DigitsValue(s: string): nat
    requires AllDigits(s)
  {
    if |s| == 0 then 0 else DigitsValue(s[..|s| - 1]) * 10 + (s[|s| - 1] as int - '0' as int)
  }

  /** `Integer.parseInt(s)`: an optional '-' or '+' followed by one or more decimal
      digits whose value fits in an `int`; `None` stands for the NumberFormatException. */
  function ParseInt(s: string): (r: Option<int>)
    ensures r.Some? ==> IsInt(r.value)
    ensures r.Some? ==> |s| > 0
    ensures r.Some? && s[0] == '-' ==> r.value <= 0
    ensures r.Some? && s[0] != '-' ==> r.value >= 0
  {
    if |s| == 0 then None
    else
      var digits := if s[0] == '-' || s[0] == '+' then s[1..] else s;
      if |digits| == 0 || !AllDigits(digits) then None
      else
        var magnitude: int := DigitsValue(digits);
        var v := if s[0] == '-' then -magnitude else magnitude;
        if IsInt(v) then Some(v) else None
  }

  /** The decimal text of a natural number is a non-empty run of digits denoting it. */
  lemma {:induction false} NatToDecimalDenotes(n: nat)
    ensures |NatToDecimal(n)| > 0
    ensures AllDigits(NatToDecimal(n))
    ensures DigitsValue(NatToDecimal(n)) == n
    decreases n
  {
    var s := NatToDecimal(n);
    if n >= 10 {
      var p := NatToDecimal(n / 10);
      NatToDecimalDenotes(n / 10);
      assert s == p + [DigitChar(n % 10)];
      assert s[..|s| - 1] == p;
      assert DigitsValue(s) == DigitsValue(p) * 10 + n % 10;
    }
  }

  /** Printing a Java `int` and parsing it back with `Integer.parseInt` is the identity. */
  lemma ParseIntOfDecimal(n: int)
    requires IsInt(n)
    ensures ParseInt(IntToDecimal(n)) == Some(n)
  {
    if n < 0 {
      NatToDecimalDenotes(-n);
      var s := IntToDecimal(n);
      assert s[1..] == NatToDecimal(-n);
    } else {
      NatToDecimalDenotes(n);
      var s := NatToDecimal(n);
      assert IsDigit(s[0]);
    }
  }

  /** The decimal text of an integer is non-empty and ends in a digit. */
  lemma IntToDecimalEndsInDigit(n: int)
    ensures |IntToDecimal(n)| > 0 && IsDigit(IntToDecimal(n)[|IntToDecimal(n)| - 1])
  {
    var m: nat := if n < 0 then -n else n;
    NatToDecimalDenotes(m);
    var d := NatToDecimal(m);
    assert IsDigit(d[|d| - 1]);
    if n < 0 {
      assert IntToDecimal(n)[|IntToDecimal(n)| - 1] == d[|d| - 1];
    }
  }

  /** The decimal text of an integer starts with '-' exactly when it is negative. */
  lemma IntToDecimalSign(n: int)
    ensures |IntToDecimal(n)| > 0 && (IntToDecimal(n)[0] == '-' <==> n < 0)
  {
    if n >= 0 {
      NatToDecimalDenotes(n);
      assert IsDigit(NatToDecimal(n)[0]);
    }
  }

  /** Distinct integers print differently. */
  lemma IntToDecimalInjective(a: int, b: int)
    requires IntToDecimal(a) == IntToDecimal(b)
    ensures a == b
  {
    IntToDecimalSign(a);
    IntToDecimalSign(b);
    var ma: nat := if a < 0 then -a else a;
    var mb: nat := if b < 0 then -b else b;
    NatToDecimalDenotes(ma);
    NatToDecimalDenotes(mb);
    if a < 0 {
      assert IntToDecimal(a)[1..] == NatToDecimal(ma);
      assert IntToDecimal(b)[1..] == NatToDecimal(mb);
    }
  }

  // ---------------------------------------------------------------------------
  // java.lang.String

  /** What string concatenation appends for a possibly-null `String`: null prints as "null". */
  function StringOf(s: Option<string>): string
  {
    match s
    case None => "null"
    case Some(v) => v
  }

  /** `s.lastIndexOf(c)`: the index of the last occurrence of `c`, or -1 when there is none. */
  function LastIndexOf(s: string, c: char): (r: int)
    ensures -1 <= r < |s|
    ensures r >= 0 ==> s[r] == c
    ensures forall j :: r < j < |s| ==> s[j] != c
  {
    if |s| == 0 then -1
    else if s[|s| - 1] == c then |s| - 1
    else LastIndexOf(s[..|s| - 1], c)
  }

  /** The UTF-16 code units Java stores for one character. */
  function Utf16(c: char): (units: seq<int>)
    ensures 1 <= |units| <= 2
    ensures forall i :: 0 <= i < |units| ==> 0 <= units[i] < 0x1_0000
    ensures c as int < 0x1_0000 ==> units == [c as int]
    // outside the Basic Multilingual Plane: a high surrogate followed by a low one
    ensures c as int >= 0x1_0000 ==>
              |units| == 2 && IsHighSurrogate(units[0]) && 0xDC00 <= units[1] < 0xE000
  {
    var v := c as int;
    if v < 0x1_0000 then [v]
    else [0xD800 + (v - 0x1_0000) / 0x400, 0xDC00 + (v - 0x1_0000) % 0x400]
  }

  /** The first unit of a surrogate pair. */
  predicate IsHighSurrogate(u: int) { 0xD800 <= u < 0xDC00 }

  /** The UTF-16 code units of a string, in order. */
  function Utf16Units(s: string): seq<int>
  {
    if |s| == 0 then [] else Utf16Units(s[..|s| - 1]) + Utf16(s[|s| - 1])
  }

  /** `String.length()`: the number of UTF-16 code units, not of characters. */
  function JavaLength(s: string): nat
  {
    |Utf16Units(s)|
  }

  /** The units of a prefix are a prefix of the units. */
  lemma {:induction false} Utf16UnitsPrefix(s: string, k: nat)
    requires k <= |s|
    ensures Utf16Units(s[..k]) <= Utf16Units(s)
    decreases |s|
  {
    if k < |s| {
      var p := s[..|s| - 1];
      assert p[..k] == s[..k];
      Utf16UnitsPrefix(p, k);
    } else {
      assert s[..k] == s;
    }
  }

  /** A string of Basic Multilingual Plane characters has one unit per character. */
  lemma {:induction false} Utf16UnitsOfBmp(s: string)
    requires forall i :: 0 <= i < |s| ==> s[i] as int < 0x1_0000
    ensures JavaLength(s) == |s|
    decreases |s|
  {
    if |s| > 0 {
      Utf16UnitsOfBmp(s[..|s| - 1]);
    }
  }

  /** The polynomial `u[0]*31^(n-1) + ... + u[n-1]` over unbounded integers. */
  function Polynomial(u: seq<int>): int
  {
    if |u| == 0 then 0 else 31 * Polynomial(u[..|u| - 1]) + u[|u| - 1]
  }

  /** `String.hashCode()` as its documentation defines it: the polynomial over the
      UTF-16 code units, evaluated in `int` arithmetic. */
  function HashCode(s: string): (h: int)
    ensures IsInt(h)
  {
    WrapInt(Polynomial(Utf16Units(s)))
  }

  /** Appending a character of the Basic Multilingual Plane extends the hash the way
      the JDK's loop does: `h' = 31 * h + c` in `int` arithmetic. */
  lemma HashCodeAppend(s: string, c: char)
    requires c as int < 0x1_0000
    ensures HashCode(s + [c]) == WrapInt(31 * HashCode(s) + c as int)
  {
    var u := Utf16Units(s);
    assert (s + [c])[..|s|] == s;
    assert Utf16Units(s + [c]) == u + [c as int];
    assert (u + [c as int])[..|u|] == u;
    WrapIntStep(Polynomial(u), c as int);
  }

  /** One step of the hash on a string whose prefix hash is known: the character at
      `i` extends the hash of `s[..i]`, and `q` is how many times the `int` arithmetic
      wraps around 2^32. Chains of these steps fix the hash of a concrete name. */
  lemma HashExtend(s: string, i: nat, c: char, h: int, q: int)
    requires i < |s| && s[i] == c && c as int < 0x1_0000
    requires IsInt(31 * h + c as int - q * TWO_32)
    ensures HashCode(s[..i]) == h ==> HashCode(s[..i + 1]) == 31 * h + c as int - q * TWO_32
  {
    assert s[..i + 1] == s[..i] + [s[i]];
    HashCodeAppend(s[..i], s[i]);
    ModAddMultiple(31 * h + c as int, -q);
  }

  /** `String.hashCode()` as the JDK computes it: `h = 31 * h + c` over the code units,
      each step wrapping to `int`. */
  method ComputeHashCode(s: string) returns (h: int)
    ensures h == HashCode(s)
  {
    var units := Utf16Units(s);
    h := 0;
    var i := 0;
    while i < |units|
      invariant 0 <= i <= |units|
      invariant h == WrapInt(Polynomial(units[..i]))
    {
      assert units[..i + 1][..i] == units[..i];
      WrapIntStep(Polynomial(units[..i]), units[i]);
      h := WrapInt(31 * h + units[i]);
      i := i + 1;
    }
    assert units[..i] == units;
  }
}
