/**
 * `StringUtils`: null-tolerant truncation and upper-casing of Java strings.
 *
 * Upper-casing is modelled on ASCII: the letters 'a'..'z' map to 'A'..'Z' and
 * every other character is left as it is.
 */
module StringUtils {
  import opened JavaLang

  /** Whether `c` is an ASCII lower-case letter. */
  predicate IsLower(c: char) { 'a' <= c <= 'z' }

  /** The upper-case form of one character (ASCII letters only). */
  function UpperChar(c: char): (u: char)
    ensures !IsLower(u)
    ensures IsLower(c) ==> u as int == c as int - 32
    ensures !IsLower(c) ==> u == c
  {
    if IsLower(c) then (c as int - 32) as char else c
  }

  /** `s.toUpperCase(Locale.ROOT)` on a non-null string. */
  function Upper(s: string): (r: string)
    ensures |r| == |s|
    ensures forall i :: 0 <= i < |s| ==> r[i] == UpperChar(s[i])
  {
    if |s| == 0 then [] else [UpperChar(s[0])] + Upper(s[1..])
  }

  /** Upper-casing maps each part of a concatenation separately, so a lock name
      `schema + "." + table` upper-cases to `SCHEMA.TABLE`. */
  lemma UpperConcat(a: string, b: string)
    ensures Upper(a + b) == Upper(a) + Upper(b)
  {
    var l, r := Upper(a + b), Upper(a) + Upper(b);
    assert forall i :: 0 <= i < |l| ==> l[i] == r[i] by {
      forall i | 0 <= i < |l| ensures l[i] == r[i] {
        if i < |a| { assert (a + b)[i] == a[i]; } else { assert (a + b)[i] == b[i - |a|]; }
      }
    }
  }

  /** Upper-casing an upper-cased string changes nothing. */
  lemma UpperIdempotent(s: string)
    ensures Upper(Upper(s)) == Upper(s)
  {
  }

  /** One more character of a prefix whose upper-case form is known. */
  lemma UpperExtend(s: string, i: nat, u: string)
    requires i < |s| && Upper(s[..i]) == u
    ensures Upper(s[..i + 1]) == u + [UpperChar(s[i])]
  {
    assert s[..i + 1] == s[..i] + [s[i]];
    UpperConcat(s[..i], [s[i]]);
  }

  /** A string without lower-case letters is its own upper-case form. */
  lemma UpperWithoutLower(s: string)
    requires forall i :: 0 <= i < |s| ==> !IsLower(s[i])
    ensures Upper(s) == s
  {
  }

  /** The decimal text of an integer has no letters, so upper-casing keeps it. */
  lemma UpperOfDecimal(n: int)
    ensures Upper(IntToDecimal(n)) == IntToDecimal(n)
  {
    var m: nat := if n < 0 then -n else n;
    NatToDecimalDenotes(m);
    UpperWithoutLower(IntToDecimal(n));
  }

  /** `StringUtils.toUpperCase`: null stays null, anything else is upper-cased. */
  function ToUpperCase(str: Option<string>): (r: Option<string>)
    ensures r.None? <==> str.None?
    ensures str.Some? ==> r.value == Upper(str.value)
  {
    match str
    case None => None
    case Some(s) => Some(Upper(s))
  }

  /** The longest prefix of `s` whose UTF-16 form has at most `n` units. It is one
      unit short of `n` exactly when unit `n` of `s` would split a surrogate pair. */
  function UnitPrefix(s: string, n: nat): (t: string)
    ensures t <= s && JavaLength(t) <= n
    ensures t != s ==> JavaLength(t) + |Utf16(s[|t|])| > n
    decreases |s|
  {
    if JavaLength(s) <= n then s
    else
      var p := s[..|s| - 1];
      var t := UnitPrefix(p, n);
      assert t != p ==> p[|t|] == s[|t|];
      t
  }

  /** `StringUtils.truncate`: null and strings no longer than `maxlength` are returned
      unchanged; a longer string is cut to its first `maxlength` UTF-16 units, which
      `substring` refuses (StringIndexOutOfBoundsException) when `maxlength` is negative.
      Where the cut would split a surrogate pair, the half pair is dropped. */
  function Truncate(str: Option<string>, maxlength: int): (r: Result<Option<string>>)
    ensures r.Err? <==> str.Some? && maxlength < 0
    ensures r.Ok? ==> (r.value.None? <==> str.None?)
    ensures str.Some? && JavaLength(str.value) <= maxlength ==> r == Ok(str)
    ensures str.Some? && 0 <= maxlength < JavaLength(str.value) ==>
              r.Ok? && r.value.Some? && Cut(str.value, maxlength, r.value.value)
  {
    match str
    case None => Ok(None)
    case Some(s) =>
      if JavaLength(s) <= maxlength then Ok(str)
      else if maxlength < 0 then Err(RuntimeException("StringIndexOutOfBoundsException"))
      else
        var t := UnitPrefix(s, maxlength);
        CutOfUnitPrefix(s, maxlength);
        Ok(Some(t))
  }

  /** `t` is what remains of `s` cut after `n` UTF-16 units: a prefix of `s` whose units
      are the first `n` units of `s`, or the first `n - 1` when unit `n - 1` of `s` is
      the high half of a surrogate pair. */
  predicate Cut(s: string, n: nat, t: string)
    requires n < JavaLength(s)
  {
    && t <= s
    && Utf16Units(t) <= Utf16Units(s)
    && (JavaLength(t) == n || (JavaLength(t) == n - 1 && IsHighSurrogate(Utf16Units(s)[n - 1])))
  }

  lemma CutOfUnitPrefix(s: string, n: nat)
    requires n < JavaLength(s)
    ensures Cut(s, n, UnitPrefix(s, n))
  {
    var t := UnitPrefix(s, n);
    var k := |t|;
    assert t == s[..k];
    Utf16UnitsPrefix(s, k);
    Utf16UnitsPrefix(s, k + 1);
    var next := s[..k + 1];
    assert next[..k] == t;
    assert Utf16Units(next) == Utf16Units(t) + Utf16(s[k]);
    if JavaLength(t) < n {
      assert Utf16Units(s)[n - 1] == Utf16(s[k])[0];
    }
  }

  /** On text of the Basic Multilingual Plane, where a unit is a character, truncating
      keeps the first `min(|s|, maxlength)` characters. */
  lemma TruncateBmp(s: string, maxlength: int)
    requires maxlength >= 0
    requires forall i :: 0 <= i < |s| ==> s[i] as int < 0x1_0000
    ensures Truncate(Some(s), maxlength) == Ok(Some(if |s| <= maxlength then s else s[..maxlength]))
  {
    Utf16UnitsOfBmp(s);
    if |s| > maxlength {
      var t := UnitPrefix(s, maxlength);
      assert t == s[..|t|];
      Utf16UnitsOfBmp(t);
    }
  }

  /** An emoji is two UTF-16 units: cutting it after one unit would leave half a
      surrogate pair, so nothing of it is kept. */
  lemma TruncateDropsHalfPair()
    ensures Truncate(Some("\U{1F600}"), 1) == Ok(Some(""))
    ensures Truncate(Some("a\U{1F600}"), 2) == Ok(Some("a"))
  {
    assert Utf16Units("a\U{1F600}"[..1]) == [97];
    assert "a\U{1F600}"[..1] == "a";
  }

  /** Truncating twice to the same length is truncating once. */
  lemma TruncateIdempotent(str: Option<string>, maxlength: int)
    requires maxlength >= 0
    ensures Truncate(Truncate(str, maxlength).value, maxlength) == Truncate(str, maxlength)
  {
  }
}
