/**
 * The pieces of the Java platform that the loader's core leans on, written
 * out with Java's semantics: optional values and thrown exceptions as
 * datatypes, system properties as a map, ASCII case folding, the substring
 * tests of java.lang.String, and decimal parsing and formatting with the
 * ranges of Java's int and long.
 */
module JavaLang {

  /** A value that may be Java's null. */
  datatype Option<T> = None | Some(value: T) {
    function GetOr(default: T): T {
      match this
      case Some(v) => v
      case None => default
    }
  }

  /** The exceptions the core throws or lets escape. */
  datatype Error =
    | IllegalState(message: string)   // java.lang.IllegalStateException
    | NumberFormat(input: string)     // java.lang.NumberFormatException
    | IO(message: string)             // java.io.IOException
    | NullPointer                     // java.lang.NullPointerException
    | Security(message: string)       // java.lang.SecurityException
    | UnsatisfiedLink(message: string) // java.lang.UnsatisfiedLinkError

  /** A Java method that either returns a value or throws. */
  datatype Result<T> = Ok(value: T) | Err(error: Error)

  /** A Java byte (signed, 8 bits). */
  newtype byte = x: int | -128 <= x < 128

  /** The JVM's system properties, as System.getProperty sees them. */
  type Properties = map<string, string>

  /** System.getProperty(key): null when the property is not set. */
  function GetProperty(props: Properties, key: string): (r: Option<string>)
    ensures r.Some? <==> key in props
    ensures r.Some? ==> r.value == props[key]
  {
    if key in props then Some(props[key]) else None
  }

  /** System.getProperty(key, default). */
  function GetPropertyOr(props: Properties, key: string, default: string): (r: string)
    ensures key in props ==> r == props[key]
    ensures key !in props ==> r == default
  {
    GetProperty(props, key).GetOr(default)
  }

  // ---------------------------------------------------------------------
  // Case folding (toLowerCase, restricted to ASCII letters)

  function LowerChar(c: char): char {
    if 'A' <= c <= 'Z' then (c as int + 32) as char else c
  }

  predicate IsLowerChar(c: char) {
    !('A' <= c <= 'Z')
  }

  /** String.toLowerCase for ASCII: every upper-case letter becomes lower case. */
  function ToLower(s: string): (r: string)
    ensures |r| == |s|
    ensures forall i :: 0 <= i < |s| ==> IsLowerChar(r[i])
  {
    seq(|s|, i requires 0 <= i < |s| => LowerChar(s[i]))
  }

  /** Lower-casing twice is lower-casing once. */
  lemma ToLowerIdempotent(s: string)
    ensures ToLower(ToLower(s)) == ToLower(s)
  {
    var t := ToLower(s);
    assert forall i :: 0 <= i < |t| ==> LowerChar(t[i]) == t[i];
  }

  /** A string without upper-case letters is its own lower-case form. */
  lemma ToLowerOfLower(s: string)
    requires forall i :: 0 <= i < |s| ==> IsLowerChar(s[i])
    ensures ToLower(s) == s
  {
  }

  /** Lower-casing distributes over concatenation. */
  lemma ToLowerAppend(a: string, b: string)
    ensures ToLower(a + b) == ToLower(a) + ToLower(b)
  {
  }

  // ---------------------------------------------------------------------
  // Substring tests of java.lang.String

  /** String.contains: t occurs in s at some position. */
  predicate Contains(s: string, t: string)
    decreases |s|
  {
    t <= s || (|s| > 0 && Contains(s[1..], t))
  }

  /** t occurs in s starting at index i. */
  predicate OccursAt(s: string, t: string, i: int) {
    0 <= i <= |s| - |t| && s[i..i + |t|] == t
  }

  /** Where s contains t, t occurs at some index of s. */
  lemma {:induction false} ContainsOccurs(s: string, t: string) returns (i: nat)
    requires Contains(s, t)
    ensures OccursAt(s, t, i)
    decreases |s|
  {
    if t <= s {
      i := 0;
      assert s[0..|t|] == t;
    } else {
      var j := ContainsOccurs(s[1..], t);
      i := j + 1;
      assert s[i..i + |t|] == s[1..][j..j + |t|];
    }
  }

  /** Where t occurs at index i of s, s contains t. */
  lemma {:induction false} OccursContains(s: string, t: string, i: int)
    requires OccursAt(s, t, i)
    ensures Contains(s, t)
    decreases i
  {
    if i == 0 {
      assert t <= s;
    } else {
      assert s[1..][i - 1..i - 1 + |t|] == s[i..i + |t|];
      OccursContains(s[1..], t, i - 1);
    }
  }

  /** Contains agrees with "t occurs at some index of s". */
  lemma ContainsAt(s: string, t: string)
    ensures Contains(s, t) <==> exists i :: OccursAt(s, t, i)
  {
    if Contains(s, t) {
      var i := ContainsOccurs(s, t);
    }
    forall i | OccursAt(s, t, i)
      ensures Contains(s, t)
    {
      OccursContains(s, t, i);
    }
  }

  /** A string that contains t as a part of a concatenation contains t. */
  lemma ContainsInfix(a: string, t: string, b: string)
    ensures Contains(a + t + b, t)
  {
    var s := a + t + b;
    assert s[|a|..|a| + |t|] == t;
    assert OccursAt(s, t, |a|);
    ContainsAt(s, t);
  }

  predicate StartsWith(s: string, prefix: string) {
    prefix <= s
  }

  predicate EndsWith(s: string, suffix: string) {
    |suffix| <= |s| && s[|s| - |suffix|..] == suffix
  }

  // ---------------------------------------------------------------------
  // Splitting at a separator character

  /**
   * The fields of s between occurrences of sep, empty fields included
   * (String.split without Java's removal of trailing empty strings).
   */
  function Fields(s: string, sep: char): (r: seq<string>)
    ensures |r| >= 1
    decreases |s|
  {
    if s == [] then [""]
    else
      var rest := Fields(s[1..], sep);
      if s[0] == sep then [""] + rest
      else [[s[0]] + rest[0]] + rest[1..]
  }

  /** A string without the separator is a single field. */
  lemma {:induction false} FieldsOfPlain(a: string, sep: char)
    requires sep !in a
    ensures Fields(a, sep) == [a]
  {
    if a != [] {
      FieldsOfPlain(a[1..], sep);
      assert [a[0]] + a[1..] == a;
    }
  }

  /** Splitting "a<sep>b" yields a followed by the fields of b. */
  lemma {:induction false} FieldsCons(a: string, sep: char, b: string)
    requires sep !in a
    ensures Fields(a + [sep] + b, sep) == [a] + Fields(b, sep)
  {
    if a == [] {
      assert a + [sep] + b == [sep] + b;
      assert ([sep] + b)[1..] == b;
    } else {
      var s := a + [sep] + b;
      assert s[1..] == a[1..] + [sep] + b;
      FieldsCons(a[1..], sep, b);
      assert [a[0]] + a[1..] == a;
    }
  }

  // ---------------------------------------------------------------------
  // Decimal digits, Integer.parseInt / Long.parseLong and their inverses

  const INT_MIN: int := -0x8000_0000
  const INT_MAX: int := 0x7fff_ffff
  const LONG_MIN: int := -0x8000_0000_0000_0000
  const LONG_MAX: int := 0x7fff_ffff_ffff_ffff

  predicate IsDigit(c: char) {
    '0' <= c <= '9'
  }

  /** The regular expression [0-9]+ matches all of s. */
  predicate IsDigits(s: string) {
    |s| > 0 && forall i :: 0 <= i < |s| ==> IsDigit(s[i])
  }

  function DigitValue(c: char): nat
    requires IsDigit(c)
  {
    c as int - '0' as int
  }

  function DigitChar(d: nat): (c: char)
    requires d < 10
    ensures IsDigit(c) && DigitValue(c) == d
  {
    ('0' as int + d) as char
  }

  /** The value of a string of decimal digits, most significant first. */
  function DigitsValue(s: string): nat
    requires forall i :: 0 <= i < |s| ==> IsDigit(s[i])
  {
    if s == [] then 0 else DigitsValue(s[..|s| - 1]) * 10 + DigitValue(s[|s| - 1])
  }

  /** Decimal notation of a natural number, without leading zeros. */
  function NatToString(n: nat): string
  {
    if n < 10 then [DigitChar(n)] else NatToString(n / 10) + [DigitChar(n % 10)]
  }

  /** Decimal notation of an integer, as Integer.toString and Long.toString write it. */
  function IntToString(i: int): string
  {
    if i < 0 then "-" + NatToString(-i) else NatToString(i)
  }

  /** The decimal notation of n is a digit string whose value is n. */
  lemma {:induction false} NatToStringDigits(n: nat)
    ensures IsDigits(NatToString(n))
    ensures DigitsValue(NatToString(n)) == n
  {
    if n >= 10 {
      NatToStringDigits(n / 10);
      var s := NatToString(n);
      assert s[..|s| - 1] == NatToString(n / 10);
    }
  }

  /** Different numbers have different decimal notations. */
  lemma NatToStringInjective(m: nat, n: nat)
    requires NatToString(m) == NatToString(n)
    ensures m == n
  {
    NatToStringDigits(m);
    NatToStringDigits(n);
  }

  /** A decimal notation never contains a minus sign. */
  lemma NatToStringNoSign(n: nat)
    ensures '-' !in NatToString(n)
  {
    NatToStringDigits(n);
  }

  /**
   * Integer.parseInt / Long.parseLong in radix 10, for values between lo
   * and hi: an optional sign and at least one digit; anything else, or a
   * value out of range, is a NumberFormatException (None here).
   */
  function ParseDecimal(s: string, lo: int, hi: int): (r: Option<int>)
    ensures r.Some? ==> lo <= r.value <= hi
  {
    var negative := |s| > 0 && s[0] == '-';
    var digits := if |s| > 0 && (s[0] == '-' || s[0] == '+') then s[1..] else s;
    if !IsDigits(digits) then None
    else
      var v: int := if negative then 0 - DigitsValue(digits) as int else DigitsValue(digits);
      if lo <= v <= hi then Some(v) else None
  }

  /** Integer.parseInt(s, 10). */
  function ParseInt(s: string): (r: Option<int>)
    ensures r.Some? ==> INT_MIN <= r.value <= INT_MAX
  {
    ParseDecimal(s, INT_MIN, INT_MAX)
  }

  /** Long.parseLong(s). */
  function ParseLong(s: string): (r: Option<int>)
    ensures r.Some? ==> LONG_MIN <= r.value <= LONG_MAX
  {
    ParseDecimal(s, LONG_MIN, LONG_MAX)
  }

  /** Parsing a digit string gives its value, when that value is in range. */
  lemma ParseDigits(s: string, lo: int, hi: int)
    requires IsDigits(s) && lo <= DigitsValue(s) <= hi
    ensures ParseDecimal(s, lo, hi) == Some(DigitsValue(s) as int)
  {
    assert s[0] != '-' && s[0] != '+';
  }

  /** Parsing a minus sign before a digit string gives the negated value, when in range. */
  lemma ParseNegatedDigits(s: string, lo: int, hi: int)
    requires IsDigits(s) && lo <= 0 - DigitsValue(s) <= hi
    ensures ParseDecimal("-" + s, lo, hi) == Some(0 - DigitsValue(s))
  {
    var t := "-" + s;
    assert t[0] == '-' && t[1..] == s;
  }

  /** Parsing what IntToString wrote gives the number back. */
  lemma ParseDecimalRoundTrip(v: int, lo: int, hi: int)
    requires lo <= v <= hi
    ensures ParseDecimal(IntToString(v), lo, hi) == Some(v)
  {
    if v < 0 {
      NatToStringDigits(-v);
      ParseNegatedDigits(NatToString(-v), lo, hi);
    } else {
      NatToStringDigits(v);
      ParseDigits(NatToString(v), lo, hi);
    }
  }

  // ---------------------------------------------------------------------
  // Java int arithmetic

  /** The int that Java's 32-bit two's-complement arithmetic leaves for x. */
  function WrapInt(x: int): (r: int)
    ensures INT_MIN <= r <= INT_MAX
    ensures (r - x) % 0x1_0000_0000 == 0
  {
    var m := x % 0x1_0000_0000;
    if m > INT_MAX then m - 0x1_0000_0000 else m
  }

  // ---------------------------------------------------------------------
  // UTF-16, as a Java String holds its characters

  /** The UTF-16 code units of a character: itself below U+10000, else a surrogate pair. */
  function Utf16Units(c: char): (u: seq<int>)
    ensures |u| == (if c as int < 0x1_0000 then 1 else 2)
    ensures forall i :: 0 <= i < |u| ==> 0 <= u[i] < 0x1_0000
  {
    var v := c as int;
    if v < 0x1_0000 then [v]
    else [0xD800 + (v - 0x1_0000) / 0x400, 0xDC00 + (v - 0x1_0000) % 0x400]
  }

  /** A surrogate pair is a high surrogate, then a low one, that together give the character back. */
  lemma Utf16UnitsDecode(c: char)
    requires c as int >= 0x1_0000
    ensures var u := Utf16Units(c);
      0xD800 <= u[0] < 0xDC00 && 0xDC00 <= u[1] < 0xE000 &&
      0x1_0000 + (u[0] - 0xD800) * 0x400 + (u[1] - 0xDC00) == c as int
  {
  }

  /** The code units of a string, the sequence String.charAt walks. */
  function Utf16(s: string): (u: seq<int>)
    ensures |u| >= |s|
  {
    if s == [] then [] else Utf16(s[..|s| - 1]) + Utf16Units(s[|s| - 1])
  }

  /** The polynomial hash of a sequence of code units: u[0]*31^(n-1) + ... + u[n-1], in int arithmetic. */
  function HashUnits(u: seq<int>): (h: int)
    ensures INT_MIN <= h <= INT_MAX
  {
    if u == [] then 0 else WrapInt(31 * HashUnits(u[..|u| - 1]) + u[|u| - 1])
  }

  /** String.hashCode: the hash of the string's UTF-16 code units. */
  function StringHashCode(s: string): (h: int)
    ensures INT_MIN <= h <= INT_MAX
  {
    HashUnits(Utf16(s))
  }

  /** Appending a character below U+10000 takes one step of the hash, on the character itself. */
  lemma {:induction false} StringHashCodeAppendBmp(s: string, c: char)
    requires c as int < 0x1_0000
    ensures StringHashCode(s + [c]) == WrapInt(31 * StringHashCode(s) + c as int)
  {
    var w := Utf16(s);
    Utf16Snoc(s, c);
    assert w + Utf16Units(c) == w + [c as int];
    HashUnitsSnoc(w, c as int);
  }

  /** Appending a character above U+FFFF takes two steps of the hash, one per surrogate. */
  lemma {:induction false} StringHashCodeAppendPair(s: string, c: char)
    requires c as int >= 0x1_0000
    ensures var u := Utf16Units(c);
      StringHashCode(s + [c]) == WrapInt(31 * WrapInt(31 * StringHashCode(s) + u[0]) + u[1])
  {
    var w, u := Utf16(s), Utf16Units(c);
    assert StringHashCode(s + [c]) == HashUnits(w + [u[0], u[1]]) by {
      Utf16Snoc(s, c);
      assert u == [u[0], u[1]];
    }
    assert HashUnits(w + [u[0], u[1]]) == WrapInt(31 * WrapInt(31 * HashUnits(w) + u[0]) + u[1]) by {
      HashUnitsSnoc2(w, u[0], u[1]);
    }
    assert StringHashCode(s) == HashUnits(w);
  }

  lemma {:induction false} Utf16Snoc(s: string, c: char)
    ensures Utf16(s + [c]) == Utf16(s) + Utf16Units(c)
  {
    assert (s + [c])[..|s|] == s;
  }

  lemma {:induction false} HashUnitsSnoc2(w: seq<int>, x: int, y: int)
    ensures HashUnits(w + [x, y]) == WrapInt(31 * WrapInt(31 * HashUnits(w) + x) + y)
  {
    assert w + [x, y] == (w + [x]) + [y];
    HashUnitsSnoc(w, x);
    HashUnitsSnoc(w + [x], y);
  }

  lemma {:induction false} HashUnitsSnoc(w: seq<int>, x: int)
    ensures HashUnits(w + [x]) == WrapInt(31 * HashUnits(w) + x)
  {
    assert (w + [x])[..|w|] == w;
  }
}
