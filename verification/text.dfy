/** Character classes, decimal numerals and the handful of JavaScript string
    operations the booking code relies on (`toString`, `substring`, `padStart`,
    `toUpperCase`, `replace(/[^a-zA-Z0-9]/g, '')`, `join`). */
module Text {

  predicate IsDigit(c: char) { '0' <= c <= '9' }
  predicate IsUpper(c: char) { 'A' <= c <= 'Z' }
  predicate IsLower(c: char) { 'a' <= c <= 'z' }

  /** The regular-expression class `[a-zA-Z0-9]`. */
  predicate IsAlnum(c: char) { IsDigit(c) || IsUpper(c) || IsLower(c) }

  /** The class `[A-Z0-9]`: what survives upper-casing an alphanumeric character. */
  predicate IsUpperAlnum(c: char) { IsDigit(c) || IsUpper(c) }

  predicate AllDigits(s: string) { forall i :: 0 <= i < |s| ==> IsDigit(s[i]) }

  function DigitChar(d: nat): (c: char)
    requires d < 10
    ensures IsDigit(c)
  {
    ('0' as int + d) as char
  }

  function DigitValue(c: char): (d: nat)
    requires IsDigit(c)
    ensures d < 10
    ensures DigitChar(d) == c
  {
    c as int - '0' as int
  }

  function Pow10(k: nat): (p: nat)
    ensures p >= 1
  {
    if k == 0 then 1 else 10 * Pow10(k - 1)
  }

  /** `n.toString()` for a non-negative integer below 10^21 (JavaScript switches
      to exponent notation above that): the shortest decimal numeral of `n`. */
  function Decimal(n: nat): (s: string)
    ensures |s| >= 1 && AllDigits(s)
    ensures s[0] == '0' ==> n == 0
    decreases n
  {
    if n < 10 then [DigitChar(n)] else Decimal(n / 10) + [DigitChar(n % 10)]
  }

  /** The number a string of decimal digits denotes; the empty string denotes 0. */
  function Value(s: string): nat
    requires AllDigits(s)
  {
    if s == [] then 0 else Value(s[..|s| - 1]) * 10 + DigitValue(s[|s| - 1])
  }

  /** Reading a numeral back gives the number it was printed from. */
  lemma {:induction false} ValueOfDecimal(n: nat)
    ensures Value(Decimal(n)) == n
    decreases n
  {
    var s := Decimal(n);
    if n >= 10 {
      assert s[..|s| - 1] == Decimal(n / 10);
      ValueOfDecimal(n / 10);
    }
  }

  /** A numeral with `k` digits denotes a number below 10^k. */
  lemma {:induction false} ValueBound(s: string)
    requires AllDigits(s)
    ensures Value(s) < Pow10(|s|)
  {
    if s != [] {
      ValueBound(s[..|s| - 1]);
    }
  }

  /** A numeral whose first digit is not `0` has no redundant leading digit:
      it denotes at least 10^(k-1). */
  lemma {:induction false} ValueLowerBound(s: string)
    requires AllDigits(s) && |s| >= 1 && s[0] != '0'
    ensures Value(s) >= Pow10(|s| - 1)
  {
    if |s| > 1 {
      var init := s[..|s| - 1];
      assert init[0] == s[0];
      ValueLowerBound(init);
    }
  }

  /** Shortest numerals are canonical: printing what a numeral without a leading
      zero denotes gives that numeral back. Together with `ValueOfDecimal` this
      makes `Decimal` and `Value` inverse on canonical numerals. */
  lemma {:induction false} DecimalOfValue(s: string)
    requires AllDigits(s) && |s| >= 1 && (s[0] != '0' || |s| == 1)
    ensures Decimal(Value(s)) == s
  {
    if |s| > 1 {
      var init := s[..|s| - 1];
      assert init[0] == s[0];
      ValueLowerBound(init);
      DecimalOfValue(init);
      var n := Value(s);
      assert n / 10 == Value(init);
      assert n % 10 == DigitValue(s[|s| - 1]);
      assert s == init + [s[|s| - 1]];
    }
  }

  /** A number below 10^k prints with at most `k` digits. */
  lemma {:induction false} DecimalLength(n: nat, k: nat)
    requires k >= 1 && n < Pow10(k)
    ensures |Decimal(n)| <= k
    decreases n
  {
    if n >= 10 {
      DecimalLength(n / 10, k - 1);
    }
  }

  /** The last `k` digits of a numeral denote the number modulo 10^k. */
  lemma {:induction false} ValueOfSuffix(s: string, k: nat)
    requires AllDigits(s) && k <= |s|
    ensures Value(s[|s| - k..]) == Value(s) % Pow10(k)
    decreases k
  {
    var t := s[|s| - k..];
    if k == 0 {
      assert t == [];
    } else {
      var init := s[..|s| - 1];
      var d := DigitValue(s[|s| - 1]);
      assert t[..|t| - 1] == init[|init| - (k - 1)..];
      assert Value(t) == Value(init[|init| - (k - 1)..]) * 10 + d;
      ValueOfSuffix(init, k - 1);
      var p := Pow10(k - 1);
      var q := Value(init) / p;
      var r := Value(init) % p;
      ShiftDigit(Value(init), p, q, r, d);
      ModUnique(Value(s), 10 * p, q, r * 10 + d);
    }
  }

  /** Appending digit `d` to a number `q * p + r` (with `r < p`) splits it as
      `q * (10 * p) + (10 * r + d)`. */
  lemma ShiftDigit(v: nat, p: nat, q: int, r: int, d: nat)
    requires p >= 1 && d < 10 && q == v / p && r == v % p
    ensures v * 10 + d == q * (10 * p) + (r * 10 + d)
    ensures 0 <= r * 10 + d < 10 * p
  {
    assert v == q * p + r;
    calc {
      v * 10 + d;
      (q * p + r) * 10 + d;
      { assert (q * p) * 10 == q * (10 * p); }
      q * (10 * p) + (r * 10 + d);
    }
  }

  lemma ModUnique(x: int, m: int, q: int, r: int)
    requires m > 0 && 0 <= r < m && x == q * m + r
    ensures x % m == r && x / m == q
  {
    var q' := x / m;
    var r' := x % m;
    assert x == q' * m + r';
    var e := q' - q;
    assert e * m == r - r' by {
      assert q' * m - q * m == (q' - q) * m;
    }
    if e >= 1 {
      MulAtLeast(e, m);
    } else if e <= -1 {
      assert (-e) * m == -(e * m);
      MulAtLeast(-e, m);
    }
  }

  lemma MulAtLeast(a: int, m: int)
    requires a >= 1 && m > 0
    ensures a * m >= m
  {
    assert a * m == m + (a - 1) * m;
  }

  /** Numerals of equal length that denote the same number are the same numeral. */
  lemma {:induction false} ValueInjective(s: string, t: string)
    requires AllDigits(s) && AllDigits(t) && |s| == |t| && Value(s) == Value(t)
    ensures s == t
  {
    if s != [] {
      var i := |s| - 1;
      ModUnique(Value(s), 10, Value(s[..i]), DigitValue(s[i]));
      ModUnique(Value(t), 10, Value(t[..i]), DigitValue(t[i]));
      ValueInjective(s[..i], t[..i]);
      assert s == s[..i] + [s[i]] && t == t[..i] + [t[i]];
    }
  }

  /** Leading zeros do not change what a numeral denotes. */
  lemma {:induction false} ValueLeadingZero(s: string)
    requires AllDigits(s)
    ensures AllDigits("0" + s) && Value("0" + s) == Value(s)
    decreases |s|
  {
    var z := "0" + s;
    if s != [] {
      assert z[..|z| - 1] == "0" + s[..|s| - 1];
      ValueLeadingZero(s[..|s| - 1]);
    }
  }

  /** `String.prototype.substring(start, end)`: both bounds are clamped into
      `[0, |s|]` and swapped when `start` exceeds `end`. */
  function Substring(s: string, start: int, end: int): (r: string)
    ensures |r| <= |s|
  {
    var a := Clamp(start, |s|);
    var b := Clamp(end, |s|);
    if a <= b then s[a..b] else s[b..a]
  }

  function Clamp(x: int, hi: nat): (r: nat)
    ensures r <= hi
  {
    if x < 0 then 0 else if x > hi then hi else x
  }

  /** `padStart(width, pad)` with a one-character pad string. */
  function PadStart(s: string, width: nat, pad: char): (r: string)
    ensures |r| == if |s| >= width then |s| else width
    decreases width - |s|
  {
    if |s| >= width then s else PadStart([pad] + s, width, pad)
  }

  /** The padded string is the original behind a run of pad characters. */
  lemma {:induction false} PadStartShape(s: string, width: nat, pad: char)
    ensures var r := PadStart(s, width, pad);
      && r[|r| - |s|..] == s
      && forall i :: 0 <= i < |r| - |s| ==> r[i] == pad
    decreases width - |s|
  {
    if |s| < width {
      PadStartShape([pad] + s, width, pad);
    }
  }

  /** A number printed with `toString().padStart(2, '0')`. */
  function Pad2(n: nat): string {
    PadStart(Decimal(n), 2, '0')
  }

  /** Padding keeps a numeral a numeral of the same value, at least two digits long. */
  lemma Pad2Value(n: nat)
    ensures |Pad2(n)| >= 2 && AllDigits(Pad2(n)) && Value(Pad2(n)) == n
  {
    ValueOfPadStart(Decimal(n), 2);
    ValueOfDecimal(n);
  }

  /** Numbers below 100 pad to exactly two digits and read back unchanged. */
  lemma Pad2Small(n: nat)
    requires n < 100
    ensures |Pad2(n)| == 2 && AllDigits(Pad2(n)) && Value(Pad2(n)) == n
  {
    DecimalLength(n, 2);
    ValueOfPadStart(Decimal(n), 2);
    ValueOfDecimal(n);
  }

  lemma ValueOneDigit(t: string)
    requires |t| == 1 && AllDigits(t)
    ensures Value(t) == DigitValue(t[0])
  {
    assert t[..0] == [];
  }

  lemma ValueTwoDigits(t: string)
    requires |t| == 2 && AllDigits(t)
    ensures Value(t) == 10 * DigitValue(t[0]) + DigitValue(t[1])
  {
    ValueOneDigit(t[..1]);
  }

  /** A two-digit numeral is the padded rendering of the number it denotes. */
  lemma Pad2OfValue(t: string)
    requires |t| == 2 && AllDigits(t)
    ensures Value(t) < 100 && Pad2(Value(t)) == t
  {
    ValueBound(t);
    if t[0] == '0' {
      var u := t[1..];
      assert t == "0" + u;
      ValueLeadingZero(u);
      DecimalOfValue(u);
      assert PadStart(u, 2, '0') == PadStart("0" + u, 2, '0');
    } else {
      DecimalOfValue(t);
    }
  }

  /** Reading a padded numeral back gives the number it was printed from. */
  lemma {:induction false} ValueOfPadStart(s: string, width: nat)
    requires AllDigits(s)
    ensures AllDigits(PadStart(s, width, '0'))
    ensures Value(PadStart(s, width, '0')) == Value(s)
    decreases width - |s|
  {
    if |s| < width {
      ValueLeadingZero(s);
      ValueOfPadStart("0" + s, width);
    }
  }

  /** `toUpperCase` on one character of the class `[a-zA-Z0-9]`. */
  function UpperChar(c: char): (u: char)
    ensures IsAlnum(c) ==> IsUpperAlnum(u)
    ensures IsUpperAlnum(c) ==> u == c
  {
    if IsLower(c) then (c as int - 32) as char else c
  }

  function Upper(s: string): (r: string)
    ensures |r| == |s|
    ensures forall i :: 0 <= i < |s| ==> r[i] == UpperChar(s[i])
  {
    if s == [] then [] else [UpperChar(s[0])] + Upper(s[1..])
  }

  /** `replace(/[^a-zA-Z0-9]/g, '')`: keeps the alphanumeric characters, in order. */
  function KeepAlnum(s: string): (r: string)
    ensures |r| <= |s|
  {
    if s == [] then []
    else if IsAlnum(s[0]) then [s[0]] + KeepAlnum(s[1..])
    else KeepAlnum(s[1..])
  }

  /** Only letters and digits survive the filter. */
  lemma {:induction false} KeepAlnumOnly(s: string)
    ensures forall i :: 0 <= i < |KeepAlnum(s)| ==> IsAlnum(KeepAlnum(s)[i])
  {
    if s != [] {
      KeepAlnumOnly(s[1..]);
    }
  }

  /** The filter seen from position `k`: the character there survives exactly
      when it is a letter or digit. */
  lemma KeepAlnumDrop(s: string, k: nat)
    requires k < |s|
    ensures KeepAlnum(s[k..]) == (if IsAlnum(s[k]) then [s[k]] else []) + KeepAlnum(s[k + 1..])
  {
    assert s[k..][1..] == s[k + 1..];
  }

  /** Removing non-alphanumerics from a concatenation removes them from each part. */
  lemma {:induction false} KeepAlnumAppend(a: string, b: string)
    ensures KeepAlnum(a + b) == KeepAlnum(a) + KeepAlnum(b)
  {
    if a != [] {
      assert (a + b)[1..] == a[1..] + b;
      KeepAlnumAppend(a[1..], b);
    } else {
      assert a + b == b;
    }
  }

  /** A string that is already alphanumeric is left as it is. */
  lemma {:induction false} KeepAlnumFixed(s: string)
    requires forall i :: 0 <= i < |s| ==> IsAlnum(s[i])
    ensures KeepAlnum(s) == s
  {
    if s != [] {
      KeepAlnumFixed(s[1..]);
    }
  }

  /** `Array.prototype.join(sep)` on strings. */
  function Join(parts: seq<string>, sep: string): (r: string)
    ensures |parts| == 1 ==> r == parts[0]
  {
    if parts == [] then ""
    else if |parts| == 1 then parts[0]
    else parts[0] + sep + Join(parts[1..], sep)
  }
}
