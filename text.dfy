/** ASCII renderings of the Python string operations the core uses:
    `str.strip()`, `str.lower()`, `startswith`, the `in` substring test,
    `isdigit()` and decimal rendering of integers. Unicode case folding and
    Unicode whitespace/digits are out of scope. */
module Text {

  /** Python's `str.strip()` removes these characters (the ASCII part of its
      whitespace set). */
  predicate IsSpace(c: char) {
    c == ' ' || c == '\t' || c == '\n' || c == '\r' || c == '\U{000B}' || c == '\U{000C}'
    || c == '\U{001C}' || c == '\U{001D}' || c == '\U{001E}' || c == '\U{001F}'
  }

  function StripLeft(s: string): (r: string)
    ensures |r| <= |s| && r == s[|s| - |r|..]
    ensures r != [] ==> !IsSpace(r[0])
    ensures forall i :: 0 <= i < |s| - |r| ==> IsSpace(s[i])
  {
    if s != [] && IsSpace(s[0]) then StripLeft(s[1..]) else s
  }

  function StripRight(s: string): (r: string)
    ensures |r| <= |s| && r == s[..|r|]
    ensures r != [] ==> !IsSpace(r[|r| - 1])
    ensures forall i :: |r| <= i < |s| ==> IsSpace(s[i])
  {
    if s != [] && IsSpace(s[|s| - 1]) then StripRight(s[..|s| - 1]) else s
  }

  /** `s.strip()` */
  function Strip(s: string): string {
    StripRight(StripLeft(s))
  }

  /** `s.strip()` is empty exactly when `s` is all whitespace. */
  lemma StripEmptyIffBlank(s: string)
    ensures Strip(s) == [] <==> forall i :: 0 <= i < |s| ==> IsSpace(s[i])
  {
  }

  function LowerChar(c: char): char {
    if 'A' <= c <= 'Z' then (c as int + 32) as char else c
  }

  /** `s.lower()` on ASCII letters. */
  function Lower(s: string): (r: string)
    ensures |r| == |s|
    ensures forall i :: 0 <= i < |s| ==> r[i] == LowerChar(s[i])
  {
    if s == [] then [] else [LowerChar(s[0])] + Lower(s[1..])
  }

  /** `s.lower().strip()`, the key both name matchers compare. */
  function LowerStrip(s: string): string {
    Strip(Lower(s))
  }

  /** Text without capital letters is its own lower-cased form. */
  lemma LowerNoCapitals(s: string)
    requires forall i :: 0 <= i < |s| ==> !('A' <= s[i] <= 'Z')
    ensures Lower(s) == s
  {
  }

  lemma LowerIdempotent(s: string)
    ensures Lower(Lower(s)) == Lower(s)
  {
  }

  lemma LowerAppend(a: string, b: string)
    ensures Lower(a + b) == Lower(a) + Lower(b)
  {
    assert forall i :: 0 <= i < |a + b| ==> Lower(a + b)[i] == (Lower(a) + Lower(b))[i];
  }

  lemma {:induction false} StripLeftPadded(x: string, rest: string)
    requires forall i :: 0 <= i < |x| ==> IsSpace(x[i])
    requires rest != [] ==> !IsSpace(rest[0])
    ensures StripLeft(x + rest) == rest
  {
    if x == [] {
      assert x + rest == rest;
    } else {
      assert (x + rest)[1..] == x[1..] + rest;
      StripLeftPadded(x[1..], rest);
    }
  }

  lemma {:induction false} StripRightPadded(rest: string, y: string)
    requires forall i :: 0 <= i < |y| ==> IsSpace(y[i])
    requires rest != [] ==> !IsSpace(rest[|rest| - 1])
    ensures StripRight(rest + y) == rest
  {
    if y == [] {
      assert rest + y == rest;
    } else {
      assert (rest + y)[..|rest + y| - 1] == rest + y[..|y| - 1];
      StripRightPadded(rest, y[..|y| - 1]);
    }
  }

  /** Surrounding whitespace is what `strip` removes. */
  lemma StripPadded(x: string, m: string, y: string)
    requires forall i :: 0 <= i < |x| ==> IsSpace(x[i])
    requires forall i :: 0 <= i < |y| ==> IsSpace(y[i])
    requires m != [] ==> !IsSpace(m[0]) && !IsSpace(m[|m| - 1])
    ensures Strip(x + m + y) == m
  {
    if m == [] {
      assert x + m + y == x + y;
      StripEmptyIffBlank(x + y);
    } else {
      assert x + m + y == x + (m + y);
      StripLeftPadded(x, m + y);
      StripRightPadded(m, y);
    }
  }

  /** The characters `lstrip` removes are a blank prefix. */
  lemma LeftMargin(s: string) returns (x: string)
    ensures s == x + StripLeft(s)
    ensures forall i :: 0 <= i < |x| ==> IsSpace(x[i])
  {
    var k := |s| - |StripLeft(s)|;
    x := s[..k];
    SplitAt(s, k);
    assert forall i :: 0 <= i < |x| ==> x[i] == s[i];
  }

  /** The characters `rstrip` removes are a blank suffix. */
  lemma RightMargin(s: string) returns (y: string)
    ensures s == StripRight(s) + y
    ensures forall i :: 0 <= i < |y| ==> IsSpace(y[i])
  {
    var k := |StripRight(s)|;
    y := s[k..];
    SplitAt(s, k);
    assert forall i :: 0 <= i < |y| ==> y[i] == s[k + i];
  }

  lemma SplitAt(s: string, k: nat)
    requires k <= |s|
    ensures s[..k] + s[k..] == s
  {
  }

  /** `strip` cuts `s` into blank margins around its result. */
  lemma StripSplits(s: string) returns (x: string, y: string)
    ensures s == x + Strip(s) + y
    ensures forall i :: 0 <= i < |x| ==> IsSpace(x[i])
    ensures forall i :: 0 <= i < |y| ==> IsSpace(y[i])
  {
    x := LeftMargin(s);
    y := RightMargin(StripLeft(s));
    Regroup(s, x, StripLeft(s), Strip(s), y);
  }

  lemma Regroup(s: string, x: string, l: string, t: string, y: string)
    requires s == x + l && l == t + y
    ensures s == x + t + y
  {
  }

  /** A non-empty `strip` result starts and ends with a non-blank. */
  lemma StripEnds(s: string)
    ensures Strip(s) != [] ==> !IsSpace(Strip(s)[0]) && !IsSpace(Strip(s)[|Strip(s)| - 1])
  {
    var l := StripLeft(s);
    if Strip(s) != [] {
      assert Strip(s)[0] == l[0];
    }
  }

  /** Lower-casing never turns a character into whitespace or back. */
  lemma LowerKeepsSpaces(s: string)
    ensures forall i :: 0 <= i < |s| ==> (IsSpace(Lower(s)[i]) <==> IsSpace(s[i]))
  {
  }

  /** Stripping and lower-casing commute. */
  lemma StripLower(s: string)
    ensures Strip(Lower(s)) == Lower(Strip(s))
  {
    var x, y := StripSplits(s);
    var t := Strip(s);
    StripEnds(s);
    LowerAppend(x + t, y);
    LowerAppend(x, t);
    LowerKeepsSpaces(x);
    LowerKeepsSpaces(t);
    LowerKeepsSpaces(y);
    StripPadded(Lower(x), Lower(t), Lower(y));
  }

  lemma StripIdempotent(s: string)
    ensures Strip(Strip(s)) == Strip(s)
  {
    var x, y := StripSplits(s);
    StripUnchanged(Strip(s));
  }

  /** The matching key ignores surrounding whitespace and letter case. */
  lemma LowerStripInvariant(s: string)
    ensures LowerStrip(Strip(s)) == LowerStrip(s)
    ensures LowerStrip(Lower(s)) == LowerStrip(s)
  {
    StripLower(s);
    StripLower(Strip(s));
    StripIdempotent(s);
    LowerIdempotent(s);
  }

  predicate StartsWith(s: string, prefix: string) {
    |prefix| <= |s| && s[..|prefix|] == prefix
  }

  /** Python's `needle in haystack` on strings. */
  predicate Contains(haystack: string, needle: string)
    decreases |haystack|
  {
    StartsWith(haystack, needle) || (haystack != [] && Contains(haystack[1..], needle))
  }

  /** `needle` occurs in `haystack` starting at offset `i`. */
  predicate OccursAt(haystack: string, needle: string, i: int) {
    0 <= i <= |haystack| - |needle| && haystack[i..i + |needle|] == needle
  }

  lemma SliceOfTail(s: string, i: int, j: int)
    requires 1 <= i <= j <= |s|
    ensures s[i..j] == s[1..][i - 1..j - 1]
  {
    assert forall k :: 0 <= k < j - i ==> s[i..j][k] == s[1..][i - 1..j - 1][k];
  }

  /** `Contains` is the usual "occurs at some offset" relation. */
  lemma {:induction false} ContainsIff(haystack: string, needle: string)
    ensures Contains(haystack, needle) <==> exists i :: OccursAt(haystack, needle, i)
    decreases |haystack|
  {
    if StartsWith(haystack, needle) {
      assert OccursAt(haystack, needle, 0);
    } else if haystack != [] {
      var tail := haystack[1..];
      ContainsIff(tail, needle);
      if Contains(tail, needle) {
        var i :| OccursAt(tail, needle, i);
        SliceOfTail(haystack, i + 1, i + 1 + |needle|);
        assert OccursAt(haystack, needle, i + 1);
      } else {
        forall i | 0 <= i <= |haystack| - |needle|
          ensures !OccursAt(haystack, needle, i)
        {
          if i > 0 {
            SliceOfTail(haystack, i, i + |needle|);
            assert !OccursAt(tail, needle, i - 1);
          } else {
            assert haystack[..|needle|] == haystack[0..0 + |needle|];
          }
        }
      }
    } else {
      assert forall i :: !OccursAt(haystack, needle, i);
    }
  }

  /** Every slice of the haystack is contained in it. */
  lemma SliceContained(s: string, i: nat, j: nat)
    requires i <= j <= |s|
    ensures Contains(s, s[i..j])
  {
    ContainsIff(s, s[i..j]);
    assert OccursAt(s, s[i..j], i);
  }

  /** `s.strip()` is a substring of `s`. */
  lemma StripContained(s: string)
    ensures Contains(s, Strip(s))
  {
    var l := StripLeft(s);
    var r := Strip(s);
    var a := |s| - |l|;
    assert l == s[a..] && r == l[..|r|];
    PrefixOfSuffix(s, a, |r|);
    var slice := s[a..a + |r|];
    assert r == slice;
    SliceContained(s, a, a + |r|);
    assert Contains(s, slice);
  }

  lemma PrefixOfSuffix(s: string, a: nat, m: nat)
    requires a + m <= |s|
    ensures s[a..][..m] == s[a..a + m]
  {
  }

  /** Every character of a contained needle occurs in the haystack; used to
      show that a keyword is absent from a given text. */
  lemma ContainsKeepsChars(haystack: string, needle: string, c: char)
    requires c in needle
    ensures Contains(haystack, needle) ==> c in haystack
  {
    if Contains(haystack, needle) {
      ContainsIff(haystack, needle);
      var i :| OccursAt(haystack, needle, i);
      var k :| 0 <= k < |needle| && needle[k] == c;
      assert haystack[i + k] == c;
    }
  }

  /** `s.strip()` leaves a string alone that neither starts nor ends with
      whitespace. */
  lemma StripUnchanged(s: string)
    requires s != [] ==> !IsSpace(s[0]) && !IsSpace(s[|s| - 1])
    ensures Strip(s) == s
  {
  }

  /** The empty string is contained in every string. */
  lemma EmptyContained(s: string)
    ensures Contains(s, "")
  {
    assert StartsWith(s, "");
  }

  predicate IsDigit(c: char) {
    '0' <= c <= '9'
  }

  predicate AllDigits(s: string) {
    forall i :: 0 <= i < |s| ==> IsDigit(s[i])
  }

  function DigitValue(c: char): (d: nat)
    requires IsDigit(c)
    ensures d < 10
  {
    c as int - '0' as int
  }

  function DigitChar(d: nat): (c: char)
    requires d < 10
    ensures IsDigit(c) && DigitValue(c) == d
  {
    ('0' as int + d) as char
  }

  function Pow10(n: nat): (p: nat)
    ensures p >= 1
  {
    if n == 0 then 1 else 10 * Pow10(n - 1)
  }

  /** The number a string of decimal digits denotes: `int(s)`. */
  function DigitsValue(s: string): nat
    requires AllDigits(s)
  {
    if s == [] then 0 else 10 * DigitsValue(s[..|s| - 1]) + DigitValue(s[|s| - 1])
  }

  lemma AllDigitsConcat(a: string, b: string)
    requires AllDigits(a) && AllDigits(b)
    ensures AllDigits(a + b)
  {
    assert forall i :: |a| <= i < |a + b| ==> (a + b)[i] == b[i - |a|];
  }

  /** Dropping the last digit of `a + b` drops the last digit of `b`. */
  lemma DigitsValueSnoc(a: string, b: string)
    requires AllDigits(a) && AllDigits(b) && b != []
    ensures AllDigits(a + b) && AllDigits(a + b[..|b| - 1])
    ensures DigitsValue(a + b) == 10 * DigitsValue(a + b[..|b| - 1]) + DigitValue(b[|b| - 1])
  {
    AllDigitsConcat(a, b);
    assert (a + b)[..|a + b| - 1] == a + b[..|b| - 1];
  }

  lemma {:induction false} DigitsValueAppend(a: string, b: string)
    requires AllDigits(a) && AllDigits(b)
    ensures AllDigits(a + b)
    ensures DigitsValue(a + b) == DigitsValue(a) * Pow10(|b|) + DigitsValue(b)
    decreases |b|
  {
    if b == [] {
      assert a + b == a;
    } else {
      var b' := b[..|b| - 1];
      DigitsValueSnoc(a, b);
      DigitsValueAppend(a, b');
      var x, p, y, d := DigitsValue(a), Pow10(|b'|), DigitsValue(b'), DigitValue(b[|b| - 1]);
      assert DigitsValue(b) == 10 * y + d;
      ShiftDigit(x, p, y, d);
    }
  }

  /** The shortest decimal rendering of `n` with no leading zeros, as `str(n)`. */
  function NatToDigits(n: nat): (s: string)
    ensures AllDigits(s) && s != []
    ensures DigitsValue(s) == n
  {
    if n < 10 then [DigitChar(n)]
    else
      var s := NatToDigits(n / 10) + [DigitChar(n % 10)];
      assert s[..|s| - 1] == NatToDigits(n / 10);
      s
  }

  /** `str(i)` for any Python integer. */
  function IntToString(i: int): (s: string)
    ensures s != []
    ensures i >= 0 ==> AllDigits(s) && DigitsValue(s) == i
    ensures i < 0 ==> s[0] == '-' && AllDigits(s[1..]) && DigitsValue(s[1..]) == -i
  {
    if i < 0 then "-" + NatToDigits(-i) else NatToDigits(i)
  }

  /** The last `width` decimal digits of `n`, zero padded: `f"{n:0{width}d}"`
      when `n < 10^width`. */
  function PadDigits(n: nat, width: nat): (s: string)
    ensures |s| == width && AllDigits(s)
  {
    if width == 0 then [] else PadDigits(n / 10, width - 1) + [DigitChar(n % 10)]
  }

  lemma {:induction false} PadDigitsValue(n: nat, width: nat)
    ensures DigitsValue(PadDigits(n, width)) == n % Pow10(width)
  {
    if width > 0 {
      var s := PadDigits(n, width);
      assert s[..|s| - 1] == PadDigits(n / 10, width - 1);
      PadDigitsValue(n / 10, width - 1);
      DivModPow10(n, width - 1);
    }
  }

  /** A number that fits in `width` digits is rendered without loss. */
  lemma PadDigitsSmall(n: nat, width: nat)
    requires n < Pow10(width)
    ensures DigitsValue(PadDigits(n, width)) == n
  {
    PadDigitsValue(n, width);
    ModUnique(n, Pow10(width), 0, n);
  }

  /** n % 10^(k+1) == 10 * ((n / 10) % 10^k) + n % 10 */
  lemma DivModPow10(n: nat, k: nat)
    ensures n % Pow10(k + 1) == 10 * ((n / 10) % Pow10(k)) + n % 10
  {
    var p := Pow10(k);
    var q := (n / 10) / p;
    var r := (n / 10) % p;
    assert n / 10 == q * p + r;
    assert n == 10 * (n / 10) + n % 10;
    assert n == q * (10 * p) + (10 * r + n % 10);
    assert 0 <= 10 * r + n % 10 < 10 * p;
    assert Pow10(k + 1) == 10 * p;
    ModUnique(n, 10 * p, q, 10 * r + n % 10);
  }

  lemma ShiftDigit(x: int, p: int, y: int, d: int)
    ensures 10 * (x * p + y) + d == x * (10 * p) + (10 * y + d)
  {
  }

  lemma ModUnique(n: nat, m: nat, q: int, r: int)
    requires m > 0 && n == q * m + r && 0 <= r < m
    ensures n % m == r
  {
    var q0, r0 := n / m, n % m;
    assert (q - q0) * m == r0 - r;
    if q - q0 >= 1 {
      MulAtLeast(q - q0, m);
    } else if q0 - q >= 1 {
      MulAtLeast(q0 - q, m);
    }
  }

  lemma MulAtLeast(k: int, m: nat)
    requires k >= 1
    ensures k * m >= m
  {
  }

  /** A fixed-width digit string is recovered from its value. */
  lemma {:induction false} PadDigitsOfValue(s: string)
    requires AllDigits(s)
    ensures PadDigits(DigitsValue(s), |s|) == s
  {
    if s != [] {
      var s' := s[..|s| - 1];
      var v := DigitsValue(s);
      PadDigitsOfValue(s');
      assert v / 10 == DigitsValue(s');
      assert v % 10 == DigitValue(s[|s| - 1]);
      assert DigitChar(DigitValue(s[|s| - 1])) == s[|s| - 1];
      assert s == s' + [s[|s| - 1]];
    }
  }
}
