/** The shared parsing helpers of data/services/data_parsing.py: text dates to
    datetimes and numeric text to exact decimals, both returning `None`
    instead of raising. */
module DataParsing {
  import opened Wrappers
  import opened Text
  import opened Calendar

  /** Python's `decimal.Decimal` for finite values: sign, integer coefficient
      and a non-positive exponent written as `scale` (value = ±coefficient /
      10^scale). The sign of zero is kept, as `Decimal('-0')` keeps it. */
  datatype Decimal = Decimal(negative: bool, coefficient: nat, scale: nat) {

    /** The exact number the decimal stands for. */
    function Value(): real {
      (if negative then -1.0 else 1.0) * (coefficient as real / Pow10(scale) as real)
    }

    /** `d < 0` */
    predicate IsNegative() {
      negative && coefficient > 0
    }
  }

  /** `Decimal(0)` */
  const Zero: Decimal := Decimal(false, 0, 0)

  /** The comparison `d < 0` agrees with the exact value. */
  lemma IsNegativeMeansBelowZero(d: Decimal)
    ensures d.IsNegative() <==> d.Value() < 0.0
  {
    var q := d.coefficient as real / Pow10(d.scale) as real;
    assert d.coefficient > 0 ==> q > 0.0;
    assert d.coefficient == 0 ==> q == 0.0;
  }

  // ----- parse_date ---------------------------------------------------------

  /** `datetime.strptime(s, "%Y-%m-%d")` over the zero-padded grammar
      DDDD-DD-DD; `None` where strptime raises ValueError (wrong shape, or a
      date the calendar does not have). */
  function ParseDateText(s: string): Option<DateTime> {
    if |s| == 10 && s[4] == '-' && s[7] == '-'
       && AllDigits(s[..4]) && AllDigits(s[5..7]) && AllDigits(s[8..])
    then
      var y, m, d := DigitsValue(s[..4]), DigitsValue(s[5..7]), DigitsValue(s[8..]);
      if IsValidDate(y, m, d) then Some(Midnight(y, m, d)) else None
    else None
  }

  /** parse_date: `None` for `None` and for "", otherwise the strptime result,
      with a failed parse turned into `None`. */
  function ParseDate(s: Option<string>): (r: Option<DateTime>)
    ensures (s == None || s == Some("")) ==> r == None
    ensures r.Some? ==> IsValid(r.value) && r.value == Midnight(r.value.year, r.value.month, r.value.day)
  {
    if s == None || s.value == "" then None else ParseDateText(s.value)
  }

  /** Year, month and day written as YYYY-MM-DD, zero padded. */
  function FormatFields(y: nat, m: nat, d: nat): string {
    PadDigits(y, 4) + "-" + PadDigits(m, 2) + "-" + PadDigits(d, 2)
  }

  /** `t.strftime("%Y-%m-%d")` */
  function FormatDate(t: DateTime): string
    requires IsValidDate(t.year, t.month, t.day)
  {
    FormatFields(t.year, t.month, t.day)
  }

  /** Any four-digit year with two-digit month and day parses exactly when it
      is a real calendar date, and then to that date at midnight. */
  lemma ParseFields(y: nat, m: nat, d: nat)
    requires y < 10000 && m < 100 && d < 100
    ensures ParseDate(Some(FormatFields(y, m, d)))
         == if IsValidDate(y, m, d) then Some(Midnight(y, m, d)) else None
  {
    var s := FormatFields(y, m, d);
    var ys, ms, ds := PadDigits(y, 4), PadDigits(m, 2), PadDigits(d, 2);
    assert s == ys + "-" + ms + "-" + ds;
    assert |s| == 10 && s[4] == '-' && s[7] == '-';
    assert s[..4] == ys && s[5..7] == ms && s[8..] == ds;
    assert Pow10(2) == 100;
    assert Pow10(4) == 10000;
    PadDigitsSmall(y, 4);
    PadDigitsSmall(m, 2);
    PadDigitsSmall(d, 2);
    assert DigitsValue(ys) == y && DigitsValue(ms) == m && DigitsValue(ds) == d;
    assert ParseDateText(s) == if IsValidDate(y, m, d) then Some(Midnight(y, m, d)) else None;
  }

  /** Every real calendar date written as YYYY-MM-DD parses back to that date
      at midnight. */
  lemma ParseFormattedDate(t: DateTime)
    requires IsValidDate(t.year, t.month, t.day)
    ensures ParseDate(Some(FormatDate(t))) == Some(Midnight(t.year, t.month, t.day))
  {
    ParseFields(t.year, t.month, t.day);
  }

  /** Conversely, only the canonical rendering of a date parses: the text is
      recovered from the parsed date. */
  lemma ParsedDateFormatsBack(s: string)
    requires ParseDate(Some(s)).Some?
    ensures FormatDate(ParseDate(Some(s)).value) == s
  {
    var y, m, d := s[..4], s[5..7], s[8..];
    PadDigitsOfValue(y);
    PadDigitsOfValue(m);
    PadDigitsOfValue(d);
    assert s == y + "-" + m + "-" + d;
  }

  /** The value of a two-digit string. */
  lemma TwoDigitsValue(s: string)
    requires |s| == 2 && AllDigits(s)
    ensures DigitsValue(s) == 10 * DigitValue(s[0]) + DigitValue(s[1])
  {
    var t := s[..1];
    assert t[..0] == [] && t[0] == s[0];
    assert DigitsValue(t) == DigitValue(s[0]);
  }

  /** The value of a four-digit string. */
  lemma FourDigitsValue(s: string)
    requires |s| == 4 && AllDigits(s)
    ensures DigitsValue(s) == 1000 * DigitValue(s[0]) + 100 * DigitValue(s[1]) + 10 * DigitValue(s[2]) + DigitValue(s[3])
  {
    TwoDigitsValue(s[..2]);
    assert s[..3][..2] == s[..2];
  }

  /** The documented example: "2024-08-30" is 2024-08-30 at midnight. */
  lemma ParseDateExample()
    ensures ParseDate(Some("2024-08-30")) == Some(DateTime(2024, 8, 30, 0, 0, 0, 0))
  {
    var s := "2024-08-30";
    FourDigitsValue(s[..4]);
    TwoDigitsValue(s[5..7]);
    TwoDigitsValue(s[8..]);
    assert IsValidDate(2024, 8, 30);
  }

  /** Impossible dates and non-dates are `None`, not an exception. */
  lemma ParseDateRejects()
    ensures ParseDate(Some("2023-02-29")) == None
    ensures ParseDate(Some("invalid")) == None
  {
    var s := "2023-02-29";
    FourDigitsValue(s[..4]);
    TwoDigitsValue(s[5..7]);
    TwoDigitsValue(s[8..]);
    assert !IsValidDate(2023, 2, 29);
  }

  // ----- parse_decimal ------------------------------------------------------

  /** Index of the first '.', or |s| when there is none. */
  function DotIndex(s: string): (i: nat)
    ensures i <= |s|
    ensures i < |s| ==> s[i] == '.'
    ensures forall k :: 0 <= k < i ==> s[k] != '.'
  {
    if s == [] then 0 else if s[0] == '.' then 0 else 1 + DotIndex(s[1..])
  }

  /** An unsigned decimal: digits with at most one '.', and at least one
      digit (`5`, `5.`, `.5`, `5.25`). */
  function ParseUnsigned(negative: bool, s: string): Option<Decimal> {
    var i := DotIndex(s);
    var whole := s[..i];
    var fraction := if i < |s| then s[i + 1..] else "";
    if AllDigits(whole) && AllDigits(fraction) && |whole| + |fraction| > 0 then
      DigitsValueAppend(whole, fraction);
      Some(Decimal(negative, DigitsValue(whole + fraction), |fraction|))
    else None
  }

  /** `Decimal(s)` on text without surrounding whitespace: an optional sign
      then an unsigned decimal; `None` where Decimal raises. */
  function ParseDecimalText(s: string): Option<Decimal> {
    if s != [] && (s[0] == '-' || s[0] == '+') then ParseUnsigned(s[0] == '-', s[1..])
    else ParseUnsigned(false, s)
  }

  /** parse_decimal: `None` for `None`, "" and blank text; otherwise
      `Decimal(s)` (which ignores surrounding whitespace), with a failed
      conversion turned into `None`. */
  function ParseDecimal(s: Option<string>): (r: Option<Decimal>)
    ensures s == None || s == Some("") ==> r == None
    ensures s.Some? && (forall i :: 0 <= i < |s.value| ==> IsSpace(s.value[i])) ==> r == None
  {
    StripEmptyIffBlank(if s.Some? then s.value else "");
    if s == None || s.value == "" || Strip(s.value) == "" then None
    else ParseDecimalText(Strip(s.value))
  }

  /** `k` zeros. */
  function Zeros(k: nat): (z: string)
    ensures |z| == k && AllDigits(z) && DigitsValue(z) == 0
  {
    if k == 0 then [] else
      var z := Zeros(k - 1) + "0";
      assert z[..|z| - 1] == Zeros(k - 1);
      z
  }

  /** The coefficient's digits, left padded with zeros so there is at least
      one digit before the point. */
  function PaddedDigits(d: Decimal): (s: string)
    ensures AllDigits(s) && |s| > d.scale && DigitsValue(s) == d.coefficient
  {
    var digits := NatToDigits(d.coefficient);
    if |digits| <= d.scale then
      DigitsValueAppend(Zeros(d.scale + 1 - |digits|), digits);
      Zeros(d.scale + 1 - |digits|) + digits
    else digits
  }

  /** Positional rendering of a decimal, `format(d, "f")`: the sign, the
      integer digits, and for a positive scale a point followed by exactly
      `scale` fraction digits. */
  function FormatDecimal(d: Decimal): string {
    (if d.negative then "-" else "") + FormattedDigits(d)
  }

  /** The unsigned part of `FormatDecimal`: the padded digits, with the
      point before the last `scale` of them when `scale` is positive. */
  function FormattedDigits(d: Decimal): string {
    var s := PaddedDigits(d);
    var k := |s| - d.scale;
    if d.scale == 0 then s else s[..k] + "." + s[k..]
  }

  /** A digit string with a point inserted after its first `k` digits reads
      as that string's value with `|p| - k` fraction digits. */
  lemma {:induction false} UnsignedWithPoint(negative: bool, p: string, k: nat)
    requires AllDigits(p) && p != [] && k <= |p|
    ensures ParseUnsigned(negative, p[..k] + "." + p[k..])
         == Some(Decimal(negative, DigitsValue(p), |p| - k))
  {
    var s := p[..k] + "." + p[k..];
    assert s[k] == '.';
    assert forall j :: 0 <= j < k ==> s[j] == p[j];
    assert DotIndex(s) == k;
    assert s[..k] == p[..k] && s[k + 1..] == p[k..];
    assert p[..k] + p[k..] == p;
  }

  /** All digits and no point: an integer. */
  lemma {:induction false} UnsignedWithoutPoint(negative: bool, w: string)
    requires AllDigits(w) && |w| > 0
    ensures ParseUnsigned(negative, w) == Some(Decimal(negative, DigitsValue(w), 0))
  {
    assert DotIndex(w) == |w|;
    assert w[..|w|] == w && w + "" == w;
  }

  /** The parse of a sign-prefixed text. */
  lemma SignedText(negative: bool, body: string)
    requires body != [] && body[0] != '-' && body[0] != '+'
    ensures ParseDecimalText((if negative then "-" else "") + body) == ParseUnsigned(negative, body)
  {
    var s := (if negative then "-" else "") + body;
    if negative { assert s[1..] == body; } else { assert s == body; }
  }

  /** Text that neither starts nor ends with whitespace goes straight to
      the Decimal grammar. */
  lemma ParseDecimalUntrimmed(s: string)
    requires s != [] && !IsSpace(s[0]) && !IsSpace(s[|s| - 1])
    ensures ParseDecimal(Some(s)) == ParseDecimalText(s)
  {
    StripUnchanged(s);
  }

  /** The unsigned part of a formatted decimal reads back as the decimal. */
  lemma FormattedBody(d: Decimal)
    ensures ParseUnsigned(d.negative, FormattedDigits(d)) == Some(d)
  {
    var p := PaddedDigits(d);
    if d.scale == 0 {
      assert FormattedDigits(d) == p;
      UnsignedWithoutPoint(d.negative, p);
    } else {
      var k := |p| - d.scale;
      assert FormattedDigits(d) == p[..k] + "." + p[k..];
      UnsignedWithPoint(d.negative, p, k);
    }
  }

  /** Every decimal, written out positionally, parses back to itself:
      sign, coefficient and scale, so no rounding happens. */
  lemma ParseFormattedDecimal(d: Decimal)
    ensures ParseDecimal(Some(FormatDecimal(d))) == Some(d)
  {
    var p := PaddedDigits(d);
    var k := |p| - d.scale;
    var body := FormattedDigits(d);
    var s := FormatDecimal(d);
    assert IsDigit(body[0]) && IsDigit(body[|body| - 1]);
    ParseDecimalUntrimmed(s);
    SignedText(d.negative, body);
    FormattedBody(d);
  }

  /** The documented example: "100000.50" is exactly 100000.50. */
  lemma ParseDecimalExample()
    ensures ParseDecimal(Some("100000.50")) == Some(Decimal(false, 10000050, 2))
    ensures Decimal(false, 10000050, 2).Value() == 100000.50
  {
    ParseDecimalUntrimmed("100000.50");
    ExampleDigits();
    assert Pow10(2) == 100;
  }

  lemma ExampleDigits()
    ensures ParseUnsigned(false, "100000.50") == Some(Decimal(false, 10000050, 2))
  {
    var p := "10000050";
    ExampleCoefficient();
    UnsignedWithPoint(false, p, 6);
    assert p[..6] + "." + p[6..] == "100000.50";
  }

  lemma ExampleCoefficient()
    ensures AllDigits("10000050") && DigitsValue("10000050") == 10000050
  {
    var s := "10000050";
    assert AllDigits(s[..4]) && AllDigits(s[4..]);
    DigitsValueAppend(s[..4], s[4..]);
    assert s[..4] + s[4..] == s;
    FourDigitsValue(s[..4]);
    FourDigitsValue(s[4..]);
    assert Pow10(4) == 10000;
  }

  /** A character that is neither a digit nor the point makes the unsigned
      grammar fail, wherever it stands. */
  lemma UnsignedRejectsStray(negative: bool, s: string, j: nat)
    requires j < |s| && !IsDigit(s[j]) && s[j] != '.'
    ensures ParseUnsigned(negative, s) == None
  {
    var i := DotIndex(s);
    if j < i {
      assert s[..i][j] == s[j];
    } else {
      assert s[i + 1..][j - i - 1] == s[j];
    }
  }

  /** A second point makes the unsigned grammar fail. */
  lemma UnsignedRejectsTwoPoints(negative: bool, s: string, a: nat, b: nat)
    requires a < b < |s| && s[a] == '.' && s[b] == '.'
    ensures ParseUnsigned(negative, s) == None
  {
    var i := DotIndex(s);
    assert s[i + 1..][b - i - 1] == s[b];
  }

  /** A point alone is not a number. */
  lemma UnsignedRejectsBarePoint(negative: bool)
    ensures ParseUnsigned(negative, ".") == None
  {
    assert DotIndex(".") == 0;
  }

  /** Text whose trimmed form holds a stray character (anything but digits,
      one point, and a leading sign) is `None`, not an exception. */
  lemma ParseDecimalRejectsStray(s: string, j: nat)
    requires var t := Strip(s);
             j < |t| && !IsDigit(t[j]) && t[j] != '.' && (j == 0 ==> t[j] != '-' && t[j] != '+')
    ensures ParseDecimal(Some(s)) == None
  {
    var t := Strip(s);
    if t[0] == '-' || t[0] == '+' {
      UnsignedRejectsStray(t[0] == '-', t[1..], j - 1);
    } else {
      UnsignedRejectsStray(false, t, j);
    }
  }

  /** Documented rejections: non-numeric text, a bare point, two points. */
  lemma ParseDecimalRejectsWord()
    ensures ParseDecimal(Some("invalid")) == None
  {
    ParseDecimalUntrimmed("invalid");
    UnsignedRejectsStray(false, "invalid", 0);
  }

  lemma ParseDecimalRejectsBarePoint()
    ensures ParseDecimal(Some(".")) == None
  {
    ParseDecimalUntrimmed(".");
    UnsignedRejectsBarePoint(false);
  }

  lemma ParseDecimalRejectsTwoPoints()
    ensures ParseDecimal(Some("1.2.3")) == None
  {
    ParseDecimalUntrimmed("1.2.3");
    UnsignedRejectsTwoPoints(false, "1.2.3", 1, 3);
  }
}
