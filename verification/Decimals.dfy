/**
Exact finite decimals: what a (sign, digits, exponent) triple is worth, the canonical
printer with its predicted length and bounds, and the wire grammar.
*/
module Decimals {
  import opened Wrappers
  import opened Digits

  const MAX_WIRE_LENGTH: nat := 80
  const MAX_SIGNIFICANT_DIGITS: nat := 80
  const MAX_SCALE: nat := 80
  const MAX_INTEGER_DIGITS: nat := 80

  /** Python's `Decimal.as_tuple()`: digits most significant first, value digits x 10^exponent. */
  datatype Decimal = Decimal(negative: bool, digits: seq<Digit>, exponent: int)

  predicate NoLeadingZero(ds: seq<Digit>) { ds == [] || ds[0] != 0 }

  /** Decimal keeps no leading zeros; zero is the single digit 0 with any exponent. */
  predicate Valid(d: Decimal) { d.digits == [0] || (d.digits != [] && d.digits[0] != 0) }

  /******* Value *******/

  function Number(ds: seq<Digit>): nat {
    if ds == [] then 0 else
      var last: Digit := ds[|ds| - 1];
      10 * Number(ds[..|ds| - 1]) + last
  }

  lemma MulAssoc(x: int, y: int, z: int)
    ensures x * (y * z) == (x * y) * z
  {
  }

  lemma TenTimes(x: int, y: int)
    ensures x * (10 * y) == 10 * (x * y)
  {
  }

  function Signed(negative: bool, n: nat): int { if negative then 0 - n else n }

  /** The value multiplied by 10^scale, at a scale where it is an integer. */
  function Scaled(d: Decimal, scale: nat): int
    requires 0 <= d.exponent + scale
  {
    Signed(d.negative, Number(d.digits) * Pow10(d.exponent + scale))
  }

  function Max(a: int, b: int): int { if a < b then b else a }

  function CommonScale(a: Decimal, b: Decimal): (s: nat)
    ensures 0 <= a.exponent + s && 0 <= b.exponent + s
  {
    Max(0, Max(-a.exponent, -b.exponent))
  }

  /** Numerical equality. */
  predicate SameValue(a: Decimal, b: Decimal) {
    Scaled(a, CommonScale(a, b)) == Scaled(b, CommonScale(a, b))
  }

  predicate IsZero(d: Decimal) { Number(d.digits) == 0 }

  predicate IsPositive(d: Decimal) { !d.negative && !IsZero(d) }

  lemma NegateProduct(x: int, y: int)
    ensures (-x) * y == -(x * y)
  {
  }

  lemma ScaledMore(d: Decimal, scale: nat, more: nat)
    requires 0 <= d.exponent + scale
    ensures Scaled(d, scale + more) == Scaled(d, scale) * Pow10(more)
  {
    Pow10Add(d.exponent + scale, more);
    MulAssoc(Number(d.digits), Pow10(d.exponent + scale), Pow10(more));
    NegateProduct(Number(d.digits) * Pow10(d.exponent + scale), Pow10(more));
  }

  lemma PositiveProduct(x: nat, p: int)
    requires p >= 1
    ensures x * p > 0 <==> x > 0
  {
  }

  lemma PositiveIsPositive(d: Decimal, scale: nat)
    requires 0 <= d.exponent + scale
    ensures IsPositive(d) <==> Scaled(d, scale) > 0
  {
    Pow10Positive(d.exponent + scale);
    PositiveProduct(Number(d.digits), Pow10(d.exponent + scale));
  }

  lemma CancelPower(x: int, y: int, p: int)
    requires p >= 1
    ensures x * p == y * p <==> x == y
  {
  }

  /** Numerical equality may be tested at any common scale. */
  lemma SameValueAtScale(a: Decimal, b: Decimal, scale: nat)
    requires 0 <= a.exponent + scale && 0 <= b.exponent + scale
    ensures SameValue(a, b) <==> Scaled(a, scale) == Scaled(b, scale)
  {
    var common := CommonScale(a, b);
    var more := scale - common;
    ScaledMore(a, common, more);
    ScaledMore(b, common, more);
    Pow10Positive(more);
    CancelPower(Scaled(a, common), Scaled(b, common), Pow10(more));
  }

  lemma SameValueIsTransitive(a: Decimal, b: Decimal, c: Decimal)
    requires SameValue(a, b) && SameValue(b, c)
    ensures SameValue(a, c) && SameValue(b, a)
  {
    var scale := CommonScale(a, b) + CommonScale(b, c);
    SameValueAtScale(a, b, scale);
    SameValueAtScale(b, c, scale);
    SameValueAtScale(a, c, scale);
    SameValueAtScale(b, a, scale);
  }

  /******* Digit strings *******/

  function Zeros(n: nat): (z: seq<Digit>)
    ensures |z| == n && forall i :: 0 <= i < n ==> z[i] == 0
  {
    seq(n, _ => 0)
  }

  function StripTrailing(ds: seq<Digit>): seq<Digit> {
    if ds != [] && ds[|ds| - 1] == 0 then StripTrailing(ds[..|ds| - 1]) else ds
  }

  function StripLeading(ds: seq<Digit>): seq<Digit> {
    if ds != [] && ds[0] == 0 then StripLeading(ds[1..]) else ds
  }

  lemma {:induction false} NumberSnocZeros(ds: seq<Digit>, k: nat)
    ensures Number(ds + Zeros(k)) == Number(ds) * Pow10(k)
  {
    if k == 0 {
      assert ds + Zeros(0) == ds;
    } else {
      NumberSnocZeros(ds, k - 1);
      var all := ds + Zeros(k);
      assert all[..|all| - 1] == ds + Zeros(k - 1) && all[|all| - 1] == 0;
      TenTimes(Number(ds), Pow10(k - 1));
    }
  }

  lemma {:induction false} StripTrailingMeans(ds: seq<Digit>)
    ensures |StripTrailing(ds)| <= |ds| && ds == StripTrailing(ds) + Zeros(|ds| - |StripTrailing(ds)|)
    ensures StripTrailing(ds) == [] || StripTrailing(ds)[|StripTrailing(ds)| - 1] != 0
  {
    if ds != [] && ds[|ds| - 1] == 0 {
      var head := ds[..|ds| - 1];
      StripTrailingMeans(head);
      assert ds == head + [0];
      assert Zeros(|head| - |StripTrailing(head)|) + [0] == Zeros(|ds| - |StripTrailing(head)|);
    } else {
      assert ds + Zeros(0) == ds;
    }
  }

  lemma {:induction false} StripTrailingKeepsFirst(ds: seq<Digit>)
    requires Number(ds) != 0
    ensures StripTrailing(ds) != [] && StripTrailing(ds)[0] == ds[0]
  {
    if ds[|ds| - 1] == 0 { StripTrailingKeepsFirst(ds[..|ds| - 1]); }
  }

  lemma {:induction false} NumberOfLeadingZero(ds: seq<Digit>)
    ensures Number([0] + ds) == Number(ds)
  {
    if ds == [] {
      assert [0] + ds == [0];
      assert [0][..0] == [];
    } else {
      var all := [0] + ds;
      assert all[..|all| - 1] == [0] + ds[..|ds| - 1];
      NumberOfLeadingZero(ds[..|ds| - 1]);
    }
  }

  lemma {:induction false} StripLeadingMeans(ds: seq<Digit>)
    ensures NoLeadingZero(StripLeading(ds)) && |StripLeading(ds)| <= |ds| && Number(StripLeading(ds)) == Number(ds)
  {
    if ds != [] && ds[0] == 0 {
      StripLeadingMeans(ds[1..]);
      NumberOfLeadingZero(ds[1..]);
      assert ds == [0] + ds[1..];
    }
  }

  lemma {:induction false} NumberIsZero(ds: seq<Digit>)
    ensures Number(ds) == 0 <==> forall i :: 0 <= i < |ds| ==> ds[i] == 0
  {
    if ds != [] {
      var last := |ds| - 1;
      NumberIsZero(ds[..last]);
      assert forall i :: 0 <= i < last ==> ds[..last][i] == ds[i];
    }
  }

  /** A number has one digit string without leading zeros. */
  lemma {:induction false} NumberIsInjective(a: seq<Digit>, b: seq<Digit>)
    requires NoLeadingZero(a) && NoLeadingZero(b) && Number(a) == Number(b)
    ensures a == b
  {
    NumberIsZero(a);
    NumberIsZero(b);
    if a != [] && b != [] {
      var a', b' := a[..|a| - 1], b[..|b| - 1];
      assert a[|a| - 1] == Number(a) % 10 && b[|b| - 1] == Number(b) % 10;
      assert Number(a') == Number(a) / 10 && Number(b') == Number(b) / 10;
      NumberIsInjective(a', b');
      assert a == a' + [a[|a| - 1]] && b == b' + [b[|b| - 1]];
    }
  }

  /******* Text *******/

  function FromText(x: string): (ds: seq<Digit>)
    requires IsDigits(x)
    ensures |ds| == |x| && forall i :: 0 <= i < |x| ==> x[i] == DigitChar(ds[i])
  {
    seq(|x|, i requires 0 <= i < |x| => (x[i] as int - '0' as int) as Digit)
  }

  lemma TextRoundTrip(ds: seq<Digit>)
    ensures FromText(ToText(ds)) == ds
  {
    var back := FromText(ToText(ds));
    forall i | 0 <= i < |ds| ensures back[i] == ds[i] { assert DigitChar(back[i]) == DigitChar(ds[i]); }
  }

  lemma DigitsRoundTrip(x: string)
    requires IsDigits(x)
    ensures ToText(FromText(x)) == x
  {
  }

  /** An unsigned decimal text: integer digits and, after a point, fraction digits. */
  datatype Parts = Parts(whole: seq<Digit>, fraction: seq<Digit>)

  predicate PartsOk(p: Parts) { p.whole == [0] || (p.whole != [] && p.whole[0] != 0) }

  function Layout(p: Parts): string {
    ToText(p.whole) + if p.fraction == [] then "" else "." + ToText(p.fraction)
  }

  function LayoutLength(p: Parts): nat { |p.whole| + if p.fraction == [] then 0 else 1 + |p.fraction| }

  function FirstPoint(x: string): (k: nat)
    ensures k <= |x| && (k < |x| ==> x[k] == '.') && forall i :: 0 <= i < k ==> x[i] != '.'
  {
    if x == [] || x[0] == '.' then 0 else 1 + FirstPoint(x[1..])
  }

  /** The unsigned wire grammar: 0 or [1-9][0-9]*, optionally followed by a point and digits. */
  predicate UnsignedWire(x: string) {
    var k := FirstPoint(x);
    && 1 <= k && IsDigits(x[..k]) && (x[0] == '0' ==> k == 1)
    && (k < |x| ==> k + 1 < |x| && IsDigits(x[k + 1..]))
  }

  function ReadParts(x: string): Parts
    requires UnsignedWire(x)
  {
    var k := FirstPoint(x);
    Parts(FromText(x[..k]), if k < |x| then FromText(x[k + 1..]) else [])
  }

  lemma PointOfLayout(p: Parts)
    ensures var x := Layout(p);
            && |x| == LayoutLength(p) && FirstPoint(x) == |p.whole| && x[..|p.whole|] == ToText(p.whole)
            && (p.fraction != [] ==> x[|p.whole| + 1..] == ToText(p.fraction))
  {
    var x, k := Layout(p), FirstPoint(Layout(p));
    assert forall i :: 0 <= i < |p.whole| ==> x[i] == ToText(p.whole)[i] && IsDigit(x[i]);
    assert p.fraction != [] ==> x[|p.whole|] == '.';
  }

  /** Reading a laid-out text gives back its parts, and the text is in the grammar. */
  lemma LayoutRoundTrip(p: Parts)
    requires PartsOk(p)
    ensures UnsignedWire(Layout(p)) && ReadParts(Layout(p)) == p && |Layout(p)| == LayoutLength(p)
  {
    PointOfLayout(p);
    TextRoundTrip(p.whole);
    TextRoundTrip(p.fraction);
    assert Layout(p)[0] == Layout(p)[..|p.whole|][0] == DigitChar(p.whole[0]);
  }

  lemma WholeOfWire(x: string)
    requires UnsignedWire(x)
    ensures PartsOk(ReadParts(x)) && ToText(ReadParts(x).whole) == x[..FirstPoint(x)]
  {
    var k := FirstPoint(x);
    var whole := FromText(x[..k]);
    DigitsRoundTrip(x[..k]);
    assert x[..k][0] == x[0] && x[0] == DigitChar(whole[0]);
  }

  lemma FractionOfWire(x: string)
    requires UnsignedWire(x)
    ensures var p, k := ReadParts(x), FirstPoint(x);
            if k < |x| then p.fraction != [] && ToText(p.fraction) == x[k + 1..] else p.fraction == []
  {
    var k := FirstPoint(x);
    if k < |x| { DigitsRoundTrip(x[k + 1..]); }
  }

  /** Every text of the grammar is the layout of its parts. */
  lemma WireRoundTrip(x: string)
    requires UnsignedWire(x)
    ensures PartsOk(ReadParts(x)) && Layout(ReadParts(x)) == x && |x| == LayoutLength(ReadParts(x))
  {
    WholeOfWire(x);
    FractionOfWire(x);
    var p, k := ReadParts(x), FirstPoint(x);
    if k < |x| {
      assert x == x[..k] + ("." + x[k + 1..]);
    } else {
      assert x == x[..k] + "";
    }
  }

  /******* The canonical printer *******/

  /** `_trim_decimal_coefficient` */
  function Trim(d: Decimal): Decimal {
    if IsZero(d) then Decimal(false, [0], 0)
    else if d.exponent < 0 then
      var trimmed := StripTrailing(d.digits);
      Decimal(d.negative, trimmed, d.exponent + |d.digits| - |trimmed|)
    else d
  }

  datatype Shape = Shape(negative: bool, coefficient: seq<Digit>, exponent: int, significantDigits: nat, integerDigits: int,
                         scale: int, projectedLength: int)

  /** `_analyze_decimal_shape`: the sizes are predicted from the triple, nothing is printed. */
  function Analyze(d: Decimal): Shape {
    var t := Trim(d);
    if t.digits == [0] then Shape(false, [0], 0, 0, 1, 0, 1) else
      var length, sign := |t.digits|, if t.negative then 1 else 0;
      var significant := |StripLeading(t.digits)|;
      StripLeadingMeans(t.digits);
      if t.exponent >= 0 then
        Shape(t.negative, t.digits, t.exponent, significant, length + t.exponent, 0, length + t.exponent + sign)
      else if length + t.exponent > 0 then
        Shape(t.negative, t.digits, t.exponent, significant, length + t.exponent, -t.exponent, length + 1 + sign)
      else
        Shape(t.negative, t.digits, t.exponent, significant, 1, -t.exponent, 2 - t.exponent + sign)
  }

  /** The four tests of `_raise_for_decimal_bounds`. */
  predicate BoundsOk(s: Shape) {
    && s.significantDigits <= MAX_SIGNIFICANT_DIGITS && s.scale <= MAX_SCALE
    && s.integerDigits <= MAX_INTEGER_DIGITS && s.projectedLength <= MAX_WIRE_LENGTH
  }

  function PartsOf(t: Decimal): Parts
    requires t.digits != []
  {
    if t.digits == [0] then Parts([0], [])
    else if t.exponent >= 0 then Parts(t.digits + Zeros(t.exponent), [])
    else
      var split := |t.digits| + t.exponent;
      if split > 0 then Parts(t.digits[..split], t.digits[split..])
      else Parts([0], Zeros(-split) + t.digits)
  }

  /** What is printed when no bound is exceeded. */
  function Render(d: Decimal): string
    requires Valid(d)
  {
    TrimIsValid(d);
    var t := Trim(d);
    (if t.negative then "-" else "") + Layout(PartsOf(t))
  }

  /** `decimal_to_canonical_string`: the text, or a bounds error. */
  function CanonicalString(d: Decimal): Option<string>
    requires Valid(d)
  {
    if BoundsOk(Analyze(d)) then Some(Render(d)) else None
  }

  lemma TrimIsValid(d: Decimal)
    requires Valid(d)
    ensures var t := Trim(d);
            && Valid(t) && (t.digits == [0] <==> IsZero(d)) && (IsZero(d) ==> !t.negative && t.exponent == 0)
            && (!IsZero(d) && t.exponent < 0 ==> t.digits[|t.digits| - 1] != 0)
  {
    NumberIsZero(d.digits);
    StripTrailingMeans(d.digits);
    if !IsZero(d) && d.exponent < 0 {
      StripTrailingKeepsFirst(d.digits);
    }
  }

  lemma PartsOfOk(t: Decimal)
    requires Valid(t)
    ensures PartsOk(PartsOf(t))
  {
  }

  /** The predicted length is the printed length. */
  lemma ProjectedLengthIsExact(d: Decimal)
    requires Valid(d)
    ensures Analyze(d).projectedLength == |Render(d)|
  {
    TrimIsValid(d);
    PartsOfOk(Trim(d));
    LayoutRoundTrip(PartsOf(Trim(d)));
  }

  /** All four bounds together accept exactly the decimals whose text has at most 80 characters. */
  lemma BoundsAreOneLengthTest(d: Decimal)
    requires Valid(d)
    ensures BoundsOk(Analyze(d)) <==> |Render(d)| <= MAX_WIRE_LENGTH
  {
    TrimIsValid(d);
    ProjectedLengthIsExact(d);
    StripLeadingMeans(Trim(d).digits);
  }

  /******* Reading the text back *******/

  predicate NonZeroText(x: string) { exists i :: 0 <= i < |x| && '1' <= x[i] <= '9' }

  /** The finite wire grammar: an unsigned text, or a minus sign before one that is not zero. */
  predicate FiniteWire(s: string) {
    if s != [] && s[0] == '-' then UnsignedWire(s[1..]) && NonZeroText(s[1..]) else UnsignedWire(s)
  }

  predicate PositiveWire(s: string) { UnsignedWire(s) && NonZeroText(s) }

  /** The decimal that parts stand for: Python drops leading zeros and keeps the scale. */
  function Assemble(negative: bool, p: Parts): Decimal {
    var ds := StripLeading(p.whole + p.fraction);
    Decimal(negative, if ds == [] then [0] else ds, -|p.fraction|)
  }

  /** `Decimal(text)` on a text of the grammar. */
  function Parse(s: string): Decimal
    requires FiniteWire(s)
  {
    if s[0] == '-' then Assemble(true, ReadParts(s[1..])) else Assemble(false, ReadParts(s))
  }

  lemma AssembleMeans(negative: bool, p: Parts)
    ensures Valid(Assemble(negative, p)) && Number(Assemble(negative, p).digits) == Number(p.whole + p.fraction)
  {
    StripLeadingMeans(p.whole + p.fraction);
    assert [0][..0] == [];
  }

  lemma {:induction false} StripLeadingZeros(k: nat, ds: seq<Digit>)
    requires NoLeadingZero(ds)
    ensures StripLeading(Zeros(k) + ds) == ds
  {
    if k == 0 {
      assert Zeros(0) + ds == ds;
    } else {
      StripLeadingZeros(k - 1, ds);
      assert (Zeros(k) + ds)[1..] == Zeros(k - 1) + ds;
    }
  }

  /** Assembling a trimmed decimal's parts gives back its digits and exponent, up to zeros written out. */
  lemma AssemblePartsOf(t: Decimal)
    requires Valid(t) && (t.digits == [0] ==> t.exponent == 0)
    ensures Assemble(t.negative, PartsOf(t)) ==
            if t.exponent >= 0 then Decimal(t.negative, t.digits + Zeros(t.exponent), 0) else t
  {
    var p := PartsOf(t);
    if t.digits == [0] {
      assert [0] + Zeros(0) == [0] && StripLeading([0]) == StripLeading([0][1..]) == [];
    } else if t.exponent >= 0 {
      assert p.whole + [] == p.whole;
    } else if |t.digits| + t.exponent > 0 {
      assert p.whole + p.fraction == t.digits;
    } else {
      var k := -(|t.digits| + t.exponent);
      assert p.whole + p.fraction == Zeros(k + 1) + t.digits;
      StripLeadingZeros(k + 1, t.digits);
    }
  }

  /** Writing an exponent out as zeros keeps the value. */
  lemma ZerosForExponent(t: Decimal)
    requires t.exponent >= 0
    ensures SameValue(t, Decimal(t.negative, t.digits + Zeros(t.exponent), 0))
  {
    NumberSnocZeros(t.digits, t.exponent);
    var u := Decimal(t.negative, t.digits + Zeros(t.exponent), 0);
    assert CommonScale(t, u) == 0 && Pow10(0) == 1;
  }

  lemma TrimKeepsValue(d: Decimal)
    ensures SameValue(d, Trim(d))
  {
    var t := Trim(d);
    if !IsZero(d) && d.exponent < 0 {
      StripTrailingMeans(d.digits);
      var k := |d.digits| - |t.digits|;
      NumberSnocZeros(t.digits, k);
      Pow10Add(k, -d.exponent + d.exponent);
      var s := CommonScale(d, t);
      assert t.exponent + s == k + (d.exponent + s);
      Pow10Add(k, d.exponent + s);
      MulAssoc(Number(t.digits), Pow10(k), Pow10(d.exponent + s));
    }
  }

  lemma {:induction false} NonZeroDigits(ds: seq<Digit>)
    ensures Number(ds) != 0 <==> exists i :: 0 <= i < |ds| && ds[i] != 0
  {
    NumberIsZero(ds);
  }

  lemma NonZeroLayout(p: Parts)
    ensures NonZeroText(Layout(p)) <==> Number(p.whole + p.fraction) != 0
  {
    NonZeroDigits(p.whole + p.fraction);
    var x, ds := Layout(p), p.whole + p.fraction;
    forall i | 0 <= i < |ds| && ds[i] != 0 ensures NonZeroText(x) {
      var j := if i < |p.whole| then i else i + 1;
      assert x[j] == DigitChar(ds[i]);
    }
    if NonZeroText(x) {
      var j :| 0 <= j < |x| && '1' <= x[j] <= '9';
      var i := if j < |p.whole| then j else j - 1;
      assert x[j] == DigitChar(ds[i]);
    }
  }

  lemma ProductIsZero(x: int, p: int)
    requires p >= 1
    ensures x * p == 0 <==> x == 0
  {
  }

  lemma NumberOfParts(t: Decimal)
    requires Valid(t) && (t.digits == [0] ==> t.exponent == 0)
    ensures Number(PartsOf(t).whole + PartsOf(t).fraction) == 0 <==> Number(t.digits) == 0
  {
    AssemblePartsOf(t);
    AssembleMeans(t.negative, PartsOf(t));
    if t.exponent >= 0 {
      NumberSnocZeros(t.digits, t.exponent);
      Pow10Positive(t.exponent);
      ProductIsZero(Number(t.digits), Pow10(t.exponent));
    }
  }

  lemma UnsignedStartsWithDigit(p: Parts)
    requires PartsOk(p)
    ensures Layout(p) != [] && IsDigit(Layout(p)[0])
  {
    PointOfLayout(p);
    assert Layout(p)[..|p.whole|][0] == Layout(p)[0];
  }

  /** A sign in front of a laid-out text is read back as such. */
  lemma ParseSigned(negative: bool, p: Parts)
    requires PartsOk(p) && (negative ==> Number(p.whole + p.fraction) != 0)
    ensures var text := (if negative then "-" else "") + Layout(p);
            FiniteWire(text) && Parse(text) == Assemble(negative, p)
  {
    var text := (if negative then "-" else "") + Layout(p);
    LayoutRoundTrip(p);
    NonZeroLayout(p);
    UnsignedStartsWithDigit(p);
    if negative {
      assert text[1..] == Layout(p);
    } else {
      assert text == Layout(p);
    }
  }

  lemma RenderIsSignedLayout(d: Decimal)
    requires Valid(d)
    ensures var t := Trim(d);
            && Valid(t) && PartsOk(PartsOf(t)) && FiniteWire(Render(d))
            && Parse(Render(d)) == Assemble(t.negative, PartsOf(t))
  {
    var t := Trim(d);
    TrimIsValid(d);
    PartsOfOk(t);
    NumberOfParts(t);
    NumberIsZero(t.digits);
    ParseSigned(t.negative, PartsOf(t));
  }

  lemma AssembledKeepsValue(t: Decimal)
    requires Valid(t) && (t.digits == [0] ==> t.exponent == 0)
    ensures SameValue(t, Assemble(t.negative, PartsOf(t)))
  {
    AssemblePartsOf(t);
    if t.exponent >= 0 { ZerosForExponent(t); }
  }

  /** The canonical text is in the wire grammar and parses back to the same number. */
  lemma RenderRoundTrip(d: Decimal)
    requires Valid(d)
    ensures FiniteWire(Render(d)) && SameValue(Parse(Render(d)), d)
  {
    TrimIsValid(d);
    RenderIsSignedLayout(d);
    TrimKeepsValue(d);
    AssembledKeepsValue(Trim(d));
    SameValueIsTransitive(d, Trim(d), Parse(Render(d)));
    SameValueIsTransitive(d, Parse(Render(d)), Parse(Render(d)));
  }

  /** A text of the positive grammar has no sign. */
  lemma PositiveHasNoSign(x: string)
    requires UnsignedWire(x)
    ensures x[0] != '-'
  {
    assert x[..FirstPoint(x)][0] == x[0];
  }

  lemma SignedIsNotPositive(x: string)
    ensures !PositiveWire("-" + x)
  {
    if UnsignedWire("-" + x) { PositiveHasNoSign("-" + x); }
  }

  lemma UnsignedPrintsPositive(t: Decimal)
    requires Valid(t) && (t.digits == [0] ==> t.exponent == 0)
    ensures PositiveWire(Layout(PartsOf(t))) <==> Number(t.digits) != 0
  {
    PartsOfOk(t);
    LayoutRoundTrip(PartsOf(t));
    NonZeroLayout(PartsOf(t));
    NumberOfParts(t);
  }

  lemma TrimKeepsZero(d: Decimal)
    requires Valid(d)
    ensures Valid(Trim(d)) && (Trim(d).digits == [0] ==> Trim(d).exponent == 0)
    ensures (Number(Trim(d).digits) == 0 <==> IsZero(d)) && Trim(d).negative == (d.negative && !IsZero(d))
  {
    TrimIsValid(d);
    NumberIsZero(Trim(d).digits);
    NumberIsZero(d.digits);
  }

  /** A decimal prints in the positive grammar exactly if it is positive. */
  lemma PositivePrintsPositive(d: Decimal)
    requires Valid(d)
    ensures PositiveWire(Render(d)) <==> IsPositive(d)
  {
    var t := Trim(d);
    TrimKeepsZero(d);
    if t.negative {
      SignedIsNotPositive(Layout(PartsOf(t)));
    } else {
      UnsignedPrintsPositive(t);
      assert Render(d) == Layout(PartsOf(t));
    }
  }

  /******* One text per number *******/

  /** The digits without any trailing zero, whatever the sign of the exponent. */
  function Normal(d: Decimal): Decimal {
    if IsZero(d) then Decimal(false, [0], 0)
    else Decimal(d.negative, StripTrailing(d.digits), d.exponent + |d.digits| - |StripTrailing(d.digits)|)
  }

  lemma NormalMeans(d: Decimal)
    requires Valid(d)
    ensures Valid(Normal(d)) && SameValue(d, Normal(d)) && Normal(d).negative == (d.negative && !IsZero(d))
    ensures !IsZero(d) ==> Number(Normal(d).digits) % 10 != 0 && NoLeadingZero(Normal(d).digits)
  {
    if !IsZero(d) {
      var low := d.(exponent := -1);
      var n := Normal(d);
      NumberIsZero(d.digits);
      StripTrailingMeans(d.digits);
      TrimIsValid(low);
      var k := |d.digits| - |n.digits|;
      NumberSnocZeros(n.digits, k);
      var s := CommonScale(d, n);
      Pow10Add(k, d.exponent + s);
      assert n.exponent + s == k + (d.exponent + s);
      MulAssoc(Number(n.digits), Pow10(k), Pow10(d.exponent + s));
    }
  }

  lemma ZerosConcat(ds: seq<Digit>, a: nat, b: nat)
    ensures (ds + Zeros(a)) + Zeros(b) == ds + Zeros(a + b)
  {
  }

  /** Trimming leaves the normal form unless the exponent is not negative. */
  lemma TrimOfNormal(d: Decimal)
    requires Valid(d) && !IsZero(d)
    ensures !IsZero(Normal(d)) && Trim(Normal(d)) == Normal(d)
    ensures d.exponent < 0 ==> Trim(d) == Normal(d)
  {
    NormalMeans(d);
    StripTrailingMeans(d.digits);
    StripTrailingKeepsFirst(d.digits);
    assert Normal(d).digits[|Normal(d).digits| - 1] != 0;
  }

  lemma PartsOfNormal(d: Decimal)
    requires Valid(d) && !IsZero(d) && d.exponent >= 0
    ensures Normal(d).digits != [] && PartsOf(d) == PartsOf(Normal(d))
  {
    var n := Normal(d);
    TrimOfNormal(d);
    StripTrailingMeans(d.digits);
    StripTrailingKeepsFirst(d.digits);
    ZerosConcat(n.digits, |d.digits| - |n.digits|, d.exponent);
    NonZeroIsNotSingleZero(d);
    NonZeroIsNotSingleZero(n);
  }

  /** Printing depends on the normal form only. */
  lemma RenderOfNormal(d: Decimal)
    requires Valid(d)
    ensures Valid(Normal(d)) && Render(d) == Render(Normal(d))
  {
    NormalMeans(d);
    if !IsZero(d) {
      TrimOfNormal(d);
      if d.exponent >= 0 { PartsOfNormal(d); }
    }
  }

  lemma NonZeroIsNotSingleZero(d: Decimal)
    requires !IsZero(d)
    ensures d.digits != [0]
  {
    NumberIsZero(d.digits);
  }

  lemma DivisibleByTen(x: nat, y: nat, k: nat)
    requires x == y * Pow10(k) && k > 0
    ensures x % 10 == 0
  {
    TenTimes(y, Pow10(k - 1));
  }

  lemma SignedIsInjective(p: bool, x: nat, q: bool, y: nat)
    requires x != 0 && Signed(p, x) == Signed(q, y)
    ensures p == q && x == y
  {
  }

  /** If m and n are equal and m has the smaller exponent, m's digits are n's followed by zeros. */
  lemma SmallerExponentHasMoreZeros(m: Decimal, n: Decimal)
    requires SameValue(m, n) && !IsZero(m) && m.exponent <= n.exponent
    ensures m.negative == n.negative && Number(m.digits) == Number(n.digits) * Pow10(n.exponent - m.exponent)
  {
    var s, k := CommonScale(m, n), n.exponent - m.exponent;
    var p := Pow10(m.exponent + s);
    Pow10Positive(m.exponent + s);
    Pow10Add(k, m.exponent + s);
    assert k + (m.exponent + s) == n.exponent + s;
    ProductIsZero(Number(m.digits), p);
    MulAssoc(Number(n.digits), Pow10(k), p);
    SignedIsInjective(m.negative, Number(m.digits) * p, n.negative, Number(n.digits) * Pow10(n.exponent + s));
    CancelPower(Number(m.digits), Number(n.digits) * Pow10(k), p);
  }

  lemma NormalFormsAgree(m: Decimal, n: Decimal)
    requires SameValue(m, n) && !IsZero(m) && m.exponent <= n.exponent && Number(m.digits) % 10 != 0
    requires NoLeadingZero(m.digits) && NoLeadingZero(n.digits)
    ensures m == n
  {
    SmallerExponentHasMoreZeros(m, n);
    var k := n.exponent - m.exponent;
    if k > 0 { DivisibleByTen(Number(m.digits), Number(n.digits), k); }
    NumberIsInjective(m.digits, n.digits);
  }

  /** Equal non-zero numbers have the same normal form. */
  lemma NormalIsUnique(a: Decimal, b: Decimal)
    requires Valid(a) && Valid(b) && !IsZero(a) && !IsZero(b) && SameValue(a, b)
    ensures Normal(a) == Normal(b)
  {
    var m, n := Normal(a), Normal(b);
    NormalMeans(a);
    NormalMeans(b);
    TrimOfNormal(a);
    TrimOfNormal(b);
    SameValueIsTransitive(a, m, m);
    SameValueIsTransitive(m, a, b);
    SameValueIsTransitive(m, b, n);
    if m.exponent <= n.exponent { NormalFormsAgree(m, n); } else { NormalFormsAgree(n, m); }
  }

  lemma ZeroHasOneValue(a: Decimal, b: Decimal)
    requires SameValue(a, b)
    ensures IsZero(a) <==> IsZero(b)
  {
    var s := CommonScale(a, b);
    Pow10Positive(a.exponent + s);
    Pow10Positive(b.exponent + s);
    ProductIsZero(Number(a.digits), Pow10(a.exponent + s));
    ProductIsZero(Number(b.digits), Pow10(b.exponent + s));
  }

  /** Two decimals are numerically equal if and only if they print the same text. */
  lemma EqualIffSameText(a: Decimal, b: Decimal)
    requires Valid(a) && Valid(b)
    ensures SameValue(a, b) <==> Render(a) == Render(b)
  {
    if SameValue(a, b) {
      ZeroHasOneValue(a, b);
      if !IsZero(a) {
        NormalIsUnique(a, b);
        RenderOfNormal(a);
        RenderOfNormal(b);
      }
    } else if Render(a) == Render(b) {
      RenderRoundTrip(a);
      RenderRoundTrip(b);
      SameValueIsTransitive(Parse(Render(a)), a, a);
      SameValueIsTransitive(a, Parse(Render(a)), b);
    }
  }

  /** Acceptance never depends on how a number is split into coefficient and exponent. */
  lemma AcceptanceIsByValue(a: Decimal, b: Decimal)
    requires Valid(a) && Valid(b) && SameValue(a, b)
    ensures CanonicalString(a) == CanonicalString(b) == if |Render(a)| <= MAX_WIRE_LENGTH then Some(Render(a)) else None
  {
    EqualIffSameText(a, b);
    BoundsAreOneLengthTest(a);
    BoundsAreOneLengthTest(b);
  }

  /******* From the wire *******/

  /** Printing an assembled decimal never needs more characters than the text it was read from. */
  lemma RereadIsNoLonger(negative: bool, p: Parts)
    requires PartsOk(p) && (negative ==> Number(p.whole + p.fraction) != 0)
    ensures Analyze(Assemble(negative, p)).projectedLength <= LayoutLength(p) + if negative then 1 else 0
  {
    var d := Assemble(negative, p);
    AssembleMeans(negative, p);
    TrimIsValid(d);
    StripLeadingMeans(p.whole + p.fraction);
    StripTrailingMeans(d.digits);
    if p.whole == [0] {
      assert StripLeading([0] + p.fraction) == StripLeading(p.fraction) by { assert ([0] + p.fraction)[1..] == p.fraction; }
      StripLeadingMeans(p.fraction);
    }
  }

  /** A text the grammar accepts within 80 characters never fails the bounds afterwards. */
  lemma WireTextIsWithinBounds(s: string)
    requires FiniteWire(s) && |s| <= MAX_WIRE_LENGTH
    ensures Valid(Parse(s)) && BoundsOk(Analyze(Parse(s)))
  {
    var negative := s[0] == '-';
    var body := if negative then s[1..] else s;
    WireRoundTrip(body);
    var p := ReadParts(body);
    AssembleMeans(negative, p);
    NonZeroLayout(p);
    RereadIsNoLonger(negative, p);
    ProjectedLengthIsExact(Parse(s));
    BoundsAreOneLengthTest(Parse(s));
  }
}
