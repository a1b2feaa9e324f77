/**
Candles of one source extraction, their comparable fields, and the exact differences
between two candles of the same interval.
*/
module Candles {
  import opened Wrappers
  import opened Digits
  import opened Decimals

  /** What a logical key identifies besides the open time. */
  datatype Ident = Ident(source: string, coin: string, interval: string)

  /** SHA-256 over identity and open time, left uninterpreted. */
  type KeyHash = (Ident, int) -> string

  /** `amounts` holds the open, high, low and close price and the base volume, in this order. */
  datatype Candle = Candle(key: string, open: int, close: int, amounts: seq<Decimal>, trades: int)

  const OPEN: nat := 0
  const HIGH: nat := 1
  const LOW: nat := 2
  const CLOSE: nat := 3
  const VOLUME: nat := 4

  /** Within the decimal bounds. */
  predicate DecimalOk(d: Decimal) { Valid(d) && BoundsOk(Analyze(d)) }

  /** Compared at the common scale of both. */
  predicate LessEq(a: Decimal, b: Decimal) { Scaled(a, CommonScale(a, b)) <= Scaled(b, CommonScale(a, b)) }

  predicate FieldsOk(c: Candle) {
    0 <= c.open < c.close && 0 <= c.trades && |c.amounts| == 5 && forall i :: 0 <= i < 5 ==> DecimalOk(c.amounts[i])
  }

  predicate RangesOk(c: Candle)
    requires |c.amounts| == 5
  {
    var a := c.amounts;
    && IsPositive(a[OPEN]) && IsPositive(a[HIGH]) && IsPositive(a[LOW]) && IsPositive(a[CLOSE])
    && (!a[VOLUME].negative || IsZero(a[VOLUME]))
    && LessEq(a[OPEN], a[HIGH]) && LessEq(a[CLOSE], a[HIGH]) && LessEq(a[LOW], a[HIGH])
    && LessEq(a[LOW], a[OPEN]) && LessEq(a[LOW], a[CLOSE])
  }

  /** Types and ranges of one extracted candle. */
  predicate CandleOk(c: Candle) { FieldsOk(c) && RangesOk(c) }

  /******* Comparable fields *******/

  datatype Field = CloseTime | OpenPrice | HighPrice | LowPrice | ClosePrice | Volume | TradeCount

  const FIELDS: seq<Field> := [CloseTime, OpenPrice, HighPrice, LowPrice, ClosePrice, Volume, TradeCount]

  datatype Value = Whole(n: int) | Exact(d: Decimal)

  /** The comparable value at position i of FIELDS. */
  function ValueAt(c: Candle, i: nat): Value
    requires |c.amounts| == 5 && i < |FIELDS|
  {
    if i == 0 then Whole(c.close) else if i == 6 then Whole(c.trades) else Exact(c.amounts[i - 1])
  }

  predicate ValueOk(v: Value) { match v case Whole(n) => 0 <= n case Exact(d) => DecimalOk(d) }

  lemma CandleValueOk(c: Candle, i: nat)
    requires FieldsOk(c) && i < |FIELDS|
    ensures ValueOk(ValueAt(c, i)) && (ValueAt(c, i).Whole? <==> IsWholeField(FIELDS[i]))
  {
  }

  predicate IsWholeField(f: Field) { f == CloseTime || f == TradeCount }

  /** Python's `!=`: numerical for decimals. */
  predicate Differ(a: Value, b: Value) {
    match (a, b)
    case (Whole(m), Whole(n)) => m != n
    case (Exact(d), Exact(e)) => !SameValue(d, e)
    case _ => true
  }

  lemma {:induction false} NatDigitsMeans(n: nat)
    ensures Number(NatDigits(n)) == n
  {
    if n < 10 {
      assert [n as Digit][..0] == [];
    } else {
      NatDigitsMeans(n / 10);
      var ds := NatDigits(n);
      assert ds[..|ds| - 1] == NatDigits(n / 10);
    }
  }

  /** `_comparison_wire_value` */
  function WireValue(v: Value): string
    requires ValueOk(v)
  {
    match v
    case Whole(n) => Numeral(n)
    case Exact(d) => Render(d)
  }

  /** Different values have different texts: no derived difference is rejected as equal. */
  lemma DifferIffTextsDiffer(a: Value, b: Value)
    requires ValueOk(a) && ValueOk(b) && (a.Whole? <==> b.Whole?)
    ensures Differ(a, b) <==> WireValue(a) != WireValue(b)
  {
    if a.Whole? {
      NatDigitsMeans(a.n);
      NatDigitsMeans(b.n);
      TextRoundTrip(NatDigits(a.n));
      TextRoundTrip(NatDigits(b.n));
    } else {
      EqualIffSameText(a.d, b.d);
    }
  }

  datatype Difference = Difference(field: Field, ws: string, info: string)

  predicate WholeText(x: string) { UnsignedWire(x) && FirstPoint(x) == |x| }

  predicate WireOk(x: string) { FiniteWire(x) && |x| <= MAX_WIRE_LENGTH }

  /** What `CandleCrossSourceFieldDifferenceV0` accepts. */
  predicate DifferenceOk(d: Difference) {
    && WireOk(d.ws) && WireOk(d.info)
    && (IsWholeField(d.field) ==> WholeText(d.ws) && WholeText(d.info))
    && d.ws != d.info
  }

  /** Whole numbers of more than 80 digits do not fit the difference's value type. */
  predicate FitsWire(v: Value) { v.Whole? ==> |NatDigits(if v.n < 0 then 0 else v.n)| <= MAX_WIRE_LENGTH }

  lemma WholeTextOfNat(n: nat)
    ensures var x := Numeral(n); WholeText(x) && FiniteWire(x) && |x| == |NatDigits(n)|
  {
    var p := Parts(NatDigits(n), []);
    LayoutRoundTrip(p);
    PointOfLayout(p);
    UnsignedStartsWithDigit(p);
    assert Layout(p) == Numeral(n) + "";
    assert Numeral(n) + "" == Numeral(n);
  }

  lemma WireValueOk(v: Value)
    requires ValueOk(v)
    ensures FiniteWire(WireValue(v)) && (WireOk(WireValue(v)) <==> FitsWire(v)) && (v.Whole? ==> WholeText(WireValue(v)))
  {
    match v
    case Whole(n) => WholeTextOfNat(n);
    case Exact(d) =>
      RenderRoundTrip(d);
      BoundsAreOneLengthTest(d);
  }

  /** A derived difference is accepted exactly when its values fit the wire type. */
  lemma DerivedDifferenceOk(f: Field, a: Value, b: Value)
    requires ValueOk(a) && ValueOk(b) && (a.Whole? <==> IsWholeField(f)) && (b.Whole? <==> IsWholeField(f)) && Differ(a, b)
    ensures DifferenceOk(Difference(f, WireValue(a), WireValue(b))) <==> FitsWire(a) && FitsWire(b)
  {
    WireValueOk(a);
    WireValueOk(b);
    DifferIffTextsDiffer(a, b);
  }

  /** The texts of the comparable fields, in field order. */
  function Texts(c: Candle): seq<string>
    requires FieldsOk(c)
  {
    seq(|FIELDS|, i requires 0 <= i < |FIELDS| => CandleValueOk(c, i); WireValue(ValueAt(c, i)))
  }

  /** The fields among the first n whose texts differ, in field order, with both texts. */
  function DifferencesTo(ws: seq<string>, info: seq<string>, n: nat): seq<Difference>
    requires n <= |FIELDS| <= |ws| && |FIELDS| <= |info|
  {
    if n == 0 then [] else
      DifferencesTo(ws, info, n - 1) + if ws[n - 1] != info[n - 1] then [Difference(FIELDS[n - 1], ws[n - 1], info[n - 1])] else []
  }

  function Differences(ws: Candle, info: Candle): seq<Difference>
    requires FieldsOk(ws) && FieldsOk(info)
  {
    DifferencesTo(Texts(ws), Texts(info), |Texts(ws)|)
  }

  /** The values at a field are equal, or both fit the wire type of a difference. */
  predicate PairFits(a: Value, b: Value) { Differ(a, b) ==> FitsWire(a) && FitsWire(b) }

  predicate AllFit(ws: Candle, info: Candle, n: nat)
    requires n <= |FIELDS| && |ws.amounts| == 5 && |info.amounts| == 5
  {
    forall i :: 0 <= i < n ==> PairFits(ValueAt(ws, i), ValueAt(info, i))
  }

  /******* The differences, field by field *******/

  /** The value a field names. */
  function Named(c: Candle, f: Field): Value
    requires |c.amounts| == 5
  {
    match f
    case CloseTime => Whole(c.close)
    case OpenPrice => Exact(c.amounts[OPEN])
    case HighPrice => Exact(c.amounts[HIGH])
    case LowPrice => Exact(c.amounts[LOW])
    case ClosePrice => Exact(c.amounts[CLOSE])
    case Volume => Exact(c.amounts[VOLUME])
    case TradeCount => Whole(c.trades)
  }

  lemma NamedOk(c: Candle, f: Field)
    requires FieldsOk(c)
    ensures ValueOk(Named(c, f)) && (Named(c, f).Whole? <==> IsWholeField(f))
  {
  }

  /** The place of a field in a report: times and prices, then volume and count. */
  function Place(f: Field): nat {
    match f
    case CloseTime => 0
    case OpenPrice => 1
    case HighPrice => 2
    case LowPrice => 3
    case ClosePrice => 4
    case Volume => 5
    case TradeCount => 6
  }

  lemma FieldsAreInPlace(c: Candle, i: nat)
    requires |c.amounts| == 5 && i < |FIELDS|
    ensures Place(FIELDS[i]) == i && ValueAt(c, i) == Named(c, FIELDS[i])
  {
  }

  /** Both sides' texts of a field whose values differ. */
  ghost predicate Reported(ws: Candle, info: Candle, d: Difference)
    requires FieldsOk(ws) && FieldsOk(info)
  {
    NamedOk(ws, d.field);
    NamedOk(info, d.field);
    var a, b := Named(ws, d.field), Named(info, d.field);
    Differ(a, b) && d.ws == WireValue(a) && d.info == WireValue(b)
  }

  ghost predicate InFieldOrder(ds: seq<Difference>) {
    forall i, j :: 0 <= i < j < |ds| ==> Place(ds[i].field) < Place(ds[j].field)
  }

  ghost predicate NamedFit(ws: Candle, info: Candle)
    requires |ws.amounts| == 5 && |info.amounts| == 5
  {
    forall f :: PairFits(Named(ws, f), Named(info, f))
  }

  lemma {:induction false} DifferencesAt(ws: seq<string>, info: seq<string>, n: nat, d: Difference)
    requires n <= |FIELDS| <= |ws| && |FIELDS| <= |info|
    ensures d in DifferencesTo(ws, info, n) <==>
              exists i :: 0 <= i < n && ws[i] != info[i] && d == Difference(FIELDS[i], ws[i], info[i])
  {
    if n > 0 { DifferencesAt(ws, info, n - 1, d); }
  }

  lemma {:induction false} DifferencesInOrder(ws: seq<string>, info: seq<string>, n: nat)
    requires n <= |FIELDS| <= |ws| && |FIELDS| <= |info|
    ensures InFieldOrder(DifferencesTo(ws, info, n))
    ensures forall k :: 0 <= k < |DifferencesTo(ws, info, n)| ==> Place(DifferencesTo(ws, info, n)[k].field) < n
  {
    if n > 0 {
      DifferencesInOrder(ws, info, n - 1);
      assert Place(FIELDS[n - 1]) == n - 1;
    }
  }

  lemma TextsDifferAt(ws: Candle, info: Candle, i: nat)
    requires FieldsOk(ws) && FieldsOk(info) && i < |FIELDS|
    ensures var a, b := ValueAt(ws, i), ValueAt(info, i);
            && ValueOk(a) && ValueOk(b) && Texts(ws)[i] == WireValue(a) && Texts(info)[i] == WireValue(b)
            && (Differ(a, b) <==> Texts(ws)[i] != Texts(info)[i])
  {
    CandleValueOk(ws, i);
    CandleValueOk(info, i);
    DifferIffTextsDiffer(ValueAt(ws, i), ValueAt(info, i));
  }

  /** A difference is derived exactly if the values its field names differ, with their texts. */
  lemma DifferencesMean(ws: Candle, info: Candle, d: Difference)
    requires FieldsOk(ws) && FieldsOk(info)
    ensures d in Differences(ws, info) <==> Reported(ws, info, d)
  {
    var i := Place(d.field);
    FieldsAreInPlace(ws, i);
    FieldsAreInPlace(info, i);
    TextsDifferAt(ws, info, i);
    DifferencesAt(Texts(ws), Texts(info), |FIELDS|, d);
    assert FIELDS[i] == d.field;
    forall k | 0 <= k < |FIELDS| && FIELDS[k] == d.field ensures k == i { FieldsAreInPlace(ws, k); }
  }

  /** Exactly the differing fields, each once, in field order. */
  ghost predicate ReportsDifferences(ws: Candle, info: Candle, ds: seq<Difference>)
    requires FieldsOk(ws) && FieldsOk(info)
  {
    InFieldOrder(ds) && forall d :: d in ds <==> Reported(ws, info, d)
  }

  lemma DifferencesAreReported(ws: Candle, info: Candle)
    requires FieldsOk(ws) && FieldsOk(info)
    ensures ReportsDifferences(ws, info, Differences(ws, info))
  {
    DifferencesInOrder(Texts(ws), Texts(info), |FIELDS|);
    forall d ensures d in Differences(ws, info) <==> Reported(ws, info, d) { DifferencesMean(ws, info, d); }
  }

  lemma FitsByName(ws: Candle, info: Candle)
    requires |ws.amounts| == 5 && |info.amounts| == 5
    ensures AllFit(ws, info, |FIELDS|) <==> NamedFit(ws, info)
  {
    if AllFit(ws, info, |FIELDS|) {
      forall f ensures PairFits(Named(ws, f), Named(info, f)) {
        assert FIELDS[Place(f)] == f;
        FieldsAreInPlace(ws, Place(f));
        FieldsAreInPlace(info, Place(f));
      }
    }
    if NamedFit(ws, info) {
      forall i | 0 <= i < |FIELDS| ensures PairFits(ValueAt(ws, i), ValueAt(info, i)) {
        FieldsAreInPlace(ws, i);
        FieldsAreInPlace(info, i);
      }
    }
  }

  /** One field of the comparison; the difference model may refuse a value that is too long. */
  method CompareField(f: Field, a: Value, b: Value) returns (r: Option<seq<Difference>>)
    requires ValueOk(a) && ValueOk(b) && (a.Whole? <==> IsWholeField(f)) && (b.Whole? <==> IsWholeField(f))
    ensures r.Some? <==> PairFits(a, b)
    ensures r.Some? ==> r.value == if WireValue(a) != WireValue(b) then [Difference(f, WireValue(a), WireValue(b))] else []
  {
    DifferIffTextsDiffer(a, b);
    if !Differ(a, b) { return Some([]); }
    DerivedDifferenceOk(f, a, b);
    var d := Difference(f, WireValue(a), WireValue(b));
    if !DifferenceOk(d) { return None; }
    return Some([d]);
  }

  /** `_expected_differences`: the differences, or an error when one of them is not representable. */
  method ExpectedDifferences(ws: Candle, info: Candle) returns (r: Option<seq<Difference>>)
    requires FieldsOk(ws) && FieldsOk(info)
    ensures (r.Some? <==> AllFit(ws, info, |FIELDS|)) && (r.Some? ==> r.value == Differences(ws, info))
    ensures r.Some? <==> NamedFit(ws, info)
    ensures r.Some? ==> ReportsDifferences(ws, info, r.value)
  {
    FitsByName(ws, info);
    DifferencesAreReported(ws, info);
    var found: seq<Difference> := [];
    var i := 0;
    while i < |FIELDS|
      invariant 0 <= i <= |FIELDS| && found == DifferencesTo(Texts(ws), Texts(info), i) && AllFit(ws, info, i)
    {
      CandleValueOk(ws, i);
      CandleValueOk(info, i);
      var one := CompareField(FIELDS[i], ValueAt(ws, i), ValueAt(info, i));
      if one.None? { return None; }
      found := found + one.value;
      i := i + 1;
    }
    return Some(found);
  }

  /** No difference is reported exactly when every comparable field is numerically equal. */
  lemma NoDifferenceMeansEqual(ws: Candle, info: Candle)
    requires FieldsOk(ws) && FieldsOk(info)
    ensures Differences(ws, info) == [] <==> forall f :: !Differ(Named(ws, f), Named(info, f))
  {
    if Differences(ws, info) == [] {
      forall f ensures !Differ(Named(ws, f), Named(info, f)) {
        NamedOk(ws, f);
        NamedOk(info, f);
        DifferencesMean(ws, info, Difference(f, WireValue(Named(ws, f)), WireValue(Named(info, f))));
      }
    } else {
      var d := Differences(ws, info)[0];
      DifferencesMean(ws, info, d);
      assert Reported(ws, info, d) && Differ(Named(ws, d.field), Named(info, d.field));
    }
  }

  /******* The JSON round trip of a candle *******/

  /** A decimal written to canonical text and read back. */
  function Reread(d: Decimal): Decimal
    requires Valid(d)
  {
    RenderRoundTrip(d);
    Parse(Render(d))
  }

  function RereadCandle(c: Candle): Candle
    requires FieldsOk(c)
  {
    c.(amounts := seq(5, i requires 0 <= i < 5 => assert DecimalOk(c.amounts[i]); Reread(c.amounts[i])))
  }

  lemma RereadMeans(d: Decimal)
    requires DecimalOk(d)
    ensures DecimalOk(Reread(d)) && SameValue(d, Reread(d)) && Render(Reread(d)) == Render(d)
    ensures (IsPositive(d) ==> IsPositive(Reread(d))) && (!d.negative || IsZero(d) ==> !Reread(d).negative || IsZero(Reread(d)))
  {
    RenderRoundTrip(d);
    var e := Reread(d);
    SameValueIsTransitive(e, d, d);
    SameValueIsTransitive(d, d, e);
    BoundsAreOneLengthTest(d);
    WireTextIsWithinBounds(Render(d));
    EqualIffSameText(d, e);
    SignIsByValue(d, e);
  }

  lemma SignIsByValue(d: Decimal, e: Decimal)
    requires SameValue(d, e)
    ensures (IsPositive(d) <==> IsPositive(e)) && (IsZero(d) <==> IsZero(e))
  {
    ZeroHasOneValue(d, e);
    var s := CommonScale(d, e);
    Pow10Positive(d.exponent + s);
    Pow10Positive(e.exponent + s);
    ProductIsZero(Number(d.digits), Pow10(d.exponent + s));
    ProductIsZero(Number(e.digits), Pow10(e.exponent + s));
  }

  lemma LessEqAtScale(a: Decimal, b: Decimal, scale: nat)
    requires 0 <= a.exponent + scale && 0 <= b.exponent + scale
    ensures LessEq(a, b) <==> Scaled(a, scale) <= Scaled(b, scale)
  {
    var common := CommonScale(a, b);
    var more := scale - common;
    ScaledMore(a, common, more);
    ScaledMore(b, common, more);
    Pow10Positive(more);
    OrderPower(Scaled(a, common), Scaled(b, common), Pow10(more));
  }

  lemma OrderPower(x: int, y: int, p: int)
    requires p >= 1
    ensures x * p <= y * p <==> x <= y
  {
  }

  lemma NonNegativeAtScale(d: Decimal, s: nat)
    requires 0 <= d.exponent + s
    ensures !d.negative || IsZero(d) <==> 0 <= Scaled(d, s)
  {
    Pow10Positive(d.exponent + s);
    PositiveProduct(Number(d.digits), Pow10(d.exponent + s));
  }

  /** The ranges of a candle, by value: positive prices with low and high around open and close, and no negative volume. */
  lemma RangesMean(c: Candle, s: nat)
    requires |c.amounts| == 5 && forall i :: 0 <= i < 5 ==> 0 <= c.amounts[i].exponent + s
    ensures var a := c.amounts; var low, high := Scaled(a[LOW], s), Scaled(a[HIGH], s);
            RangesOk(c) <==> 0 < low && low <= Scaled(a[OPEN], s) <= high && low <= Scaled(a[CLOSE], s) <= high && 0 <= Scaled(a[VOLUME], s)
  {
    var a := c.amounts;
    PositiveIsPositive(a[OPEN], s);
    PositiveIsPositive(a[HIGH], s);
    PositiveIsPositive(a[LOW], s);
    PositiveIsPositive(a[CLOSE], s);
    NonNegativeAtScale(a[VOLUME], s);
    LessEqAtScale(a[OPEN], a[HIGH], s);
    LessEqAtScale(a[CLOSE], a[HIGH], s);
    LessEqAtScale(a[LOW], a[HIGH], s);
    LessEqAtScale(a[LOW], a[OPEN], s);
    LessEqAtScale(a[LOW], a[CLOSE], s);
  }

  lemma LessEqIsByValue(a: Decimal, a': Decimal, b: Decimal, b': Decimal)
    requires SameValue(a, a') && SameValue(b, b') && LessEq(a, b)
    ensures LessEq(a', b')
  {
    var scale := CommonScale(a, a') + CommonScale(b, b');
    SameValueAtScale(a, a', scale);
    SameValueAtScale(b, b', scale);
    LessEqAtScale(a, b, scale);
    LessEqAtScale(a', b', scale);
  }

  lemma RereadFieldsOk(c: Candle)
    requires FieldsOk(c)
    ensures FieldsOk(RereadCandle(c))
  {
    forall i | 0 <= i < 5 ensures DecimalOk(RereadCandle(c).amounts[i]) { RereadMeans(c.amounts[i]); }
  }

  predicate RereadOk(d: Decimal, e: Decimal) {
    SameValue(d, e) && (IsPositive(d) ==> IsPositive(e)) && (!d.negative || IsZero(d) ==> !e.negative || IsZero(e))
  }

  lemma RangesByValue(c: Candle, d: Candle)
    requires |c.amounts| == 5 && |d.amounts| == 5 && RangesOk(c)
    requires forall i :: 0 <= i < 5 ==> RereadOk(c.amounts[i], d.amounts[i])
    ensures RangesOk(d)
  {
    var a, b := c.amounts, d.amounts;
    assert RereadOk(a[OPEN], b[OPEN]) && RereadOk(a[HIGH], b[HIGH]) && RereadOk(a[LOW], b[LOW])
           && RereadOk(a[CLOSE], b[CLOSE]) && RereadOk(a[VOLUME], b[VOLUME]);
    LessEqIsByValue(a[OPEN], b[OPEN], a[HIGH], b[HIGH]);
    LessEqIsByValue(a[CLOSE], b[CLOSE], a[HIGH], b[HIGH]);
    LessEqIsByValue(a[LOW], b[LOW], a[HIGH], b[HIGH]);
    LessEqIsByValue(a[LOW], b[LOW], a[OPEN], b[OPEN]);
    LessEqIsByValue(a[LOW], b[LOW], a[CLOSE], b[CLOSE]);
  }

  lemma RereadText(d: Decimal)
    requires DecimalOk(d)
    ensures DecimalOk(Reread(d)) && WireValue(Exact(Reread(d))) == WireValue(Exact(d))
  {
    RereadMeans(d);
  }

  lemma TextOfAmount(c: Candle, i: nat)
    requires FieldsOk(c) && i < 5
    ensures DecimalOk(c.amounts[i]) && Texts(c)[i + 1] == WireValue(Exact(c.amounts[i]))
  {
  }

  lemma AmountTextsAgree(c: Candle, d: Candle, i: nat)
    requires FieldsOk(c) && FieldsOk(d) && i < 5
    requires WireValue(Exact(c.amounts[i])) == WireValue(Exact(d.amounts[i]))
    ensures Texts(c)[i + 1] == Texts(d)[i + 1]
  {
    TextOfAmount(c, i);
    TextOfAmount(d, i);
  }

  lemma RereadKeepsAmountText(c: Candle, i: nat)
    requires FieldsOk(c) && FieldsOk(RereadCandle(c)) && i < 5
    ensures Texts(RereadCandle(c))[i + 1] == Texts(c)[i + 1]
  {
    RereadText(c.amounts[i]);
    AmountTextsAgree(c, RereadCandle(c), i);
  }

  lemma WholeTextsAgree(c: Candle, d: Candle, i: nat)
    requires FieldsOk(c) && FieldsOk(d) && (i == 0 || i == 6) && c.close == d.close && c.trades == d.trades
    ensures Texts(c)[i] == Texts(d)[i]
  {
  }

  lemma RereadKeepsText(c: Candle, i: nat)
    requires FieldsOk(c) && FieldsOk(RereadCandle(c)) && i < |FIELDS|
    ensures Texts(RereadCandle(c))[i] == Texts(c)[i]
  {
    if 1 <= i <= 5 { RereadKeepsAmountText(c, i - 1); } else { WholeTextsAgree(c, RereadCandle(c), i); }
  }

  lemma RereadKeepsTexts(c: Candle)
    requires FieldsOk(c) && FieldsOk(RereadCandle(c))
    ensures Texts(RereadCandle(c)) == Texts(c)
  {
    forall i | 0 <= i < |FIELDS| ensures Texts(RereadCandle(c))[i] == Texts(c)[i] { RereadKeepsText(c, i); }
  }

  /** A valid candle stays valid through its JSON form, and its texts do not change. */
  lemma RereadKeepsCandle(c: Candle)
    requires CandleOk(c)
    ensures CandleOk(RereadCandle(c)) && Texts(RereadCandle(c)) == Texts(c)
  {
    RereadFieldsOk(c);
    var d := RereadCandle(c);
    forall i | 0 <= i < 5 ensures RereadOk(c.amounts[i], d.amounts[i]) { RereadMeans(c.amounts[i]); }
    RangesByValue(c, d);
    RereadKeepsTexts(c);
  }

  lemma RereadAmountTwice(c: Candle, i: nat)
    requires FieldsOk(c) && FieldsOk(RereadCandle(c)) && i < 5
    ensures RereadCandle(RereadCandle(c)).amounts[i] == RereadCandle(c).amounts[i]
  {
    RereadMeans(c.amounts[i]);
  }

  /** A stored candle is its own stored form. */
  lemma RereadIsIdempotent(c: Candle)
    requires FieldsOk(c)
    ensures FieldsOk(RereadCandle(c)) && RereadCandle(RereadCandle(c)) == RereadCandle(c)
  {
    RereadFieldsOk(c);
    forall i | 0 <= i < 5 ensures RereadCandle(RereadCandle(c)).amounts[i] == RereadCandle(c).amounts[i] { RereadAmountTwice(c, i); }
  }

  /** Only whole-number fields can fail to fit, and storing leaves those alone. */
  lemma FitMeans(a: Candle, b: Candle)
    requires |a.amounts| == 5 && |b.amounts| == 5
    ensures AllFit(a, b, |FIELDS|) <==>
      PairFits(Whole(a.close), Whole(b.close)) && PairFits(Whole(a.trades), Whole(b.trades))
  {
    assert ValueAt(a, 0) == Whole(a.close) && ValueAt(b, 0) == Whole(b.close);
    assert ValueAt(a, 6) == Whole(a.trades) && ValueAt(b, 6) == Whole(b.trades);
  }

  /** Comparing the stored forms gives the same verdict as comparing the candles. */
  lemma RereadKeepsComparison(a: Candle, b: Candle)
    requires CandleOk(a) && CandleOk(b)
    ensures CandleOk(RereadCandle(a)) && CandleOk(RereadCandle(b))
    ensures Differences(RereadCandle(a), RereadCandle(b)) == Differences(a, b)
    ensures AllFit(RereadCandle(a), RereadCandle(b), |FIELDS|) <==> AllFit(a, b, |FIELDS|)
  {
    RereadKeepsCandle(a);
    RereadKeepsCandle(b);
    FitMeans(a, b);
    FitMeans(RereadCandle(a), RereadCandle(b));
  }
}
