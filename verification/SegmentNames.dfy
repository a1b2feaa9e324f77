/** Names of capture segments and the order in which sorting puts them. */
module SegmentNames {
  import opened Text
  import opened Digits

  lemma DigitOrder(a: Digit, b: Digit)
    ensures DigitChar(a) < DigitChar(b) <==> a < b
  {
  }

  /** The last w decimal digits of n. */
  function Pad(n: nat, w: nat): (text: string)
    ensures |text| == w
  {
    if w == 0 then "" else Pad(n / 10, w - 1) + [DigitChar(n % 10)]
  }

  const WIDTH: nat := 6

  const NAMED: nat := 1_000_000

  /** Python's format `06d`: at least six digits, more when they are needed. */
  function Count(n: nat): string { if n < NAMED then Pad(n, WIDTH) else Numeral(n) }

  function Name(date: string, session: string, n: nat): string { date + ("-" + session + "-") + (Count(n) + ".ndjson") }

  /******* The order of texts *******/

  lemma {:induction false} PrefixCancels(p: string, a: string, b: string)
    ensures StringLess(p + a, p + b) <==> StringLess(a, b)
  {
    if p == [] {
      assert p + a == a && p + b == b;
    } else {
      PrefixCancels(p[1..], a, b);
      assert (p + a)[1..] == p[1..] + a && (p + b)[1..] == p[1..] + b;
    }
  }

  /** Different texts of one length decide the order, whatever follows. */
  lemma {:induction false} SuffixIsIgnored(a: string, b: string, x: string, y: string)
    requires |a| == |b| && a != b
    ensures StringLess(a + x, b + y) <==> StringLess(a, b)
  {
    assert (a + x)[0] == a[0] && (b + y)[0] == b[0];
    if a[0] == b[0] {
      assert a == [a[0]] + a[1..] && b == [b[0]] + b[1..];
      SuffixIsIgnored(a[1..], b[1..], x, y);
      assert (a + x)[1..] == a[1..] + x && (b + y)[1..] == b[1..] + y;
    }
  }

  lemma LastDecides(p: string, c: char, d: char)
    ensures StringLess(p + [c], p + [d]) <==> c < d
  {
    PrefixCancels(p, [c], [d]);
    assert [c][1..] == [] == [d][1..];
  }

  /** Nothing sorts both before and after another text. */
  lemma StringLessAsymmetric(a: string, b: string)
    requires StringLess(a, b)
    ensures !StringLess(b, a) && a != b
  {
    StringLessIrreflexive(a);
    if StringLess(b, a) { StringLessTransitive(a, b, a); }
  }

  /******* Numerals *******/

  /** Zero-padded numbers sort as numbers. */
  lemma {:induction false} PadOrder(i: nat, j: nat, w: nat)
    requires i < j < Pow10(w)
    ensures StringLess(Pad(i, w), Pad(j, w)) && Pad(i, w) != Pad(j, w)
  {
    var a, b := Pad(i / 10, w - 1), Pad(j / 10, w - 1);
    if i / 10 < j / 10 {
      PadOrder(i / 10, j / 10, w - 1);
      SuffixIsIgnored(a, b, [DigitChar(i % 10)], [DigitChar(j % 10)]);
      assert Pad(i, w)[..w - 1] == a && Pad(j, w)[..w - 1] == b;
    } else {
      assert i / 10 == j / 10;
      DigitOrder(i % 10, j % 10);
      LastDecides(a, DigitChar(i % 10), DigitChar(j % 10));
      assert Pad(i, w)[w - 1] != Pad(j, w)[w - 1];
    }
  }

  lemma PaddedSort(i: nat, j: nat, w: nat, x: string)
    requires i < j < Pow10(w)
    ensures StringLess(Pad(i, w) + x, Pad(j, w) + x)
  {
    PadOrder(i, j, w);
    SuffixIsIgnored(Pad(i, w), Pad(j, w), x, x);
  }

  lemma NumeralGrows(n: nat)
    requires n >= 10
    ensures Numeral(n) == Numeral(n / 10) + [DigitChar(n % 10)]
  {
  }

  /** A number of w digits needs no padding to width w. */
  lemma {:induction false} NumeralIsPad(n: nat, w: nat)
    requires w >= 1 && n < Pow10(w) && (w == 1 || Pow10(w - 1) <= n)
    ensures Numeral(n) == Pad(n, w)
  {
    if w == 1 {
      assert Pad(n, 1) == [] + [DigitChar(n % 10)];
    } else {
      Pow10Positive(w - 2);
      NumeralGrows(n);
      NumeralIsPad(n / 10, w - 1);
    }
  }

  /** The number of decimal digits. */
  function Width(n: nat): nat { if n < 10 then 1 else 1 + Width(n / 10) }

  lemma {:induction false} WidthMeans(n: nat)
    ensures Width(n) >= 1 && n < Pow10(Width(n)) && (n >= 1 ==> Pow10(Width(n) - 1) <= n)
  {
    if n < 10 {
      assert Pow10(1) == 10 && Pow10(0) == 1;
    } else {
      WidthMeans(n / 10);
    }
  }

  lemma {:induction false} Pow10Grows(a: nat, b: nat)
    requires a < b
    ensures 10 * Pow10(a) <= Pow10(b)
  {
    Pow10Positive(b - 1);
    if a < b - 1 { Pow10Grows(a, b - 1); }
  }

  lemma SixDigits()
    ensures Pow10(WIDTH) == NAMED
  {
    assert Pow10(1) == 10 && Pow10(2) == 100 && Pow10(3) == 1000 && Pow10(4) == 10000 && Pow10(5) == 100000;
  }

  /** Numbers with as many digits sort as numbers. */
  lemma CountsOfOneWidthSort(i: nat, j: nat, x: string)
    requires i < j && (j < NAMED || (NAMED <= i && Width(i) == Width(j)))
    ensures StringLess(Count(i) + x, Count(j) + x)
  {
    if j < NAMED {
      SixDigits();
      PaddedSort(i, j, WIDTH, x);
    } else {
      WidthMeans(i);
      WidthMeans(j);
      NumeralIsPad(i, Width(i));
      NumeralIsPad(j, Width(j));
      PaddedSort(i, j, Width(j), x);
    }
  }

  lemma {:induction false} LeadingNine(k: nat)
    requires k >= 1
    ensures Pow10(k) >= 10 && Pad(Pow10(k) - 1, k)[0] == '9'
  {
    if k == 1 {
      assert Pad(9, 1) == [] + [DigitChar(9)];
    } else {
      LeadingNine(k - 1);
      assert (Pow10(k) - 1) / 10 == Pow10(k - 1) - 1;
      assert Pad(Pow10(k) - 1, k)[0] == Pad(Pow10(k - 1) - 1, k - 1)[0];
    }
  }

  lemma {:induction false} LeadingOne(k: nat)
    ensures Numeral(Pow10(k))[0] == '1'
  {
    if k > 0 {
      LeadingOne(k - 1);
      Pow10Positive(k - 1);
      NumeralGrows(Pow10(k));
      assert Pow10(k) / 10 == Pow10(k - 1);
    }
  }

  /** At every power of ten from a million on, the longer number sorts first. */
  lemma PowerSortsFirst(k: nat, x: string)
    requires k >= WIDTH
    ensures Pow10(k) >= NAMED && StringLess(Count(Pow10(k)) + x, Count(Pow10(k) - 1) + x)
  {
    SixDigits();
    if k > WIDTH { Pow10Grows(WIDTH, k); }
    LeadingNine(k);
    LeadingOne(k);
    if k > WIDTH {
      Pow10Grows(k - 1, k);
      NumeralIsPad(Pow10(k) - 1, k);
    }
    var a, b := Count(Pow10(k)), Count(Pow10(k) - 1);
    assert (a + x)[0] == '1' && (b + x)[0] == '9';
  }

  /******* Names *******/

  lemma CountDecides(date: string, session: string, i: nat, j: nat)
    ensures StringLess(Name(date, session, i), Name(date, session, j)) <==> StringLess(Count(i) + ".ndjson", Count(j) + ".ndjson")
  {
    var front := date + ("-" + session + "-");
    PrefixCancels(front, Count(i) + ".ndjson", Count(j) + ".ndjson");
  }

  lemma DatesDecide(date: string, date': string, session: string, i: nat, j: nat)
    requires |date| == |date'| && date != date'
    ensures StringLess(Name(date, session, i), Name(date', session, j)) <==> StringLess(date, date')
  {
    var x, y := ("-" + session + "-") + (Count(i) + ".ndjson"), ("-" + session + "-") + (Count(j) + ".ndjson");
    assert Name(date, session, i) == date + x && Name(date', session, j) == date' + y;
    SuffixIsIgnored(date, date', x, y);
  }

  /** Of two of the first million segments, the later sorts after the earlier exactly when its date is not earlier. */
  lemma NamesSortByDate(date: string, date': string, session: string, i: nat, j: nat)
    requires |date| == |date'| && i < j < NAMED
    ensures StringLess(Name(date, session, i), Name(date', session, j)) <==> date == date' || StringLess(date, date')
  {
    if date == date' {
      CountDecides(date, session, i, j);
      CountsOfOneWidthSort(i, j, ".ndjson");
    } else {
      DatesDecide(date, date', session, i, j);
    }
  }

  /** Segment i of a session has date dates[i]; the names sort in the order of writing. */
  ghost predicate NamesSort(session: string, dates: seq<string>) {
    forall i, j :: 0 <= i < j < |dates| ==> StringLess(Name(dates[i], session, i), Name(dates[j], session, j))
  }

  predicate NotEarlier(a: string, b: string) { |a| == |b| && (a == b || StringLess(a, b)) }

  /** Dates of one width that never go back. */
  ghost predicate SteadyDates(dates: seq<string>) {
    forall i, j :: 0 <= i < j < |dates| ==> NotEarlier(dates[i], dates[j])
  }

  /** From a million on, a segment numbered by a power of ten starts a new date. */
  ghost predicate NewDateAtPowers(dates: seq<string>) {
    forall k :: k >= WIDTH && Pow10(k) < |dates| ==> NewDateAt(dates, Pow10(k))
  }

  predicate NewDateAt(dates: seq<string>, n: nat) { 0 < n < |dates| ==> dates[n - 1] != dates[n] }

  /** Between two segments of one date all have that date. */
  lemma SameDateBetween(dates: seq<string>, i: nat, m: nat, j: nat)
    requires SteadyDates(dates) && i <= m <= j < |dates| && dates[i] == dates[j]
    ensures dates[m] == dates[i]
  {
    if i < m < j && dates[m] != dates[i] {
      assert NotEarlier(dates[i], dates[m]) && NotEarlier(dates[m], dates[j]);
      StringLessAsymmetric(dates[i], dates[m]);
    }
  }

  lemma PowersOrder(a: nat, b: nat)
    ensures a <= b ==> Pow10(a) <= Pow10(b)
    ensures Pow10(a) < Pow10(b) ==> a < b
  {
    Pow10Positive(a);
    Pow10Positive(b);
    if a < b {
      Pow10Grows(a, b);
    } else if b < a {
      Pow10Grows(b, a);
    }
  }

  /** Two numbers of different width have a power of ten between them. */
  lemma PowerBetween(i: nat, j: nat) returns (k: nat)
    requires i < j && NAMED <= j && (i < NAMED || Width(i) != Width(j))
    ensures k >= WIDTH && i < Pow10(k) <= j
  {
    SixDigits();
    WidthMeans(i);
    WidthMeans(j);
    k := Width(j) - 1;
    PowersOrder(WIDTH, k + 1);
    PowersOrder(WIDTH, k);
    if i >= NAMED {
      PowersOrder(Width(i) - 1, Width(j));
      PowersOrder(Width(i), k);
    }
  }

  lemma PairSorts(session: string, dates: seq<string>, i: nat, j: nat)
    requires SteadyDates(dates) && NewDateAtPowers(dates) && i < j < |dates|
    ensures StringLess(Name(dates[i], session, i), Name(dates[j], session, j))
  {
    assert NotEarlier(dates[i], dates[j]);
    if dates[i] != dates[j] {
      DatesDecide(dates[i], dates[j], session, i, j);
    } else {
      if j >= NAMED && (i < NAMED || Width(i) != Width(j)) {
        var k := PowerBetween(i, j);
        assert NewDateAt(dates, Pow10(k));
        SameDateBetween(dates, i, Pow10(k) - 1, j);
        SameDateBetween(dates, i, Pow10(k), j);
        assert false;
      }
      CountsOfOneWidthSort(i, j, ".ndjson");
      CountDecides(dates[i], session, i, j);
    }
  }

  /** The exact condition: names sort in the order of writing unless a date goes on past a power of ten from a million up. */
  lemma NamesSortExactly(session: string, dates: seq<string>)
    requires SteadyDates(dates)
    ensures NamesSort(session, dates) <==> NewDateAtPowers(dates)
  {
    if NewDateAtPowers(dates) {
      forall i, j | 0 <= i < j < |dates| ensures StringLess(Name(dates[i], session, i), Name(dates[j], session, j)) {
        PairSorts(session, dates, i, j);
      }
    }
    if NamesSort(session, dates) {
      forall k | k >= WIDTH && Pow10(k) < |dates| ensures NewDateAt(dates, Pow10(k)) {
        PowerSortsFirst(k, ".ndjson");
        var i, j := Pow10(k) - 1, Pow10(k);
        assert StringLess(Name(dates[i], session, i), Name(dates[j], session, j));
        if dates[i] == dates[j] {
          CountDecides(dates[i], session, i, j);
          CountDecides(dates[i], session, j, i);
          StringLessAsymmetric(Name(dates[i], session, i), Name(dates[i], session, j));
        }
      }
    }
  }

  lemma OneDate(date: string, session: string, n: nat) returns (dates: seq<string>)
    ensures |dates| == n && forall i :: 0 <= i < n ==> dates[i] == date
    ensures SteadyDates(dates)
    ensures NamesSort(session, dates) <==> forall i, j :: 0 <= i < j < n ==> StringLess(Name(date, session, i), Name(date, session, j))
  {
    dates := seq(n, i => date);
    if NamesSort(session, dates) {
      forall i, j | 0 <= i < j < n ensures StringLess(Name(date, session, i), Name(date, session, j)) {
        assert dates[i] == date && dates[j] == date;
      }
    }
  }

  /** Within one date exactly a million names sort in the order of writing. */
  lemma OneDateSortsToAMillion(date: string, session: string, n: nat)
    ensures (forall i, j :: 0 <= i < j < n ==> StringLess(Name(date, session, i), Name(date, session, j))) <==> n <= NAMED
  {
    var dates := OneDate(date, session, n);
    NamesSortExactly(session, dates);
    SixDigits();
    if n > NAMED {
      assert !NewDateAt(dates, Pow10(WIDTH));
    } else {
      forall k | k >= WIDTH ensures Pow10(k) >= n { PowersOrder(WIDTH, k); }
    }
  }
}
