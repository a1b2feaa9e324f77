/**
The streaming log reader. The file's text arrives in arbitrary pieces; lines are cut at the
line-end pattern, and a CR at the end of what has been read is held back because its LF may
still come.

The buffer of unfinished text is always a window of the file, so it is kept as its two
bounds: `start`, where the unfinished text begins, and `read`, how far the file has been
read. A line is the span of the file it covers.
*/
module LineReader {
  import opened Wrappers

  predicate IsLineEnd(c: char) {
    c == '\n' || c == '\r' || c == '\U{0B}' || c == '\U{0C}' || ('\U{1C}' <= c <= '\U{1E}')
    || c == '\U{85}' || c == '\U{2028}' || c == '\U{2029}'
  }

  datatype Span = Span(from: nat, to: nat)

  /** The lines found, in order, and where the unfinished text begins. */
  datatype Scan = Scan(lines: seq<Span>, start: nat)

  /** The first line-end character at or after `start`, or `read` if there is none before it. */
  function FirstEnd(text: string, start: nat, read: nat): (i: nat)
    requires start <= read <= |text|
    ensures start <= i <= read
    decreases read - start
  {
    if start == read || IsLineEnd(text[start]) then start else FirstEnd(text, start + 1, read)
  }

  datatype Cutting = NoLine | Line(end: nat, next: nat)

  /** A CR that is the last character read, while the file goes on. */
  predicate HeldBack(text: string, start: nat, read: nat, more: bool)
    requires start <= read <= |text|
  {
    var i := FirstEnd(text, start, read);
    more && i + 1 == read && text[i] == '\r'
  }

  /** The first complete line of the buffer; CR LF is one line end, every other is one character. */
  function Cut(text: string, start: nat, read: nat, more: bool): (c: Cutting)
    requires start <= read <= |text|
    ensures c.Line? ==> start <= c.end < c.next <= read
  {
    var i := FirstEnd(text, start, read);
    if i == read || HeldBack(text, start, read, more) then NoLine
    else if text[i] == '\r' && i + 1 < read && text[i + 1] == '\n' then Line(i, i + 2)
    else Line(i, i + 1)
  }

  /** A scan continued after some lines. */
  function After(lines: seq<Span>, next: Scan): Scan { Scan(lines + next.lines, next.start) }

  lemma AfterAfter(a: seq<Span>, b: seq<Span>, next: Scan)
    ensures After(a, After(b, next)) == After(a + b, next)
  {
    assert a + (b + next.lines) == (a + b) + next.lines;
  }

  /** Cutting all complete lines off the buffer. */
  function Drain(text: string, start: nat, read: nat, more: bool): (s: Scan)
    requires start <= read <= |text|
    ensures start <= s.start <= read
    decreases read - start
  {
    match Cut(text, start, read, more)
    case NoLine => Scan([], start)
    case Line(end, next) => After([Span(start, end)], Drain(text, next, read, more))
  }

  /** One scan of a whole text. */
  function Split(text: string): Scan { Drain(text, 0, |text|, false) }

  /******* What one scan computes, stated without scanning *******/

  ghost predicate NoLineEnd(text: string, from: nat, to: nat)
    requires from <= to <= |text|
  {
    forall k :: from <= k < to ==> !IsLineEnd(text[k])
  }

  /** The characters from `end` up to `next` are exactly one line end, never half of a CR LF. */
  ghost predicate OneLineEnd(text: string, end: nat, next: nat) {
    && end < |text| && IsLineEnd(text[end])
    && if text[end] == '\r' && end + 1 < |text| && text[end + 1] == '\n' then next == end + 2 else next == end + 1
  }

  /** The lines and the tail tile the text: line, line end, line, line end, ..., tail. */
  ghost predicate Tiles(text: string, start: nat, s: Scan)
    decreases |s.lines|
  {
    if s.lines == [] then s.start == start <= |text| && NoLineEnd(text, start, |text|)
    else
      var line := s.lines[0];
      var next := if |s.lines| > 1 then s.lines[1].from else s.start;
      && line.from == start <= line.to <= |text| && NoLineEnd(text, start, line.to) && OneLineEnd(text, line.to, next)
      && Tiles(text, next, Scan(s.lines[1..], s.start))
  }

  lemma {:induction false} FirstEndMeans(text: string, start: nat, read: nat)
    requires start <= read <= |text|
    ensures var i := FirstEnd(text, start, read); NoLineEnd(text, start, i) && (i < read ==> IsLineEnd(text[i]))
    decreases read - start
  {
    if start < read && !IsLineEnd(text[start]) { FirstEndMeans(text, start + 1, read); }
  }

  /** A scan's result is the one and only tiling of the text into lines and a tail. */
  lemma {:induction false} SplitIsTheTiling(text: string, start: nat, s: Scan)
    requires start <= |text|
    ensures Tiles(text, start, s) <==> s == Drain(text, start, |text|, false)
    decreases |text| - start
  {
    FirstEndMeans(text, start, |text|);
    var i := FirstEnd(text, start, |text|);
    var c := Cut(text, start, |text|, false);
    if c.Line? {
      var tail := Scan(if s.lines == [] then [] else s.lines[1..], s.start);
      SplitIsTheTiling(text, c.next, tail);
      SplitStartsThere(text, c.next);
      if s == Drain(text, start, |text|, false) {
        assert s.lines[1..] == Drain(text, c.next, |text|, false).lines;
      }
      assert s.lines != [] ==> s.lines == [s.lines[0]] + s.lines[1..];
    }
  }

  lemma SplitStartsThere(text: string, start: nat)
    requires start <= |text|
    ensures var s := Drain(text, start, |text|, false); start == if s.lines != [] then s.lines[0].from else s.start
  {
  }

  /******* Reading on changes nothing already cut *******/

  lemma {:induction false} FirstEndGrows(text: string, start: nat, read: nat, read': nat)
    requires start <= read <= read' <= |text|
    ensures var i := FirstEnd(text, start, read);
            FirstEnd(text, start, read') == if i < read then i else FirstEnd(text, read, read')
    decreases read - start
  {
    if start < read && !IsLineEnd(text[start]) { FirstEndGrows(text, start + 1, read, read'); }
  }

  lemma CutSurvivesReading(text: string, start: nat, read: nat, read': nat, more: bool)
    requires start <= read <= read' <= |text| && Cut(text, start, read, true).Line?
    ensures Cut(text, start, read', more) == Cut(text, start, read, true)
  {
    FirstEndGrows(text, start, read, read');
  }

  /** Draining early and going on from the leftover is draining once. */
  lemma {:induction false} DrainInTwoParts(text: string, start: nat, read: nat, read': nat, more: bool)
    requires start <= read <= read' <= |text|
    ensures var d := Drain(text, start, read, true);
            Drain(text, start, read', more) == After(d.lines, Drain(text, d.start, read', more))
    decreases read - start
  {
    var c := Cut(text, start, read, true);
    if c.Line? {
      CutSurvivesReading(text, start, read, read', more);
      DrainInTwoParts(text, c.next, read, read', more);
      var d := Drain(text, c.next, read, true);
      AfterAfter([Span(start, c.end)], d.lines, Drain(text, d.start, read', more));
    } else {
      var e := Drain(text, start, read', more);
      assert [] + e.lines == e.lines;
    }
  }

  /** The leftover has no line end, except a CR held back at its very end. */
  lemma {:induction false} LeftoverMeans(text: string, start: nat, read: nat)
    requires start <= read <= |text|
    ensures var s := Drain(text, start, read, true).start;
            FirstEnd(text, s, read) == read || HeldBack(text, s, read, true)
    decreases read - start
  {
    var c := Cut(text, start, read, true);
    if c.Line? { LeftoverMeans(text, c.next, read); }
  }

  /******* The size budget *******/

  function CharBytes(c: char): nat {
    if c < '\U{80}' then 1 else if c < '\U{800}' then 2 else if c < '\U{10000}' then 3 else 4
  }

  /** The bits of a code point that n bytes of UTF-8 carry: section 3 of RFC 3629. */
  function Carried(n: nat): nat { if n <= 1 then 7 else 5 * n + 1 }

  function Pow2(n: nat): nat { if n == 0 then 1 else 2 * Pow2(n - 1) }

  lemma PowersOfTwo()
    ensures Pow2(Carried(1)) == 0x80 && Pow2(Carried(2)) == 0x800 && Pow2(Carried(3)) == 0x10000 && Pow2(Carried(4)) == 0x200000
  {
    assert Pow2(4) == 16;
    assert Pow2(7) == 128;
    assert Pow2(11) == 16 * Pow2(7);
    assert Pow2(15) == 16 * Pow2(11);
    assert Pow2(16) == 2 * Pow2(15);
    assert Pow2(20) == 16 * Pow2(16);
    assert Pow2(21) == 2 * Pow2(20);
  }

  /** A character takes the fewest bytes that carry its code point. */
  lemma CharBytesAreFewest(c: char)
    ensures 1 <= CharBytes(c) <= 4 && c as int < Pow2(Carried(CharBytes(c)))
    ensures CharBytes(c) > 1 ==> Pow2(Carried(CharBytes(c) - 1)) <= c as int
  {
    PowersOfTwo();
  }

  /** The UTF-8 length of a span of the text. */
  function Bytes(text: string, from: nat, to: nat): nat
    requires from <= to <= |text|
  {
    if from == to then 0 else Bytes(text, from, to - 1) + CharBytes(text[to - 1])
  }

  lemma {:induction false} BytesSplit(text: string, a: nat, b: nat, c: nat)
    requires a <= b <= c <= |text|
    ensures Bytes(text, a, c) == Bytes(text, a, b) + Bytes(text, b, c)
  {
    if b < c { BytesSplit(text, a, b, c - 1); }
  }

  predicate LineFits(text: string, line: Span, budget: nat) {
    line.from <= line.to <= |text| ==> Bytes(text, line.from, line.to) <= budget
  }

  predicate LinesFit(text: string, lines: seq<Span>, budget: nat) {
    forall i :: 0 <= i < |lines| ==> LineFits(text, lines[i], budget)
  }

  lemma LinesFitConcat(text: string, a: seq<Span>, b: seq<Span>, budget: nat)
    ensures LinesFit(text, a + b, budget) <==> LinesFit(text, a, budget) && LinesFit(text, b, budget)
  {
    var all := a + b;
    if LinesFit(text, all, budget) {
      forall i | 0 <= i < |a| ensures LineFits(text, a[i], budget) { assert all[i] == a[i]; }
      forall i | 0 <= i < |b| ensures LineFits(text, b[i], budget) { assert all[|a| + i] == b[i]; }
    }
  }

  /******* The reader *******/

  /** The positions up to which successive reads bring the file; the last one is its end. */
  predicate Reads(text: string, stops: seq<nat>) {
    && (forall i :: 0 <= i < |stops| ==> stops[i] <= |text|)
    && (forall i, j :: 0 <= i < j < |stops| ==> stops[i] <= stops[j])
    && (if stops == [] then text == "" else stops[|stops| - 1] == |text|)
  }

  /** How far the file has been read after n reads. */
  function ReadUpTo(stops: seq<nat>, n: nat): nat
    requires n <= |stops|
  {
    if n == 0 then 0 else stops[n - 1]
  }

  /** One round of the loop: drain, then refuse an over-long line or an over-long leftover. */
  function Round(text: string, before: Option<Scan>, read: nat, more: bool, budget: nat): Option<Scan>
    requires read <= |text| && (before.Some? ==> before.value.start <= read)
  {
    if before.None? then None else
      var d := Drain(text, before.value.start, read, more);
      if LinesFit(text, d.lines, budget) && Bytes(text, d.start, read) <= budget then Some(After(before.value.lines, d)) else None
  }

  function ReadRounds(text: string, stops: seq<nat>, n: nat, budget: nat): (r: Option<Scan>)
    requires Reads(text, stops) && n <= |stops|
    ensures r.Some? ==> r.value.start <= ReadUpTo(stops, n)
  {
    if n == 0 then Some(Scan([], 0)) else
      var before := ReadRounds(text, stops, n - 1, budget);
      assert ReadUpTo(stops, n - 1) <= ReadUpTo(stops, n);
      Round(text, before, ReadUpTo(stops, n), true, budget)
  }

  /** The whole file: every read, then the empty one that ends it. */
  function ReadLog(text: string, stops: seq<nat>, budget: nat): Option<Scan>
    requires Reads(text, stops)
  {
    Round(text, ReadRounds(text, stops, |stops|, budget), |text|, false, budget)
  }

  lemma DrainedStep(text: string, start: nat, read: nat, more: bool, lines: seq<Span>, at: nat)
    requires start <= at <= read <= |text| && Cut(text, at, read, more).Line?
    requires Drain(text, start, read, more) == After(lines, Drain(text, at, read, more))
    ensures var c := Cut(text, at, read, more);
            && Drain(text, start, read, more) == After(lines + [Span(at, c.end)], Drain(text, c.next, read, more))
            && |lines| < |Drain(text, start, read, more).lines| && Drain(text, start, read, more).lines[|lines|] == Span(at, c.end)
  {
    var c := Cut(text, at, read, more);
    AfterAfter(lines, [Span(at, c.end)], Drain(text, c.next, read, more));
  }

  /** The match loop over one buffer, with the size test on every line. */
  method DrainBuffer(text: string, start: nat, read: nat, more: bool, budget: nat) returns (lines: seq<Span>, at: nat, ok: bool)
    requires start <= read <= |text|
    ensures ok <==> LinesFit(text, Drain(text, start, read, more).lines, budget)
    ensures ok ==> Scan(lines, at) == Drain(text, start, read, more)
  {
    lines, at := [], start;
    assert After([], Drain(text, start, read, more)) == Drain(text, start, read, more);
    var c := Cut(text, at, read, more);
    while c.Line?
      invariant start <= at <= read && c == Cut(text, at, read, more)
      invariant Drain(text, start, read, more) == After(lines, Drain(text, at, read, more)) && LinesFit(text, lines, budget)
      decreases read - at
    {
      DrainedStep(text, start, read, more, lines, at);
      if Bytes(text, at, c.end) > budget { return lines, at, false; }
      lines, at := lines + [Span(at, c.end)], c.next;
      c := Cut(text, at, read, more);
    }
    assert lines + [] == lines;
    ok := true;
  }

  lemma {:induction false} ReadsIncrease(text: string, stops: seq<nat>, k: nat, n: nat)
    requires Reads(text, stops) && k <= n <= |stops|
    ensures ReadUpTo(stops, k) <= ReadUpTo(stops, n) <= |text|
  {
    if k < n { ReadsIncrease(text, stops, k, n - 1); }
  }

  lemma {:induction false} RefusalIsFinal(text: string, stops: seq<nat>, k: nat, n: nat, budget: nat)
    requires Reads(text, stops) && k <= n <= |stops|
    ensures ReadRounds(text, stops, k, budget).None? ==> ReadRounds(text, stops, n, budget).None?
  {
    if k < n { RefusalIsFinal(text, stops, k, n - 1, budget); }
  }

  method ReadOnce(text: string, before: Scan, read: nat, more: bool, budget: nat) returns (after: Option<Scan>)
    requires before.start <= read <= |text|
    ensures after == Round(text, Some(before), read, more, budget)
  {
    var lines, at, ok := DrainBuffer(text, before.start, read, more, budget);
    if !ok || Bytes(text, at, read) > budget { return None; }
    return Some(Scan(before.lines + lines, at));
  }

  /** The loop of `records`: read, drain, measure, until the empty read. */
  method ReadFile(text: string, stops: seq<nat>, budget: nat) returns (result: Option<Scan>)
    requires Reads(text, stops)
    ensures result == ReadLog(text, stops, budget)
  {
    result := Some(Scan([], 0));
    var k := 0;
    while k < |stops| && result.Some?
      invariant 0 <= k <= |stops| && result == ReadRounds(text, stops, k, budget)
    {
      ReadsIncrease(text, stops, k, k + 1);
      result := ReadOnce(text, result.value, stops[k], true, budget);
      k := k + 1;
    }
    RefusalIsFinal(text, stops, k, |stops|, budget);
    if result.Some? {
      ReadsIncrease(text, stops, k, k);
      result := ReadOnce(text, result.value, |text|, false, budget);
    }
  }

  /******* Where the file is cut does not matter *******/

  /** Where the unfinished text begins after n reads. */
  function LeftoverStart(text: string, stops: seq<nat>, n: nat): nat
    requires Reads(text, stops) && n <= |stops|
  {
    Drain(text, 0, ReadUpTo(stops, n), true).start
  }

  function LeftoverBytes(text: string, stops: seq<nat>, n: nat): nat
    requires Reads(text, stops) && n <= |stops|
  {
    Bytes(text, LeftoverStart(text, stops, n), ReadUpTo(stops, n))
  }

  lemma NextRound(text: string, stops: seq<nat>, n: nat)
    requires Reads(text, stops) && 0 < n <= |stops|
    ensures LeftoverStart(text, stops, n - 1) <= ReadUpTo(stops, n)
    ensures var d := Drain(text, 0, ReadUpTo(stops, n - 1), true);
            Drain(text, 0, ReadUpTo(stops, n), true) == After(d.lines, Drain(text, d.start, ReadUpTo(stops, n), true))
  {
    ReadsIncrease(text, stops, n - 1, n);
    DrainInTwoParts(text, 0, ReadUpTo(stops, n - 1), ReadUpTo(stops, n), true);
  }

  /** While nothing is refused, n reads have been processed exactly as one would be. */
  lemma {:induction false} RoundsAreOneDrain(text: string, stops: seq<nat>, n: nat, budget: nat)
    requires Reads(text, stops) && n <= |stops|
    ensures ReadRounds(text, stops, n, budget).Some? ==>
              ReadRounds(text, stops, n, budget).value == Drain(text, 0, ReadUpTo(stops, n), true)
  {
    if n > 0 {
      RoundsAreOneDrain(text, stops, n - 1, budget);
      NextRound(text, stops, n);
    }
  }

  ghost predicate LeftoversFit(text: string, stops: seq<nat>, n: nat, budget: nat)
    requires Reads(text, stops) && n <= |stops|
  {
    forall k :: 0 <= k <= n ==> LeftoverBytes(text, stops, k) <= budget
  }

  /** The lines completed by the n-th read fit. */
  predicate NewLinesFit(text: string, stops: seq<nat>, n: nat, budget: nat)
    requires Reads(text, stops) && 0 < n <= |stops|
  {
    NextRound(text, stops, n);
    LinesFit(text, Drain(text, LeftoverStart(text, stops, n - 1), ReadUpTo(stops, n), true).lines, budget)
  }

  lemma RoundAccepts(text: string, before: Scan, read: nat, budget: nat, d: Scan)
    requires before.start <= read <= |text| && d == Drain(text, before.start, read, true)
    ensures Round(text, Some(before), read, true, budget).Some? <==>
              LinesFit(text, d.lines, budget) && Bytes(text, d.start, read) <= budget
  {
  }

  lemma LeftoverOfRound(text: string, stops: seq<nat>, n: nat, d: Scan)
    requires Reads(text, stops) && 0 < n <= |stops| && LeftoverStart(text, stops, n - 1) <= ReadUpTo(stops, n)
    requires d == Drain(text, LeftoverStart(text, stops, n - 1), ReadUpTo(stops, n), true)
    ensures LeftoverStart(text, stops, n) == d.start
  {
    NextRound(text, stops, n);
  }

  lemma RoundRefusesExactly(text: string, stops: seq<nat>, n: nat, budget: nat)
    requires Reads(text, stops) && 0 < n <= |stops| && ReadRounds(text, stops, n - 1, budget).Some?
    ensures ReadRounds(text, stops, n, budget).Some? <==>
            NewLinesFit(text, stops, n, budget) && LeftoverBytes(text, stops, n) <= budget
  {
    RoundsAreOneDrain(text, stops, n - 1, budget);
    ReadsIncrease(text, stops, n - 1, n);
    var before := ReadRounds(text, stops, n - 1, budget).value;
    var d := Drain(text, before.start, ReadUpTo(stops, n), true);
    RoundAccepts(text, before, ReadUpTo(stops, n), budget, d);
    LeftoverOfRound(text, stops, n, d);
  }

  /** Rounds are refused for a line that does not fit or a leftover that does not fit, and nothing else. */
  lemma {:induction false} RoundsRefuseExactly(text: string, stops: seq<nat>, n: nat, budget: nat)
    requires Reads(text, stops) && n <= |stops|
    ensures ReadRounds(text, stops, n, budget).Some? <==>
            LinesFit(text, Drain(text, 0, ReadUpTo(stops, n), true).lines, budget) && LeftoversFit(text, stops, n, budget)
  {
    if n == 0 {
      assert Drain(text, 0, 0, true) == Scan([], 0);
      assert LeftoverBytes(text, stops, 0) == 0;
    } else {
      RoundsRefuseExactly(text, stops, n - 1, budget);
      var accepted, accepted' := ReadRounds(text, stops, n - 1, budget).Some?, ReadRounds(text, stops, n, budget).Some?;
      var d, d' := Drain(text, 0, ReadUpTo(stops, n - 1), true), Drain(text, 0, ReadUpTo(stops, n), true);
      var newFit, lastFit := NewLinesFit(text, stops, n, budget), LeftoverBytes(text, stops, n) <= budget;
      assert accepted' <==> accepted && newFit && lastFit by {
        if accepted { RoundRefusesExactly(text, stops, n, budget); }
      }
      assert LinesFit(text, d'.lines, budget) <==> LinesFit(text, d.lines, budget) && newFit by {
        NextRound(text, stops, n);
        LinesFitConcat(text, d.lines, Drain(text, d.start, ReadUpTo(stops, n), true).lines, budget);
      }
      assert LeftoversFit(text, stops, n, budget) <==> LeftoversFit(text, stops, n - 1, budget) && lastFit;
    }
  }

  /** However the file is cut into reads, a reader that is not stopped emits the lines and tail of one scan. */
  lemma CutsAreInvisible(text: string, stops: seq<nat>, budget: nat)
    requires Reads(text, stops)
    ensures ReadLog(text, stops, budget).Some? ==> ReadLog(text, stops, budget).value == Split(text)
    ensures ReadLog(text, stops, budget).Some? <==>
            && ReadRounds(text, stops, |stops|, budget).Some?
            && LinesFit(text, Split(text).lines, budget) && Bytes(text, Split(text).start, |text|) <= budget
  {
    RoundsAreOneDrain(text, stops, |stops|, budget);
    RoundsRefuseExactly(text, stops, |stops|, budget);
    assert ReadUpTo(stops, |stops|) == |text|;
    DrainInTwoParts(text, 0, |text|, |text|, false);
    var d := Drain(text, 0, |text|, true);
    LinesFitConcat(text, d.lines, Drain(text, d.start, |text|, false).lines, budget);
  }

  /** The file is cut right behind the CR that ends a line of exactly the budget. */
  predicate CutBehindFullLine(text: string, stops: seq<nat>, n: nat, budget: nat)
    requires Reads(text, stops) && n <= |stops|
  {
    ReadsIncrease(text, stops, 0, n);
    HeldBack(text, LeftoverStart(text, stops, n), ReadUpTo(stops, n), true) && LeftoverBytes(text, stops, n) == budget + 1
  }

  /** A leftover is the beginning of the next line or tail, or that whole line and its CR. */
  lemma LeftoverBeginsNextLine(text: string, start: nat, read: nat)
    requires start <= read <= |text| && (FirstEnd(text, start, read) == read || HeldBack(text, start, read, true))
    ensures var s := Drain(text, start, |text|, false);
            if HeldBack(text, start, read, true) then
              s.lines != [] && s.lines[0].from == start <= s.lines[0].to <= |text|
              && Bytes(text, start, read) == Bytes(text, start, s.lines[0].to) + 1
            else if s.lines != [] then
              s.lines[0].from == start <= s.lines[0].to <= |text| && Bytes(text, start, read) <= Bytes(text, start, s.lines[0].to)
            else s.start == start && Bytes(text, start, read) <= Bytes(text, start, |text|)
  {
    FirstEndGrows(text, start, read, |text|);
    var i := FirstEnd(text, start, |text|);
    if !HeldBack(text, start, read, true) { BytesSplit(text, start, read, i); }
  }

  /** Every leftover the loop measures belongs to a line, or the tail, of the whole text. */
  lemma LeftoverBelongs(text: string, stops: seq<nat>, k: nat) returns (i: nat)
    requires Reads(text, stops) && k <= |stops|
    ensures var s, r := Split(text), ReadUpTo(stops, k);
            && r <= |text|
            && (HeldBack(text, LeftoverStart(text, stops, k), r, true) ==>
                  i < |s.lines| && s.lines[i].from <= s.lines[i].to <= |text|
                  && LeftoverBytes(text, stops, k) == Bytes(text, s.lines[i].from, s.lines[i].to) + 1)
            && (!HeldBack(text, LeftoverStart(text, stops, k), r, true) ==>
                  || LeftoverBytes(text, stops, k) <= Bytes(text, s.start, |text|)
                  || (i < |s.lines| && s.lines[i].from <= s.lines[i].to <= |text|
                      && LeftoverBytes(text, stops, k) <= Bytes(text, s.lines[i].from, s.lines[i].to)))
  {
    ReadsIncrease(text, stops, k, |stops|);
    var r := ReadUpTo(stops, k);
    var d := Drain(text, 0, r, true);
    DrainInTwoParts(text, 0, r, |text|, false);
    LeftoverMeans(text, 0, r);
    LeftoverBeginsNextLine(text, d.start, r);
    i := |d.lines|;
  }

  /**
  The budget refuses exactly: a line or tail over it, or a read that ends behind the CR of a
  line of exactly its size.
  */
  lemma BudgetRefusesExactly(text: string, stops: seq<nat>, budget: nat)
    requires Reads(text, stops)
    ensures ReadLog(text, stops, budget).Some? <==>
            && LinesFit(text, Split(text).lines, budget) && Bytes(text, Split(text).start, |text|) <= budget
            && forall k :: 0 <= k <= |stops| ==> !CutBehindFullLine(text, stops, k, budget)
  {
    CutsAreInvisible(text, stops, budget);
    RoundsRefuseExactly(text, stops, |stops|, budget);
    if LinesFit(text, Split(text).lines, budget) && Bytes(text, Split(text).start, |text|) <= budget {
      forall k | 0 <= k <= |stops| ensures LeftoverBytes(text, stops, k) <= budget <==> !CutBehindFullLine(text, stops, k, budget) {
        LeftoverFitsUnlessCut(text, stops, k, budget);
      }
      assert ReadUpTo(stops, |stops|) == |text|;
      DrainInTwoParts(text, 0, |text|, |text|, false);
      var d := Drain(text, 0, |text|, true);
      LinesFitConcat(text, d.lines, Drain(text, d.start, |text|, false).lines, budget);
    }
  }

  lemma LeftoverFitsUnlessCut(text: string, stops: seq<nat>, k: nat, budget: nat)
    requires Reads(text, stops) && k <= |stops|
    requires LinesFit(text, Split(text).lines, budget) && Bytes(text, Split(text).start, |text|) <= budget
    ensures LeftoverBytes(text, stops, k) <= budget <==> !CutBehindFullLine(text, stops, k, budget)
  {
    var i := LeftoverBelongs(text, stops, k);
    if i < |Split(text).lines| { assert LineFits(text, Split(text).lines[i], budget); }
  }

  /** A log whose lines and tail all stay strictly below the budget is never refused for size. */
  lemma SmallLinesAreNeverRefused(text: string, stops: seq<nat>, budget: nat)
    requires Reads(text, stops) && 0 < budget
    requires LinesFit(text, Split(text).lines, budget - 1) && Bytes(text, Split(text).start, |text|) < budget
    ensures ReadLog(text, stops, budget) == Some(Split(text))
  {
    CutsAreInvisible(text, stops, budget);
    forall k | 0 <= k <= |stops| ensures !CutBehindFullLine(text, stops, k, budget) {
      var i := LeftoverBelongs(text, stops, k);
      if i < |Split(text).lines| { assert LineFits(text, Split(text).lines[i], budget - 1); }
    }
    forall i | 0 <= i < |Split(text).lines| ensures LineFits(text, Split(text).lines[i], budget) {
      assert LineFits(text, Split(text).lines[i], budget - 1);
    }
    BudgetRefusesExactly(text, stops, budget);
  }

  /** A text that ends in LF leaves no tail, so the separate test for leftover text is implied. */
  lemma {:induction false} FinalNewlineLeavesNoTail(text: string, start: nat)
    requires start < |text| && text[|text| - 1] == '\n'
    ensures Drain(text, start, |text|, false).start == |text| && Drain(text, start, |text|, false).lines != []
    decreases |text| - start
  {
    LineEndIsFound(text, start, |text| - 1, |text|);
    var c := Cut(text, start, |text|, false);
    if c.next < |text| { FinalNewlineLeavesNoTail(text, c.next); }
  }

  lemma {:induction false} LineEndIsFound(text: string, start: nat, k: nat, read: nat)
    requires start <= k < read <= |text| && IsLineEnd(text[k])
    ensures FirstEnd(text, start, read) <= k
    decreases k - start
  {
    if !IsLineEnd(text[start]) { LineEndIsFound(text, start + 1, k, read); }
  }

  /******* The cut that does matter *******/

  /** A text of plain one-byte characters. */
  predicate Plain(text: string, n: nat) {
    n <= |text| && forall i :: 0 <= i < n ==> text[i] == 'x'
  }

  lemma {:induction false} PlainHasNoEnd(text: string, start: nat, n: nat)
    requires Plain(text, n) && start <= n
    ensures FirstEnd(text, start, n) == n
    decreases n - start
  {
    if start < n { PlainHasNoEnd(text, start + 1, n); }
  }

  lemma {:induction false} PlainBytes(text: string, n: nat)
    requires Plain(text, n)
    ensures Bytes(text, 0, n) == n
  {
    if n > 0 { PlainBytes(text, n - 1); }
  }

  /** For a line of exactly the budget the verdict depends on where the file happens to be cut. */
  lemma CutDecidesForFullLine(text: string, budget: nat)
    requires Plain(text, budget) && |text| == budget + 2 && text[budget] == '\r' && text[budget + 1] == '\n'
    ensures ReadLog(text, [budget + 2], budget) == Some(Scan([Span(0, budget)], budget + 2))
    ensures ReadLog(text, [budget + 1, budget + 2], budget) == None
  {
    PlainHasNoEnd(text, 0, budget);
    PlainBytes(text, budget);
    FirstEndGrows(text, 0, budget, budget + 2);
    FirstEndGrows(text, 0, budget, budget + 1);
    UncutLineIsAccepted(text, budget);
    CutLineIsRefused(text, budget);
  }

  lemma UncutLineIsAccepted(text: string, budget: nat)
    requires |text| == budget + 2 && FirstEnd(text, 0, budget + 2) == budget && text[budget] == '\r' && text[budget + 1] == '\n'
    requires Bytes(text, 0, budget) == budget
    ensures ReadLog(text, [budget + 2], budget) == Some(Scan([Span(0, budget)], budget + 2))
  {
    var stops, end := [budget + 2], budget + 2;
    assert Cut(text, 0, end, true) == Line(budget, end);
    assert Drain(text, end, end, true) == Scan([], end) == Drain(text, end, end, false);
    assert Drain(text, 0, end, true) == Scan([Span(0, budget)], end);
    assert LineFits(text, Span(0, budget), budget);
    assert ReadRounds(text, stops, 0, budget) == Some(Scan([], 0));
    assert [] + [Span(0, budget)] == [Span(0, budget)];
    assert ReadRounds(text, stops, 1, budget) == Some(Scan([Span(0, budget)], end));
    assert [Span(0, budget)] + [] == [Span(0, budget)];
  }

  lemma CutLineIsRefused(text: string, budget: nat)
    requires |text| == budget + 2 && FirstEnd(text, 0, budget + 1) == budget && text[budget] == '\r'
    requires Bytes(text, 0, budget) == budget
    ensures ReadLog(text, [budget + 1, budget + 2], budget) == None
  {
    var stops := [budget + 1, budget + 2];
    assert Cut(text, 0, budget + 1, true) == NoLine;
    assert Bytes(text, 0, budget + 1) == budget + 1;
    assert ReadRounds(text, stops, 0, budget) == Some(Scan([], 0));
    assert ReadRounds(text, stops, 1, budget) == None;
    RefusalIsFinal(text, stops, 1, 2, budget);
  }
}
