/**
Sliding 60-second weight budgets: the rolling peak calculator, the warm-up dispatch pacer
and the REST weight accounting built on them.

The specification of a window is the plain sum over (t - 60s, t]; times are nanoseconds.
*/
module RateWindows {
  import opened Wrappers

  const WINDOW: int := 60_000_000_000
  const WARMUP_BUDGET: nat := 400
  const REST_BUDGET: nat := 600

  datatype Event = Event(at: int, weight: nat)

  predicate InWindow(e: Event, t: int) { t - WINDOW < e.at <= t }

  /** The weight of the first n events that falls in (t - 60s, t]. */
  function SumTo(events: seq<Event>, n: nat, t: int): nat
    requires n <= |events|
  {
    if n == 0 then 0 else SumTo(events, n - 1, t) + if InWindow(events[n - 1], t) then events[n - 1].weight else 0
  }

  function WindowSum(events: seq<Event>, t: int): nat { SumTo(events, |events|, t) }

  /** The true maximum of the window sums over every instant. */
  ghost predicate IsPeak(events: seq<Event>, peak: nat) {
    (forall t :: WindowSum(events, t) <= peak) && exists t :: WindowSum(events, t) == peak
  }

  predicate NotAfter(a: Event, b: Event) { a.at <= b.at }

  predicate Sorted(events: seq<Event>) {
    forall i, j {:trigger NotAfter(events[i], events[j])} :: 0 <= i < j < |events| ==> NotAfter(events[i], events[j])
  }

  lemma {:induction false} SumToPrefix(events: seq<Event>, more: seq<Event>, n: nat, t: int)
    requires n <= |events|
    ensures SumTo(events + more, n, t) == SumTo(events, n, t)
  {
    if n > 0 { SumToPrefix(events, more, n - 1, t); }
  }

  lemma WindowSumAppend(events: seq<Event>, e: Event, t: int)
    ensures WindowSum(events + [e], t) == WindowSum(events, t) + if InWindow(e, t) then e.weight else 0
  {
    SumToPrefix(events, [e], |events|, t);
  }

  lemma {:induction false} SumToMonotone(events: seq<Event>, m: nat, n: nat, t: int)
    requires m <= n <= |events|
    ensures SumTo(events, m, t) <= SumTo(events, n, t)
  {
    if m < n { SumToMonotone(events, m, n - 1, t); }
  }

  /** Past the newest of the first n events the window can only lose weight. */
  lemma {:induction false} WindowShrinksAfterLast(events: seq<Event>, n: nat, s: int, t: int)
    requires n <= |events| && s <= t && forall i :: 0 <= i < n ==> events[i].at <= s
    ensures SumTo(events, n, t) <= SumTo(events, n, s)
  {
    if n > 0 { WindowShrinksAfterLast(events, n - 1, s, t); }
  }

  /** A window before the newest event does not see it. */
  lemma {:induction false} SumToIgnoresLater(events: seq<Event>, m: nat, n: nat, t: int)
    requires m <= n <= |events| && forall i :: m <= i < n ==> t < events[i].at
    ensures SumTo(events, n, t) == SumTo(events, m, t)
  {
    if m < n { SumToIgnoresLater(events, m, n - 1, t); }
  }

  /******* `_rolling_weight` *******/

  predicate Before(a: Event, b: Event) { a.at < b.at || (a.at == b.at && a.weight <= b.weight) }

  function Insert(events: seq<Event>, e: Event): (r: seq<Event>)
    ensures |r| == |events| + 1
  {
    if events == [] || Before(events[|events| - 1], e) then events + [e]
    else Insert(events[..|events| - 1], e) + [events[|events| - 1]]
  }

  /** Python's `sorted` on (time, weight) pairs. */
  function SortEvents(events: seq<Event>): (r: seq<Event>)
    ensures |r| == |events|
  {
    if events == [] then [] else Insert(SortEvents(events[..|events| - 1]), events[|events| - 1])
  }

  lemma SortedPrefix(events: seq<Event>, n: nat)
    requires Sorted(events) && n <= |events|
    ensures Sorted(events[..n])
  {
    var init := events[..n];
    forall i, j | 0 <= i < j < n ensures NotAfter(init[i], init[j]) { assert NotAfter(events[i], events[j]); }
  }

  lemma SortedSnoc(events: seq<Event>, e: Event)
    requires Sorted(events) && forall i :: 0 <= i < |events| ==> events[i].at <= e.at
    ensures Sorted(events + [e])
  {
    var all := events + [e];
    forall i, j | 0 <= i < j < |all| ensures NotAfter(all[i], all[j]) {
      assert j < |events| ==> NotAfter(events[i], events[j]);
    }
  }

  lemma {:induction false} InsertIsSorted(events: seq<Event>, e: Event, bound: int)
    requires Sorted(events) && e.at <= bound && forall i :: 0 <= i < |events| ==> events[i].at <= bound
    ensures Sorted(Insert(events, e))
    ensures forall i :: 0 <= i < |Insert(events, e)| ==> Insert(events, e)[i].at <= bound
  {
    if events == [] {
    } else {
      var last := events[|events| - 1];
      forall i | 0 <= i < |events| ensures events[i].at <= last.at {
        assert i < |events| - 1 ==> NotAfter(events[i], last);
      }
      if Before(last, e) {
        SortedSnoc(events, e);
      } else {
        SortedPrefix(events, |events| - 1);
        InsertIsSorted(events[..|events| - 1], e, last.at);
        SortedSnoc(Insert(events[..|events| - 1], e), last);
      }
    }
  }

  lemma {:induction false} InsertKeepsWindow(events: seq<Event>, e: Event, t: int)
    ensures WindowSum(Insert(events, e), t) == WindowSum(events + [e], t)
  {
    WindowSumAppend(events, e, t);
    if events != [] && !Before(events[|events| - 1], e) {
      var head, last := events[..|events| - 1], events[|events| - 1];
      InsertKeepsWindow(head, e, t);
      WindowSumAppend(head, e, t);
      WindowSumAppend(head, last, t);
      WindowSumAppend(Insert(head, e), last, t);
      assert events == head + [last];
    }
  }

  lemma {:induction false} SortIsSorted(events: seq<Event>)
    ensures Sorted(SortEvents(events))
  {
    if events != [] {
      var head, last := SortEvents(events[..|events| - 1]), events[|events| - 1];
      SortIsSorted(events[..|events| - 1]);
      var newest := if head == [] then last.at else head[|head| - 1].at;
      forall i | 0 <= i < |head| ensures head[i].at <= newest {
        assert i < |head| - 1 ==> NotAfter(head[i], head[|head| - 1]);
      }
      InsertIsSorted(head, last, if last.at > newest then last.at else newest);
    }
  }

  lemma {:induction false} SortKeepsWindow(events: seq<Event>, t: int)
    ensures WindowSum(SortEvents(events), t) == WindowSum(events, t)
  {
    if events != [] {
      var head, last := events[..|events| - 1], events[|events| - 1];
      SortKeepsWindow(head, t);
      InsertKeepsWindow(SortEvents(head), last, t);
      WindowSumAppend(SortEvents(head), last, t);
      WindowSumAppend(head, last, t);
      assert events == head + [last];
    }
  }

  function Total(events: seq<Event>): nat {
    if events == [] then 0 else Total(events[..|events| - 1]) + events[|events| - 1].weight
  }

  lemma {:induction false} TotalOfTail(events: seq<Event>)
    requires events != []
    ensures Total(events) == events[0].weight + Total(events[1..])
  {
    if |events| > 1 {
      var last := |events| - 1;
      TotalOfTail(events[..last]);
      assert events[..last][1..] == events[1..][..last - 1];
    }
  }

  /** The deque holds exactly the events of the current window. */
  lemma {:induction false} DequeIsWindow(events: seq<Event>, lo: nat, n: nat, t: int)
    requires lo <= n <= |events|
    requires forall i :: 0 <= i < lo ==> events[i].at <= t - WINDOW
    requires forall i :: lo <= i < n ==> InWindow(events[i], t)
    ensures SumTo(events, n, t) == Total(events[lo..n])
  {
    if lo < n {
      DequeIsWindow(events, lo, n - 1, t);
      assert events[lo..n][..n - 1 - lo] == events[lo..n - 1];
    } else if n > 0 {
      DequeIsWindow(events, lo - 1, n - 1, t);
      assert events[lo..n] == events[lo - 1..n - 1];
    }
  }

  /** The deque after its expired front has been popped. */
  function DropExpired(pending: seq<Event>, cutoff: int): seq<Event> {
    if pending != [] && pending[0].at <= cutoff then DropExpired(pending[1..], cutoff) else pending
  }

  lemma {:induction false} DropExpiredMeans(pending: seq<Event>, cutoff: int) returns (k: nat)
    ensures k <= |pending| && DropExpired(pending, cutoff) == pending[k..]
    ensures forall i :: 0 <= i < k ==> pending[i].at <= cutoff
    ensures k < |pending| ==> cutoff < pending[k].at
  {
    k := 0;
    if pending != [] && pending[0].at <= cutoff {
      k := DropExpiredMeans(pending[1..], cutoff);
      assert pending[1..][k..] == pending[k + 1..];
      assert forall i :: 0 < i <= k ==> pending[i] == pending[1..][i - 1];
      k := k + 1;
    }
  }

  method PopExpired(pending: seq<Event>, total: nat, cutoff: int) returns (rest: seq<Event>, left: nat)
    requires total == Total(pending)
    ensures rest == DropExpired(pending, cutoff) && left == Total(rest)
  {
    rest, left := pending, total;
    while rest != [] && rest[0].at <= cutoff
      invariant DropExpired(rest, cutoff) == DropExpired(pending, cutoff) && left == Total(rest)
      decreases |rest|
    {
      TotalOfTail(rest);
      rest, left := rest[1..], left - rest[0].weight;
    }
  }

  ghost predicate Bounds(events: seq<Event>, n: nat, peak: nat)
    requires n <= |events|
  {
    forall t :: SumTo(events, n, t) <= peak
  }

  lemma BoundAdvances(events: seq<Event>, n: nat, m: nat, peak: nat, t: int)
    requires m == n + 1 <= |events| && Sorted(events) && Bounds(events, n, peak) && SumTo(events, m, events[n].at) <= peak
    ensures SumTo(events, m, t) <= peak
  {
    if t < events[n].at {
      SumToIgnoresLater(events, n, m, t);
    } else {
      forall i | 0 <= i < m ensures events[i].at <= events[n].at { assert i < n ==> NotAfter(events[i], events[n]); }
      WindowShrinksAfterLast(events, m, events[n].at, t);
    }
  }

  lemma SliceSnoc(s: seq<Event>, lo: nat, i: nat)
    requires lo <= i < |s|
    ensures s[lo..i] + [s[i]] == s[lo..i + 1]
    ensures Total(s[lo..i + 1]) == Total(s[lo..i]) + s[i].weight
  {
    assert s[lo..i + 1][..i - lo] == s[lo..i];
  }

  lemma SliceDrop(s: seq<Event>, lo: nat, k: nat, i: nat)
    requires lo + k <= i <= |s|
    ensures s[lo..i][k..] == s[lo + k..i]
  {
  }

  lemma PeakStep(o: seq<Event>, lo: nat, i: nat, n: nat, total: nat, peak: nat, best: int)
    requires Sorted(o) && lo <= i && n == i + 1 <= |o|
    requires forall k :: 0 <= k < lo ==> o[k].at <= o[i].at - WINDOW
    requires o[i].at - WINDOW < o[lo].at
    requires Bounds(o, i, peak) && peak == SumTo(o, i, best) && total == Total(o[lo..n])
    ensures Bounds(o, n, if total > peak then total else peak)
    ensures (if total > peak then total else peak) == SumTo(o, n, if total > peak then o[i].at else best)
  {
    var peak' := if total > peak then total else peak;
    forall k | lo <= k < n ensures InWindow(o[k], o[i].at) {
      assert (lo < k ==> NotAfter(o[lo], o[k])) && (k < i ==> NotAfter(o[k], o[i]));
    }
    DequeIsWindow(o, lo, n, o[i].at);
    SumToMonotone(o, i, n, best);
    forall t ensures SumTo(o, n, t) <= peak' { BoundAdvances(o, i, n, peak', t); }
  }

  /** Every event before lo has left the window of every event from i on. */
  ghost predicate Expired(o: seq<Event>, lo: nat, i: nat)
    requires lo <= i <= |o|
  {
    forall k, j {:trigger LongBefore(o[k], o[j])} :: 0 <= k < lo && i <= j < |o| ==> LongBefore(o[k], o[j])
  }

  predicate LongBefore(a: Event, b: Event) { a.at <= b.at - WINDOW }

  /** What the loop knows after i sorted events. */
  ghost predicate Scanned(o: seq<Event>, lo: nat, i: nat, pending: seq<Event>, total: nat, peak: nat, best: int) {
    && lo <= i <= |o| && pending == o[lo..i] && total == Total(pending) && Expired(o, lo, i)
    && Bounds(o, i, peak) && peak == SumTo(o, i, best)
  }

  lemma ScanStep(o: seq<Event>, lo: nat, i: nat, pending: seq<Event>, total: nat, peak: nat, best: int) returns (lo': nat)
    requires Sorted(o) && i < |o| && Scanned(o, lo, i, pending, total, peak, best)
    ensures var rest := DropExpired(pending, o[i].at - WINDOW);
            var total' := Total(rest) + o[i].weight;
            Scanned(o, lo', i + 1, rest + [o[i]], total', if total' > peak then total' else peak, if total' > peak then o[i].at else best)
  {
    var n := i + 1;
    var k := DropExpiredMeans(pending, o[i].at - WINDOW);
    SliceDrop(o, lo, k, i);
    lo' := lo + k;
    SliceSnoc(o, lo', i);
    forall x | 0 <= x < lo' ensures LongBefore(o[x], o[i]) { assert lo <= x ==> o[x] == pending[x - lo]; }
    forall x, j | 0 <= x < lo' && n <= j < |o| ensures LongBefore(o[x], o[j]) {
      assert LongBefore(o[x], o[i]) && NotAfter(o[i], o[j]);
    }
    assert k < |pending| ==> pending[k] == o[lo'];
    PeakStep(o, lo', i, n, Total(o[lo'..n]), peak, best);
  }

  /** The loop over the sorted events; `best` is an instant at which the peak occurs. */
  method ScanSorted(ordered: seq<Event>) returns (peak: nat, ghost best: int)
    requires Sorted(ordered)
    ensures Bounds(ordered, |ordered|, peak) && peak == WindowSum(ordered, best)
  {
    var pending: seq<Event> := [];
    var total: nat := 0;
    peak, best := 0, 0;
    ghost var lo: nat := 0;
    var i := 0;
    while i < |ordered|
      invariant i <= |ordered| && Scanned(ordered, lo, i, pending, total, peak, best)
    {
      var e := ordered[i];
      lo := ScanStep(ordered, lo, i, pending, total, peak, best);
      pending, total := PopExpired(pending, total, e.at - WINDOW);
      pending, total := pending + [e], total + e.weight;
      best := if total > peak then e.at else best;
      peak := if total > peak then total else peak;
      i := i + 1;
    }
  }

  /** The deque-based calculator returns the true maximum over every 60-second window. */
  method RollingWeight(events: seq<Event>) returns (peak: nat)
    ensures IsPeak(events, peak)
  {
    SortIsSorted(events);
    ghost var best;
    peak, best := ScanSorted(SortEvents(events));
    SortedPeak(events, peak, best);
  }

  lemma SortedPeak(events: seq<Event>, peak: nat, best: int)
    requires var ordered := SortEvents(events); Bounds(ordered, |ordered|, peak) && peak == WindowSum(ordered, best)
    ensures IsPeak(events, peak)
  {
    forall t ensures WindowSum(events, t) <= peak { SortKeepsWindow(events, t); }
    SortKeepsWindow(events, best);
  }

  lemma PeakIsUnique(events: seq<Event>, p: nat, q: nat)
    requires IsPeak(events, p) && IsPeak(events, q)
    ensures p == q
  {
  }

  /******* `WarmupDispatchPacer` *******/

  datatype Reply = Raised | Deferred | Granted

  datatype PacerState = PacerState(quietUntil: int, reservations: seq<Event>, peakWeight: nat)

  datatype Call = Call(now: int, rawMaxRows: int)

  function RequestWeight(rawMaxRows: int): int { 20 + rawMaxRows / 60 }

  predicate Refused(call: Call) { call.rawMaxRows < 1 || RequestWeight(call.rawMaxRows) > WARMUP_BUDGET }

  /** What one `reserve` call answers and leaves behind. */
  function ReserveStep(st: PacerState, call: Call): (PacerState, Reply) {
    if Refused(call) then (st, Raised) else
      var weight := RequestWeight(call.rawMaxRows);
      var live := DropExpired(st.reservations, call.now - WINDOW);
      var total := Total(live);
      if call.now < st.quietUntil || total + weight > WARMUP_BUDGET then (st.(reservations := live), Deferred)
      else (PacerState(st.quietUntil, live + [Event(call.now, weight)],
                       if total + weight > st.peakWeight then total + weight else st.peakWeight), Granted)
  }

  class WarmupDispatchPacer {
    var quietUntil: int
    var reservations: seq<Event>
    var peakWeight: nat

    function State(): PacerState
      reads this
    {
      PacerState(quietUntil, reservations, peakWeight)
    }

    constructor (quietUntil: int)
      ensures State() == PacerState(quietUntil, [], 0)
    {
      this.quietUntil, reservations, peakWeight := quietUntil, [], 0;
    }

    method Reserve(call: Call) returns (reply: Reply)
      modifies this
      ensures (State(), reply) == ReserveStep(old(State()), call)
    {
      if call.rawMaxRows < 1 { return Raised; }
      var weight := 20 + call.rawMaxRows / 60;
      if weight > WARMUP_BUDGET { return Raised; }
      while reservations != [] && reservations[0].at <= call.now - WINDOW
        invariant quietUntil == old(quietUntil) && peakWeight == old(peakWeight)
        invariant DropExpired(reservations, call.now - WINDOW) == DropExpired(old(reservations), call.now - WINDOW)
        decreases |reservations|
      {
        reservations := reservations[1..];
      }
      var total := Total(reservations);
      if call.now < quietUntil || total + weight > WARMUP_BUDGET { return Deferred; }
      reservations := reservations + [Event(call.now, weight)];
      peakWeight := if total + weight > peakWeight then total + weight else peakWeight;
      return Granted;
    }
  }

  /** The pacer after the first n calls of a run. */
  function PacerAfter(quietUntil: int, calls: seq<Call>, n: nat): PacerState
    requires n <= |calls|
  {
    if n == 0 then PacerState(quietUntil, [], 0) else ReserveStep(PacerAfter(quietUntil, calls, n - 1), calls[n - 1]).0
  }

  /** The reservations granted by the first n calls of a run. */
  function GrantsAfter(quietUntil: int, calls: seq<Call>, n: nat): seq<Event>
    requires n <= |calls|
  {
    if n == 0 then [] else
      var before, call := PacerAfter(quietUntil, calls, n - 1), calls[n - 1];
      GrantsAfter(quietUntil, calls, n - 1)
      + if ReserveStep(before, call).1 == Granted then [Event(call.now, RequestWeight(call.rawMaxRows))] else []
  }

  predicate ClockNeverGoesBack(calls: seq<Call>) {
    forall i :: 0 < i < |calls| ==> calls[i - 1].now <= calls[i].now
  }

  /** What the pacer's fields mean in terms of everything it ever granted. */
  ghost predicate Paced(grants: seq<Event>, lo: nat, st: PacerState, latest: int, best: int) {
    && Sorted(grants) && lo <= |grants| && st.reservations == grants[lo..]
    && (forall i :: 0 <= i < |grants| ==> st.quietUntil <= grants[i].at <= latest)
    && (forall i :: 0 <= i < lo ==> grants[i].at <= latest - WINDOW)
    && Bounds(grants, |grants|, st.peakWeight) && st.peakWeight == WindowSum(grants, best) && st.peakWeight <= WARMUP_BUDGET
  }

  /** Popping the deque leaves exactly the grants of the window that ends now. */
  lemma LiveIsWindow(grants: seq<Event>, lo: nat, st: PacerState, latest: int, best: int, now: int) returns (lo': nat)
    requires Paced(grants, lo, st, latest, best) && latest <= now
    ensures lo' <= |grants| && DropExpired(st.reservations, now - WINDOW) == grants[lo'..]
    ensures forall i :: 0 <= i < lo' ==> grants[i].at <= now - WINDOW
    ensures forall i :: lo' <= i < |grants| ==> InWindow(grants[i], now)
    ensures Total(grants[lo'..]) == WindowSum(grants, now)
  {
    var k := DropExpiredMeans(st.reservations, now - WINDOW);
    lo' := lo + k;
    assert grants[lo..][k..] == grants[lo'..];
    forall i | lo <= i < lo' ensures grants[i].at <= now - WINDOW { assert grants[i] == st.reservations[i - lo]; }
    forall i | lo' <= i < |grants| ensures InWindow(grants[i], now) {
      assert grants[lo'] == st.reservations[k];
      assert lo' < i ==> NotAfter(grants[lo'], grants[i]);
    }
    DequeIsWindow(grants, lo', |grants|, now);
    assert grants[lo'..|grants|] == grants[lo'..];
  }

  lemma GrantKeepsPace(grants: seq<Event>, lo: nat, st: PacerState, latest: int, best: int, now: int, weight: nat)
    requires Paced(grants, lo, st, latest, best) && latest <= now && st.quietUntil <= now
    requires forall i :: 0 <= i < lo ==> grants[i].at <= now - WINDOW
    requires WindowSum(grants, now) + weight <= WARMUP_BUDGET
    ensures var total := WindowSum(grants, now) + weight;
            var higher := total > st.peakWeight;
            Paced(grants + [Event(now, weight)], lo,
                  PacerState(st.quietUntil, grants[lo..] + [Event(now, weight)], if higher then total else st.peakWeight),
                  now, if higher then now else best)
  {
    var e := Event(now, weight);
    var all, total := grants + [e], WindowSum(grants, now) + weight;
    SortedSnoc(grants, e);
    assert all[lo..] == grants[lo..] + [e];
    var peak := if total > st.peakWeight then total else st.peakWeight;
    forall t ensures SumTo(all, |grants|, t) == SumTo(grants, |grants|, t) { SumToPrefix(grants, [e], |grants|, t); }
    WindowSumAppend(grants, e, now);
    WindowSumAppend(grants, e, best);
    forall t ensures SumTo(all, |all|, t) <= peak { BoundAdvances(all, |grants|, |all|, peak, t); }
    SumToMonotone(all, |grants|, |all|, best);
  }

  function LatestCall(calls: seq<Call>, n: nat, otherwise: int): int
    requires n <= |calls|
  {
    if n == 0 then otherwise else calls[n - 1].now
  }

  lemma {:induction false} RunIsPaced(quietUntil: int, calls: seq<Call>, n: nat, start: int) returns (lo: nat, best: int)
    requires n <= |calls| && ClockNeverGoesBack(calls) && (calls != [] ==> start <= calls[0].now)
    ensures Paced(GrantsAfter(quietUntil, calls, n), lo, PacerAfter(quietUntil, calls, n), LatestCall(calls, n, start), best)
    ensures PacerAfter(quietUntil, calls, n).quietUntil == quietUntil
  {
    lo, best := 0, 0;
    if n > 0 {
      lo, best := RunIsPaced(quietUntil, calls, n - 1, start);
      lo, best := StepIsPaced(GrantsAfter(quietUntil, calls, n - 1), lo, PacerAfter(quietUntil, calls, n - 1),
                              LatestCall(calls, n - 1, start), best, calls[n - 1],
                              GrantsAfter(quietUntil, calls, n), PacerAfter(quietUntil, calls, n));
    }
  }

  lemma StepIsPaced(grants: seq<Event>, lo: nat, st: PacerState, latest: int, best: int, call: Call,
                    grants': seq<Event>, st': PacerState)
    returns (lo': nat, best': int)
    requires Paced(grants, lo, st, latest, best) && latest <= call.now
    requires st' == ReserveStep(st, call).0
    requires grants' == grants + if ReserveStep(st, call).1 == Granted then [Event(call.now, RequestWeight(call.rawMaxRows))] else []
    ensures Paced(grants', lo', st', call.now, best')
  {
    lo', best' := lo, best;
    if Refused(call) {
      assert grants' == grants;
    } else {
      lo' := LiveIsWindow(grants, lo, st, latest, best, call.now);
      if ReserveStep(st, call).1 == Granted {
        var weight := RequestWeight(call.rawMaxRows);
        var total := WindowSum(grants, call.now) + weight;
        GrantKeepsPace(grants, lo', st.(reservations := grants[lo'..]), call.now, best, call.now, weight);
        best' := if total > st.peakWeight then call.now else best;
      } else {
        assert grants' == grants;
      }
    }
  }

  /**
  Over every run whose clock never goes back, no 60-second window ever holds more than 400
  granted weight, `peak_weight` is exactly the rolling peak of the grants, and nothing is
  granted in the quiet period.
  */
  lemma PacerKeepsBudget(quietUntil: int, calls: seq<Call>)
    requires ClockNeverGoesBack(calls)
    ensures var grants := GrantsAfter(quietUntil, calls, |calls|);
            && (forall t :: WindowSum(grants, t) <= WARMUP_BUDGET)
            && IsPeak(grants, PacerAfter(quietUntil, calls, |calls|).peakWeight)
            && (forall i :: 0 <= i < |grants| ==> quietUntil <= grants[i].at)
  {
    var start := if calls == [] then 0 else calls[0].now;
    var lo, best := RunIsPaced(quietUntil, calls, |calls|, start);
  }

  /** A call is granted exactly when it is well-formed, after the quiet time and within the window budget. */
  lemma GrantedExactlyWithinBudget(quietUntil: int, calls: seq<Call>, n: nat)
    requires ClockNeverGoesBack(calls) && n < |calls|
    ensures ReserveStep(PacerAfter(quietUntil, calls, n), calls[n]).1 == Granted <==>
            && !Refused(calls[n]) && quietUntil <= calls[n].now
            && WindowSum(GrantsAfter(quietUntil, calls, n), calls[n].now) + RequestWeight(calls[n].rawMaxRows) <= WARMUP_BUDGET
  {
    var lo, best := RunIsPaced(quietUntil, calls, n, calls[0].now);
    var lo' := LiveIsWindow(GrantsAfter(quietUntil, calls, n), lo, PacerAfter(quietUntil, calls, n),
                            LatestCall(calls, n, calls[0].now), best, calls[n].now);
  }

  /******* Which clocks keep the budget *******/

  /** The calls of a run, given by their times and row bounds. */
  function CallsAt(ts: seq<int>, rows: seq<int>): seq<Call>
    requires |ts| == |rows|
  {
    seq(|ts|, i requires 0 <= i < |ts| => Call(ts[i], rows[i]))
  }

  ghost predicate KeepsBudget(quietUntil: int, ts: seq<int>, rows: seq<int>)
    requires |ts| == |rows|
  {
    forall t :: WindowSum(GrantsAfter(quietUntil, CallsAt(ts, rows), |ts|), t) <= WARMUP_BUDGET
  }

  predicate Near(a: int, b: int) { a - b < WINDOW && b - a < WINDOW }

  /** Call j expires a grant of call i, and call k then comes within 60 seconds of call i again. */
  predicate Forgets(quietUntil: int, ts: seq<int>, i: int, j: int, k: int) {
    && 0 <= i < j < k < |ts| && quietUntil <= ts[i] && quietUntil <= ts[k]
    && ts[i] + WINDOW <= ts[j] && Near(ts[i], ts[k])
  }

  ghost predicate NeverForgets(quietUntil: int, ts: seq<int>) {
    forall i, j, k :: !Forgets(quietUntil, ts, i, j, k)
  }

  /** Some call between i and n is 60 seconds or more after call i. */
  ghost predicate Outlived(ts: seq<int>, i: int, n: int) {
    exists j :: 0 <= i < j < n <= |ts| && ts[i] + WINDOW <= ts[j]
  }

  /** Grant g was made by call who[g]; the deque holds the grants from lo on, the others have expired. */
  ghost predicate Tracks(ts: seq<int>, n: nat, quietUntil: int, grants: seq<Event>, who: seq<nat>, lo: nat, st: PacerState) {
    && n <= |ts| && |who| == |grants| && lo <= |grants| && st.quietUntil == quietUntil && st.reservations == grants[lo..]
    && (forall g :: 0 <= g < |grants| ==> who[g] < n && grants[g].at == ts[who[g]] && quietUntil <= grants[g].at)
    && (forall g :: 0 <= g < lo ==> Outlived(ts, who[g], n))
  }

  lemma OutlivedLater(ts: seq<int>, i: int, n: nat, m: nat)
    requires Outlived(ts, i, n) && n <= m <= |ts|
    ensures Outlived(ts, i, m)
  {
    var j :| 0 <= i < j < n <= |ts| && ts[i] + WINDOW <= ts[j];
    assert 0 <= i < j < m <= |ts|;
  }

  /** Popping at call n keeps the deque a tail of the grants; what is gone expired before n or expires at n. */
  lemma PopTracks(ts: seq<int>, n: nat, quietUntil: int, grants: seq<Event>, who: seq<nat>, lo: nat, st: PacerState) returns (lo': nat)
    requires Tracks(ts, n, quietUntil, grants, who, lo, st) && n < |ts|
    ensures Tracks(ts, n + 1, quietUntil, grants, who, lo', st.(reservations := DropExpired(st.reservations, ts[n] - WINDOW)))
    ensures forall g :: 0 <= g < lo' ==> Outlived(ts, who[g], n) || ts[who[g]] + WINDOW <= ts[n]
  {
    var p := DropExpiredMeans(st.reservations, ts[n] - WINDOW);
    lo' := lo + p;
    assert grants[lo..][p..] == grants[lo'..];
    forall g | 0 <= g < lo' ensures Outlived(ts, who[g], n + 1) && (Outlived(ts, who[g], n) || ts[who[g]] + WINDOW <= ts[n]) {
      if g < lo {
        OutlivedLater(ts, who[g], n, n + 1);
      } else {
        assert st.reservations[g - lo] == grants[g];
        assert 0 <= who[g] < n < n + 1 <= |ts| && ts[who[g]] + WINDOW <= ts[n];
      }
    }
  }

  lemma {:induction false} WindowWithinTail(events: seq<Event>, lo: nat, n: nat, t: int)
    requires lo <= n <= |events| && forall g :: 0 <= g < lo ==> !InWindow(events[g], t)
    ensures SumTo(events, n, t) <= Total(events[lo..n])
  {
    if lo < n {
      WindowWithinTail(events, lo, n - 1, t);
      assert events[lo..n][..n - 1 - lo] == events[lo..n - 1];
    } else if n > 0 {
      WindowWithinTail(events, lo - 1, n - 1, t);
      assert events[lo - 1..n - 1] == [] == events[lo..n];
    }
  }

  /** If the clock never forgets, no window around call n holds a grant that is gone from the deque. */
  lemma GoneIsOutside(ts: seq<int>, n: nat, quietUntil: int, i: nat, t: int)
    requires NeverForgets(quietUntil, ts) && i < n < |ts| && quietUntil <= ts[i] && quietUntil <= ts[n]
    requires Outlived(ts, i, n) || ts[i] + WINDOW <= ts[n]
    requires t - WINDOW < ts[n] <= t
    ensures !(t - WINDOW < ts[i] <= t)
  {
    if Outlived(ts, i, n) {
      var j :| 0 <= i < j < n <= |ts| && ts[i] + WINDOW <= ts[j];
      assert !Forgets(quietUntil, ts, i, j, n);
    }
  }

  /** A grant at call n keeps every window within the budget. */
  lemma GrantFits(ts: seq<int>, n: nat, quietUntil: int, grants: seq<Event>, who: seq<nat>, lo: nat, live: PacerState, weight: nat, t: int)
    requires NeverForgets(quietUntil, ts) && n < |ts| && quietUntil <= ts[n]
    requires Tracks(ts, n + 1, quietUntil, grants, who, lo, live) && forall g :: 0 <= g < |who| ==> who[g] < n
    requires forall g :: 0 <= g < lo ==> Outlived(ts, who[g], n) || ts[who[g]] + WINDOW <= ts[n]
    requires Total(live.reservations) + weight <= WARMUP_BUDGET && WindowSum(grants, t) <= WARMUP_BUDGET
    ensures WindowSum(grants + [Event(ts[n], weight)], t) <= WARMUP_BUDGET
  {
    var e := Event(ts[n], weight);
    WindowSumAppend(grants, e, t);
    if InWindow(e, t) {
      forall g | 0 <= g < lo ensures !InWindow(grants[g], t) { GoneIsOutside(ts, n, quietUntil, who[g], t); }
      WindowWithinTail(grants, lo, |grants|, t);
      assert grants[lo..|grants|] == grants[lo..];
    }
  }

  ghost predicate Within(grants: seq<Event>) { forall t :: WindowSum(grants, t) <= WARMUP_BUDGET }

  lemma ForgetlessStep(ts: seq<int>, n: nat, quietUntil: int, call: Call, grants: seq<Event>, who: seq<nat>, lo: nat, st: PacerState,
                       grants': seq<Event>, st': PacerState) returns (who': seq<nat>, lo': nat)
    requires NeverForgets(quietUntil, ts) && n < |ts| && call.now == ts[n]
    requires Tracks(ts, n, quietUntil, grants, who, lo, st) && Within(grants)
    requires st' == ReserveStep(st, call).0
    requires grants' == grants + if ReserveStep(st, call).1 == Granted then [Event(call.now, RequestWeight(call.rawMaxRows))] else []
    ensures Tracks(ts, n + 1, quietUntil, grants', who', lo', st') && Within(grants')
  {
    who', lo' := who, lo;
    if Refused(call) {
      assert grants' == grants;
      forall g | 0 <= g < lo ensures Outlived(ts, who[g], n + 1) { OutlivedLater(ts, who[g], n, n + 1); }
    } else {
      lo' := PopTracks(ts, n, quietUntil, grants, who, lo, st);
      var live := st.(reservations := DropExpired(st.reservations, ts[n] - WINDOW));
      if ReserveStep(st, call).1 == Granted {
        who' := who + [n];
        forall t ensures WindowSum(grants', t) <= WARMUP_BUDGET {
          GrantFits(ts, n, quietUntil, grants, who, lo', live, RequestWeight(call.rawMaxRows), t);
        }
        assert grants'[lo'..] == grants[lo'..] + [Event(call.now, RequestWeight(call.rawMaxRows))];
      } else {
        assert grants' == grants;
      }
    }
  }

  lemma {:induction false} ForgetlessRun(quietUntil: int, ts: seq<int>, calls: seq<Call>, n: nat) returns (who: seq<nat>, lo: nat)
    requires NeverForgets(quietUntil, ts) && n <= |ts| == |calls| && forall i :: 0 <= i < |ts| ==> calls[i].now == ts[i]
    ensures Tracks(ts, n, quietUntil, GrantsAfter(quietUntil, calls, n), who, lo, PacerAfter(quietUntil, calls, n))
    ensures Within(GrantsAfter(quietUntil, calls, n))
  {
    who, lo := [], 0;
    if n > 0 {
      who, lo := ForgetlessRun(quietUntil, ts, calls, n - 1);
      who, lo := ForgetlessStep(ts, n - 1, quietUntil, calls[n - 1], GrantsAfter(quietUntil, calls, n - 1), who, lo,
                                PacerAfter(quietUntil, calls, n - 1), GrantsAfter(quietUntil, calls, n), PacerAfter(quietUntil, calls, n));
    }
  }

  /** Calls that raise change nothing. */
  lemma {:induction false} RaisedCallsAreIdle(quietUntil: int, calls: seq<Call>, a: nat, b: nat)
    requires a <= b <= |calls| && forall x :: a <= x < b ==> Refused(calls[x])
    ensures PacerAfter(quietUntil, calls, b) == PacerAfter(quietUntil, calls, a)
    ensures GrantsAfter(quietUntil, calls, b) == GrantsAfter(quietUntil, calls, a)
  {
    if a < b { RaisedCallsAreIdle(quietUntil, calls, a, b - 1); }
  }

  /** Weight 400 at call i, 20 at call j, 380 at call k, and calls that raise elsewhere. */
  function ForgottenRows(n: nat, i: int, j: int, k: int): seq<int> {
    seq(n, x => if x == i then 22800 else if x == j then 1 else if x == k then 21600 else 0)
  }

  lemma DropOne(e: Event, cutoff: int)
    ensures DropExpired([e], cutoff) == if e.at <= cutoff then [] else [e]
    ensures Total([e]) == e.weight && Total([]) == 0
  {
    assert [e][1..] == [] && [e][..0] == [];
  }

  lemma IdleThenGrant(quietUntil: int, calls: seq<Call>, a: nat, b: nat, st: PacerState, st': PacerState, e: Event)
    requires a <= b < |calls| && (forall x :: a <= x < b ==> Refused(calls[x])) && PacerAfter(quietUntil, calls, a) == st
    requires ReserveStep(st, calls[b]) == (st', Granted) && e == Event(calls[b].now, RequestWeight(calls[b].rawMaxRows))
    ensures PacerAfter(quietUntil, calls, b + 1) == st'
    ensures GrantsAfter(quietUntil, calls, b + 1) == GrantsAfter(quietUntil, calls, a) + [e]
  {
    RaisedCallsAreIdle(quietUntil, calls, a, b);
  }

  /** A call that finds the deque empty, after popping at most one entry, leaves its own reservation there. */
  lemma GrantOnEmpty(st: PacerState, call: Call, e: Event)
    requires !Refused(call) && st.quietUntil <= call.now && e == Event(call.now, RequestWeight(call.rawMaxRows))
    requires DropExpired(st.reservations, call.now - WINDOW) == []
    ensures ReserveStep(st, call) == (PacerState(st.quietUntil, [e], if e.weight > st.peakWeight then e.weight else st.peakWeight), Granted)
  {
    assert [] + [e] == [e] && Total([]) == 0;
  }

  lemma GrantOnOne(st: PacerState, call: Call, first: Event)
    requires !Refused(call) && st.quietUntil <= call.now && st.reservations == [first] && call.now - WINDOW < first.at
    requires first.weight + RequestWeight(call.rawMaxRows) <= WARMUP_BUDGET
    ensures ReserveStep(st, call).1 == Granted
  {
    DropOne(first, call.now - WINDOW);
  }

  lemma ZeroRowsRaise(calls: seq<Call>, a: nat, b: nat)
    requires a <= b <= |calls| && forall x :: a <= x < b ==> calls[x].rawMaxRows == 0
    ensures forall x :: a <= x < b ==> Refused(calls[x])
  {
  }

  lemma ForgottenWeights()
    ensures RequestWeight(22800) == 400 && RequestWeight(1) == 20 && RequestWeight(21600) == 380
  {
  }

  lemma FirstGrant(quietUntil: int, calls: seq<Call>, i: nat, first: Event)
    requires i < |calls| && forall x :: 0 <= x < i ==> calls[x].rawMaxRows == 0
    requires calls[i].rawMaxRows == 22800 && first == Event(calls[i].now, 400) && quietUntil <= first.at
    ensures PacerAfter(quietUntil, calls, i + 1) == PacerState(quietUntil, [first], 400)
    ensures GrantsAfter(quietUntil, calls, i + 1) == [first]
  {
    var s0 := PacerState(quietUntil, [], 0);
    ForgottenWeights();
    ZeroRowsRaise(calls, 0, i);
    GrantOnEmpty(s0, calls[i], first);
    IdleThenGrant(quietUntil, calls, 0, i, s0, PacerState(quietUntil, [first], 400), first);
    assert [] + [first] == [first];
  }

  lemma SecondGrant(quietUntil: int, calls: seq<Call>, i: nat, j: nat, first: Event, second: Event)
    requires i < j < |calls| && forall x :: i < x < j ==> calls[x].rawMaxRows == 0
    requires PacerAfter(quietUntil, calls, i + 1) == PacerState(quietUntil, [first], 400) && GrantsAfter(quietUntil, calls, i + 1) == [first]
    requires calls[j].rawMaxRows == 1 && second == Event(calls[j].now, 20) && first.at + WINDOW <= second.at && quietUntil <= second.at
    ensures PacerAfter(quietUntil, calls, j + 1) == PacerState(quietUntil, [second], 400)
    ensures GrantsAfter(quietUntil, calls, j + 1) == [first] + [second]
  {
    var s1 := PacerState(quietUntil, [first], 400);
    ForgottenWeights();
    ZeroRowsRaise(calls, i + 1, j);
    DropOne(first, second.at - WINDOW);
    GrantOnEmpty(s1, calls[j], second);
    IdleThenGrant(quietUntil, calls, i + 1, j, s1, PacerState(quietUntil, [second], 400), second);
  }

  lemma ThirdGrant(quietUntil: int, calls: seq<Call>, j: nat, k: nat, first: Event, second: Event, third: Event)
    requires j < k < |calls| && forall x :: j < x < |calls| && x != k ==> calls[x].rawMaxRows == 0
    requires PacerAfter(quietUntil, calls, j + 1) == PacerState(quietUntil, [second], 400)
    requires GrantsAfter(quietUntil, calls, j + 1) == [first] + [second]
    requires second.weight == 20 && calls[k].rawMaxRows == 21600 && third == Event(calls[k].now, 380)
    requires quietUntil <= third.at < second.at + WINDOW
    ensures GrantsAfter(quietUntil, calls, |calls|) == [first] + [second] + [third]
  {
    var st := PacerState(quietUntil, [second], 400);
    ForgottenWeights();
    ZeroRowsRaise(calls, j + 1, k);
    GrantOnOne(st, calls[k], second);
    IdleThenGrant(quietUntil, calls, j + 1, k, st, ReserveStep(st, calls[k]).0, third);
    ZeroRowsRaise(calls, k + 1, |calls|);
    RaisedCallsAreIdle(quietUntil, calls, k + 1, |calls|);
  }

  /** The three grants of a run that forgets. */
  lemma ForgetfulGrants(quietUntil: int, ts: seq<int>, i: int, j: int, k: int)
    requires Forgets(quietUntil, ts, i, j, k)
    ensures GrantsAfter(quietUntil, CallsAt(ts, ForgottenRows(|ts|, i, j, k)), |ts|) == [Event(ts[i], 400)] + [Event(ts[j], 20)] + [Event(ts[k], 380)]
  {
    var calls := CallsAt(ts, ForgottenRows(|ts|, i, j, k));
    FirstGrant(quietUntil, calls, i, Event(ts[i], 400));
    SecondGrant(quietUntil, calls, i, j, Event(ts[i], 400), Event(ts[j], 20));
    ThirdGrant(quietUntil, calls, j, k, Event(ts[i], 400), Event(ts[j], 20), Event(ts[k], 380));
  }

  /** A clock that forgets lets one window hold 780. */
  lemma ForgettingBreaksBudget(quietUntil: int, ts: seq<int>, i: int, j: int, k: int)
    requires Forgets(quietUntil, ts, i, j, k)
    ensures var later := if ts[i] <= ts[k] then ts[k] else ts[i];
            WindowSum(GrantsAfter(quietUntil, CallsAt(ts, ForgottenRows(|ts|, i, j, k)), |ts|), later) >= 780
  {
    ForgetfulGrants(quietUntil, ts, i, j, k);
    var first, second, third := Event(ts[i], 400), Event(ts[j], 20), Event(ts[k], 380);
    var later := if ts[i] <= ts[k] then ts[k] else ts[i];
    WindowSumAppend([], first, later);
    WindowSumAppend([first], second, later);
    WindowSumAppend([first] + [second], third, later);
    assert [] + [first] == [first];
  }

  /** The exact condition on the clock: every window stays within 400, whatever is asked for, unless the clock forgets. */
  lemma BudgetHoldsExactly(quietUntil: int, ts: seq<int>)
    ensures (forall rows :: |rows| == |ts| ==> KeepsBudget(quietUntil, ts, rows)) <==> NeverForgets(quietUntil, ts)
  {
    if NeverForgets(quietUntil, ts) {
      forall rows | |rows| == |ts| ensures KeepsBudget(quietUntil, ts, rows) {
        var who, lo := ForgetlessRun(quietUntil, ts, CallsAt(ts, rows), |ts|);
      }
    }
    if i, j, k :| Forgets(quietUntil, ts, i, j, k) {
      ForgettingBreaksBudget(quietUntil, ts, i, j, k);
      assert !KeepsBudget(quietUntil, ts, ForgottenRows(|ts|, i, j, k));
    }
  }

  /** A clock that never goes back never forgets. */
  lemma SteadyClockNeverForgets(quietUntil: int, calls: seq<Call>)
    requires ClockNeverGoesBack(calls)
    ensures NeverForgets(quietUntil, seq(|calls|, i requires 0 <= i < |calls| => calls[i].now))
  {
    var ts := seq(|calls|, i requires 0 <= i < |calls| => calls[i].now);
    forall i, j, k ensures !Forgets(quietUntil, ts, i, j, k) {
      if 0 <= i < j < k < |ts| { LaterCallIsLater(calls, j, k); }
    }
  }

  lemma {:induction false} LaterCallIsLater(calls: seq<Call>, a: nat, b: nat)
    requires ClockNeverGoesBack(calls) && a <= b < |calls|
    ensures calls[a].now <= calls[b].now
  {
    if a < b { LaterCallIsLater(calls, a, b - 1); }
  }

  /******* REST weight accounting *******/

  /** A completed native request: its dispatch, its reservation, what the venue debited on top of 20 and when. */
  datatype Matched = Matched(at: int, reserved: nat, extra: nat, debited: int, completed: int)

  function ActualWeight(d: Matched): nat { 20 + d.extra }

  function WarmupEvents(retries: seq<Event>, matched: seq<Matched>): seq<Event> {
    if matched == [] then retries else
      var last := matched[|matched| - 1];
      WarmupEvents(retries, matched[..|matched| - 1]) + [Event(last.at, ActualWeight(last))]
  }

  function RestEvents(warmup: seq<Event>, metadataRetries: seq<Event>, metadata: Option<int>): seq<Event> {
    warmup + metadataRetries + if metadata.Some? then [Event(metadata.value, 100)] else []
  }

  ghost predicate WithinReservations(matched: seq<Matched>) {
    forall i :: 0 <= i < |matched| ==> 20 + matched[i].extra <= matched[i].reserved
  }

  ghost predicate DebitedInTime(matched: seq<Matched>) {
    forall i :: 0 <= i < |matched| ==> matched[i].debited <= matched[i].completed
  }

  ghost predicate AfterQuietBoundary(matched: seq<Matched>, metadata: Option<int>) {
    matched != [] ==> metadata.Some? && forall i :: 0 <= i < |matched| ==> metadata.value + WINDOW <= matched[i].at
  }

  /******* The totals of a window, counted from the requests *******/

  /** Requests among the first n dispatched in (t - 60s, t]. */
  function RequestsIn(matched: seq<Matched>, n: nat, t: int): nat
    requires n <= |matched|
  {
    if n == 0 then 0 else RequestsIn(matched, n - 1, t) + if t - WINDOW < matched[n - 1].at <= t then 1 else 0
  }

  /** What the venue debited on top for them. */
  function ExtraIn(matched: seq<Matched>, n: nat, t: int): nat
    requires n <= |matched|
  {
    if n == 0 then 0 else ExtraIn(matched, n - 1, t) + if t - WINDOW < matched[n - 1].at <= t then matched[n - 1].extra else 0
  }

  /** 20 a request, the extra debits, and the retries. */
  function WarmupTotal(matched: seq<Matched>, retries: seq<Event>, t: int): nat {
    WindowSum(retries, t) + 20 * RequestsIn(matched, |matched|, t) + ExtraIn(matched, |matched|, t)
  }

  /** The same with the metadata retries and 100 for the metadata burst. */
  function RestTotal(matched: seq<Matched>, retries: seq<Event>, metadataRetries: seq<Event>, metadata: Option<int>, t: int): nat {
    WarmupTotal(matched, retries, t) + WindowSum(metadataRetries, t)
    + if metadata.Some? && t - WINDOW < metadata.value <= t then 100 else 0
  }

  lemma {:induction false} RequestsOfPrefix(matched: seq<Matched>, d: Matched, n: nat, t: int)
    requires n <= |matched|
    ensures RequestsIn(matched + [d], n, t) == RequestsIn(matched, n, t) && ExtraIn(matched + [d], n, t) == ExtraIn(matched, n, t)
  {
    if n > 0 { RequestsOfPrefix(matched, d, n - 1, t); }
  }

  lemma {:induction false} WarmupEventsTotal(matched: seq<Matched>, retries: seq<Event>, t: int)
    ensures WindowSum(WarmupEvents(retries, matched), t) == WarmupTotal(matched, retries, t)
  {
    if matched != [] {
      var d, earlier := matched[|matched| - 1], matched[..|matched| - 1];
      WarmupEventsTotal(earlier, retries, t);
      WindowSumAppend(WarmupEvents(retries, earlier), Event(d.at, ActualWeight(d)), t);
      RequestsOfPrefix(earlier, d, |earlier|, t);
      assert matched == earlier + [d];
    }
  }

  lemma {:induction false} SumToConcat(a: seq<Event>, b: seq<Event>, n: nat, t: int)
    requires n <= |b|
    ensures SumTo(a + b, |a| + n, t) == SumTo(a, |a|, t) + SumTo(b, n, t)
  {
    if n == 0 { SumToPrefix(a, b, |a|, t); } else { SumToConcat(a, b, n - 1, t); }
  }

  lemma RestEventsTotal(matched: seq<Matched>, retries: seq<Event>, metadataRetries: seq<Event>, metadata: Option<int>, t: int)
    ensures WindowSum(RestEvents(WarmupEvents(retries, matched), metadataRetries, metadata), t)
         == RestTotal(matched, retries, metadataRetries, metadata, t)
  {
    var warmup := WarmupEvents(retries, matched);
    WarmupEventsTotal(matched, retries, t);
    SumToConcat(warmup, metadataRetries, |metadataRetries|, t);
    if metadata.Some? {
      WindowSumAppend(warmup + metadataRetries, Event(metadata.value, 100), t);
    } else {
      assert RestEvents(warmup, metadataRetries, metadata) == warmup + metadataRetries;
    }
  }

  /** The accounting loop of `_parse_native_http_log`: two rolling peaks and four blockers. */
  method AccountRest(matched: seq<Matched>, retries: seq<Event>, metadataRetries: seq<Event>, metadata: Option<int>)
    returns (warmup: nat, rest: nat, lateDebit: bool, exceedsReservation: bool, quietUnproven: bool, overBudget: bool)
    ensures (forall t :: WarmupTotal(matched, retries, t) <= warmup) && exists t :: WarmupTotal(matched, retries, t) == warmup
    ensures forall t :: RestTotal(matched, retries, metadataRetries, metadata, t) <= rest
    ensures exists t :: RestTotal(matched, retries, metadataRetries, metadata, t) == rest
    ensures lateDebit <==> !DebitedInTime(matched)
    ensures exceedsReservation <==> !WithinReservations(matched)
    ensures quietUnproven <==> !AfterQuietBoundary(matched, metadata)
    ensures overBudget <==> warmup > WARMUP_BUDGET || rest > REST_BUDGET
  {
    var events := retries;
    lateDebit, exceedsReservation, quietUnproven := false, false, false;
    var i := 0;
    while i < |matched|
      invariant 0 <= i <= |matched|
      invariant events == WarmupEvents(retries, matched[..i])
      invariant lateDebit <==> !DebitedInTime(matched[..i])
      invariant exceedsReservation <==> !WithinReservations(matched[..i])
      invariant quietUnproven <==> !AfterQuietBoundary(matched[..i], metadata)
    {
      var d := matched[i];
      assert matched[..i + 1][..i] == matched[..i];
      assert forall k :: 0 <= k < i ==> matched[..i + 1][k] == matched[..i][k];
      assert matched[..i + 1][i] == d;
      if d.debited > d.completed { lateDebit := true; }
      if ActualWeight(d) > d.reserved { exceedsReservation := true; }
      if metadata.None? || d.at < metadata.value + WINDOW { quietUnproven := true; }
      events := events + [Event(d.at, ActualWeight(d))];
      i := i + 1;
    }
    assert matched[..i] == matched;
    warmup := RollingWeight(events);
    rest := RollingWeight(RestEvents(events, metadataRetries, metadata));
    overBudget := warmup > WARMUP_BUDGET || rest > REST_BUDGET;
    PeaksAreTotals(matched, retries, metadataRetries, metadata, warmup, rest);
  }

  lemma PeaksAreTotals(matched: seq<Matched>, retries: seq<Event>, metadataRetries: seq<Event>, metadata: Option<int>, warmup: nat, rest: nat)
    requires IsPeak(WarmupEvents(retries, matched), warmup)
    requires IsPeak(RestEvents(WarmupEvents(retries, matched), metadataRetries, metadata), rest)
    ensures (forall t :: WarmupTotal(matched, retries, t) <= warmup) && exists t :: WarmupTotal(matched, retries, t) == warmup
    ensures forall t :: RestTotal(matched, retries, metadataRetries, metadata, t) <= rest
    ensures exists t :: RestTotal(matched, retries, metadataRetries, metadata, t) == rest
  {
    var events := WarmupEvents(retries, matched);
    var all := RestEvents(events, metadataRetries, metadata);
    forall t ensures WarmupTotal(matched, retries, t) == WindowSum(events, t) { WarmupEventsTotal(matched, retries, t); }
    forall t ensures RestTotal(matched, retries, metadataRetries, metadata, t) == WindowSum(all, t) {
      RestEventsTotal(matched, retries, metadataRetries, metadata, t);
    }
    var t :| WindowSum(events, t) == warmup;
    assert WarmupTotal(matched, retries, t) == warmup;
    var u :| WindowSum(all, u) == rest;
    assert RestTotal(matched, retries, metadataRetries, metadata, u) == rest;
  }

  /** The completed requests are a sub-sequence of the pacer's grants, each with its reservation. */
  ghost predicate SelectedFrom(matched: seq<Matched>, grants: seq<Event>) {
    matched == [] ||
    (grants != [] &&
     var d, g := matched[|matched| - 1], grants[|grants| - 1];
     || SelectedFrom(matched, grants[..|grants| - 1])
     || (d.at == g.at && d.reserved == g.weight && SelectedFrom(matched[..|matched| - 1], grants[..|grants| - 1])))
  }

  /** Actual weights within reservations never outweigh the grants they were drawn from. */
  lemma {:induction false} ActualsAreDominated(matched: seq<Matched>, grants: seq<Event>, t: int)
    requires WithinReservations(matched) && SelectedFrom(matched, grants)
    ensures WindowSum(WarmupEvents([], matched), t) <= WindowSum(grants, t)
    decreases |grants|
  {
    if matched != [] {
      var d, g := matched[|matched| - 1], grants[|grants| - 1];
      var earlier, head := matched[..|matched| - 1], grants[..|grants| - 1];
      assert grants == head + [g];
      WindowSumAppend(head, g, t);
      if SelectedFrom(matched, head) {
        ActualsAreDominated(matched, head, t);
      } else {
        ActualsAreDominated(earlier, head, t);
        WindowSumAppend(WarmupEvents([], earlier), Event(d.at, ActualWeight(d)), t);
      }
    }
  }

  lemma {:induction false} EarlyWindowIsEmpty(matched: seq<Matched>, t: int, from: int)
    requires t < from && forall i :: 0 <= i < |matched| ==> from <= matched[i].at
    ensures WindowSum(WarmupEvents([], matched), t) == 0
  {
    if matched != [] {
      var d, earlier := matched[|matched| - 1], matched[..|matched| - 1];
      EarlyWindowIsEmpty(earlier, t, from);
      WindowSumAppend(WarmupEvents([], earlier), Event(d.at, ActualWeight(d)), t);
    }
  }

  /**
  End to end: requests drawn from a paced run, within their reservations, without retries and
  at least 60s after the metadata burst keep every REST window within 400, below the 600 limit.
  */
  lemma PacedRequestsStayWithinRestBudget(quietUntil: int, calls: seq<Call>, matched: seq<Matched>, metadata: Option<int>, t: int)
    requires ClockNeverGoesBack(calls) && SelectedFrom(matched, GrantsAfter(quietUntil, calls, |calls|))
    requires WithinReservations(matched) && AfterQuietBoundary(matched, metadata)
    ensures WarmupTotal(matched, [], t) <= WARMUP_BUDGET && RestTotal(matched, [], [], metadata, t) <= WARMUP_BUDGET < REST_BUDGET
  {
    WarmupEventsTotal(matched, [], t);
    RestEventsTotal(matched, [], [], metadata, t);
    var events := WarmupEvents([], matched);
    PacerKeepsBudget(quietUntil, calls);
    ActualsAreDominated(matched, GrantsAfter(quietUntil, calls, |calls|), t);
    assert events + [] == events;
    if metadata.Some? {
      var burst := Event(metadata.value, 100);
      WindowSumAppend(events, burst, t);
      if InWindow(burst, t) && matched != [] { EarlyWindowIsEmpty(matched, t, metadata.value + WINDOW); }
    } else {
      assert RestEvents(events, [], metadata) == events;
    }
  }
}
