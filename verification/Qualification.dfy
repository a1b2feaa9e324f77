/**
The reconnect and 15-minute observation recorder of the L0 qualification, and what a clean
evaluation proves about the run it recorded. Times are nanoseconds.
*/
module Qualification {
  import opened Wrappers

  const SECOND: int := 1_000_000_000
  const MINUTE: int := 60 * SECOND
  const OBSERVATION: int := 15 * MINUTE
  const RETENTION: nat := 80

  /** A bar stream: one-minute when its type ends in `-1-MINUTE-LAST-EXTERNAL`, five-minute otherwise. */
  datatype Bar = Bar(name: string, oneMinute: bool)

  function Step(bar: Bar): int { if bar.oneMinute then MINUTE else 5 * MINUTE }

  function Required(bar: Bar): nat { if bar.oneMinute then 15 else 3 }

  datatype Failure =
    | ReconnectRequestCount | UnplannedDisconnect | RecoverySequence | FutureBar | RecoveryOver60s
    | ConflictingBar | DuplicateBar | UnboundedStreamInput

  /** One retained bar: its open time, how late it was processed, its payload hash. */
  datatype Kept = Kept(open: int, lag: int, hash: string)

  datatype Observation = Observation(
    bars: seq<Bar>, request: Option<int>, disconnected: Option<int>, connected: Option<int>, window: Option<int>,
    requests: nat, live: map<Bar, seq<Kept>>, failures: set<Failure>, recovered: set<Bar>)

  datatype Input =
    | Requested(now: int)
    | Disconnected(now: int)
    | Connected(now: int)
    | Processed(bar: Bar, open: int, now: int, hash: string)

  /******* One input *******/

  function StreamOf(o: Observation, bar: Bar): seq<Kept> { if bar in o.live then o.live[bar] else [] }

  function Find(stream: seq<Kept>, open: int): Option<Kept> {
    if stream == [] then None
    else if stream[|stream| - 1].open == open then Some(stream[|stream| - 1])
    else Find(stream[..|stream| - 1], open)
  }

  function OnRequest(o: Observation, now: int): Observation {
    o.(requests := o.requests + 1, request := Some(now),
       failures := if o.requests + 1 != 1 then o.failures + {ReconnectRequestCount} else o.failures)
  }

  function OnDisconnected(o: Observation, now: int): Observation {
    if o.request.None? then o
    else o.(failures := if o.disconnected.Some? then o.failures + {UnplannedDisconnect} else o.failures, disconnected := Some(now))
  }

  function OnConnected(o: Observation, now: int): Observation {
    if o.request.None? then o
    else if o.disconnected.None? || now < o.disconnected.value then o.(failures := o.failures + {RecoverySequence})
    else o.(connected := Some(now))
  }

  function Keep(o: Observation, bar: Bar, entry: Kept): Observation {
    var stream := StreamOf(o, bar);
    var found := Find(stream, entry.open);
    if found.Some? then
      o.(live := o.live[bar := stream],
         failures := o.failures + {if found.value.hash != entry.hash then ConflictingBar else DuplicateBar})
    else if |stream| < RETENTION then o.(live := o.live[bar := stream + [entry]])
    else o.(live := o.live[bar := stream], failures := o.failures + {UnboundedStreamInput})
  }

  function OpenWindow(o: Observation, now: int): Observation {
    o.(failures := if o.request.None? || now - o.request.value > MINUTE then o.failures + {RecoveryOver60s} else o.failures,
       window := Some(now))
  }

  function OnProcessed(o: Observation, bar: Bar, open: int, now: int, hash: string): Observation {
    if bar !in o.bars || o.connected.None? then o else
    var close := open + Step(bar);
    if close > now then o.(failures := o.failures + {FutureBar})
    else if close < o.connected.value then o
    else
      var o' := if now - close <= MINUTE then o.(recovered := o.recovered + {bar}) else o;
      if o'.window.None? then
        if o'.recovered == (set b | b in o'.bars) then OpenWindow(o', now) else o'
      else if close <= o'.window.value || close > o'.window.value + OBSERVATION then o'
      else Keep(o', bar, Kept(open, now - close, hash))
  }

  function React(o: Observation, input: Input): Observation {
    match input
    case Requested(now) => OnRequest(o, now)
    case Disconnected(now) => OnDisconnected(o, now)
    case Connected(now) => OnConnected(o, now)
    case Processed(bar, open, now, hash) => OnProcessed(o, bar, open, now, hash)
  }

  function Fresh(bars: seq<Bar>): Observation { Observation(bars, None, None, None, None, 0, map[], {}, {}) }

  ghost predicate Linked(states: seq<Observation>, inputs: seq<Input>, i: nat)
    requires i < |inputs| < |states|
  {
    states[i + 1] == React(states[i], inputs[i])
  }

  /** The states of the recorder over a run, one more than its inputs. */
  ghost predicate IsRun(bars: seq<Bar>, inputs: seq<Input>, states: seq<Observation>) {
    && |states| == |inputs| + 1 && states[0] == Fresh(bars)
    && forall i {:trigger Linked(states, inputs, i)} :: 0 <= i < |inputs| ==> Linked(states, inputs, i)
  }

  /******* The recorder object *******/

  class QualificationObservation {
    const bars: seq<Bar>
    var request: Option<int>
    var disconnected: Option<int>
    var connected: Option<int>
    var window: Option<int>
    var requests: nat
    var live: map<Bar, seq<Kept>>
    var failures: set<Failure>
    var recovered: set<Bar>

    function State(): Observation
      reads this
    {
      Observation(bars, request, disconnected, connected, window, requests, live, failures, recovered)
    }

    constructor (bars: seq<Bar>)
      ensures State() == Fresh(bars)
    {
      this.bars := bars;
      request, disconnected, connected, window := None, None, None, None;
      requests, live, failures, recovered := 0, map[], {}, {};
    }

    method Request(now: int)
      modifies this
      ensures State() == React(old(State()), Requested(now))
    {
      requests := requests + 1;
      if requests != 1 { failures := failures + {ReconnectRequestCount}; }
      request := Some(now);
    }

    method Socket(connects: bool, now: int)
      modifies this
      ensures State() == React(old(State()), if connects then Connected(now) else Disconnected(now))
    {
      if request.None? { return; }
      if !connects {
        if disconnected.Some? { failures := failures + {UnplannedDisconnect}; }
        disconnected := Some(now);
      } else if disconnected.None? || now < disconnected.value {
        failures := failures + {RecoverySequence};
      } else {
        connected := Some(now);
      }
    }

    method Process(bar: Bar, open: int, now: int, hash: string)
      modifies this
      ensures State() == React(old(State()), Processed(bar, open, now, hash))
    {
      if bar !in bars || connected.None? { return; }
      var close := open + Step(bar);
      if close > now {
        failures := failures + {FutureBar};
        return;
      }
      if close < connected.value { return; }
      if now - close <= MINUTE { recovered := recovered + {bar}; }
      if window.None? {
        if recovered == (set b | b in bars) {
          if request.None? || now - request.value > MINUTE { failures := failures + {RecoveryOver60s}; }
          window := Some(now);
        }
        return;
      }
      if close <= window.value || close > window.value + OBSERVATION { return; }
      var stream := if bar in live then live[bar] else [];
      live := live[bar := stream];
      var found := Find(stream, open);
      if found.Some? {
        failures := failures + {if found.value.hash != hash then ConflictingBar else DuplicateBar};
      } else if |stream| < RETENTION {
        live := live[bar := stream + [Kept(open, now - close, hash)]];
      } else {
        failures := failures + {UnboundedStreamInput};
      }
    }
  }

  /******* Sorting, as `sorted` does *******/

  function InsertInt(xs: seq<int>, x: int): seq<int> {
    if xs == [] || xs[|xs| - 1] <= x then xs + [x] else InsertInt(xs[..|xs| - 1], x) + [xs[|xs| - 1]]
  }

  function SortInts(xs: seq<int>): seq<int> {
    if xs == [] then [] else InsertInt(SortInts(xs[..|xs| - 1]), xs[|xs| - 1])
  }

  ghost predicate Ascending(xs: seq<int>) { forall i, j :: 0 <= i < j < |xs| ==> xs[i] <= xs[j] }

  lemma {:induction false} InsertIntAscends(xs: seq<int>, x: int, bound: int)
    requires Ascending(xs) && x <= bound && forall i :: 0 <= i < |xs| ==> xs[i] <= bound
    ensures Ascending(InsertInt(xs, x)) && forall i :: 0 <= i < |InsertInt(xs, x)| ==> InsertInt(xs, x)[i] <= bound
  {
    if xs != [] && xs[|xs| - 1] > x { InsertIntAscends(xs[..|xs| - 1], x, xs[|xs| - 1]); }
  }

  lemma {:induction false} InsertIntKeeps(xs: seq<int>, x: int)
    ensures multiset(InsertInt(xs, x)) == multiset(xs) + multiset{x}
  {
    if xs != [] {
      assert xs == xs[..|xs| - 1] + [xs[|xs| - 1]];
      if xs[|xs| - 1] > x { InsertIntKeeps(xs[..|xs| - 1], x); }
    }
  }

  lemma {:induction false} SortIntsMeans(xs: seq<int>)
    ensures Ascending(SortInts(xs)) && multiset(SortInts(xs)) == multiset(xs) && |SortInts(xs)| == |xs|
  {
    if xs != [] {
      var last, head := xs[|xs| - 1], xs[..|xs| - 1];
      SortIntsMeans(head);
      var s := SortInts(head);
      var top := if s == [] || s[|s| - 1] < last then last else s[|s| - 1];
      InsertIntAscends(s, last, top);
      InsertIntKeeps(s, last);
      assert xs == head + [last];
    }
    assert |multiset(SortInts(xs))| == |multiset(xs)|;
  }

  lemma LastIsLargest(xs: seq<int>, x: int)
    requires Ascending(xs) && x in multiset(xs)
    ensures xs != [] && x <= xs[|xs| - 1]
  {
    var i :| 0 <= i < |xs| && xs[i] == x;
  }

  lemma DropLast(xs: seq<int>)
    requires xs != []
    ensures multiset(xs[..|xs| - 1]) == multiset(xs) - multiset{xs[|xs| - 1]}
  {
    assert xs == xs[..|xs| - 1] + [xs[|xs| - 1]];
  }

  lemma AscendingHead(xs: seq<int>)
    requires Ascending(xs) && xs != []
    ensures Ascending(xs[..|xs| - 1])
  {
  }

  lemma SameLast(xs: seq<int>, ys: seq<int>)
    requires Ascending(xs) && Ascending(ys) && multiset(xs) == multiset(ys) && xs != []
    ensures |xs| == |ys| && xs[|xs| - 1] == ys[|xs| - 1]
    ensures multiset(xs[..|xs| - 1]) == multiset(ys[..|xs| - 1])
  {
    assert |multiset(xs)| == |xs| && |multiset(ys)| == |ys|;
    LastIsLargest(xs, ys[|ys| - 1]);
    LastIsLargest(ys, xs[|xs| - 1]);
    DropLast(xs);
    DropLast(ys);
  }

  /** Ascending sequences with the same elements are the same sequence. */
  lemma {:induction false} AscendingIsUnique(xs: seq<int>, ys: seq<int>)
    requires Ascending(xs) && Ascending(ys) && multiset(xs) == multiset(ys)
    ensures xs == ys
  {
    if xs == [] {
      assert |multiset(ys)| == |ys|;
    } else {
      SameLast(xs, ys);
      AscendingHead(xs);
      AscendingHead(ys);
      AscendingIsUnique(xs[..|xs| - 1], ys[..|xs| - 1]);
      assert xs == xs[..|xs| - 1] + [xs[|xs| - 1]] && ys == ys[..|xs| - 1] + [ys[|xs| - 1]];
    }
  }

  /******* `evaluate` *******/

  function Opens(stream: seq<Kept>): seq<int> { seq(|stream|, i requires 0 <= i < |stream| => stream[i].open) }

  function Lags(stream: seq<Kept>): seq<int> { seq(|stream|, i requires 0 <= i < |stream| => stream[i].lag) }

  /** first, first + step, first + 2 step, ... */
  function Progression(first: int, step: int, n: nat): seq<int> { seq(n, i requires 0 <= i < n => first + i * step) }

  predicate Adjacent(xs: seq<int>, i: int, step: int) { 0 < i < |xs| ==> xs[i] - xs[i - 1] == step }

  predicate Contiguous(xs: seq<int>, step: int) { forall i :: 0 < i < |xs| ==> Adjacent(xs, i, step) }

  /** ceil(0.95 n) - 1 */
  function P95Index(n: nat): int { (95 * n + 99) / 100 - 1 }

  /** The tests `evaluate` applies to one stream. */
  predicate StreamPasses(stream: seq<Kept>, bar: Bar) {
    var opens, lags := SortInts(Opens(stream)), SortInts(Lags(stream));
    SortIntsMeans(Lags(stream));
    && |lags| == Required(bar) && Contiguous(opens, Step(bar))
    && lags[P95Index(|lags|)] <= 30 * SECOND && lags[|lags| - 1] <= 60 * SECOND
  }

  /** The opens are exactly an unbroken run of the required length, and no bar was later than 30 seconds. */
  ghost predicate Tiled(stream: seq<Kept>, bar: Bar, first: int) {
    multiset(Opens(stream)) == multiset(Progression(first, Step(bar), Required(bar))) && Timely(stream)
  }

  lemma {:induction false} ContiguousIsProgression(xs: seq<int>, step: int, i: nat)
    requires Contiguous(xs, step) && i < |xs|
    ensures xs[i] == xs[0] + i * step
  {
    if i > 0 {
      ContiguousIsProgression(xs, step, i - 1);
      assert Adjacent(xs, i, step);
      NextMultiple(i, step);
    }
  }

  lemma NextMultiple(i: int, step: int)
    ensures i * step == (i - 1) * step + step
  {
  }

  lemma MultiplesAscend(i: int, j: int, step: int)
    requires i <= j && 0 < step
    ensures i * step <= j * step
  {
  }

  lemma ProgressionAscends(first: int, step: int, n: nat)
    requires 0 < step
    ensures Ascending(Progression(first, step, n)) && Contiguous(Progression(first, step, n), step)
  {
    var p := Progression(first, step, n);
    forall i, j | 0 <= i < j < n ensures p[i] <= p[j] { MultiplesAscend(i, j, step); }
    forall i | 0 < i < n ensures Adjacent(p, i, step) { NextMultiple(i, step); }
  }

  /** With 15 or 3 values the 95th percentile is the maximum, so it bounds every lag. */
  lemma PercentileIsMaximum(lags: seq<int>, bar: Bar)
    requires |lags| == Required(bar)
    ensures P95Index(|lags|) == |lags| - 1
    ensures |SortInts(lags)| == |lags|
    ensures SortInts(lags)[|lags| - 1] <= 30 * SECOND <==> forall k :: 0 <= k < |lags| ==> lags[k] <= 30 * SECOND
  {
    SortIntsMeans(lags);
    var s := SortInts(lags);
    var top := s[|s| - 1];
    if top <= 30 * SECOND {
      forall k | 0 <= k < |lags| ensures lags[k] <= 30 * SECOND {
        assert lags[k] in multiset(s);
        var i :| 0 <= i < |s| && s[i] == lags[k];
      }
    } else {
      assert top in multiset(lags);
      var k :| 0 <= k < |lags| && lags[k] == top;
    }
  }

  lemma ContiguousEqualsProgression(xs: seq<int>, step: int)
    requires xs != [] && Contiguous(xs, step)
    ensures xs == Progression(xs[0], step, |xs|)
  {
    var p := Progression(xs[0], step, |xs|);
    forall i | 0 <= i < |xs| ensures xs[i] == p[i] { ContiguousIsProgression(xs, step, i); }
  }

  lemma ContiguousOpensProgress(opens: seq<int>, step: int) returns (first: int)
    requires opens != [] && Contiguous(SortInts(opens), step)
    ensures multiset(opens) == multiset(Progression(first, step, |opens|))
  {
    SortIntsMeans(opens);
    ContiguousEqualsProgression(SortInts(opens), step);
    first := SortInts(opens)[0];
  }

  lemma ProgressingOpensAreContiguous(opens: seq<int>, step: int, first: int, n: nat)
    requires 0 < step && multiset(opens) == multiset(Progression(first, step, n))
    ensures SortInts(opens) == Progression(first, step, n) && |opens| == n && Contiguous(SortInts(opens), step)
  {
    SortIntsMeans(opens);
    ProgressionAscends(first, step, n);
    AscendingIsUnique(SortInts(opens), Progression(first, step, n));
  }

  ghost predicate Timely(stream: seq<Kept>) { forall k :: 0 <= k < |stream| ==> stream[k].lag <= 30 * SECOND }

  lemma TimelyMeans(stream: seq<Kept>, bar: Bar)
    requires |stream| == Required(bar)
    ensures |SortInts(Lags(stream))| == |stream| && P95Index(|stream|) == |stream| - 1
    ensures var lags := SortInts(Lags(stream));
            (lags[P95Index(|lags|)] <= 30 * SECOND && lags[|lags| - 1] <= 60 * SECOND) <==> Timely(stream)
  {
    var lags := Lags(stream);
    PercentileIsMaximum(lags, bar);
    assert forall k :: 0 <= k < |stream| ==> lags[k] == stream[k].lag;
  }

  /** The stream tests accept exactly an unbroken, timely tiling. */
  lemma StreamPassesExactly(stream: seq<Kept>, bar: Bar)
    ensures StreamPasses(stream, bar) <==> exists first :: Tiled(stream, bar, first)
  {
    SortIntsMeans(Lags(stream));
    if StreamPasses(stream, bar) {
      TimelyMeans(stream, bar);
      var first := ContiguousOpensProgress(Opens(stream), Step(bar));
      assert Tiled(stream, bar, first);
    }
    if first :| Tiled(stream, bar, first) {
      ProgressingOpensAreContiguous(Opens(stream), Step(bar), first, Required(bar));
      TimelyMeans(stream, bar);
    }
  }

  datatype Blocker = Failed(failure: Failure) | RecoveryIncomplete | ObservationIncomplete | StreamIncompleteOrStale(bar: Bar)

  ghost predicate Blocks(o: Observation, now: int, b: Blocker) {
    match b
    case Failed(failure) => failure in o.failures
    case RecoveryIncomplete => o.requests != 1 || o.connected.None? || o.window.None?
    case ObservationIncomplete => o.window.None? || now < o.window.value + OBSERVATION
    case StreamIncompleteOrStale(bar) => bar in o.bars && forall first :: !Tiled(StreamOf(o, bar), bar, first)
  }

  /** `evaluate` reports exactly the failures, the missing phases and the streams that do not tile the window. */
  method Evaluate(o: Observation, now: int) returns (blockers: set<Blocker>)
    ensures forall b :: b in blockers <==> Blocks(o, now, b)
  {
    blockers := set f | f in o.failures :: Failed(f);
    if o.requests != 1 || o.connected.None? || o.window.None? { blockers := blockers + {RecoveryIncomplete}; }
    if o.window.None? || now < o.window.value + OBSERVATION { blockers := blockers + {ObservationIncomplete}; }
    var i := 0;
    while i < |o.bars|
      invariant 0 <= i <= |o.bars|
      invariant forall b :: b in blockers <==>
                  if b.StreamIncompleteOrStale? then b.bar in o.bars[..i] && !StreamPasses(StreamOf(o, b.bar), b.bar)
                  else Blocks(o, now, b)
    {
      var bar := o.bars[i];
      if !StreamPasses(StreamOf(o, bar), bar) { blockers := blockers + {StreamIncompleteOrStale(bar)}; }
      assert o.bars[..i + 1] == o.bars[..i] + [bar];
      i := i + 1;
    }
    assert o.bars[..i] == o.bars;
    forall b ensures b in blockers <==> Blocks(o, now, b) {
      if b.StreamIncompleteOrStale? { StreamPassesExactly(StreamOf(o, b.bar), b.bar); }
    }
  }

  /******* What every run keeps *******/

  ghost predicate KeptInWindow(o: Observation, bar: Bar, e: Kept) {
    && o.window.Some? && bar in o.bars && 0 <= e.lag
    && o.window.value < e.open + Step(bar) <= o.window.value + OBSERVATION
  }

  ghost predicate StreamsInWindow(o: Observation) {
    forall bar, k :: bar in o.live && 0 <= k < |o.live[bar]| ==> KeptInWindow(o, bar, o.live[bar][k])
  }

  ghost predicate Ordered(o: Observation) {
    && (o.requests == 0 <==> o.request.None?)
    && (o.requests > 1 ==> ReconnectRequestCount in o.failures)
    && (o.connected.Some? ==> o.request.Some?)
    && (o.window.Some? ==> o.connected.Some?)
    && (o.window.Some? && o.requests == 1 && RecoveryOver60s !in o.failures ==> o.window.value - o.request.value <= MINUTE)
  }

  lemma OpenWindowKeepsOrder(o: Observation, now: int)
    requires Ordered(o) && o.connected.Some?
    ensures Ordered(OpenWindow(o, now))
  {
  }

  lemma ProcessedKeepsOrder(o: Observation, bar: Bar, open: int, now: int, hash: string)
    requires Ordered(o)
    ensures Ordered(OnProcessed(o, bar, open, now, hash))
  {
    if o.connected.Some? {
      OpenWindowKeepsOrder(o, now);
      OpenWindowKeepsOrder(o.(recovered := o.recovered + {bar}), now);
    }
  }

  lemma ReactKeepsOrder(o: Observation, input: Input)
    requires Ordered(o)
    ensures Ordered(React(o, input))
  {
    if input.Processed? { ProcessedKeepsOrder(o, input.bar, input.open, input.now, input.hash); }
  }

  /** What one input changes of the requests, the window and the failures. */
  ghost predicate Evolves(o: Observation, input: Input, o': Observation) {
    && o'.bars == o.bars && o.failures <= o'.failures
    && o'.requests == o.requests + (if input.Requested? then 1 else 0)
    && o'.request == (if input.Requested? then Some(input.now) else o.request)
    && (o'.window == o.window || (o'.window == Some(input.now) && o.connected.Some? && !input.Requested?))
  }

  lemma ReactEvolves(o: Observation, input: Input)
    ensures Evolves(o, input, React(o, input))
  {
  }

  lemma KeepKeepsStreams(o: Observation, bar: Bar, e: Kept)
    requires StreamsInWindow(o) && KeptInWindow(o, bar, e)
    ensures StreamsInWindow(Keep(o, bar, e))
  {
    var o' := Keep(o, bar, e);
    forall b, k | b in o'.live && 0 <= k < |o'.live[b]| ensures KeptInWindow(o', b, o'.live[b][k]) {
      if b in o.live && k < |o.live[b]| {
        assert KeptInWindow(o, b, o.live[b][k]);
        assert o'.live[b][k] == o.live[b][k];
      }
    }
  }

  lemma SameStreams(o: Observation, o': Observation)
    requires StreamsInWindow(o) && o'.live == o.live && o'.bars == o.bars && (o.window.Some? ==> o'.window == o.window)
    ensures StreamsInWindow(o')
  {
    forall b, k | b in o'.live && 0 <= k < |o'.live[b]| ensures KeptInWindow(o', b, o'.live[b][k]) {
      assert KeptInWindow(o, b, o.live[b][k]);
    }
  }

  lemma ProcessedKeepsStreams(o: Observation, bar: Bar, open: int, now: int, hash: string)
    requires StreamsInWindow(o)
    ensures StreamsInWindow(OnProcessed(o, bar, open, now, hash))
  {
    var o' := OnProcessed(o, bar, open, now, hash);
    var seen := o.(recovered := o.recovered + {bar});
    SameStreams(o, seen);
    if bar in o.bars && o.window.Some? && o.window.value < open + Step(bar) <= o.window.value + OBSERVATION && open + Step(bar) <= now {
      KeepKeepsStreams(o, bar, Kept(open, now - (open + Step(bar)), hash));
      KeepKeepsStreams(seen, bar, Kept(open, now - (open + Step(bar)), hash));
    }
    if o'.live == o.live && (o.window.Some? ==> o'.window == o.window) { SameStreams(o, o'); }
  }

  lemma ReactKeepsStreams(o: Observation, input: Input)
    requires StreamsInWindow(o)
    ensures StreamsInWindow(React(o, input))
  {
    if input.Processed? {
      ProcessedKeepsStreams(o, input.bar, input.open, input.now, input.hash);
    } else {
      SameStreams(o, React(o, input));
    }
  }

  function CountRequests(inputs: seq<Input>, n: nat): nat
    requires n <= |inputs|
  {
    if n == 0 then 0 else CountRequests(inputs, n - 1) + if inputs[n - 1].Requested? then 1 else 0
  }

  lemma RunEvolves(bars: seq<Bar>, inputs: seq<Input>, states: seq<Observation>, i: nat)
    requires IsRun(bars, inputs, states) && i < |inputs|
    ensures Evolves(states[i], inputs[i], states[i + 1])
  {
    assert Linked(states, inputs, i);
    ReactEvolves(states[i], inputs[i]);
  }

  lemma RunKeepsStep(bars: seq<Bar>, inputs: seq<Input>, states: seq<Observation>, i: nat)
    requires IsRun(bars, inputs, states) && i < |inputs| && Ordered(states[i]) && StreamsInWindow(states[i])
    ensures Ordered(states[i + 1]) && StreamsInWindow(states[i + 1])
  {
    assert Linked(states, inputs, i);
    ReactKeepsOrder(states[i], inputs[i]);
    ReactKeepsStreams(states[i], inputs[i]);
  }

  /** Over every run: the phases come in order, retained bars lie in the window, requests are counted. */
  lemma {:induction false} RunKeeps(bars: seq<Bar>, inputs: seq<Input>, states: seq<Observation>, n: nat)
    requires IsRun(bars, inputs, states) && n <= |inputs|
    ensures Ordered(states[n]) && StreamsInWindow(states[n])
    ensures states[n].bars == bars && states[n].requests == CountRequests(inputs, n)
  {
    if n > 0 {
      RunKeeps(bars, inputs, states, n - 1);
      RunKeepsStep(bars, inputs, states, n - 1);
      RunEvolves(bars, inputs, states, n - 1);
    }
  }

  /** A recorded failure can never be cleared by later events. */
  lemma {:induction false} FailuresPersist(bars: seq<Bar>, inputs: seq<Input>, states: seq<Observation>, k: nat, n: nat)
    requires IsRun(bars, inputs, states) && k <= n <= |inputs|
    ensures states[k].failures <= states[n].failures
  {
    if k < n {
      FailuresPersist(bars, inputs, states, k, n - 1);
      RunEvolves(bars, inputs, states, n - 1);
    }
  }

  /** With exactly one request, the recorded request time is the time of that input. */
  lemma {:induction false} SoleRequest(bars: seq<Bar>, inputs: seq<Input>, states: seq<Observation>, n: nat, r: nat)
    requires IsRun(bars, inputs, states) && r < n <= |inputs| && inputs[r].Requested? && CountRequests(inputs, n) == 1
    ensures states[n].request == Some(inputs[r].now)
  {
    RunEvolves(bars, inputs, states, n - 1);
    if r < n - 1 {
      CountAtLeastOne(inputs, n - 1, r);
      SoleRequest(bars, inputs, states, n - 1, r);
    }
  }

  lemma {:induction false} CountAtLeastOne(inputs: seq<Input>, n: nat, r: nat)
    requires r < n <= |inputs| && inputs[r].Requested?
    ensures CountRequests(inputs, n) >= 1
  {
    if r < n - 1 { CountAtLeastOne(inputs, n - 1, r); }
  }

  lemma {:induction false} FindRequest(inputs: seq<Input>, n: nat) returns (r: nat)
    requires n <= |inputs| && CountRequests(inputs, n) >= 1
    ensures r < n && inputs[r].Requested?
  {
    r := n - 1;
    if !inputs[n - 1].Requested? { r := FindRequest(inputs, n - 1); }
  }

  /** A tiling fills the window: its first bar closes within one step of the opening, its last within one step of the end. */
  lemma TilingStartsAtWindow(o: Observation, bar: Bar, first: int)
    requires StreamsInWindow(o) && bar in o.bars && Tiled(StreamOf(o, bar), bar, first)
    ensures o.window.Some? && o.window.value < first + Step(bar) <= o.window.value + Step(bar)
    ensures var end := o.window.value + OBSERVATION; end - Step(bar) < first + Required(bar) * Step(bar) <= end
    ensures forall k :: 0 <= k < |StreamOf(o, bar)| ==> 0 <= StreamOf(o, bar)[k].lag <= 30 * SECOND
  {
    var stream, step, n := StreamOf(o, bar), Step(bar), Required(bar);
    var p := Progression(first, step, n);
    assert p[0] == first && p[n - 1] == first + (n - 1) * step;
    var a := OpenIsKept(stream, bar, first, 0);
    var b := OpenIsKept(stream, bar, first, n - 1);
    assert KeptInWindow(o, bar, o.live[bar][a]) && KeptInWindow(o, bar, o.live[bar][b]);
    forall k | 0 <= k < |stream| ensures 0 <= stream[k].lag <= 30 * SECOND { assert KeptInWindow(o, bar, o.live[bar][k]); }
  }

  lemma OpenIsKept(stream: seq<Kept>, bar: Bar, first: int, i: nat) returns (k: nat)
    requires Tiled(stream, bar, first) && i < Required(bar)
    ensures k < |stream| && stream[k].open == first + i * Step(bar)
  {
    var p := Progression(first, Step(bar), Required(bar));
    assert p[i] in multiset(p);
    assert p[i] in multiset(Opens(stream));
    assert p[i] in Opens(stream);
    k :| 0 <= k < |Opens(stream)| && Opens(stream)[k] == p[i];
  }

  /**
  A clean evaluation: exactly one reconnect was requested, the window opened within 60
  seconds of it and lasted 15 minutes, every stream's opens are one unbroken progression whose
  closes tile those 15 minutes, and every lag lies between 0 and 30 seconds.
  */
  lemma CleanRunMeans(bars: seq<Bar>, inputs: seq<Input>, states: seq<Observation>, now: int) returns (r: nat)
    requires IsRun(bars, inputs, states) && forall b :: !Blocks(states[|inputs|], now, b)
    ensures CountRequests(inputs, |inputs|) == 1 && r < |inputs| && inputs[r].Requested? && states[|inputs|].failures == {}
    ensures var o := states[|inputs|];
            && o.window.Some? && o.window.value - inputs[r].now <= MINUTE && o.window.value + OBSERVATION <= now
            && forall bar :: bar in bars ==> exists first ::
                 && Tiled(StreamOf(o, bar), bar, first)
                 && o.window.value < first + Step(bar) <= o.window.value + Step(bar)
                 && forall k :: 0 <= k < |StreamOf(o, bar)| ==> 0 <= StreamOf(o, bar)[k].lag <= 30 * SECOND
  {
    var o := states[|inputs|];
    RunKeeps(bars, inputs, states, |inputs|);
    assert !Blocks(o, now, RecoveryIncomplete) && !Blocks(o, now, ObservationIncomplete) && !Blocks(o, now, Failed(RecoveryOver60s));
    forall f ensures f !in o.failures { assert !Blocks(o, now, Failed(f)); }
    r := FindRequest(inputs, |inputs|);
    SoleRequest(bars, inputs, states, |inputs|, r);
    forall bar | bar in bars
      ensures exists first ::
                && Tiled(StreamOf(o, bar), bar, first)
                && o.window.value < first + Step(bar) <= o.window.value + Step(bar)
                && forall k :: 0 <= k < |StreamOf(o, bar)| ==> 0 <= StreamOf(o, bar)[k].lag <= 30 * SECOND
    {
      assert !Blocks(o, now, StreamIncompleteOrStale(bar));
      var first :| Tiled(StreamOf(o, bar), bar, first);
      TilingStartsAtWindow(o, bar, first);
    }
  }

  /** If the inputs arrive in clock order, the window opens no earlier than the sole request. */
  lemma {:induction false} WindowFollowsRequest(bars: seq<Bar>, inputs: seq<Input>, states: seq<Observation>, n: nat)
    requires IsRun(bars, inputs, states) && n <= |inputs|
    requires forall i, j :: 0 <= i < j < |inputs| ==> inputs[i].now <= inputs[j].now
    ensures var o := states[n];
            && (o.request.Some? ==> n > 0 && o.request.value <= inputs[n - 1].now)
            && (o.window.Some? && o.requests == 1 ==> o.request.Some? && o.request.value <= o.window.value)
  {
    if n > 0 {
      WindowFollowsRequest(bars, inputs, states, n - 1);
      RunKeeps(bars, inputs, states, n - 1);
      RunEvolves(bars, inputs, states, n - 1);
    }
  }
}
