/**
What the qualification recorder holds, told from its inputs alone: the last request, drop and
reconnect, the observation window, the bars kept in it, and exactly when each failure is recorded.
*/
module QualificationHistory {
  import opened Wrappers
  import opened Qualification
  import opened FirstDeliveries

  /******* The last input of a kind *******/

  /** d is the last of the first n positions with the property. */
  ghost predicate LastOf(p: int -> bool, n: nat, d: int) { 0 <= d < n && p(d) && forall k :: d < k < n ==> !p(k) }

  ghost predicate NoneOf(p: int -> bool, n: nat) { forall k :: 0 <= k < n ==> !p(k) }

  /** The time of the last input with the property, if there is one. */
  ghost function LastTime(inputs: seq<Input>, p: int -> bool, n: nat): Option<int>
    requires n <= |inputs|
  {
    if n == 0 then None else if p(n - 1) then Some(inputs[n - 1].now) else LastTime(inputs, p, n - 1)
  }

  lemma {:induction false} SomeTime(inputs: seq<Input>, p: int -> bool, n: nat)
    requires n <= |inputs|
    ensures LastTime(inputs, p, n).None? <==> NoneOf(p, n)
  {
    if n > 0 { SomeTime(inputs, p, n - 1); }
  }

  lemma {:induction false} LastTimeAt(inputs: seq<Input>, p: int -> bool, n: nat, d: int)
    requires n <= |inputs| && LastOf(p, n, d)
    ensures LastTime(inputs, p, n) == Some(inputs[d].now)
  {
    if d < n - 1 { LastTimeAt(inputs, p, n - 1, d); }
  }

  lemma {:induction false} FindLast(p: int -> bool, n: nat) returns (d: int)
    requires !NoneOf(p, n)
    ensures LastOf(p, n, d)
  {
    if p(n - 1) {
      d := n - 1;
    } else {
      d := FindLast(p, n - 1);
    }
  }

  lemma LastTimeIsOf(inputs: seq<Input>, p: int -> bool, n: nat) returns (d: int)
    requires n <= |inputs| && LastTime(inputs, p, n).Some?
    ensures LastOf(p, n, d) && LastTime(inputs, p, n) == Some(inputs[d].now)
  {
    SomeTime(inputs, p, n);
    d := FindLast(p, n);
    LastTimeAt(inputs, p, n, d);
  }

  ghost predicate LastAtMost(inputs: seq<Input>, p: int -> bool, n: nat, t: int)
    requires n <= |inputs|
  {
    exists d :: LastOf(p, n, d) && inputs[d].now <= t
  }

  lemma LastAtMostMeans(inputs: seq<Input>, p: int -> bool, n: nat, t: int)
    requires n <= |inputs|
    ensures LastAtMost(inputs, p, n, t) <==> LastTime(inputs, p, n).Some? && LastTime(inputs, p, n).value <= t
  {
    if LastTime(inputs, p, n).Some? { var d := LastTimeIsOf(inputs, p, n); }
    if d :| LastOf(p, n, d) && inputs[d].now <= t { LastTimeAt(inputs, p, n, d); }
  }

  ghost predicate LastSince(inputs: seq<Input>, p: int -> bool, n: nat, t: int)
    requires n <= |inputs|
  {
    exists d :: LastOf(p, n, d) && t <= inputs[d].now
  }

  lemma LastSinceMeans(inputs: seq<Input>, p: int -> bool, n: nat, t: int)
    requires n <= |inputs|
    ensures LastSince(inputs, p, n, t) <==> LastTime(inputs, p, n).Some? && t <= LastTime(inputs, p, n).value
  {
    if LastTime(inputs, p, n).Some? { var d := LastTimeIsOf(inputs, p, n); }
    if d :| LastOf(p, n, d) && t <= inputs[d].now { LastTimeAt(inputs, p, n, d); }
  }

  /** The property last held at most a span before t. */
  ghost predicate LastWithin(inputs: seq<Input>, p: int -> bool, n: nat, t: int, span: int)
    requires n <= |inputs|
  {
    exists d :: LastOf(p, n, d) && inputs[d].now < t <= inputs[d].now + span
  }

  lemma LastWithinMeans(inputs: seq<Input>, p: int -> bool, n: nat, t: int, span: int)
    requires n <= |inputs|
    ensures var last := LastTime(inputs, p, n);
            LastWithin(inputs, p, n, t, span) <==> last.Some? && last.value < t <= last.value + span
  {
    if LastTime(inputs, p, n).Some? { var d := LastTimeIsOf(inputs, p, n); }
    if d :| LastOf(p, n, d) && inputs[d].now < t <= inputs[d].now + span { LastTimeAt(inputs, p, n, d); }
  }

  /******* Requests, drops and reconnects *******/

  ghost function Asks(inputs: seq<Input>): int -> bool { (i: int) => 0 <= i < |inputs| && inputs[i].Requested? }

  ghost predicate Asked(inputs: seq<Input>, i: nat) { !NoneOf(Asks(inputs), i) }

  /** A disconnect after a request. */
  ghost function Drops(inputs: seq<Input>): int -> bool { (i: int) => 0 <= i < |inputs| && inputs[i].Disconnected? && Asked(inputs, i) }

  /** A connect not before the last drop. */
  ghost function Joins(inputs: seq<Input>): int -> bool {
    (i: int) => 0 <= i < |inputs| && inputs[i].Connected? && LastAtMost(inputs, Drops(inputs), i, inputs[i].now)
  }

  /******* Bars *******/

  function CloseOf(input: Input): int
    requires input.Processed?
  {
    input.open + Step(input.bar)
  }

  /** A bar of one of the streams, after a reconnect. */
  ghost predicate Live(bars: seq<Bar>, inputs: seq<Input>, i: nat)
    requires i < |inputs|
  {
    inputs[i].Processed? && inputs[i].bar in bars && !NoneOf(Joins(inputs), i)
  }

  /** It closed by the time it was processed, and not before the last reconnect. */
  ghost predicate Recent(bars: seq<Bar>, inputs: seq<Input>, i: nat)
    requires i < |inputs|
  {
    Live(bars, inputs, i) && CloseOf(inputs[i]) <= inputs[i].now && LastAtMost(inputs, Joins(inputs), i, CloseOf(inputs[i]))
  }

  ghost predicate Recovers(bars: seq<Bar>, inputs: seq<Input>, i: nat, bar: Bar)
    requires i < |inputs|
  {
    Recent(bars, inputs, i) && inputs[i].bar == bar && inputs[i].now - CloseOf(inputs[i]) <= MINUTE
  }

  ghost predicate RecoveredBy(bars: seq<Bar>, inputs: seq<Input>, n: nat, bar: Bar)
    requires n <= |inputs|
  {
    exists k :: 0 <= k < n && Recovers(bars, inputs, k, bar)
  }

  /** With this bar every stream has recovered. */
  ghost predicate Complete(bars: seq<Bar>, inputs: seq<Input>, i: nat)
    requires i < |inputs|
  {
    Recent(bars, inputs, i) && forall bar :: bar in bars ==> RecoveredBy(bars, inputs, i + 1, bar)
  }

  /** The first such bar opens the window. */
  ghost function Opens(bars: seq<Bar>, inputs: seq<Input>): int -> bool {
    (i: int) => 0 <= i < |inputs| && Complete(bars, inputs, i) && forall k :: 0 <= k < i ==> !Complete(bars, inputs, k)
  }

  /** The bar closes in the window that is open. */
  ghost predicate InWindow(bars: seq<Bar>, inputs: seq<Input>, i: nat)
    requires i < |inputs|
  {
    Recent(bars, inputs, i) && LastWithin(inputs, Opens(bars, inputs), i, CloseOf(inputs[i]), OBSERVATION)
  }

  function EntryOf(input: Input): Kept
    requires input.Processed?
  {
    Kept(input.open, input.now - CloseOf(input), input.hash)
  }

  /** The bars of one stream that the window gets, by open time. */
  ghost function Delivered(bars: seq<Bar>, inputs: seq<Input>, bar: Bar): Source<Kept> {
    Source((i: int) => 0 <= i < |inputs| && InWindow(bars, inputs, i) && inputs[i].bar == bar,
           (i: int) => if 0 <= i < |inputs| && inputs[i].Processed? then inputs[i].open else 0,
           (i: int) => if 0 <= i < |inputs| && inputs[i].Processed? then EntryOf(inputs[i]) else Kept(0, 0, ""))
  }

  function OtherHash(hash: string): Kept -> bool { (e: Kept) => e.hash != hash }

  function SameHash(hash: string): Kept -> bool { (e: Kept) => e.hash == hash }

  /******* Why each failure is recorded *******/

  ghost predicate Causes(bars: seq<Bar>, inputs: seq<Input>, i: nat, f: Failure)
    requires i < |inputs|
  {
    match f
    case ReconnectRequestCount => inputs[i].Requested? && Asked(inputs, i)
    case UnplannedDisconnect => Drops(inputs)(i) && !NoneOf(Drops(inputs), i)
    case RecoverySequence => inputs[i].Connected? && Asked(inputs, i) && !Joins(inputs)(i)
    case FutureBar => Live(bars, inputs, i) && inputs[i].now < CloseOf(inputs[i])
    case RecoveryOver60s => Opens(bars, inputs)(i) && !LastSince(inputs, Asks(inputs), i, inputs[i].now - MINUTE)
    case ConflictingBar => InWindow(bars, inputs, i) && RepeatsBy(Delivered(bars, inputs, inputs[i].bar), RETENTION, i, OtherHash(inputs[i].hash))
    case DuplicateBar => InWindow(bars, inputs, i) && RepeatsBy(Delivered(bars, inputs, inputs[i].bar), RETENTION, i, SameHash(inputs[i].hash))
    case UnboundedStreamInput =>
      && InWindow(bars, inputs, i) && (forall j :: !Repeats(Delivered(bars, inputs, inputs[i].bar), RETENTION, i, j))
      && Firsts(Delivered(bars, inputs, inputs[i].bar), i) >= RETENTION
  }

  /******* The recorder remembers exactly this *******/

  ghost predicate SocketsTracked(bars: seq<Bar>, inputs: seq<Input>, o: Observation, n: nat)
    requires n <= |inputs|
  {
    && o.bars == bars && o.request == LastTime(inputs, Asks(inputs), n)
    && o.disconnected == LastTime(inputs, Drops(inputs), n) && o.connected == LastTime(inputs, Joins(inputs), n)
  }

  /** The input is a bar the recorder looks at, and by which test it goes on. */
  lemma BarMeans(bars: seq<Bar>, inputs: seq<Input>, o: Observation, n: nat)
    requires n < |inputs| && SocketsTracked(bars, inputs, o, n) && inputs[n].Processed?
    ensures Live(bars, inputs, n) <==> inputs[n].bar in bars && o.connected.Some?
    ensures Recent(bars, inputs, n) <==>
              && inputs[n].bar in bars && o.connected.Some? && CloseOf(inputs[n]) <= inputs[n].now
              && o.connected.value <= CloseOf(inputs[n])
  {
    SomeTime(inputs, Joins(inputs), n);
    LastAtMostMeans(inputs, Joins(inputs), n, CloseOf(inputs[n]));
  }

  lemma RequestStep(inputs: seq<Input>, o: Observation, n: nat)
    requires n < |inputs| && o.request == LastTime(inputs, Asks(inputs), n)
    ensures React(o, inputs[n]).request == LastTime(inputs, Asks(inputs), n + 1)
  {
  }

  lemma DropStep(inputs: seq<Input>, o: Observation, n: nat)
    requires n < |inputs| && o.request == LastTime(inputs, Asks(inputs), n) && o.disconnected == LastTime(inputs, Drops(inputs), n)
    ensures Drops(inputs)(n) <==> inputs[n].Disconnected? && o.request.Some?
    ensures React(o, inputs[n]).disconnected == LastTime(inputs, Drops(inputs), n + 1)
  {
    SomeTime(inputs, Asks(inputs), n);
  }

  lemma NoDropUnasked(inputs: seq<Input>, o: Observation, n: nat)
    requires n <= |inputs| && o.request == LastTime(inputs, Asks(inputs), n) && o.disconnected == LastTime(inputs, Drops(inputs), n)
    ensures o.disconnected.Some? ==> o.request.Some?
  {
    SomeTime(inputs, Asks(inputs), n);
    if o.disconnected.Some? {
      var d := LastTimeIsOf(inputs, Drops(inputs), n);
      assert Drops(inputs)(d);
      var r :| 0 <= r < d && Asks(inputs)(r);
    }
  }

  lemma JoinMeans(inputs: seq<Input>, o: Observation, n: nat)
    requires n < |inputs| && o.disconnected == LastTime(inputs, Drops(inputs), n)
    ensures Joins(inputs)(n) <==> inputs[n].Connected? && o.disconnected.Some? && o.disconnected.value <= inputs[n].now
  {
    LastAtMostMeans(inputs, Drops(inputs), n, inputs[n].now);
  }

  lemma ReactConnects(o: Observation, input: Input)
    requires o.disconnected.Some? ==> o.request.Some?
    ensures var joins := input.Connected? && o.disconnected.Some? && o.disconnected.value <= input.now;
            React(o, input).connected == if joins then Some(input.now) else o.connected
  {
  }

  lemma JoinStep(inputs: seq<Input>, o: Observation, n: nat)
    requires n < |inputs| && o.request == LastTime(inputs, Asks(inputs), n) && o.disconnected == LastTime(inputs, Drops(inputs), n)
    requires o.connected == LastTime(inputs, Joins(inputs), n)
    ensures React(o, inputs[n]).connected == LastTime(inputs, Joins(inputs), n + 1)
  {
    NoDropUnasked(inputs, o, n);
    ReactConnects(o, inputs[n]);
    JoinMeans(inputs, o, n);
  }

  lemma SocketStep(bars: seq<Bar>, inputs: seq<Input>, o: Observation, n: nat)
    requires n < |inputs| && SocketsTracked(bars, inputs, o, n)
    ensures SocketsTracked(bars, inputs, React(o, inputs[n]), n + 1)
  {
    RequestStep(inputs, o, n);
    DropStep(inputs, o, n);
    JoinStep(inputs, o, n);
    ReactEvolves(o, inputs[n]);
  }

  /******* The window *******/

  ghost predicate Recovered(bars: seq<Bar>, inputs: seq<Input>, o: Observation, n: nat)
    requires n <= |inputs|
  {
    forall bar :: bar in o.recovered <==> RecoveredBy(bars, inputs, n, bar)
  }

  /** What React does with a bar, by the tests of the recorder. */
  predicate Recents(o: Observation, input: Input) {
    && input.Processed? && input.bar in o.bars && o.connected.Some? && CloseOf(input) <= input.now
    && o.connected.value <= CloseOf(input)
  }

  lemma ReactRecovers(o: Observation, input: Input)
    ensures React(o, input).recovered ==
              o.recovered + if Recents(o, input) && input.now - CloseOf(input) <= MINUTE then {input.bar} else {}
  {
  }

  lemma RecentMeans(bars: seq<Bar>, inputs: seq<Input>, o: Observation, n: nat)
    requires n < |inputs| && SocketsTracked(bars, inputs, o, n)
    ensures Recent(bars, inputs, n) <==> Recents(o, inputs[n])
  {
    if inputs[n].Processed? { BarMeans(bars, inputs, o, n); }
  }

  lemma RecoveredByStep(bars: seq<Bar>, inputs: seq<Input>, n: nat, bar: Bar)
    requires n < |inputs|
    ensures RecoveredBy(bars, inputs, n + 1, bar) <==> RecoveredBy(bars, inputs, n, bar) || Recovers(bars, inputs, n, bar)
  {
  }

  lemma RecoversMeans(bars: seq<Bar>, inputs: seq<Input>, o: Observation, n: nat, bar: Bar)
    requires n < |inputs| && SocketsTracked(bars, inputs, o, n)
    ensures Recovers(bars, inputs, n, bar) <==> bar in if Recents(o, inputs[n]) && inputs[n].now - CloseOf(inputs[n]) <= MINUTE then {inputs[n].bar} else {}
  {
    RecentMeans(bars, inputs, o, n);
  }

  lemma RecoveredStep(bars: seq<Bar>, inputs: seq<Input>, o: Observation, o': Observation, n: nat)
    requires n < |inputs| && SocketsTracked(bars, inputs, o, n) && Recovered(bars, inputs, o, n) && o' == React(o, inputs[n])
    ensures Recovered(bars, inputs, o', n + 1)
  {
    ReactRecovers(o, inputs[n]);
    forall bar ensures bar in o'.recovered <==> RecoveredBy(bars, inputs, n + 1, bar) {
      RecoveredByStep(bars, inputs, n, bar);
      RecoversMeans(bars, inputs, o, n, bar);
    }
  }

  lemma RecoveredAreBars(bars: seq<Bar>, inputs: seq<Input>, o: Observation, n: nat)
    requires n <= |inputs| && Recovered(bars, inputs, o, n)
    ensures forall bar :: bar in o.recovered ==> bar in bars
  {
    forall bar | bar in o.recovered ensures bar in bars {
      var k :| 0 <= k < n && Recovers(bars, inputs, k, bar);
    }
  }

  lemma CompleteMeans(bars: seq<Bar>, inputs: seq<Input>, o: Observation, n: nat)
    requires n < |inputs| && SocketsTracked(bars, inputs, o, n) && Recovered(bars, inputs, React(o, inputs[n]), n + 1)
    ensures Complete(bars, inputs, n) <==> Recents(o, inputs[n]) && React(o, inputs[n]).recovered == set bar | bar in bars
  {
    RecentMeans(bars, inputs, o, n);
    var o' := React(o, inputs[n]);
    RecoveredAreBars(bars, inputs, o', n + 1);
    if Recents(o, inputs[n]) && Complete(bars, inputs, n) {
      forall bar ensures bar in o'.recovered <==> bar in bars { }
    }
  }

  lemma {:induction false} FirstComplete(bars: seq<Bar>, inputs: seq<Input>, n: nat)
    requires n <= |inputs| && NoneOf(Opens(bars, inputs), n)
    ensures forall k :: 0 <= k < n ==> !Complete(bars, inputs, k)
  {
    if n > 0 {
      FirstComplete(bars, inputs, n - 1);
      assert !Opens(bars, inputs)(n - 1);
    }
  }

  lemma OpensMeans(bars: seq<Bar>, inputs: seq<Input>, o: Observation, n: nat)
    requires n < |inputs| && o.window == LastTime(inputs, Opens(bars, inputs), n)
    ensures Opens(bars, inputs)(n) <==> o.window.None? && Complete(bars, inputs, n)
  {
    SomeTime(inputs, Opens(bars, inputs), n);
    if o.window.None? {
      FirstComplete(bars, inputs, n);
    } else {
      var w := LastTimeIsOf(inputs, Opens(bars, inputs), n);
      assert Opens(bars, inputs)(w) && Complete(bars, inputs, w);
    }
  }

  lemma ReactOpens(o: Observation, input: Input)
    ensures var opens := o.window.None? && Recents(o, input) && React(o, input).recovered == set bar | bar in o.bars;
            React(o, input).window == if opens then Some(input.now) else o.window
  {
  }

  lemma WindowStep(bars: seq<Bar>, inputs: seq<Input>, o: Observation, n: nat)
    requires n < |inputs| && SocketsTracked(bars, inputs, o, n) && Recovered(bars, inputs, o, n)
    requires o.window == LastTime(inputs, Opens(bars, inputs), n)
    ensures React(o, inputs[n]).window == LastTime(inputs, Opens(bars, inputs), n + 1)
  {
    RecoveredStep(bars, inputs, o, React(o, inputs[n]), n);
    CompleteMeans(bars, inputs, o, n);
    OpensMeans(bars, inputs, o, n);
    ReactOpens(o, inputs[n]);
  }

  /******* The bars kept *******/

  /** The recorder goes on to its stream with this bar. */
  predicate Observes(o: Observation, input: Input) {
    Recents(o, input) && o.window.Some? && o.window.value < CloseOf(input) <= o.window.value + OBSERVATION
  }

  lemma WindowMeans(bars: seq<Bar>, inputs: seq<Input>, o: Observation, n: nat)
    requires n < |inputs| && SocketsTracked(bars, inputs, o, n) && o.window == LastTime(inputs, Opens(bars, inputs), n)
    ensures InWindow(bars, inputs, n) <==> Observes(o, inputs[n])
  {
    RecentMeans(bars, inputs, o, n);
    if inputs[n].Processed? { LastWithinMeans(inputs, Opens(bars, inputs), n, CloseOf(inputs[n]), OBSERVATION); }
  }

  lemma {:induction false} FindMeans(stream: seq<Kept>, open: int)
    ensures match Find(stream, open)
            case Some(e) => e in stream && e.open == open
            case None => forall k :: 0 <= k < |stream| ==> stream[k].open != open
  {
    if stream != [] && stream[|stream| - 1].open != open { FindMeans(stream[..|stream| - 1], open); }
  }

  ghost function Stream(bars: seq<Bar>, inputs: seq<Input>, bar: Bar, n: nat): seq<Kept> {
    KeptTo(Delivered(bars, inputs, bar), RETENTION, n)
  }

  /** Looking an open time up in the stream finds the one kept delivery of that bar. */
  lemma LookupMeans(bars: seq<Bar>, inputs: seq<Input>, n: nat) returns (j: int)
    requires n < |inputs| && inputs[n].Processed?
    ensures var s := Delivered(bars, inputs, inputs[n].bar);
            var found := Find(Stream(bars, inputs, inputs[n].bar, n), inputs[n].open);
            if found.Some? then Repeats(s, RETENTION, n, j) && found.value == EntryAt(s, j)
            else forall k :: !Repeats(s, RETENTION, n, k)
  {
    j := 0;
    var s, kept := Delivered(bars, inputs, inputs[n].bar), Stream(bars, inputs, inputs[n].bar, n);
    FindMeans(kept, inputs[n].open);
    var found := Find(kept, inputs[n].open);
    if found.Some? {
      var k :| 0 <= k < |kept| && kept[k] == found.value;
      j := KeptComesFrom(s, RETENTION, n, k);
      KeyOfEntry(bars, inputs, inputs[n].bar, j);
    } else {
      forall i ensures !Repeats(s, RETENTION, n, i) {
        if Repeats(s, RETENTION, n, i) {
          var k := KeptHolds(s, RETENTION, n, i);
          KeyOfEntry(bars, inputs, inputs[n].bar, i);
        }
      }
    }
  }

  lemma KeyOfEntry(bars: seq<Bar>, inputs: seq<Input>, bar: Bar, i: int)
    ensures EntryAt(Delivered(bars, inputs, bar), i).open == KeyAt(Delivered(bars, inputs, bar), i)
  {
  }

  lemma ReactStream(o: Observation, input: Input, bar: Bar)
    ensures var stream := StreamOf(o, bar);
            var keeps := Observes(o, input) && input.bar == bar && Find(stream, input.open).None? && |stream| < RETENTION;
            StreamOf(React(o, input), bar) == if keeps then stream + [EntryOf(input)] else stream
  {
  }

  lemma StreamStep(bars: seq<Bar>, inputs: seq<Input>, o: Observation, o': Observation, n: nat, bar: Bar)
    requires n < |inputs| && SocketsTracked(bars, inputs, o, n) && o.window == LastTime(inputs, Opens(bars, inputs), n)
    requires StreamOf(o, bar) == Stream(bars, inputs, bar, n) && o' == React(o, inputs[n])
    ensures StreamOf(o', bar) == Stream(bars, inputs, bar, n + 1)
  {
    ReactStream(o, inputs[n], bar);
    WindowMeans(bars, inputs, o, n);
    var s := Delivered(bars, inputs, bar);
    assert Hit(s, n) <==> InWindow(bars, inputs, n) && inputs[n].bar == bar;
    if Hit(s, n) {
      KeepsMeans(s, RETENTION, n);
      var j := LookupMeans(bars, inputs, n);
    }
  }

  /******* The failures *******/

  predicate Opening(o: Observation, input: Input) {
    o.window.None? && Recents(o, input) && React(o, input).recovered == set bar | bar in o.bars
  }

  /** The tests by which the recorder adds a failure. */
  predicate Adds(o: Observation, input: Input, f: Failure) {
    match f
    case ReconnectRequestCount => input.Requested? && o.requests > 0
    case UnplannedDisconnect => input.Disconnected? && o.request.Some? && o.disconnected.Some?
    case RecoverySequence => input.Connected? && o.request.Some? && (o.disconnected.None? || input.now < o.disconnected.value)
    case FutureBar => input.Processed? && input.bar in o.bars && o.connected.Some? && input.now < CloseOf(input)
    case RecoveryOver60s => Opening(o, input) && (o.request.None? || input.now - o.request.value > MINUTE)
    case ConflictingBar =>
      Observes(o, input) && var found := Find(StreamOf(o, input.bar), input.open); found.Some? && found.value.hash != input.hash
    case DuplicateBar =>
      Observes(o, input) && var found := Find(StreamOf(o, input.bar), input.open); found.Some? && found.value.hash == input.hash
    case UnboundedStreamInput =>
      Observes(o, input) && Find(StreamOf(o, input.bar), input.open).None? && |StreamOf(o, input.bar)| >= RETENTION
  }

  lemma KeepFails(o: Observation, input: Input, f: Failure)
    requires Observes(o, input)
    ensures f in React(o, input).failures <==> f in o.failures || Adds(o, input, f)
  {
  }

  lemma BarFails(o: Observation, input: Input, f: Failure)
    requires input.Processed? && !Observes(o, input)
    ensures f in React(o, input).failures <==> f in o.failures || Adds(o, input, f)
  {
  }

  lemma ReactFails(o: Observation, input: Input, f: Failure)
    ensures f in React(o, input).failures <==> f in o.failures || Adds(o, input, f)
  {
    if Observes(o, input) {
      KeepFails(o, input, f);
    } else if input.Processed? {
      BarFails(o, input, f);
    }
  }

  /** What the recorder holds after n inputs, besides the failures. */
  ghost predicate Holds(bars: seq<Bar>, inputs: seq<Input>, o: Observation, n: nat)
    requires n <= |inputs|
  {
    && SocketsTracked(bars, inputs, o, n) && (o.requests == 0) == o.request.None? && Recovered(bars, inputs, o, n)
    && o.window == LastTime(inputs, Opens(bars, inputs), n) && forall bar :: StreamOf(o, bar) == Stream(bars, inputs, bar, n)
  }

  lemma HoldsStep(bars: seq<Bar>, inputs: seq<Input>, o: Observation, o': Observation, n: nat)
    requires n < |inputs| && Holds(bars, inputs, o, n) && o' == React(o, inputs[n])
    ensures Holds(bars, inputs, o', n + 1)
  {
    SocketStep(bars, inputs, o, n);
    RecoveredStep(bars, inputs, o, o', n);
    WindowStep(bars, inputs, o, n);
    ReactEvolves(o, inputs[n]);
    forall bar ensures StreamOf(o', bar) == Stream(bars, inputs, bar, n + 1) { StreamStep(bars, inputs, o, o', n, bar); }
  }

  lemma SocketCauses(bars: seq<Bar>, inputs: seq<Input>, o: Observation, n: nat, f: Failure)
    requires n < |inputs| && Holds(bars, inputs, o, n)
    requires f == ReconnectRequestCount || f == UnplannedDisconnect || f == RecoverySequence || f == FutureBar
    ensures Adds(o, inputs[n], f) <==> Causes(bars, inputs, n, f)
  {
    match f
    case ReconnectRequestCount => SomeTime(inputs, Asks(inputs), n);
    case UnplannedDisconnect =>
      DropStep(inputs, o, n);
      SomeTime(inputs, Drops(inputs), n);
    case RecoverySequence =>
      SomeTime(inputs, Asks(inputs), n);
      JoinMeans(inputs, o, n);
    case FutureBar => if inputs[n].Processed? { BarMeans(bars, inputs, o, n); }
  }

  lemma WindowCauses(bars: seq<Bar>, inputs: seq<Input>, o: Observation, n: nat)
    requires n < |inputs| && Holds(bars, inputs, o, n)
    ensures Adds(o, inputs[n], RecoveryOver60s) <==> Causes(bars, inputs, n, RecoveryOver60s)
  {
    RecoveredStep(bars, inputs, o, React(o, inputs[n]), n);
    CompleteMeans(bars, inputs, o, n);
    OpensMeans(bars, inputs, o, n);
    assert Opening(o, inputs[n]) <==> Opens(bars, inputs)(n);
    LastSinceMeans(inputs, Asks(inputs), n, inputs[n].now - MINUTE);
  }

  lemma RepeatCauses(bars: seq<Bar>, inputs: seq<Input>, n: nat, stream: seq<Kept>, q: Kept -> bool)
    requires n < |inputs| && inputs[n].Processed? && stream == Stream(bars, inputs, inputs[n].bar, n)
    ensures var found := Find(stream, inputs[n].open);
            RepeatsBy(Delivered(bars, inputs, inputs[n].bar), RETENTION, n, q) <==> found.Some? && q(found.value)
  {
    var j := LookupMeans(bars, inputs, n);
    if Find(stream, inputs[n].open).Some? { RepeatsByMeans(Delivered(bars, inputs, inputs[n].bar), RETENTION, n, j, q); }
  }

  lemma FullCauses(bars: seq<Bar>, inputs: seq<Input>, n: nat, stream: seq<Kept>)
    requires n < |inputs| && inputs[n].Processed? && stream == Stream(bars, inputs, inputs[n].bar, n)
    ensures var s := Delivered(bars, inputs, inputs[n].bar);
            && (|stream| >= RETENTION <==> Firsts(s, n) >= RETENTION)
            && (Find(stream, inputs[n].open).None? <==> forall j :: !Repeats(s, RETENTION, n, j))
  {
    KeptCount(Delivered(bars, inputs, inputs[n].bar), RETENTION, n);
    var j := LookupMeans(bars, inputs, n);
  }

  lemma StreamCauses(bars: seq<Bar>, inputs: seq<Input>, o: Observation, n: nat, f: Failure)
    requires n < |inputs| && Holds(bars, inputs, o, n)
    requires f == ConflictingBar || f == DuplicateBar || f == UnboundedStreamInput
    ensures Adds(o, inputs[n], f) <==> Causes(bars, inputs, n, f)
  {
    WindowMeans(bars, inputs, o, n);
    if Observes(o, inputs[n]) {
      var stream, hash := StreamOf(o, inputs[n].bar), inputs[n].hash;
      if f == ConflictingBar {
        RepeatCauses(bars, inputs, n, stream, OtherHash(hash));
      } else if f == DuplicateBar {
        RepeatCauses(bars, inputs, n, stream, SameHash(hash));
      } else {
        FullCauses(bars, inputs, n, stream);
      }
    }
  }

  lemma CausesMean(bars: seq<Bar>, inputs: seq<Input>, o: Observation, n: nat, f: Failure)
    requires n < |inputs| && Holds(bars, inputs, o, n)
    ensures Adds(o, inputs[n], f) <==> Causes(bars, inputs, n, f)
  {
    if f == RecoveryOver60s {
      WindowCauses(bars, inputs, o, n);
    } else if f == ConflictingBar || f == DuplicateBar || f == UnboundedStreamInput {
      StreamCauses(bars, inputs, o, n, f);
    } else {
      SocketCauses(bars, inputs, o, n, f);
    }
  }

  /******* Over every run *******/

  lemma FreshHolds(bars: seq<Bar>, inputs: seq<Input>)
    ensures Holds(bars, inputs, Fresh(bars), 0)
  {
  }

  /** Over every run the recorder holds what its inputs so far say. */
  lemma {:induction false} RunHolds(bars: seq<Bar>, inputs: seq<Input>, states: seq<Observation>, n: nat)
    requires IsRun(bars, inputs, states) && n <= |inputs|
    ensures Holds(bars, inputs, states[n], n)
  {
    if n == 0 {
      FreshHolds(bars, inputs);
    } else {
      RunHolds(bars, inputs, states, n - 1);
      assert Linked(states, inputs, n - 1);
      HoldsStep(bars, inputs, states[n - 1], states[n], n - 1);
    }
  }

  ghost predicate CausedBefore(bars: seq<Bar>, inputs: seq<Input>, n: nat, f: Failure)
    requires n <= |inputs|
  {
    exists i :: 0 <= i < n && Causes(bars, inputs, i, f)
  }

  lemma CausedStep(bars: seq<Bar>, inputs: seq<Input>, n: nat, f: Failure)
    requires n < |inputs|
    ensures CausedBefore(bars, inputs, n + 1, f) <==> CausedBefore(bars, inputs, n, f) || Causes(bars, inputs, n, f)
  {
  }

  /** Each failure is recorded exactly if one of the inputs so far causes it. */
  lemma {:induction false} FailuresAreCaused(bars: seq<Bar>, inputs: seq<Input>, states: seq<Observation>, n: nat, f: Failure)
    requires IsRun(bars, inputs, states) && n <= |inputs|
    ensures f in states[n].failures <==> CausedBefore(bars, inputs, n, f)
  {
    if n > 0 {
      FailuresAreCaused(bars, inputs, states, n - 1, f);
      assert Linked(states, inputs, n - 1);
      RunHolds(bars, inputs, states, n - 1);
      ReactFails(states[n - 1], inputs[n - 1], f);
      CausesMean(bars, inputs, states[n - 1], n - 1, f);
      CausedStep(bars, inputs, n - 1, f);
    }
  }

  lemma NoCause(bars: seq<Bar>, inputs: seq<Input>, states: seq<Observation>, i: nat, f: Failure)
    requires IsRun(bars, inputs, states) && states[|inputs|].failures == {} && i < |inputs|
    ensures !Causes(bars, inputs, i, f)
  {
    FailuresAreCaused(bars, inputs, states, |inputs|, f);
    assert !CausedBefore(bars, inputs, |inputs|, f);
  }

  lemma NoCopy(s: Source<Kept>, n: nat, hash: string, k: int)
    requires !RepeatsBy(s, RETENTION, n, OtherHash(hash)) && !RepeatsBy(s, RETENTION, n, SameHash(hash))
    ensures !Repeats(s, RETENTION, n, k)
  {
    if Repeats(s, RETENTION, n, k) {
      RepeatsByMeans(s, RETENTION, n, k, OtherHash(hash));
      RepeatsByMeans(s, RETENTION, n, k, SameHash(hash));
    }
  }

  lemma HitMeans(bars: seq<Bar>, inputs: seq<Input>, bar: Bar, i: int)
    ensures Hit(Delivered(bars, inputs, bar), i) <==> 0 <= i < |inputs| && InWindow(bars, inputs, i) && inputs[i].bar == bar
  {
  }

  /** In a run without failures a bar of the window meets neither a kept copy nor a full stream. */
  lemma CleanDelivery(bars: seq<Bar>, inputs: seq<Input>, states: seq<Observation>, s: Source<Kept>, bar: Bar, i: nat, j: int)
    requires IsRun(bars, inputs, states) && states[|inputs|].failures == {} && s == Delivered(bars, inputs, bar) && Hit(s, i)
    ensures !Repeats(s, RETENTION, i, j) && |KeptTo(s, RETENTION, i)| < RETENTION
  {
    HitMeans(bars, inputs, bar, i);
    NoCause(bars, inputs, states, i, ConflictingBar);
    NoCause(bars, inputs, states, i, DuplicateBar);
    NoCause(bars, inputs, states, i, UnboundedStreamInput);
    forall k ensures !Repeats(s, RETENTION, i, k) { NoCopy(s, i, inputs[i].hash, k); }
    KeptCount(s, RETENTION, i);
  }

  /** Without a failure no bar of the window was delivered twice. */
  lemma CleanRunRepeatsNothing(bars: seq<Bar>, inputs: seq<Input>, states: seq<Observation>, i: nat, j: nat)
    requires IsRun(bars, inputs, states) && states[|inputs|].failures == {}
    requires i < j < |inputs| && InWindow(bars, inputs, i) && InWindow(bars, inputs, j)
    ensures inputs[i].bar != inputs[j].bar || inputs[i].open != inputs[j].open
  {
    if inputs[i].bar == inputs[j].bar {
      var bar := inputs[i].bar;
      var s := Delivered(bars, inputs, bar);
      HitMeans(bars, inputs, bar, i);
      HitMeans(bars, inputs, bar, j);
      forall m, k | 0 <= m <= j && Hit(s, m) ensures !Repeats(s, RETENTION, m, k) { CleanDelivery(bars, inputs, states, s, bar, m, k); }
      forall m | 0 <= m <= j && Hit(s, m) ensures |KeptTo(s, RETENTION, m)| < RETENTION { CleanDelivery(bars, inputs, states, s, bar, m, 0); }
      NothingTwice(s, RETENTION, i, j);
    }
  }

  /**
  What a run without failures says about its inputs: one request, at most one disconnect after it, every
  connect after it a reconnect, no bar before its close, and a window opened within a minute of the request.
  */
  lemma CleanRunHistory(bars: seq<Bar>, inputs: seq<Input>, states: seq<Observation>, i: nat)
    requires IsRun(bars, inputs, states) && states[|inputs|].failures == {} && i < |inputs|
    ensures Asked(inputs, i) ==> !inputs[i].Requested?
    ensures Drops(inputs)(i) ==> NoneOf(Drops(inputs), i)
    ensures inputs[i].Connected? && Asked(inputs, i) ==> Joins(inputs)(i)
    ensures Live(bars, inputs, i) ==> CloseOf(inputs[i]) <= inputs[i].now
    ensures Opens(bars, inputs)(i) ==> LastSince(inputs, Asks(inputs), i, inputs[i].now - MINUTE)
  {
    NoCause(bars, inputs, states, i, ReconnectRequestCount);
    NoCause(bars, inputs, states, i, UnplannedDisconnect);
    NoCause(bars, inputs, states, i, RecoverySequence);
    NoCause(bars, inputs, states, i, FutureBar);
    NoCause(bars, inputs, states, i, RecoveryOver60s);
  }
}
