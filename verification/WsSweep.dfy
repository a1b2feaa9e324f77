/**
The WebSocket outbound verifier: a sweep with two cursors that looks only at control
times, forecast times and epoch starts, against the plain count over every window.
*/
module WsSweep {
  import opened Wrappers
  import opened RateWindows

  const CEILING: nat := 1000

  datatype Kind = PingReceived | PongReceived

  /** A ping we answer with a pong, or a pong that shows we sent a ping. */
  datatype Control = Control(at: int, kind: Kind)

  /** A connection lifetime, from its start to its end. */
  datatype Epoch = Epoch(start: int, end: int)

  datatype Feed = Feed(controls: seq<Control>, forecast: seq<Event>, epochs: seq<Epoch>, constantBound: nat, closeReserve: nat)

  /******* The outbound total of one window, counted directly *******/

  function CountTo(controls: seq<Control>, n: nat, kind: Kind, t: int): nat
    requires n <= |controls|
  {
    if n == 0 then 0 else
      CountTo(controls, n - 1, kind, t)
      + if controls[n - 1].kind == kind && t - WINDOW < controls[n - 1].at <= t then 1 else 0
  }

  predicate Intersects(e: Epoch, t: int) { e.start <= t && t - WINDOW < e.end }

  /** A connection counts in a window exactly if the window has an instant of it. */
  lemma IntersectsMeans(e: Epoch, t: int)
    requires e.start < e.end
    ensures Intersects(e, t) <==> exists x :: Shares(e, t, x)
  {
    var x := if e.start <= t - WINDOW then t - WINDOW + 1 else e.start;
    assert Intersects(e, t) ==> Shares(e, t, x);
  }

  predicate Shares(e: Epoch, t: int, x: int) { t - WINDOW < x <= t && e.start <= x <= e.end }

  function IntersectingTo(epochs: seq<Epoch>, n: nat, t: int): nat
    requires n <= |epochs|
  {
    if n == 0 then 0 else IntersectingTo(epochs, n - 1, t) + if Intersects(epochs[n - 1], t) then 1 else 0
  }

  function Outbound(f: Feed, t: int): nat {
    WindowSum(f.forecast, t) + f.constantBound
    + CountTo(f.controls, |f.controls|, PingReceived, t)
    + CountTo(f.controls, |f.controls|, PongReceived, t) + IntersectingTo(f.epochs, |f.epochs|, t)
    + f.closeReserve
  }

  /** The inputs the verifier goes on with; anything else is reported as incomplete. */
  ghost predicate FeedOk(f: Feed) {
    && f.closeReserve <= 2 && 1 <= |f.epochs| <= 2 && 1 <= |f.forecast| <= 200
    && (forall e :: e in f.epochs ==> 0 < e.start < e.end)
    && (forall i, j :: 0 <= i < j < |f.epochs| ==> f.epochs[i].end <= f.epochs[j].start)
    && (forall w :: w in f.forecast ==> 0 < w.at)
  }

  /** The tests of the inputs, with the end of the previous epoch. */
  method CheckFeed(f: Feed) returns (ok: bool)
    ensures ok <==> FeedOk(f)
  {
    if f.closeReserve > 2 || |f.epochs| < 1 || |f.epochs| > 2 { return false; }
    var previousEnd, i := 0, 0;
    while i < |f.epochs|
      invariant 0 <= i <= |f.epochs|
      invariant forall k :: 0 <= k < i ==> 0 < f.epochs[k].start < f.epochs[k].end <= previousEnd
      invariant forall k, m :: 0 <= k < m < i ==> f.epochs[k].end <= f.epochs[m].start
      invariant previousEnd == if i == 0 then 0 else f.epochs[i - 1].end
    {
      var e := f.epochs[i];
      if !(0 < e.start < e.end) || e.start < previousEnd {
        assert e in f.epochs;
        if 0 < e.start < e.end { assert f.epochs[i - 1].end > f.epochs[i].start; }
        return false;
      }
      previousEnd := e.end;
      i := i + 1;
    }
    if |f.forecast| < 1 || |f.forecast| > 200 { return false; }
    i := 0;
    while i < |f.forecast|
      invariant 0 <= i <= |f.forecast| && forall k :: 0 <= k < i ==> 0 < f.forecast[k].at
    {
      if f.forecast[i].at <= 0 { assert f.forecast[i] in f.forecast; return false; }
      i := i + 1;
    }
    return true;
  }

  predicate ControlsSorted(controls: seq<Control>) {
    forall i, j :: 0 <= i < j < |controls| ==> controls[i].at <= controls[j].at
  }

  /******* Evaluating at event points is enough *******/

  /** Every instant at which something can enter a window is among the points. */
  ghost predicate Covers(f: Feed, points: seq<int>) {
    && (forall i :: 0 <= i < |f.controls| ==> f.controls[i].at in points)
    && (forall i :: 0 <= i < |f.forecast| ==> f.forecast[i].at in points)
    && (forall i :: 0 <= i < |f.epochs| ==> f.epochs[i].start in points)
  }

  ghost predicate NothingBetween(f: Feed, p: int, t: int) {
    && (forall i :: 0 <= i < |f.controls| ==> !(p < f.controls[i].at <= t))
    && (forall i :: 0 <= i < |f.forecast| ==> !(p < f.forecast[i].at <= t))
    && (forall i :: 0 <= i < |f.epochs| ==> !(p < f.epochs[i].start <= t))
  }

  lemma {:induction false} CountShrinks(controls: seq<Control>, n: nat, kind: Kind, p: int, t: int)
    requires n <= |controls| && p <= t && forall i :: 0 <= i < |controls| ==> !(p < controls[i].at <= t)
    ensures CountTo(controls, n, kind, t) <= CountTo(controls, n, kind, p)
  {
    if n > 0 { CountShrinks(controls, n - 1, kind, p, t); }
  }

  lemma {:induction false} SumShrinks(events: seq<Event>, n: nat, p: int, t: int)
    requires n <= |events| && p <= t && forall i :: 0 <= i < |events| ==> !(p < events[i].at <= t)
    ensures SumTo(events, n, t) <= SumTo(events, n, p)
  {
    if n > 0 { SumShrinks(events, n - 1, p, t); }
  }

  lemma {:induction false} IntersectingShrinks(epochs: seq<Epoch>, n: nat, p: int, t: int)
    requires n <= |epochs| && p <= t && forall i :: 0 <= i < |epochs| ==> !(p < epochs[i].start <= t)
    ensures IntersectingTo(epochs, n, t) <= IntersectingTo(epochs, n, p)
  {
    if n > 0 { IntersectingShrinks(epochs, n - 1, p, t); }
  }

  /** With nothing entering between p and t, the window ending at t holds no more than the one ending at p. */
  lemma OutboundShrinks(f: Feed, p: int, t: int)
    requires p <= t && NothingBetween(f, p, t)
    ensures Outbound(f, t) <= Outbound(f, p)
  {
    SumShrinks(f.forecast, |f.forecast|, p, t);
    CountShrinks(f.controls, |f.controls|, PingReceived, p, t);
    CountShrinks(f.controls, |f.controls|, PongReceived, p, t);
    IntersectingShrinks(f.epochs, |f.epochs|, p, t);
  }

  /** The latest of the first n points at or before t, if there is one. */
  function LatestPoint(points: seq<int>, n: nat, t: int): Option<int>
    requires n <= |points|
  {
    if n == 0 then None else
      var earlier := LatestPoint(points, n - 1, t);
      if points[n - 1] <= t && (earlier.None? || earlier.value < points[n - 1]) then Some(points[n - 1]) else earlier
  }

  lemma {:induction false} LatestPointMeans(points: seq<int>, n: nat, t: int)
    requires n <= |points|
    ensures var p := LatestPoint(points, n, t);
            && (p.Some? ==> p.value <= t && p.value in points)
            && forall i :: 0 <= i < n && points[i] <= t ==> p.Some? && points[i] <= p.value
  {
    if n > 0 { LatestPointMeans(points, n - 1, t); }
  }

  /** Before every point a window holds only the constant parts. */
  lemma OutboundBeforeEverything(f: Feed, t: int, p: int)
    requires forall i :: 0 <= i < |f.controls| ==> t < f.controls[i].at
    requires forall i :: 0 <= i < |f.forecast| ==> t < f.forecast[i].at
    requires forall i :: 0 <= i < |f.epochs| ==> t < f.epochs[i].start
    ensures Outbound(f, t) <= Outbound(f, p)
  {
    SumToIgnoresLater(f.forecast, 0, |f.forecast|, t);
    CountBeforeEverything(f.controls, |f.controls|, PingReceived, t);
    CountBeforeEverything(f.controls, |f.controls|, PongReceived, t);
    IntersectingBeforeEverything(f.epochs, |f.epochs|, t);
  }

  lemma {:induction false} CountBeforeEverything(controls: seq<Control>, n: nat, kind: Kind, t: int)
    requires n <= |controls| && forall i :: 0 <= i < |controls| ==> t < controls[i].at
    ensures CountTo(controls, n, kind, t) == 0
  {
    if n > 0 { CountBeforeEverything(controls, n - 1, kind, t); }
  }

  lemma {:induction false} IntersectingBeforeEverything(epochs: seq<Epoch>, n: nat, t: int)
    requires n <= |epochs| && forall i :: 0 <= i < |epochs| ==> t < epochs[i].start
    ensures IntersectingTo(epochs, n, t) == 0
  {
    if n > 0 { IntersectingBeforeEverything(epochs, n - 1, t); }
  }

  /** The window of any integer instant is bounded by the window of some event point. */
  lemma SomePointDominates(f: Feed, points: seq<int>, t: int) returns (p: int)
    requires points != [] && Covers(f, points)
    ensures p in points && Outbound(f, t) <= Outbound(f, p)
  {
    var latest := LatestPoint(points, |points|, t);
    LatestPointMeans(points, |points|, t);
    forall x | x in points && x <= t ensures latest.Some? && x <= latest.value {
      var i :| 0 <= i < |points| && points[i] == x;
    }
    if latest.Some? {
      p := latest.value;
      OutboundShrinks(f, p, t);
    } else {
      p := points[0];
      OutboundBeforeEverything(f, t, p);
    }
  }

  /******* The two cursors *******/

  /** Cursor c separates the controls at or before t from the later ones. */
  ghost predicate CursorAt(controls: seq<Control>, c: nat, t: int) {
    && c <= |controls|
    && (forall i :: 0 <= i < c ==> controls[i].at <= t)
    && (forall i :: c <= i < |controls| ==> t < controls[i].at)
  }

  function CountRange(controls: seq<Control>, lo: nat, hi: nat, kind: Kind): nat
    requires lo <= hi <= |controls|
  {
    if lo == hi then 0 else CountRange(controls, lo, hi - 1, kind) + if controls[hi - 1].kind == kind then 1 else 0
  }

  /** The difference of the two cursors counts exactly the window. */
  lemma {:induction false} CursorsCountWindow(controls: seq<Control>, leave: nat, enter: nat, n: nat, kind: Kind, t: int)
    requires CursorAt(controls, leave, t - WINDOW) && CursorAt(controls, enter, t) && leave <= enter && n <= |controls|
    ensures CountTo(controls, n, kind, t) == if n <= leave then 0 else CountRange(controls, leave, if n <= enter then n else enter, kind)
  {
    if n > 0 { CursorsCountWindow(controls, leave, enter, n - 1, kind, t); }
  }

  /** One cursor moving up to t: how many controls of each kind it passes. */
  method Advance(controls: seq<Control>, from: nat, t: int) returns (c: nat, pings: nat, pongs: nat)
    requires from <= |controls| && (forall i :: 0 <= i < from ==> controls[i].at <= t) && ControlsSorted(controls)
    ensures from <= c && CursorAt(controls, c, t)
    ensures pings == CountRange(controls, from, c, PingReceived) && pongs == CountRange(controls, from, c, PongReceived)
  {
    c, pings, pongs := from, 0, 0;
    while c < |controls| && controls[c].at <= t
      invariant from <= c <= |controls| && forall i :: 0 <= i < c ==> controls[i].at <= t
      invariant pings == CountRange(controls, from, c, PingReceived) && pongs == CountRange(controls, from, c, PongReceived)
      decreases |controls| - c
    {
      match controls[c].kind {
        case PingReceived => pings := pings + 1;
        case PongReceived => pongs := pongs + 1;
      }
      c := c + 1;
    }
  }

  lemma {:induction false} CountRangeSplit(controls: seq<Control>, lo: nat, mid: nat, hi: nat, kind: Kind)
    requires lo <= mid <= hi <= |controls|
    ensures CountRange(controls, lo, hi, kind) == CountRange(controls, lo, mid, kind) + CountRange(controls, mid, hi, kind)
  {
    if mid < hi { CountRangeSplit(controls, lo, mid, hi - 1, kind); }
  }

  /******* The merged points *******/

  ghost predicate Nondecreasing(points: seq<int>) {
    forall i, j :: 0 <= i < j < |points| ==> points[i] <= points[j]
  }

  /** A row of the keyed point table: inserted once, kept in key order. */
  function InsertPoint(points: seq<int>, p: int): seq<int> {
    if points == [] || points[|points| - 1] < p then points + [p]
    else if points[|points| - 1] == p then points
    else InsertPoint(points[..|points| - 1], p) + [points[|points| - 1]]
  }

  lemma {:induction false} InsertPointMeans(points: seq<int>, p: int, bound: int)
    requires Nondecreasing(points) && p <= bound && forall i :: 0 <= i < |points| ==> points[i] <= bound
    ensures Nondecreasing(InsertPoint(points, p))
    ensures forall i :: 0 <= i < |InsertPoint(points, p)| ==> InsertPoint(points, p)[i] <= bound
    ensures forall x :: x in InsertPoint(points, p) <==> x in points || x == p
  {
    if points != [] && p < points[|points| - 1] {
      var last, head := points[|points| - 1], points[..|points| - 1];
      InsertPointMeans(head, p, last);
      assert points == head + [last];
    }
  }

  lemma InsertPointKeepsOrder(points: seq<int>, p: int)
    requires Nondecreasing(points)
    ensures Nondecreasing(InsertPoint(points, p))
    ensures forall x :: x in InsertPoint(points, p) <==> x in points || x == p
  {
    var last := if points == [] then p else points[|points| - 1];
    InsertPointMeans(points, p, if last < p then p else last);
  }

  method PointTable(forecast: seq<Event>, epochs: seq<Epoch>) returns (points: seq<int>)
    ensures Nondecreasing(points)
    ensures forall i :: 0 <= i < |forecast| ==> forecast[i].at in points
    ensures forall i :: 0 <= i < |epochs| ==> epochs[i].start in points
  {
    points := [];
    var i := 0;
    while i < |forecast|
      invariant 0 <= i <= |forecast| && Nondecreasing(points)
      invariant forall k :: 0 <= k < i ==> forecast[k].at in points
    {
      InsertPointKeepsOrder(points, forecast[i].at);
      points, i := InsertPoint(points, forecast[i].at), i + 1;
    }
    i := 0;
    while i < |epochs|
      invariant 0 <= i <= |epochs| && Nondecreasing(points)
      invariant forall k :: 0 <= k < |forecast| ==> forecast[k].at in points
      invariant forall k :: 0 <= k < i ==> epochs[k].start in points
    {
      InsertPointKeepsOrder(points, epochs[i].start);
      points, i := InsertPoint(points, epochs[i].start), i + 1;
    }
  }

  /** `heapq.merge` of the control times with the point table. */
  method MergePoints(controls: seq<Control>, table: seq<int>) returns (points: seq<int>)
    requires ControlsSorted(controls) && Nondecreasing(table)
    ensures Nondecreasing(points)
    ensures forall i :: 0 <= i < |controls| ==> controls[i].at in points
    ensures forall x :: x in table ==> x in points
  {
    points := [];
    var a, b := 0, 0;
    while a < |controls| || b < |table|
      invariant 0 <= a <= |controls| && 0 <= b <= |table| && Nondecreasing(points)
      invariant forall k :: 0 <= k < a ==> controls[k].at in points
      invariant forall k :: 0 <= k < b ==> table[k] in points
      invariant points != [] && a < |controls| ==> points[|points| - 1] <= controls[a].at
      invariant points != [] && b < |table| ==> points[|points| - 1] <= table[b]
      decreases |controls| - a + |table| - b
    {
      if b == |table| || (a < |controls| && controls[a].at <= table[b]) {
        points, a := points + [controls[a].at], a + 1;
      } else {
        points, b := points + [table[b]], b + 1;
      }
    }
  }

  /******* The sweep *******/

  /** The state between two points: cursors at the last one, and the best window so far. */
  ghost predicate Swept(f: Feed, points: seq<int>, j: nat, prev: Option<int>, leave: nat, enter: nat, pings: int, pongs: int,
                        peak: nat, best: nat) {
    && j <= |points| && Counted(f.controls, leave, enter, pings, pongs)
    && (if j == 0 then prev == None && leave == enter == 0 && peak == 0
        else prev == Some(points[j - 1]) && CursorAt(f.controls, enter, points[j - 1]) && CursorAt(f.controls, leave, points[j - 1] - WINDOW)
             && best < j && peak == Outbound(f, points[best]))
    && forall k :: 0 <= k < j ==> Outbound(f, points[k]) <= peak
  }

  /** The window evaluated from the two cursors is the directly counted one. */
  method EvaluateWindow(f: Feed, right: int, leave: nat, enter: nat, pings: nat, pongs: nat) returns (upper: nat, crowded: bool)
    requires leave <= enter && CursorAt(f.controls, enter, right) && CursorAt(f.controls, leave, right - WINDOW)
    requires pings == CountRange(f.controls, leave, enter, PingReceived) && pongs == CountRange(f.controls, leave, enter, PongReceived)
    ensures upper == Outbound(f, right)
    ensures |f.epochs| <= 2 ==> !crowded
  {
    var intersecting, i := 0, 0;
    while i < |f.epochs|
      invariant 0 <= i <= |f.epochs| && intersecting == IntersectingTo(f.epochs, i, right) <= i
    {
      if f.epochs[i].start <= right && f.epochs[i].end > right - WINDOW { intersecting := intersecting + 1; }
      i := i + 1;
    }
    var autoPing := pongs + intersecting;
    var nativeOutbound := WindowSum(f.forecast, right) + f.constantBound;
    upper := nativeOutbound + pings + autoPing + f.closeReserve;
    crowded := intersecting > 2;
    CursorsCountWindow(f.controls, leave, enter, |f.controls|, PingReceived, right);
    CursorsCountWindow(f.controls, leave, enter, |f.controls|, PongReceived, right);
  }

  lemma WindowMoves(controls: seq<Control>, leave: nat, enter: nat, leave': nat, enter': nat, kind: Kind)
    requires leave <= enter && leave <= leave' <= enter' <= |controls| && enter <= enter'
    ensures CountRange(controls, leave', enter', kind)
         == CountRange(controls, leave, enter, kind) + CountRange(controls, enter, enter', kind) - CountRange(controls, leave, leave', kind)
  {
    CountRangeSplit(controls, leave, enter, enter', kind);
    CountRangeSplit(controls, leave, leave', enter', kind);
  }

  lemma CursorOrder(controls: seq<Control>, leave: nat, enter: nat, t: int)
    requires CursorAt(controls, leave, t - WINDOW) && CursorAt(controls, enter, t)
    ensures leave <= enter
  {
    assert enter < |controls| ==> t < controls[enter].at;
  }

  ghost predicate Counted(controls: seq<Control>, leave: nat, enter: nat, pings: int, pongs: int) {
    && leave <= enter <= |controls|
    && pings == CountRange(controls, leave, enter, PingReceived) && pongs == CountRange(controls, leave, enter, PongReceived)
  }

  /** Both cursors advance to a later window, and the counts follow. */
  method MoveCursors(controls: seq<Control>, leave: nat, enter: nat, pings: int, pongs: int, right: int)
    returns (leave': nat, enter': nat, pings': int, pongs': int)
    requires ControlsSorted(controls) && Counted(controls, leave, enter, pings, pongs)
    requires forall i :: 0 <= i < enter ==> controls[i].at <= right
    requires forall i :: 0 <= i < leave ==> controls[i].at <= right - WINDOW
    ensures Counted(controls, leave', enter', pings', pongs')
    ensures CursorAt(controls, enter', right) && CursorAt(controls, leave', right - WINDOW)
  {
    var inPings, inPongs, outPings, outPongs;
    enter', inPings, inPongs := Advance(controls, enter, right);
    leave', outPings, outPongs := Advance(controls, leave, right - WINDOW);
    CursorOrder(controls, leave', enter', right);
    WindowMoves(controls, leave, enter, leave', enter', PingReceived);
    WindowMoves(controls, leave, enter, leave', enter', PongReceived);
    pings', pongs' := pings + inPings - outPings, pongs + inPongs - outPongs;
  }

  method SweepPoints(f: Feed, points: seq<int>) returns (peak: nat, blocked: bool, ghost best: nat)
    requires |f.epochs| <= 2 && ControlsSorted(f.controls) && Nondecreasing(points) && points != []
    ensures best < |points| && peak == Outbound(f, points[best])
    ensures forall k :: 0 <= k < |points| ==> Outbound(f, points[k]) <= peak
    ensures blocked <==> peak > CEILING
  {
    peak, blocked, best := 0, false, 0;
    var prev: Option<int> := None;
    var leave, enter, pings, pongs := 0, 0, 0, 0;
    var j := 0;
    while j < |points|
      invariant j <= |points| && Swept(f, points, j, prev, leave, enter, pings, pongs, peak, best)
      invariant blocked <==> peak > CEILING
    {
      var right := points[j];
      if prev == Some(right) {
        j := j + 1;
        continue;
      }
      leave, enter, pings, pongs := MoveCursors(f.controls, leave, enter, pings, pongs, right);
      var upper, crowded := EvaluateWindow(f, right, leave, enter, pings, pongs);
      if crowded || upper > CEILING { blocked := true; }
      if j == 0 || upper > peak { best := j; }
      peak := if upper > peak then upper else peak;
      prev := Some(right);
      j := j + 1;
    }
  }

  /**
  The reported peak is the maximum over every integer instant of the outbound total of the
  60-second window ending there, and the ceiling blocker is raised exactly when some window
  anywhere exceeds 1000.
  */
  method Sweep(f: Feed) returns (peak: nat, blocked: bool)
    requires FeedOk(f) && ControlsSorted(f.controls)
    ensures forall t :: Outbound(f, t) <= peak
    ensures exists t :: Outbound(f, t) == peak
    ensures blocked <==> exists t :: Outbound(f, t) > CEILING
  {
    var table := PointTable(f.forecast, f.epochs);
    var points := MergePoints(f.controls, table);
    ghost var best;
    assert f.forecast[0].at in points;
    peak, blocked, best := SweepPoints(f, points);
    forall t ensures Outbound(f, t) <= peak {
      var p := SomePointDominates(f, points, t);
      var k :| 0 <= k < |points| && points[k] == p;
    }
    assert Outbound(f, points[best]) == peak;
  }

  /******* Collecting the controls from the trace *******/

  /**
  What a log record says: a ping or pong frame; one that is misplaced (wrong component or level) or
  malformed; an unplanned failure, retry or throttling; or nothing of interest.
  */
  datatype Note = PingFrame | PongFrame | Misplaced | Malformed | Trouble | Plain

  datatype Trace = Trace(at: int, note: Note)

  predicate IsControl(note: Note) { note == PingFrame || note == PongFrame }

  /** Records whose time is compared with the times before. */
  predicate IsTimed(note: Note) { IsControl(note) || note == Malformed }

  predicate InOrder(traces: seq<Trace>, i: nat)
    requires i < |traces|
  {
    0 <= traces[i].at && forall j :: 0 <= j < i && IsTimed(traces[j].note) ==> traces[j].at <= traces[i].at
  }

  predicate InEpoch(epochs: seq<Epoch>, t: int) { exists i :: 0 <= i < |epochs| && epochs[i].start <= t <= epochs[i].end }

  /** Record i makes the trace ambiguous. */
  predicate Suspicious(traces: seq<Trace>, epochs: seq<Epoch>, i: nat)
    requires i < |traces|
  {
    match traces[i].note
    case Plain => false
    case PingFrame => !InOrder(traces, i) || !InEpoch(epochs, traces[i].at)
    case PongFrame => !InOrder(traces, i) || !InEpoch(epochs, traces[i].at)
    case _ => true
  }

  predicate Clean(traces: seq<Trace>, epochs: seq<Epoch>) { forall i :: 0 <= i < |traces| ==> !Suspicious(traces, epochs, i) }

  /** A trace is clean exactly if nothing in it is suspect and its controls come in order, each while a connection lasts. */
  lemma CleanMeans(traces: seq<Trace>, epochs: seq<Epoch>)
    ensures Clean(traces, epochs) <==>
              && (forall i :: 0 <= i < |traces| ==> traces[i].note == Plain || IsControl(traces[i].note))
              && (forall i :: 0 <= i < |traces| && IsControl(traces[i].note) ==>
                    0 <= traces[i].at && exists e :: e in epochs && e.start <= traces[i].at <= e.end)
              && (forall i, j :: 0 <= i < j < |traces| && IsControl(traces[i].note) && IsControl(traces[j].note) ==>
                    traces[i].at <= traces[j].at)
  {
    if Clean(traces, epochs) {
      forall i | 0 <= i < |traces| ensures traces[i].note == Plain || IsControl(traces[i].note) { assert !Suspicious(traces, epochs, i); }
      forall i | 0 <= i < |traces| && IsControl(traces[i].note)
        ensures InOrder(traces, i) && exists e :: e in epochs && e.start <= traces[i].at <= e.end
      {
        assert !Suspicious(traces, epochs, i);
        var k :| 0 <= k < |epochs| && epochs[k].start <= traces[i].at <= epochs[k].end;
        assert epochs[k] in epochs;
      }
    } else {
      var i :| 0 <= i < |traces| && Suspicious(traces, epochs, i);
    }
  }

  function ControlOf(trace: Trace): Control { Control(trace.at, if trace.note == PingFrame then PingReceived else PongReceived) }

  /** The controls among the first n records that raise no suspicion. */
  function Kept(traces: seq<Trace>, epochs: seq<Epoch>, n: nat): seq<Control>
    requires n <= |traces|
  {
    if n == 0 then [] else
      Kept(traces, epochs, n - 1)
      + if IsControl(traces[n - 1].note) && !Suspicious(traces, epochs, n - 1) then [ControlOf(traces[n - 1])] else []
  }

  /** All pings and pongs among the first n records. */
  function Controls(traces: seq<Trace>, n: nat): seq<Control>
    requires n <= |traces|
  {
    if n == 0 then [] else Controls(traces, n - 1) + if IsControl(traces[n - 1].note) then [ControlOf(traces[n - 1])] else []
  }

  /** The latest time of the timed records among the first n, or 0. */
  function Latest(traces: seq<Trace>, n: nat): int
    requires n <= |traces|
  {
    if n == 0 then 0
    else if IsTimed(traces[n - 1].note) && traces[n - 1].at >= Latest(traces, n - 1) then traces[n - 1].at
    else Latest(traces, n - 1)
  }

  lemma {:induction false} LatestMeans(traces: seq<Trace>, n: nat, t: int)
    requires n <= |traces|
    ensures Latest(traces, n) <= t <==> 0 <= t && forall j :: 0 <= j < n && IsTimed(traces[j].note) ==> traces[j].at <= t
  {
    if n > 0 { LatestMeans(traces, n - 1, t); }
  }

  lemma {:induction false} KeptAreBefore(traces: seq<Trace>, epochs: seq<Epoch>, n: nat, k: nat)
    requires n <= |traces| && k < |Kept(traces, epochs, n)|
    ensures Kept(traces, epochs, n)[k].at <= Latest(traces, n)
  {
    if k < |Kept(traces, epochs, n - 1)| {
      KeptAreBefore(traces, epochs, n - 1, k);
    } else {
      LatestMeans(traces, n - 1, traces[n - 1].at);
    }
  }

  /** What is kept is sorted by time. */
  lemma {:induction false} KeptAreSorted(traces: seq<Trace>, epochs: seq<Epoch>, n: nat)
    requires n <= |traces|
    ensures ControlsSorted(Kept(traces, epochs, n))
  {
    if n > 0 {
      KeptAreSorted(traces, epochs, n - 1);
      var kept, before := Kept(traces, epochs, n), Kept(traces, epochs, n - 1);
      LatestMeans(traces, n - 1, traces[n - 1].at);
      forall i, j | 0 <= i < j < |kept| ensures kept[i].at <= kept[j].at {
        if j == |before| { KeptAreBefore(traces, epochs, n - 1, i); }
      }
    }
  }

  /** A clean trace loses no control. */
  lemma {:induction false} CleanKeepsAll(traces: seq<Trace>, epochs: seq<Epoch>, n: nat)
    requires n <= |traces| && Clean(traces, epochs)
    ensures Kept(traces, epochs, n) == Controls(traces, n)
  {
    if n > 0 { CleanKeepsAll(traces, epochs, n - 1); }
  }

  predicate CleanTo(traces: seq<Trace>, epochs: seq<Epoch>, n: nat)
    requires n <= |traces|
  {
    n == 0 || (CleanTo(traces, epochs, n - 1) && !Suspicious(traces, epochs, n - 1))
  }

  lemma {:induction false} CleanToMeans(traces: seq<Trace>, epochs: seq<Epoch>, n: nat)
    requires n <= |traces|
    ensures CleanTo(traces, epochs, n) <==> forall i :: 0 <= i < n ==> !Suspicious(traces, epochs, i)
  {
    if n > 0 { CleanToMeans(traces, epochs, n - 1); }
  }

  /** The tests of the loop, by the time of the previous control. */
  lemma SuspicionMeans(traces: seq<Trace>, epochs: seq<Epoch>, n: nat)
    requires n < |traces|
    ensures Suspicious(traces, epochs, n) <==>
              traces[n].note != Plain && (!IsControl(traces[n].note) || traces[n].at < Latest(traces, n) || !InEpoch(epochs, traces[n].at))
  {
    LatestMeans(traces, n, traces[n].at);
  }

  predicate HasPong(controls: seq<Control>) { exists i :: 0 <= i < |controls| && controls[i].kind == PongReceived }

  lemma PongArrives(controls: seq<Control>, c: Control)
    ensures HasPong(controls + [c]) <==> HasPong(controls) || c.kind == PongReceived
  {
    var all := controls + [c];
    assert forall i :: 0 <= i < |controls| ==> all[i] == controls[i];
    assert all[|controls|] == c;
  }

  /** The loop over the records, with the time of the previous control. */
  method CollectControls(traces: seq<Trace>, epochs: seq<Epoch>) returns (controls: seq<Control>, pongs: nat, clean: bool)
    ensures controls == Kept(traces, epochs, |traces|)
    ensures (pongs > 0 <==> HasPong(controls)) && (clean <==> Clean(traces, epochs))
  {
    controls, pongs, clean := [], 0, true;
    var previous := 0;
    var n := 0;
    while n < |traces|
      invariant 0 <= n <= |traces| && previous == Latest(traces, n) && controls == Kept(traces, epochs, n)
      invariant pongs > 0 <==> HasPong(controls)
      invariant clean <==> CleanTo(traces, epochs, n)
    {
      var trace := traces[n];
      SuspicionMeans(traces, epochs, n);
      if trace.note == Misplaced || trace.note == Trouble {
        clean := false;
      } else if trace.note != Plain {
        if trace.at < previous {
          clean := false;
        } else {
          previous := trace.at;
          if !InEpoch(epochs, trace.at) || trace.note == Malformed {
            clean := false;
          } else {
            PongArrives(controls, ControlOf(trace));
            controls := controls + [ControlOf(trace)];
            if trace.note == PongFrame { pongs := pongs + 1; }
          }
        }
      }
      n := n + 1;
    }
    CleanToMeans(traces, epochs, |traces|);
  }

  /******* The outbound total, counted from the trace *******/

  /** Frames of one kind among the first n records in (t - 60s, t]. */
  function FramesIn(traces: seq<Trace>, n: nat, note: Note, t: int): nat
    requires n <= |traces|
  {
    if n == 0 then 0 else FramesIn(traces, n - 1, note, t) + if traces[n - 1].note == note && t - WINDOW < traces[n - 1].at <= t then 1 else 0
  }

  /**
  What may leave in the window: the forecast and the constant bound, a pong for every ping received, a
  ping for every pong received and one more a connection, and the close reserve.
  */
  function TraceOutbound(f: Feed, traces: seq<Trace>, t: int): nat {
    WindowSum(f.forecast, t) + f.constantBound
    + FramesIn(traces, |traces|, PingFrame, t)
    + FramesIn(traces, |traces|, PongFrame, t) + IntersectingTo(f.epochs, |f.epochs|, t)
    + f.closeReserve
  }

  lemma {:induction false} CountOfPrefix(controls: seq<Control>, more: seq<Control>, n: nat, kind: Kind, t: int)
    requires n <= |controls|
    ensures CountTo(controls + more, n, kind, t) == CountTo(controls, n, kind, t)
  {
    if n > 0 { CountOfPrefix(controls, more, n - 1, kind, t); }
  }

  lemma CountOneMore(controls: seq<Control>, c: Control, kind: Kind, t: int)
    ensures CountTo(controls + [c], |controls + [c]|, kind, t)
         == CountTo(controls, |controls|, kind, t) + if c.kind == kind && t - WINDOW < c.at <= t then 1 else 0
  {
    CountOfPrefix(controls, [c], |controls|, kind, t);
  }

  function NoteOf(kind: Kind): Note { if kind == PingReceived then PingFrame else PongFrame }

  lemma {:induction false} ControlsAreFrames(traces: seq<Trace>, n: nat, kind: Kind, t: int)
    requires n <= |traces|
    ensures CountTo(Controls(traces, n), |Controls(traces, n)|, kind, t) == FramesIn(traces, n, NoteOf(kind), t)
  {
    if n > 0 {
      ControlsAreFrames(traces, n - 1, kind, t);
      var before, c := Controls(traces, n - 1), ControlOf(traces[n - 1]);
      if IsControl(traces[n - 1].note) {
        CountOneMore(before, c, kind, t);
        assert Controls(traces, n) == before + [c];
      } else {
        assert Controls(traces, n) == before;
      }
    }
  }

  lemma OutboundOfTrace(f: Feed, traces: seq<Trace>, t: int)
    ensures Outbound(FeedFrom(f, Controls(traces, |traces|)), t) == TraceOutbound(f, traces, t)
  {
    ControlsAreFrames(traces, |traces|, PingReceived, t);
    ControlsAreFrames(traces, |traces|, PongReceived, t);
  }

  ghost predicate PongSeen(traces: seq<Trace>, epochs: seq<Epoch>, n: nat)
    requires n <= |traces|
  {
    exists i :: 0 <= i < n && traces[i].note == PongFrame && !Suspicious(traces, epochs, i)
  }

  lemma {:induction false} KeptPongs(traces: seq<Trace>, epochs: seq<Epoch>, n: nat)
    requires n <= |traces|
    ensures HasPong(Kept(traces, epochs, n)) <==> PongSeen(traces, epochs, n)
  {
    if n > 0 {
      KeptPongs(traces, epochs, n - 1);
      var before, c := Kept(traces, epochs, n - 1), ControlOf(traces[n - 1]);
      var keeps := IsControl(traces[n - 1].note) && !Suspicious(traces, epochs, n - 1);
      PongArrives(before, c);
      assert Kept(traces, epochs, n) == if keeps then before + [c] else before;
      assert PongSeen(traces, epochs, n) <==> PongSeen(traces, epochs, n - 1) || (keeps && traces[n - 1].note == PongFrame);
    }
  }

  /** What the verifier is given besides the trace; the controls of the feed are not used. */
  function FeedFrom(f: Feed, controls: seq<Control>): Feed { f.(controls := controls) }

  /** The blockers of the verification. */
  datatype Verdict = Incomplete | Checked(peak: nat, ambiguous: bool, pongMissing: bool, overCeiling: bool)

  predicate Passes(v: Verdict) { v.Checked? && !v.ambiguous && !v.pongMissing && !v.overCeiling }

  /**
  Malformed reserves, epochs or forecasts end the verification as incomplete. Otherwise each blocker is
  raised exactly for its reason, and PASS means that the whole trace is accounted for and no window of
  its pings and pongs anywhere exceeds the ceiling.
  */
  method VerifyOutbound(f: Feed, traces: seq<Trace>) returns (v: Verdict)
    ensures v.Incomplete? <==> !FeedOk(f)
    ensures v.Checked? ==>
              && (v.ambiguous <==> !Clean(traces, f.epochs)) && (v.pongMissing <==> !PongSeen(traces, f.epochs, |traces|))
              && (v.overCeiling <==> exists t :: Outbound(FeedFrom(f, Kept(traces, f.epochs, |traces|)), t) > CEILING)
    ensures Passes(v) <==>
              && FeedOk(f) && Clean(traces, f.epochs) && (exists i :: 0 <= i < |traces| && traces[i].note == PongFrame)
              && forall t :: TraceOutbound(f, traces, t) <= CEILING
  {
    var ok := CheckFeed(f);
    if !ok { return Incomplete; }
    var controls, pongs, clean := CollectControls(traces, f.epochs);
    KeptAreSorted(traces, f.epochs, |traces|);
    KeptPongs(traces, f.epochs, |traces|);
    assert clean ==> (PongSeen(traces, f.epochs, |traces|) <==> exists i :: 0 <= i < |traces| && traces[i].note == PongFrame);
    if clean {
      CleanKeepsAll(traces, f.epochs, |traces|);
      forall t ensures Outbound(FeedFrom(f, controls), t) == TraceOutbound(f, traces, t) { OutboundOfTrace(f, traces, t); }
    }
    var peak, over := Sweep(FeedFrom(f, controls));
    return Checked(peak, !clean, pongs == 0, over);
  }
}
