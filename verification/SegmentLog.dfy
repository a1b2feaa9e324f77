/**
A log of segments, one open at a time, rotated by date and size and framed by a start and
an end marker: the raw capture writer for any record type.
*/
module SegmentLog {
  import opened Text
  import opened SegmentNames

  /** `bytes` is a line as written, `measured` the size the writer budgets for it. */
  datatype Format<!R> = Format(
    bytes: R -> nat, measured: R -> nat, isStart: R -> bool, isEnd: R -> bool,
    startMark: (string, string) -> R, endMark: (string, string) -> R)

  function BytesOf<R>(f: Format<R>, r: R): nat { f.bytes(r) }

  function MeasureOf<R>(f: Format<R>, r: R): nat { f.measured(r) }

  predicate Starts<R>(f: Format<R>, r: R) { f.isStart(r) }

  predicate Ends<R>(f: Format<R>, r: R) { f.isEnd(r) }

  function StartMark<R>(f: Format<R>, stamp: string, path: string): R { f.startMark(stamp, path) }

  function EndMark<R>(f: Format<R>, stamp: string, path: string): R { f.endMark(stamp, path) }

  ghost predicate FormatOk<R(!new)>(f: Format<R>) {
    && (forall r :: BytesOf(f, r) <= MeasureOf(f, r))
    && (forall stamp, path :: Starts(f, StartMark(f, stamp, path)))
    && (forall stamp, path :: Ends(f, EndMark(f, stamp, path)))
  }

  /** Bytes of the first n lines. */
  function LineBytes<R>(f: Format<R>, lines: seq<R>, n: nat): nat
    requires n <= |lines|
  {
    if n == 0 then 0 else LineBytes(f, lines, n - 1) + BytesOf(f, lines[n - 1])
  }

  lemma {:induction false} LinesBefore<R>(f: Format<R>, lines: seq<R>, line: R, n: nat)
    requires n <= |lines|
    ensures LineBytes(f, lines + [line], n) == LineBytes(f, lines, n)
  {
    if n > 0 { LinesBefore(f, lines, line, n - 1); }
  }

  lemma LineAdds<R>(f: Format<R>, lines: seq<R>, line: R)
    ensures LineBytes(f, lines + [line], |lines| + 1) == LineBytes(f, lines, |lines|) + BytesOf(f, line)
  {
    LinesBefore(f, lines, line, |lines|);
  }

  lemma TwoLines<R>(f: Format<R>, a: R, b: R)
    ensures LineBytes(f, [a, b], 2) == BytesOf(f, a) + BytesOf(f, b)
  {
    assert LineBytes(f, [a, b], 1) == BytesOf(f, a);
  }

  /** The first n lines are within the limit, unless they are a start marker and a single record. */
  predicate Bounded<R>(f: Format<R>, maxBytes: nat, lines: seq<R>, n: nat)
    requires n <= |lines|
  {
    n == 2 || LineBytes(f, lines, n) <= maxBytes
  }

  predicate OpenOk<R>(f: Format<R>, maxBytes: nat, s: seq<R>) {
    |s| >= 2 && Starts(f, s[0]) && Bounded(f, maxBytes, s, |s|)
  }

  predicate ClosedOk<R>(f: Format<R>, maxBytes: nat, s: seq<R>) {
    |s| >= 3 && Starts(f, s[0]) && Ends(f, s[|s| - 1]) && Bounded(f, maxBytes, s, |s| - 1)
  }

  /** The records of a closed segment, without its two markers. */
  function Body<R>(s: seq<R>): seq<R> { if |s| < 2 then [] else s[1..|s| - 1] }

  /** The records of the first n segments, in order. */
  function Payload<R>(files: seq<seq<R>>, n: nat): seq<R>
    requires n <= |files|
  {
    if n == 0 then [] else Payload(files, n - 1) + Body(files[n - 1])
  }

  ghost predicate AllClosed<R>(f: Format<R>, maxBytes: nat, files: seq<seq<R>>, n: nat)
    requires n <= |files|
  {
    n == 0 || (AllClosed(f, maxBytes, files, n - 1) && ClosedOk(f, maxBytes, files[n - 1]))
  }

  lemma {:induction false} ClosedAt<R>(f: Format<R>, maxBytes: nat, files: seq<seq<R>>, n: nat, i: nat)
    requires i < n <= |files| && AllClosed(f, maxBytes, files, n)
    ensures ClosedOk(f, maxBytes, files[i])
  {
    if i < n - 1 { ClosedAt(f, maxBytes, files, n - 1, i); }
  }

  lemma {:induction false} SamePrefix<R>(f: Format<R>, maxBytes: nat, a: seq<seq<R>>, b: seq<seq<R>>, n: nat)
    requires n <= |a| && n <= |b| && forall i :: 0 <= i < n ==> a[i] == b[i]
    ensures Payload(a, n) == Payload(b, n) && (AllClosed(f, maxBytes, a, n) <==> AllClosed(f, maxBytes, b, n))
  {
    if n > 0 { SamePrefix(f, maxBytes, a, b, n - 1); }
  }

  /** Every segment is closed and framed, except the last when it is open. */
  ghost predicate LogOk<R>(f: Format<R>, maxBytes: nat, files: seq<seq<R>>, open: bool) {
    if open then files != [] && OpenOk(f, maxBytes, files[|files| - 1]) && AllClosed(f, maxBytes, files, |files| - 1)
    else AllClosed(f, maxBytes, files, |files|)
  }

  /** Every record written: first and last line of each closed segment dropped, first of the open one. */
  ghost function Written<R>(f: Format<R>, maxBytes: nat, files: seq<seq<R>>, open: bool): seq<R>
    requires LogOk(f, maxBytes, files, open)
  {
    if open then Payload(files, |files| - 1) + files[|files| - 1][1..] else Payload(files, |files|)
  }

  function Extended<R>(files: seq<seq<R>>, line: R): seq<seq<R>>
    requires files != []
  {
    files[|files| - 1 := files[|files| - 1] + [line]]
  }

  lemma ClosedSegment<R>(f: Format<R>, maxBytes: nat, s: seq<R>, mark: R)
    requires OpenOk(f, maxBytes, s) && Ends(f, mark)
    ensures ClosedOk(f, maxBytes, s + [mark]) && Body(s + [mark]) == s[1..]
  {
    LinesBefore(f, s, mark, |s|);
  }

  /** Closing the open segment keeps the records. */
  lemma CloseKeeps<R>(f: Format<R>, maxBytes: nat, files: seq<seq<R>>, mark: R)
    requires LogOk(f, maxBytes, files, true) && Ends(f, mark)
    ensures LogOk(f, maxBytes, Extended(files, mark), false)
    ensures Written(f, maxBytes, Extended(files, mark), false) == Written(f, maxBytes, files, true)
  {
    ClosedSegment(f, maxBytes, files[|files| - 1], mark);
    SamePrefix(f, maxBytes, files, Extended(files, mark), |files| - 1);
  }

  lemma OpenGrows<R>(f: Format<R>, maxBytes: nat, s: seq<R>, record: R)
    requires OpenOk(f, maxBytes, s) && LineBytes(f, s, |s|) + BytesOf(f, record) <= maxBytes
    ensures OpenOk(f, maxBytes, s + [record]) && (s + [record])[1..] == s[1..] + [record]
  {
    LineAdds(f, s, record);
  }

  /** A record that fits by its measured size joins the open segment. */
  lemma AddKeeps<R(!new)>(f: Format<R>, maxBytes: nat, files: seq<seq<R>>, record: R)
    requires FormatOk(f) && LogOk(f, maxBytes, files, true)
    requires LineBytes(f, files[|files| - 1], |files[|files| - 1]|) + MeasureOf(f, record) <= maxBytes
    ensures LogOk(f, maxBytes, Extended(files, record), true)
    ensures Written(f, maxBytes, Extended(files, record), true) == Written(f, maxBytes, files, true) + [record]
  {
    assert BytesOf(f, record) <= MeasureOf(f, record);
    var last := files[|files| - 1];
    OpenGrows(f, maxBytes, last, record);
    LastGrows(f, maxBytes, files, last + [record]);
    assert Payload(files, |files| - 1) + (last[1..] + [record]) == Payload(files, |files| - 1) + last[1..] + [record];
  }

  lemma LastGrows<R>(f: Format<R>, maxBytes: nat, files: seq<seq<R>>, last: seq<R>)
    requires LogOk(f, maxBytes, files, true) && OpenOk(f, maxBytes, last)
    ensures var longer := files[|files| - 1 := last];
            LogOk(f, maxBytes, longer, true) && Written(f, maxBytes, longer, true) == Payload(files, |files| - 1) + last[1..]
  {
    SamePrefix(f, maxBytes, files, files[|files| - 1 := last], |files| - 1);
  }

  /** A new segment starts with its marker and the record that called for it. */
  lemma OpenKeeps<R>(f: Format<R>, maxBytes: nat, files: seq<seq<R>>, mark: R, record: R)
    requires LogOk(f, maxBytes, files, false) && Starts(f, mark)
    ensures LogOk(f, maxBytes, files + [[mark, record]], true)
    ensures Written(f, maxBytes, files + [[mark, record]], true) == Written(f, maxBytes, files, false) + [record]
  {
    SamePrefix(f, maxBytes, files, files + [[mark, record]], |files|);
    assert [mark, record][1..] == [record];
  }

  /******* Names *******/

  function DateOf(stamp: string): string { if |stamp| <= 10 then stamp else stamp[..10] }

  /** The calendar date a stamp begins with, of the form 2026-01-31. */
  lemma DateOfStamp(date: string, rest: string)
    requires |date| == |"2026-01-31"|
    ensures DateOf(date + rest) == date
  {
    assert rest == [] ==> date + rest == date;
  }

  /** The reading of a clock, by how often it was read before. */
  type Clock = nat -> string

  /** The name of the segment with a date and a number. */
  type Namer = (string, nat) -> string

  function Reading(clock: Clock, k: nat): string { clock(k) }

  function NameOf(name: Namer, date: string, n: nat): string { name(date, n) }

  /** Each of the first n segments is named by its number and the date of its reading; readings go forward. */
  ghost predicate NamesTo(name: Namer, clock: Clock, paths: seq<string>, dated: seq<nat>, n: nat)
    requires n <= |paths| == |dated|
  {
    n == 0 || (&& NamesTo(name, clock, paths, dated, n - 1)
               && paths[n - 1] == NameOf(name, DateOf(Reading(clock, dated[n - 1])), n - 1)
               && (n > 1 ==> dated[n - 2] < dated[n - 1]))
  }

  ghost predicate NamesOk(name: Namer, clock: Clock, paths: seq<string>, dated: seq<nat>, ticks: nat) {
    |dated| == |paths| && NamesTo(name, clock, paths, dated, |paths|) && (dated != [] ==> dated[|dated| - 1] < ticks)
  }

  lemma {:induction false} NamesAt(name: Namer, clock: Clock, paths: seq<string>, dated: seq<nat>, n: nat, i: nat)
    requires i < n <= |paths| == |dated| && NamesTo(name, clock, paths, dated, n)
    ensures paths[i] == NameOf(name, DateOf(Reading(clock, dated[i])), i) && (i < n - 1 ==> dated[i] < dated[n - 1])
  {
    if i < n - 1 { NamesAt(name, clock, paths, dated, n - 1, i); }
  }

  lemma {:induction false} NamesShorter(name: Namer, clock: Clock, paths: seq<string>, dated: seq<nat>, n: nat, m: nat)
    requires m <= n <= |paths| == |dated| && NamesTo(name, clock, paths, dated, n)
    ensures NamesTo(name, clock, paths, dated, m)
  {
    if m < n { NamesShorter(name, clock, paths, dated, n - 1, m); }
  }

  lemma {:induction false} NamesOfPrefix(name: Namer, clock: Clock, a: seq<string>, b: seq<string>, x: seq<nat>, y: seq<nat>, n: nat)
    requires n <= |a| == |x| && n <= |b| == |y| && (forall i :: 0 <= i < n ==> a[i] == b[i] && x[i] == y[i])
    requires NamesTo(name, clock, a, x, n)
    ensures NamesTo(name, clock, b, y, n)
  {
    if n > 0 { NamesOfPrefix(name, clock, a, b, x, y, n - 1); }
  }

  lemma CreateKeepsNames(name: Namer, clock: Clock, paths: seq<string>, dated: seq<nat>, ticks: nat, path: string, at: nat)
    requires NamesOk(name, clock, paths, dated, at) && at < ticks
    requires path == NameOf(name, DateOf(Reading(clock, at)), |paths|)
    ensures NamesOk(name, clock, paths + [path], dated + [at], ticks)
  {
    NamesOfPrefix(name, clock, paths, paths + [path], dated, dated + [at], |paths|);
  }

  /** The dates that a clock gives never go back. */
  ghost predicate SteadyClock(clock: Clock) {
    forall i, j :: 0 <= i < j ==> NotEarlier(DateOf(Reading(clock, i)), DateOf(Reading(clock, j)))
  }

  /** The date of each segment. */
  function Dates(clock: Clock, dated: seq<nat>): (dates: seq<string>)
    ensures |dates| == |dated|
  {
    seq(|dated|, i requires 0 <= i < |dated| => DateOf(Reading(clock, dated[i])))
  }

  /** Sorting the names gives the order of writing. */
  ghost predicate PathsSort(paths: seq<string>) {
    forall i, j :: 0 <= i < j < |paths| ==> StringLess(paths[i], paths[j])
  }

  lemma SegmentsAreSteady(name: Namer, clock: Clock, paths: seq<string>, dated: seq<nat>, ticks: nat)
    requires NamesOk(name, clock, paths, dated, ticks) && SteadyClock(clock)
    ensures SteadyDates(Dates(clock, dated))
  {
    forall i, j | 0 <= i < j < |dated| ensures NotEarlier(Dates(clock, dated)[i], Dates(clock, dated)[j]) {
      NamesShorter(name, clock, paths, dated, |paths|, j + 1);
      NamesAt(name, clock, paths, dated, j + 1, i);
    }
  }

  /** With a steady clock, sorting the names gives the order of writing exactly when dates change at the powers of ten. */
  lemma NamesFollowWriting(session: string, name: Namer, clock: Clock, paths: seq<string>, dated: seq<nat>, ticks: nat)
    requires NamesOk(name, clock, paths, dated, ticks) && SteadyClock(clock)
    requires forall d, n :: NameOf(name, d, n) == Name(d, session, n)
    ensures PathsSort(paths) <==> NewDateAtPowers(Dates(clock, dated))
  {
    var dates := Dates(clock, dated);
    forall i | 0 <= i < |paths| ensures paths[i] == Name(dates[i], session, i) {
      NamesAt(name, clock, paths, dated, |paths|, i);
    }
    SegmentsAreSteady(name, clock, paths, dated, ticks);
    NamesSortExactly(session, dates);
    assert PathsSort(paths) <==> NamesSort(session, dates);
  }

  /******* The writer *******/

  /** The writer's fields as a value; `dated` gives the reading that dated each segment. */
  datatype View<R> = View(files: seq<seq<R>>, open: bool, size: nat, date: string, paths: seq<string>, dated: seq<nat>, ticks: nat)

  datatype Setup<!R> = Setup(format: Format<R>, maxBytes: nat, name: Namer, clock: Clock)

  ghost predicate ViewOk<R(!new)>(c: Setup<R>, v: View<R>) {
    && FormatOk(c.format) && NamesOk(c.name, c.clock, v.paths, v.dated, v.ticks) && LogOk(c.format, c.maxBytes, v.files, v.open)
    && |v.files| == |v.paths|
    && (v.open ==> var last := v.files[|v.files| - 1];
        v.size == LineBytes(c.format, last, |last|) && v.date == DateOf(Reading(c.clock, v.dated[|v.files| - 1])))
  }

  ghost function RecordsIn<R(!new)>(c: Setup<R>, v: View<R>): seq<R>
    requires ViewOk(c, v)
  {
    Written(c.format, c.maxBytes, v.files, v.open)
  }

  lemma ViewTicks<R(!new)>(c: Setup<R>, v: View<R>, ticks: nat)
    requires ViewOk(c, v) && v.ticks <= ticks
    ensures ViewOk(c, v.(ticks := ticks)) && RecordsIn(c, v.(ticks := ticks)) == RecordsIn(c, v)
  {
  }

  /** The view once the open segment is closed. */
  function Finished<R>(c: Setup<R>, v: View<R>): View<R>
    requires v.files != [] && v.paths != []
  {
    var mark := EndMark(c.format, Reading(c.clock, v.ticks), v.paths[|v.paths| - 1]);
    v.(files := Extended(v.files, mark), size := v.size + BytesOf(c.format, mark), open := false, ticks := v.ticks + 1)
  }

  lemma ViewFinish<R(!new)>(c: Setup<R>, v: View<R>)
    requires ViewOk(c, v) && v.open
    ensures ViewOk(c, Finished(c, v)) && RecordsIn(c, Finished(c, v)) == RecordsIn(c, v)
  {
    CloseKeeps(c.format, c.maxBytes, v.files, EndMark(c.format, Reading(c.clock, v.ticks), v.paths[|v.paths| - 1]));
  }

  /** The view once a segment dated by reading `at` is open and holds one record. */
  function Started<R>(c: Setup<R>, v: View<R>, at: nat, record: R): View<R> {
    var date := DateOf(Reading(c.clock, at));
    var path := NameOf(c.name, date, |v.files|);
    var mark := StartMark(c.format, Reading(c.clock, v.ticks), path);
    View(v.files + [[mark, record]], true, BytesOf(c.format, mark) + BytesOf(c.format, record), date,
         v.paths + [path], v.dated + [at], v.ticks + 1)
  }

  lemma ViewStart<R(!new)>(c: Setup<R>, v: View<R>, at: nat, record: R)
    requires ViewOk(c, v) && !v.open && at < v.ticks && (v.dated != [] ==> v.dated[|v.dated| - 1] < at)
    ensures ViewOk(c, Started(c, v, at, record)) && RecordsIn(c, Started(c, v, at, record)) == RecordsIn(c, v) + [record]
  {
    var path := NameOf(c.name, DateOf(Reading(c.clock, at)), |v.files|);
    var mark := StartMark(c.format, Reading(c.clock, v.ticks), path);
    OpenKeeps(c.format, c.maxBytes, v.files, mark, record);
    TwoLines(c.format, mark, record);
    CreateKeepsNames(c.name, c.clock, v.paths, v.dated, v.ticks, path, at);
  }

  /** The view once the open segment holds one more record. */
  function Added<R>(c: Setup<R>, v: View<R>, record: R): View<R>
    requires v.files != []
  {
    v.(files := Extended(v.files, record), size := v.size + BytesOf(c.format, record))
  }

  lemma ViewAdd<R(!new)>(c: Setup<R>, v: View<R>, record: R, w: View<R>)
    requires ViewOk(c, v) && v.open && v.size + MeasureOf(c.format, record) <= c.maxBytes
    requires w == v.(files := Extended(v.files, record), size := v.size + BytesOf(c.format, record))
    ensures ViewOk(c, w) && RecordsIn(c, w) == RecordsIn(c, v) + [record]
  {
    var last := v.files[|v.files| - 1];
    assert w.files[|w.files| - 1] == last + [record] && |last + [record]| == |last| + 1;
    AddKeeps(c.format, c.maxBytes, v.files, record);
    LineAdds(c.format, last, record);
  }

  /** An open segment exists, under a name. */
  predicate Shape<R>(v: View<R>) { |v.files| == |v.paths| && (v.open ==> v.files != []) }

  /** Closing, if there is anything to close. */
  function Shut<R>(c: Setup<R>, v: View<R>): View<R>
    requires Shape(v)
  {
    if v.open then Finished(c, v) else v
  }

  /** A new segment is due: none is open, the date changed, or the record might not fit. */
  predicate Rotates<R>(c: Setup<R>, v: View<R>, stamp: string, record: R) {
    !v.open || DateOf(stamp) != v.date || v.size + MeasureOf(c.format, record) > c.maxBytes
  }

  /** The view after one append. */
  function Appended<R>(c: Setup<R>, v: View<R>, record: R): View<R>
    requires Shape(v)
  {
    var read := v.(ticks := v.ticks + 1);
    if Rotates(c, v, Reading(c.clock, v.ticks), record) then Started(c, Shut(c, read), v.ticks, record) else Added(c, read, record)
  }

  lemma ShutKeeps<R(!new)>(c: Setup<R>, v: View<R>)
    requires ViewOk(c, v)
    ensures var w := Shut(c, v); ViewOk(c, w) && !w.open && w.dated == v.dated && w.ticks >= v.ticks && RecordsIn(c, w) == RecordsIn(c, v)
  {
    if v.open { ViewFinish(c, v); }
  }

  ghost predicate Gains<R(!new)>(c: Setup<R>, v: View<R>, record: R, w: View<R>)
    requires ViewOk(c, v)
  {
    ViewOk(c, w) && w.open && RecordsIn(c, w) == RecordsIn(c, v) + [record]
  }

  lemma RotationKeeps<R(!new)>(c: Setup<R>, v: View<R>, read: View<R>, record: R)
    requires ViewOk(c, v) && read == v.(ticks := v.ticks + 1)
    ensures Gains(c, v, record, Started(c, Shut(c, read), v.ticks, record))
  {
    ViewTicks(c, v, v.ticks + 1);
    ShutKeeps(c, read);
    ViewStart(c, Shut(c, read), v.ticks, record);
  }

  lemma AdditionKeeps<R(!new)>(c: Setup<R>, v: View<R>, read: View<R>, record: R)
    requires ViewOk(c, v) && v.open && v.size + MeasureOf(c.format, record) <= c.maxBytes && read == v.(ticks := v.ticks + 1)
    ensures Gains(c, v, record, Added(c, read, record))
  {
    ViewTicks(c, v, v.ticks + 1);
    var w := Added(c, read, record);
    ViewAdd(c, read, record, w);
  }

  /** Appending keeps the log well formed and adds exactly this record at its end. */
  lemma AppendKeeps<R(!new)>(c: Setup<R>, v: View<R>, record: R)
    requires ViewOk(c, v)
    ensures Gains(c, v, record, Appended(c, v, record))
  {
    var read := v.(ticks := v.ticks + 1);
    if Rotates(c, v, Reading(c.clock, v.ticks), record) {
      RotationKeeps(c, v, read, record);
    } else {
      AdditionKeeps(c, v, read, record);
    }
  }

  /******* Stamps *******/

  /** A marker stamped by a reading of the clock. */
  ghost predicate StampedStart<R>(c: Setup<R>, r: R) { exists k, path :: r == StartMark(c.format, Reading(c.clock, k), path) }

  ghost predicate StampedEnd<R>(c: Setup<R>, r: R) { exists k, path :: r == EndMark(c.format, Reading(c.clock, k), path) }

  ghost predicate StampedFrame<R>(c: Setup<R>, s: seq<R>) { |s| >= 2 && StampedStart(c, s[0]) && StampedEnd(c, s[|s| - 1]) }

  ghost predicate StampedTo<R>(c: Setup<R>, files: seq<seq<R>>, n: nat)
    requires n <= |files|
  {
    n == 0 || (StampedTo(c, files, n - 1) && StampedFrame(c, files[n - 1]))
  }

  /** Every line that frames a segment is such a marker. */
  ghost predicate Stamped<R>(c: Setup<R>, v: View<R>) {
    if !v.open then StampedTo(c, v.files, |v.files|)
    else && v.files != [] && StampedTo(c, v.files, |v.files| - 1)
         && var last := v.files[|v.files| - 1]; last != [] && StampedStart(c, last[0])
  }

  lemma StampedTicks<R>(c: Setup<R>, v: View<R>, w: View<R>)
    requires Stamped(c, v) && w == v.(ticks := w.ticks)
    ensures Stamped(c, w)
  {
  }

  lemma {:induction false} StampedPrefix<R>(c: Setup<R>, a: seq<seq<R>>, b: seq<seq<R>>, n: nat)
    requires n <= |a| && n <= |b| && (forall i :: 0 <= i < n ==> a[i] == b[i]) && StampedTo(c, a, n)
    ensures StampedTo(c, b, n)
  {
    if n > 0 { StampedPrefix(c, a, b, n - 1); }
  }

  lemma ShutStamps<R>(c: Setup<R>, v: View<R>)
    requires Shape(v) && Stamped(c, v)
    ensures Stamped(c, Shut(c, v)) && !Shut(c, v).open
  {
    if v.open {
      var mark := EndMark(c.format, Reading(c.clock, v.ticks), v.paths[|v.paths| - 1]);
      assert StampedEnd(c, mark);
      StampedPrefix(c, v.files, Extended(v.files, mark), |v.files| - 1);
      assert StampedFrame(c, Extended(v.files, mark)[|v.files| - 1]);
    }
  }

  lemma StartStamps<R>(c: Setup<R>, v: View<R>, at: nat, record: R)
    requires Stamped(c, v) && !v.open
    ensures Stamped(c, Started(c, v, at, record))
  {
    var w := Started(c, v, at, record);
    var mark := StartMark(c.format, Reading(c.clock, v.ticks), NameOf(c.name, DateOf(Reading(c.clock, at)), |v.files|));
    assert StampedStart(c, mark) && w.files[|v.files|] == [mark, record];
    StampedPrefix(c, v.files, w.files, |v.files|);
  }

  lemma AddStamps<R>(c: Setup<R>, v: View<R>, record: R)
    requires Stamped(c, v) && v.open
    ensures Stamped(c, Added(c, v, record))
  {
    StampedPrefix(c, v.files, Extended(v.files, record), |v.files| - 1);
  }

  /** Appending stamps every marker it writes by the clock. */
  lemma AppendStamps<R>(c: Setup<R>, v: View<R>, record: R)
    requires Shape(v) && Stamped(c, v)
    ensures Stamped(c, Appended(c, v, record))
  {
    var read := v.(ticks := v.ticks + 1);
    assert Stamped(c, read);
    if Rotates(c, v, Reading(c.clock, v.ticks), record) {
      ShutStamps(c, read);
      StartStamps(c, Shut(c, read), v.ticks, record);
    } else {
      AddStamps(c, read, record);
    }
  }

  /******* Whole runs *******/

  /** What the writer does in turn: reads the clock for a stamp, appends a record, closes. */
  datatype Action<R> = ReadStamp | Add(record: R) | Close

  function Act<R>(c: Setup<R>, v: View<R>, a: Action<R>): View<R>
    requires Shape(v)
  {
    match a
    case ReadStamp => v.(ticks := v.ticks + 1)
    case Add(record) => Appended(c, v, record)
    case Close => Shut(c, v)
  }

  lemma ActKeepsShape<R>(c: Setup<R>, v: View<R>, a: Action<R>)
    requires Shape(v)
    ensures Shape(Act(c, v, a))
  {
  }

  function Empty<R>(): View<R> { View([], false, 0, "", [], [], 0) }

  /** The view after the first n actions. */
  function After<R>(c: Setup<R>, actions: seq<Action<R>>, n: nat): (v: View<R>)
    requires n <= |actions|
    ensures Shape(v)
  {
    if n == 0 then Empty() else ActKeepsShape(c, After(c, actions, n - 1), actions[n - 1]); Act(c, After(c, actions, n - 1), actions[n - 1])
  }

  lemma {:induction false} AfterPrefix<R>(c: Setup<R>, actions: seq<Action<R>>, more: seq<Action<R>>, n: nat)
    requires n <= |actions|
    ensures After(c, actions + more, n) == After(c, actions, n)
  {
    if n > 0 { AfterPrefix(c, actions, more, n - 1); }
  }

  /** The view after a whole run. */
  function End<R>(c: Setup<R>, actions: seq<Action<R>>): (v: View<R>)
    ensures Shape(v)
  {
    After(c, actions, |actions|)
  }

  lemma OneMore<R>(c: Setup<R>, actions: seq<Action<R>>, a: Action<R>)
    ensures End(c, actions + [a]) == Act(c, End(c, actions), a)
  {
    AfterPrefix(c, actions, [a], |actions|);
  }

  lemma EmptyIsOk<R(!new)>(c: Setup<R>)
    requires FormatOk(c.format)
    ensures ViewOk(c, Empty<R>()) && RecordsIn(c, Empty<R>()) == []
  {
  }

  lemma ActKeepsView<R(!new)>(c: Setup<R>, v: View<R>, a: Action<R>)
    requires ViewOk(c, v)
    ensures ViewOk(c, Act(c, v, a))
  {
    match a
    case ReadStamp => ViewTicks(c, v, v.ticks + 1);
    case Add(record) => AppendKeeps(c, v, record);
    case Close => ShutKeeps(c, v);
  }

  lemma {:induction false} RunIsOk<R(!new)>(c: Setup<R>, actions: seq<Action<R>>, n: nat)
    requires FormatOk(c.format) && n <= |actions|
    ensures ViewOk(c, After(c, actions, n))
  {
    if n == 0 {
      EmptyIsOk(c);
    } else {
      RunIsOk(c, actions, n - 1);
      ActKeepsView(c, After(c, actions, n - 1), actions[n - 1]);
    }
  }

  predicate Sized<R>(v: View<R>) { |v.files| == |v.paths| == |v.dated| && (v.open ==> v.files != []) }

  /** Segments stay in place under their names, and lines are only added at their ends. */
  ghost predicate Extends<R>(v: View<R>, w: View<R>)
    requires Sized(v) && Sized(w)
  {
    |v.files| <= |w.files| && forall i :: 0 <= i < |v.files| ==> ExtendsAt(v, w, i)
  }

  ghost predicate ExtendsAt<R>(v: View<R>, w: View<R>, i: nat)
    requires Sized(v) && Sized(w) && i < |v.files| <= |w.files|
  {
    v.files[i] <= w.files[i] && w.paths[i] == v.paths[i] && w.dated[i] == v.dated[i]
  }

  lemma ExtendsInTwoParts<R>(u: View<R>, v: View<R>, w: View<R>)
    requires Sized(u) && Sized(v) && Sized(w) && Extends(u, v) && Extends(v, w)
    ensures Extends(u, w)
  {
    forall i | 0 <= i < |u.files| ensures ExtendsAt(u, w, i) { assert ExtendsAt(u, v, i) && ExtendsAt(v, w, i); }
  }

  lemma LineExtends<R>(v: View<R>, w: View<R>, line: R)
    requires Sized(v) && v.files != [] && w.files == Extended(v.files, line) && w.paths == v.paths && w.dated == v.dated
    ensures Sized(w) && Extends(v, w)
  {
    forall i | 0 <= i < |v.files| ensures ExtendsAt(v, w, i) { }
  }

  lemma ShutExtends<R>(c: Setup<R>, v: View<R>)
    requires Sized(v)
    ensures Sized(Shut(c, v)) && Extends(v, Shut(c, v))
  {
    if v.open {
      LineExtends(v, Finished(c, v), EndMark(c.format, Reading(c.clock, v.ticks), v.paths[|v.paths| - 1]));
    } else {
      forall i | 0 <= i < |v.files| ensures ExtendsAt(v, v, i) { }
    }
  }

  lemma StartExtends<R>(c: Setup<R>, v: View<R>, at: nat, record: R)
    requires Sized(v)
    ensures Sized(Started(c, v, at, record)) && Extends(v, Started(c, v, at, record))
  {
    var w := Started(c, v, at, record);
    forall i | 0 <= i < |v.files| ensures ExtendsAt(v, w, i) { }
  }

  lemma AppendExtends<R>(c: Setup<R>, v: View<R>, read: View<R>, record: R)
    requires Sized(v) && read == v.(ticks := v.ticks + 1)
    ensures Sized(Appended(c, v, record)) && Extends(read, Appended(c, v, record))
  {
    if Rotates(c, v, Reading(c.clock, v.ticks), record) {
      ShutExtends(c, read);
      StartExtends(c, Shut(c, read), v.ticks, record);
      ExtendsInTwoParts(read, Shut(c, read), Appended(c, v, record));
    } else {
      LineExtends(read, Added(c, read, record), record);
    }
  }

  lemma ActExtends<R>(c: Setup<R>, v: View<R>, a: Action<R>)
    requires Sized(v)
    ensures Sized(Act(c, v, a)) && Extends(v, Act(c, v, a))
  {
    var read := v.(ticks := v.ticks + 1);
    forall i | 0 <= i < |v.files| ensures ExtendsAt(v, v, i) && ExtendsAt(v, read, i) { }
    match a
    case ReadStamp =>
    case Add(record) =>
      AppendExtends(c, v, read, record);
      ExtendsInTwoParts(v, read, Appended(c, v, record));
    case Close => ShutExtends(c, v);
  }

  lemma {:induction false} RunIsSized<R>(c: Setup<R>, actions: seq<Action<R>>, n: nat)
    requires n <= |actions|
    ensures Sized(After(c, actions, n))
  {
    if n > 0 {
      RunIsSized(c, actions, n - 1);
      ActExtends(c, After(c, actions, n - 1), actions[n - 1]);
    }
  }

  lemma {:induction false} RunExtends<R>(c: Setup<R>, actions: seq<Action<R>>, i: nat, n: nat)
    requires i <= n <= |actions|
    ensures Sized(After(c, actions, i)) && Sized(After(c, actions, n)) && Extends(After(c, actions, i), After(c, actions, n))
  {
    RunIsSized(c, actions, i);
    if i == n {
      var v := After(c, actions, i);
      forall k | 0 <= k < |v.files| ensures ExtendsAt(v, v, k) { }
    } else {
      RunExtends(c, actions, i, n - 1);
      RunIsSized(c, actions, n);
      ActExtends(c, After(c, actions, n - 1), actions[n - 1]);
      ExtendsInTwoParts(After(c, actions, i), After(c, actions, n - 1), After(c, actions, n));
    }
  }

  /** The record is the last line of the last segment, whose date is the one read at `tick`. */
  ghost predicate LastIsDated<R>(c: Setup<R>, w: View<R>, record: R, tick: nat) {
    var s := |w.files| - 1;
    && s >= 0 && |w.paths| == |w.files| && w.files[s] != [] && w.files[s][|w.files[s]| - 1] == record
    && w.paths[s] == NameOf(c.name, DateOf(Reading(c.clock, tick)), s)
  }

  lemma AppendIsDated<R(!new)>(c: Setup<R>, v: View<R>, record: R)
    requires ViewOk(c, v)
    ensures LastIsDated(c, Appended(c, v, record), record, v.ticks)
  {
    AppendKeeps(c, v, record);
    var w := Appended(c, v, record);
    NamesAt(c.name, c.clock, w.paths, w.dated, |w.paths|, |w.paths| - 1);
  }

  /** A segment is opened only by the first record, for a new date, or for a record that might not fit. */
  lemma SegmentOpensForAReason<R(!new)>(c: Setup<R>, v: View<R>, record: R)
    requires ViewOk(c, v)
    ensures |Appended(c, v, record).files| > |v.files| <==>
              || !v.open
              || DateOf(Reading(c.clock, v.ticks)) != DateOf(Reading(c.clock, v.dated[|v.files| - 1]))
              || var last := v.files[|v.files| - 1]; LineBytes(c.format, last, |last|) + MeasureOf(c.format, record) > c.maxBytes
  {
  }

  /** Line k of segment s is the record that action i appends, and the segment is named by the date that append read. */
  ghost predicate FiledByDate<R>(c: Setup<R>, actions: seq<Action<R>>, i: nat, v: View<R>, s: nat, k: nat)
    requires i < |actions|
  {
    && actions[i].Add? && s < |v.files| == |v.paths| && k < |v.files[s]| && v.files[s][k] == actions[i].record
    && v.paths[s] == NameOf(c.name, DateOf(Reading(c.clock, After(c, actions, i).ticks)), s)
  }

  lemma StaysFiled<R>(c: Setup<R>, w: View<R>, v: View<R>, record: R, tick: nat) returns (s: nat, k: nat)
    requires Sized(w) && Sized(v) && Extends(w, v) && LastIsDated(c, w, record, tick)
    ensures s < |v.files| == |v.paths| && k < |v.files[s]| && v.files[s][k] == record
    ensures v.paths[s] == NameOf(c.name, DateOf(Reading(c.clock, tick)), s)
  {
    s := |w.files| - 1;
    k := |w.files[s]| - 1;
    assert ExtendsAt(w, v, s);
  }

  /** However the run goes on, every record lies in a segment named by the date read when it was appended. */
  lemma RecordsAreFiledByDate<R(!new)>(c: Setup<R>, actions: seq<Action<R>>, i: nat, n: nat) returns (s: nat, k: nat)
    requires FormatOk(c.format) && i < n <= |actions| && actions[i].Add?
    ensures FiledByDate(c, actions, i, After(c, actions, n), s, k)
  {
    RunIsOk(c, actions, i);
    AppendIsDated(c, After(c, actions, i), actions[i].record);
    RunExtends(c, actions, i + 1, n);
    s, k := StaysFiled(c, After(c, actions, i + 1), After(c, actions, n), actions[i].record, After(c, actions, i).ticks);
  }

  class Writer<R(!new)> {
    const setup: Setup<R>
    /** Clock readings so far. */
    var ticks: nat
    var locked: bool
    /** The content of the segments on disk, in the order they were created. */
    var files: seq<seq<R>>
    var open: bool
    var size: nat
    var date: string
    var segmentCount: nat
    var paths: seq<string>
    ghost var dated: seq<nat>

    ghost function Now(): View<R>
      reads this
    {
      View(files, open, size, date, paths, dated, ticks)
    }

    ghost predicate Sound()
      reads this
    {
      Shape(Now()) && segmentCount == |files|
    }

    constructor (setup: Setup<R>)
      ensures this.setup == setup && Sound() && !locked && Now() == View([], false, 0, "", [], [], 0)
    {
      this.setup := setup;
      ticks, locked, files, open, size, date, segmentCount, paths, dated := 0, false, [], false, 0, "", 0, [], [];
    }

    method ReadClock() returns (stamp: string)
      modifies this`ticks
      ensures stamp == Reading(setup.clock, old(ticks)) && ticks == old(ticks) + 1
    {
      stamp := Reading(setup.clock, ticks);
      ticks := ticks + 1;
    }

    /** `_finish_segment` */
    method FinishSegment()
      requires Sound()
      modifies this`ticks, this`files, this`size, this`open
      ensures Sound() && Now() == Shut(setup, old(Now()))
    {
      if !open { return; }
      var stamp := ReadClock();
      var mark := EndMark(setup.format, stamp, paths[|paths| - 1]);
      files := Extended(files, mark);
      size := size + BytesOf(setup.format, mark);
      open := false;
    }

    /** The rotation in `append`: opens the next segment with its start marker and the record. */
    method StartSegment(stamp: string, ghost at: nat, record: R)
      requires Sound() && !open && stamp == Reading(setup.clock, at)
      modifies this`ticks, this`files, this`size, this`open, this`date, this`paths, this`dated, this`segmentCount
      ensures Sound() && Now() == Started(setup, old(Now()), at, record)
    {
      date := DateOf(stamp);
      var path := NameOf(setup.name, date, segmentCount);
      segmentCount := segmentCount + 1;
      paths, dated := paths + [path], dated + [at];
      var started := ReadClock();
      var mark := StartMark(setup.format, started, path);
      files := files + [[mark, record]];
      size := BytesOf(setup.format, mark) + BytesOf(setup.format, record);
      open := true;
    }

    /** `append`; only the owner of the lock may call it. */
    method Append(record: R) returns (ok: bool)
      requires Sound()
      modifies this`ticks, this`files, this`size, this`open, this`date, this`paths, this`dated, this`segmentCount
      ensures Sound() && ok == locked && Now() == if ok then Appended(setup, old(Now()), record) else old(Now())
    {
      if !locked { return false; }
      ghost var at := ticks;
      var stamp := ReadClock();
      if !open || DateOf(stamp) != date || size + MeasureOf(setup.format, record) > setup.maxBytes {
        FinishSegment();
        StartSegment(stamp, at, record);
      } else {
        files := Extended(files, record);
        size := size + BytesOf(setup.format, record);
      }
      return true;
    }
  }

  /******* Reading back *******/

  /** Every line of the first n segments, in order. */
  function AllLines<R>(files: seq<seq<R>>, n: nat): seq<R>
    requires n <= |files|
  {
    if n == 0 then [] else AllLines(files, n - 1) + files[n - 1]
  }

  predicate IsMark<R>(f: Format<R>, r: R) { Starts(f, r) || Ends(f, r) }

  /** The first n lines without those that mark the start or the end of a segment. */
  function DropTo<R>(f: Format<R>, lines: seq<R>, n: nat): seq<R>
    requires n <= |lines|
  {
    if n == 0 then [] else if IsMark(f, lines[n - 1]) then DropTo(f, lines, n - 1) else DropTo(f, lines, n - 1) + [lines[n - 1]]
  }

  function DropMarks<R>(f: Format<R>, lines: seq<R>): seq<R> { DropTo(f, lines, |lines|) }

  lemma {:induction false} DropOfPrefix<R>(f: Format<R>, a: seq<R>, all: seq<R>, n: nat)
    requires n <= |a| <= |all| && forall i :: 0 <= i < n ==> all[i] == a[i]
    ensures DropTo(f, all, n) == DropTo(f, a, n)
  {
    if n > 0 { DropOfPrefix(f, a, all, n - 1); }
  }

  lemma {:induction false} DropOfSuffix<R>(f: Format<R>, a: seq<R>, b: seq<R>, all: seq<R>, n: nat)
    requires n <= |b| && |all| == |a| + |b| && (forall i :: 0 <= i < |a| ==> all[i] == a[i]) && forall i :: 0 <= i < |b| ==> all[|a| + i] == b[i]
    ensures DropTo(f, all, |a| + n) == DropTo(f, a, |a|) + DropTo(f, b, n)
  {
    if n == 0 {
      DropOfPrefix(f, a, all, |a|);
    } else {
      DropOfSuffix(f, a, b, all, n - 1);
      assert all[|a| + (n - 1)] == b[n - 1];
    }
  }

  lemma DropInTwoParts<R>(f: Format<R>, a: seq<R>, b: seq<R>)
    ensures DropMarks(f, a + b) == DropMarks(f, a) + DropMarks(f, b)
  {
    DropOfSuffix(f, a, b, a + b, |b|);
  }

  lemma DropOne<R>(f: Format<R>, r: R)
    ensures DropMarks(f, [r]) == if IsMark(f, r) then [] else [r]
  {
    assert DropTo(f, [r], 0) == [];
  }

  lemma DropFrame<R>(f: Format<R>, maxBytes: nat, s: seq<R>)
    requires ClosedOk(f, maxBytes, s)
    ensures DropMarks(f, s) == DropMarks(f, Body(s))
  {
    var first, last := s[0], s[|s| - 1];
    assert s == ([first] + Body(s)) + [last];
    DropInTwoParts(f, [first] + Body(s), [last]);
    DropInTwoParts(f, [first], Body(s));
    DropOne(f, first);
    DropOne(f, last);
  }

  /** Dropping the markers from a closed log leaves what dropping them from the records would leave. */
  lemma {:induction false} DropMarksOfLog<R>(f: Format<R>, maxBytes: nat, files: seq<seq<R>>, n: nat)
    requires n <= |files| && AllClosed(f, maxBytes, files, n)
    ensures DropMarks(f, AllLines(files, n)) == DropMarks(f, Payload(files, n))
  {
    if n > 0 {
      DropMarksOfLog(f, maxBytes, files, n - 1);
      DropFrame(f, maxBytes, files[n - 1]);
      DropInTwoParts(f, AllLines(files, n - 1), files[n - 1]);
      DropInTwoParts(f, Payload(files, n - 1), Body(files[n - 1]));
    }
  }

  predicate UnmarkedTo<R>(f: Format<R>, lines: seq<R>, n: nat)
    requires n <= |lines|
  {
    n == 0 || (UnmarkedTo(f, lines, n - 1) && !IsMark(f, lines[n - 1]))
  }

  lemma {:induction false} DropCount<R>(f: Format<R>, lines: seq<R>, n: nat)
    requires n <= |lines|
    ensures |DropTo(f, lines, n)| <= n && (UnmarkedTo(f, lines, n) <==> |DropTo(f, lines, n)| == n)
  {
    if n > 0 { DropCount(f, lines, n - 1); }
  }

  lemma {:induction false} DropKeeps<R>(f: Format<R>, lines: seq<R>, n: nat)
    requires n <= |lines| && UnmarkedTo(f, lines, n)
    ensures DropTo(f, lines, n) == lines[..n]
  {
    if n > 0 {
      DropKeeps(f, lines, n - 1);
      assert lines[..n] == lines[..n - 1] + [lines[n - 1]];
    }
  }

  lemma DropNothing<R>(f: Format<R>, lines: seq<R>)
    ensures DropMarks(f, lines) == lines <==> UnmarkedTo(f, lines, |lines|)
  {
    DropCount(f, lines, |lines|);
    if UnmarkedTo(f, lines, |lines|) {
      DropKeeps(f, lines, |lines|);
      assert lines[..|lines|] == lines;
    }
  }

  predicate Unmarked<R>(f: Format<R>, lines: seq<R>) { forall i :: 0 <= i < |lines| ==> !IsMark(f, lines[i]) }

  lemma {:induction false} UnmarkedMeans<R>(f: Format<R>, lines: seq<R>, n: nat)
    requires n <= |lines|
    ensures UnmarkedTo(f, lines, n) <==> forall i :: 0 <= i < n ==> !IsMark(f, lines[i])
  {
    if n > 0 { UnmarkedMeans(f, lines, n - 1); }
  }

  lemma UnmarkedBetween<R>(f: Format<R>, first: R, records: seq<R>, last: R)
    requires !IsMark(f, first) && !IsMark(f, last)
    ensures Unmarked(f, [first] + records + [last]) <==> Unmarked(f, records)
  {
    var all := [first] + records + [last];
    assert forall i :: 0 <= i < |records| ==> records[i] == all[i + 1];
    assert all[0] == first && all[|all| - 1] == last;
  }

  /** Reading a closed log back and dropping the segment markers gives the records, exactly if none looks like one. */
  lemma FramedReadBack<R>(f: Format<R>, maxBytes: nat, files: seq<seq<R>>, first: R, records: seq<R>, last: R)
    requires AllClosed(f, maxBytes, files, |files|) && Payload(files, |files|) == [first] + records + [last]
    requires !IsMark(f, first) && !IsMark(f, last)
    ensures DropMarks(f, AllLines(files, |files|)) == [first] + records + [last] <==> Unmarked(f, records)
  {
    var all := [first] + records + [last];
    DropMarksOfLog(f, maxBytes, files, |files|);
    DropNothing(f, all);
    UnmarkedMeans(f, all, |all|);
    UnmarkedBetween(f, first, records, last);
  }

  predicate Good<R>(good: R -> bool, r: R) { good(r) }

  predicate AllGood<R>(good: R -> bool, lines: seq<R>) { forall i :: 0 <= i < |lines| ==> Good(good, lines[i]) }

  lemma GoodInTwoParts<R>(good: R -> bool, a: seq<R>, b: seq<R>)
    ensures AllGood(good, a + b) <==> AllGood(good, a) && AllGood(good, b)
  {
    var all := a + b;
    assert forall i :: 0 <= i < |a| ==> all[i] == a[i];
    assert forall i :: 0 <= i < |b| ==> all[|a| + i] == b[i];
  }

  lemma GoodFrame<R>(good: R -> bool, s: seq<R>)
    requires |s| >= 2 && Good(good, s[0]) && Good(good, s[|s| - 1])
    ensures AllGood(good, s) <==> AllGood(good, Body(s))
  {
    assert s == ([s[0]] + Body(s)) + [s[|s| - 1]];
    GoodInTwoParts(good, [s[0]] + Body(s), [s[|s| - 1]]);
    GoodInTwoParts(good, [s[0]], Body(s));
  }

  /** When the markers the clock stamps are good, the lines of a closed log are good exactly if its records are. */
  lemma {:induction false} GoodLines<R>(c: Setup<R>, good: R -> bool, files: seq<seq<R>>, n: nat)
    requires n <= |files| && StampedTo(c, files, n)
    requires forall k, path :: Good(good, StartMark(c.format, Reading(c.clock, k), path))
    requires forall k, path :: Good(good, EndMark(c.format, Reading(c.clock, k), path))
    ensures AllGood(good, AllLines(files, n)) <==> AllGood(good, Payload(files, n))
  {
    if n > 0 {
      GoodLines(c, good, files, n - 1);
      GoodFrame(good, files[n - 1]);
      GoodInTwoParts(good, AllLines(files, n - 1), files[n - 1]);
      GoodInTwoParts(good, Payload(files, n - 1), Body(files[n - 1]));
    }
  }

  /** Before its end marker, a closed segment of more than one record is within the limit. */
  lemma SegmentsAreBounded<R>(f: Format<R>, maxBytes: nat, files: seq<seq<R>>, i: nat)
    requires AllClosed(f, maxBytes, files, |files|) && i < |files|
    ensures var s := files[i];
            && |s| >= 3 && Starts(f, s[0]) && Ends(f, s[|s| - 1])
            && (|s| > 3 ==> LineBytes(f, s, |s| - 1) <= maxBytes)
  {
    ClosedAt(f, maxBytes, files, |files|, i);
  }
}
