/**
The raw capture session: JSON records in a segment log, a start and a stop marker around
them, and the reader that accepts only complete envelopes.
*/
module RawWriter {
  import opened Wrappers
  import opened JsonSize
  import Text
  import opened SegmentNames
  import opened SegmentLog

  const MIN_SEGMENT_BYTES: nat := 1024

  /** `_control` */
  function Control(event: string, stamp: string, extra: seq<Field>): Json {
    Object([Field("schema_version", Number(1.0, 1)), Field("kind", Text("marker")), Field("event", Text(event)),
            Field("received_at_utc", Text(stamp))] + extra)
  }

  predicate Marks(r: Json, event: string) {
    r.Object? && Lookup(r.fields, "kind") == Some(Text("marker")) && Lookup(r.fields, "event") == Some(Text(event))
  }

  lemma ControlMarks(event: string, stamp: string, extra: seq<Field>)
    ensures Marks(Control(event, stamp, extra), event)
    ensures Lookup(Control(event, stamp, extra).fields, "received_at_utc") == Some(Text(stamp))
    ensures Lookup(Control(event, stamp, extra).fields, "schema_version") == Some(Number(1.0, 1))
  {
    var f0 := Control(event, stamp, extra).fields;
    var f1, f2, f3 := f0[1..], f0[2..], f0[3..];
    assert f0[1..] == f1 && f1[1..] == f2 && f2[1..] == f3;
    assert f0[0].name == "schema_version" && f1[0] == Field("kind", Text("marker"));
    assert f2[0] == Field("event", Text(event)) && f3[0] == Field("received_at_utc", Text(stamp));
    assert Lookup(f2, "event") == Some(Text(event)) && Lookup(f1, "event") == Lookup(f2, "event");
    assert Lookup(f3, "received_at_utc") == Some(Text(stamp)) && Lookup(f2, "received_at_utc") == Lookup(f3, "received_at_utc");
    assert Lookup(f1, "received_at_utc") == Lookup(f2, "received_at_utc");
  }

  /** Beyond those four, a control record holds what it was given. */
  lemma ControlHolds(event: string, stamp: string, extra: seq<Field>, name: string)
    requires name !in ["schema_version", "kind", "event", "received_at_utc"]
    ensures Lookup(Control(event, stamp, extra).fields, name) == Lookup(extra, name)
  {
    var f0 := Control(event, stamp, extra).fields;
    var f1, f2, f3, f4 := f0[1..], f0[2..], f0[3..], f0[4..];
    assert f0[1..] == f1 && f1[1..] == f2 && f2[1..] == f3 && f3[1..] == f4 == extra;
    assert f0[0].name == "schema_version" && f1[0].name == "kind" && f2[0].name == "event" && f3[0].name == "received_at_utc";
    assert Lookup(f3, name) == Lookup(f4, name) && Lookup(f2, name) == Lookup(f3, name);
    assert Lookup(f1, name) == Lookup(f2, name) && Lookup(f0, name) == Lookup(f1, name);
  }

  /** Lines are written compactly but budgeted with spaced separators. */
  function JsonFormat(enc: Encoding): Format<Json> {
    Format((r: Json) => Bytes(enc, r, COMPACT) + 1, (r: Json) => Bytes(enc, r, SPACED) + 1,
           (r: Json) => Marks(r, "segment_start"), (r: Json) => Marks(r, "segment_end"),
           (stamp: string, path: string) => Control("segment_start", stamp, [Field("segment", Text(path))]),
           (stamp: string, path: string) => Control("segment_end", stamp, [Field("segment", Text(path))]))
  }

  lemma JsonFormatOk(enc: Encoding)
    ensures FormatOk(JsonFormat(enc))
  {
    var f := JsonFormat(enc);
    forall r ensures BytesOf(f, r) <= MeasureOf(f, r) { WrittenWithinMeasured(enc, r); }
    forall stamp, path ensures Starts(f, StartMark(f, stamp, path)) { ControlMarks("segment_start", stamp, [Field("segment", Text(path))]); }
    forall stamp, path ensures Ends(f, EndMark(f, stamp, path)) { ControlMarks("segment_end", stamp, [Field("segment", Text(path))]); }
  }

  function SetupFor(enc: Encoding, maxBytes: nat, session: string, clock: Clock): Setup<Json> {
    Setup(JsonFormat(enc), maxBytes, (date: string, n: nat) => Name(date, session, n), clock)
  }

  /******* A session *******/

  /** The log holds exactly these records, in this order, between markers the clock stamped. */
  ghost predicate Holds(c: Setup<Json>, v: View<Json>, records: seq<Json>) {
    ViewOk(c, v) && RecordsIn(c, v) == records && Stamped(c, v)
  }

  /** A control record for this event, stamped by a reading of the clock. */
  ghost predicate ControlBy(clock: Clock, event: string, r: Json) { exists k, extra :: r == Control(event, Reading(clock, k), extra) }

  /** The writer has done exactly these actions. */
  ghost predicate Did(w: Writer<Json>, run: seq<Action<Json>>)
    reads w
  {
    w.Sound() && w.Now() == End(w.setup, run)
  }

  /** It did, owns the lock, and holds these records. */
  ghost predicate Ready(w: Writer<Json>, run: seq<Action<Json>>, held: seq<Json>)
    reads w
  {
    Did(w, run) && w.locked && Holds(w.setup, w.Now(), held)
  }

  method Put(w: Writer<Json>, record: Json, ghost held: seq<Json>, ghost run: seq<Action<Json>>)
    requires Ready(w, run, held)
    modifies w
    ensures Ready(w, run + [Add(record)], held + [record])
  {
    AppendKeeps(w.setup, w.Now(), record);
    AppendStamps(w.setup, w.Now(), record);
    OneMore(w.setup, run, Add(record));
    var ok := w.Append(record);
  }

  lemma StampKeeps(c: Setup<Json>, v: View<Json>, held: seq<Json>, run: seq<Action<Json>>)
    requires v == End(c, run) && Holds(c, v, held)
    ensures v.(ticks := v.ticks + 1) == End(c, run + [ReadStamp]) && Holds(c, v.(ticks := v.ticks + 1), held)
  {
    OneMore(c, run, ReadStamp);
    TicksKeep(c, v, held, v.(ticks := v.ticks + 1));
  }

  lemma TicksKeep(c: Setup<Json>, v: View<Json>, held: seq<Json>, w: View<Json>)
    requires Holds(c, v, held) && w == v.(ticks := w.ticks) && v.ticks <= w.ticks
    ensures Holds(c, w, held)
  {
    ViewTicks(c, v, w.ticks);
    StampedTicks(c, v, w);
  }

  lemma FreshHolds(enc: Encoding, c: Setup<Json>)
    requires c.format == JsonFormat(enc)
    ensures Holds(c, View([], false, 0, "", [], [], 0), []) && End(c, []) == View([], false, 0, "", [], [], 0)
  {
    JsonFormatOk(enc);
    EmptyIsOk(c);
  }

  method TakeStamp(w: Writer<Json>, ghost held: seq<Json>, ghost run: seq<Action<Json>>) returns (stamp: string)
    requires Ready(w, run, held)
    modifies w
    ensures stamp == Reading(w.setup.clock, End(w.setup, run).ticks) && Ready(w, run + [ReadStamp], held)
  {
    StampKeeps(w.setup, w.Now(), held, run);
    stamp := w.ReadClock();
  }

  /** `marker` */
  method PutMarker(w: Writer<Json>, event: string, extra: seq<Field>, ghost held: seq<Json>, ghost run: seq<Action<Json>>) returns (record: Json)
    requires Ready(w, run, held)
    modifies w
    ensures record == Control(event, Reading(w.setup.clock, End(w.setup, run).ticks), extra) && ControlBy(w.setup.clock, event, record)
    ensures Ready(w, run + [ReadStamp] + [Add(record)], held + [record])
  {
    var stamp := TakeStamp(w, held, run);
    record := Control(event, stamp, extra);
    Put(w, record, held, run + [ReadStamp]);
  }

  lemma PrefixGrows<T>(held: seq<T>, more: seq<T>, n: nat)
    requires n < |more|
    ensures held + more[..n] + [more[n]] == held + more[..n + 1]
  {
    assert more[..n + 1] == more[..n] + [more[n]];
  }

  lemma PrefixEnds<T>(held: seq<T>, more: seq<T>)
    ensures held + more[..0] == held && held + more[..|more|] == held + more
  {
    assert more[..|more|] == more;
  }

  lemma NothingBefore<T>(more: seq<T>)
    ensures [] + more == more
  {
  }

  function Adds(records: seq<Json>): (adds: seq<Action<Json>>)
    ensures |adds| == |records|
  {
    seq(|records|, i requires 0 <= i < |records| => Add(records[i]))
  }

  /** The first n records put, after what was held and done before. */
  ghost predicate PutTo(w: Writer<Json>, records: seq<Json>, n: nat, held: seq<Json>, run: seq<Action<Json>>)
    requires n <= |records|
    reads w
  {
    Ready(w, run + Adds(records)[..n], held + records[..n])
  }

  method PutNext(w: Writer<Json>, records: seq<Json>, n: nat, ghost held: seq<Json>, ghost run: seq<Action<Json>>)
    requires n < |records| && PutTo(w, records, n, held, run)
    modifies w
    ensures PutTo(w, records, n + 1, held, run)
  {
    Put(w, records[n], held + records[..n], run + Adds(records)[..n]);
    PrefixGrows(held, records, n);
    PrefixGrows(run, Adds(records), n);
  }

  method PutAll(w: Writer<Json>, records: seq<Json>, ghost held: seq<Json>, ghost run: seq<Action<Json>>)
    requires Ready(w, run, held)
    modifies w
    ensures Ready(w, run + Adds(records), held + records)
  {
    PrefixEnds(held, records);
    PrefixEnds(run, Adds(records));
    var n := 0;
    while n < |records|
      invariant 0 <= n <= |records| && PutTo(w, records, n, held, run)
    {
      PutNext(w, records, n, held, run);
      n := n + 1;
    }
  }

  const CLEAN: seq<Field> := [Field("clean", Bool(true)), Field("reason", Null)]

  datatype Session = Session(files: seq<seq<Json>>, paths: seq<string>, start: Json, stop: Json)

  /** Every segment is closed, framed and within its limit; their records are the session's, between its two markers. */
  ghost predicate SessionOk(c: Setup<Json>, s: Session, records: seq<Json>) {
    && AllClosed(c.format, c.maxBytes, s.files, |s.files|)
    && Payload(s.files, |s.files|) == [s.start] + records + [s.stop]
    && StampedTo(c, s.files, |s.files|) && ControlBy(c.clock, "start", s.start) && ControlBy(c.clock, "stop", s.stop)
  }

  /** A session's actions up to its last record. */
  function Opening(start: Json, records: seq<Json>): seq<Action<Json>> { [ReadStamp] + [Add(start)] + Adds(records) }

  function SessionRun(start: Json, records: seq<Json>, stop: Json): seq<Action<Json>> {
    Opening(start, records) + [ReadStamp] + [Add(stop)] + [Close]
  }

  /** The files are what these actions leave. */
  ghost predicate WrittenBy(c: Setup<Json>, s: Session, records: seq<Json>) {
    var v := End(c, SessionRun(s.start, records, s.stop));
    s.files == v.files && s.paths == v.paths
  }

  /** The first marker names the session, the last calls it clean. */
  predicate Closes(session: string, s: Session) {
    && s.start.Object? && Lookup(s.start.fields, "session_id") == Some(Text(session))
    && s.stop.Object? && Lookup(s.stop.fields, "clean") == Some(Bool(true))
  }

  method OpenSession(enc: Encoding, maxBytes: nat, session: string, clock: Clock) returns (w: Writer<Json>, start: Json)
    ensures fresh(w) && w.setup == SetupFor(enc, maxBytes, session, clock)
    ensures start.Object? && Lookup(start.fields, "session_id") == Some(Text(session))
    ensures ControlBy(clock, "start", start) && Ready(w, [ReadStamp] + [Add(start)], [start])
  {
    ghost var c := SetupFor(enc, maxBytes, session, clock);
    FreshHolds(enc, c);
    w := new Writer(SetupFor(enc, maxBytes, session, clock));
    w.locked := true;
    assert w.Now() == End(c, []);
    assert Ready(w, [], []);
    start := PutMarker(w, "start", [Field("session_id", Text(session))], [], []);
    ControlHolds("start", Reading(clock, End(c, []).ticks), [Field("session_id", Text(session))], "session_id");
    NothingBefore<Action<Json>>([ReadStamp]);
    NothingBefore([start]);
  }

  method PutStop(w: Writer<Json>, ghost held: seq<Json>, ghost run: seq<Action<Json>>) returns (stop: Json)
    requires Ready(w, run, held)
    modifies w
    ensures stop.Object? && Lookup(stop.fields, "clean") == Some(Bool(true)) && ControlBy(w.setup.clock, "stop", stop)
    ensures Ready(w, run + [ReadStamp] + [Add(stop)], held + [stop])
  {
    ControlHolds("stop", Reading(w.setup.clock, End(w.setup, run).ticks), CLEAN, "clean");
    stop := PutMarker(w, "stop", CLEAN, held, run);
  }

  /** Entering, appending every record and leaving without an error; refused for too small a limit. */
  method CleanSession(enc: Encoding, maxBytes: nat, session: string, clock: Clock, records: seq<Json>)
    returns (r: Option<Session>, ghost dated: seq<nat>, ghost ticks: nat)
    ensures r.Some? <==> maxBytes >= MIN_SEGMENT_BYTES
    ensures r.Some? ==> SessionOk(SetupFor(enc, maxBytes, session, clock), r.value, records)
    ensures r.Some? ==> WrittenBy(SetupFor(enc, maxBytes, session, clock), r.value, records) && Closes(session, r.value)
    ensures r.Some? ==> NamesOk(SetupFor(enc, maxBytes, session, clock).name, clock, r.value.paths, dated, ticks)
                        && |r.value.paths| == |r.value.files|
  {
    r, dated, ticks := None, [], 0;
    if maxBytes < MIN_SEGMENT_BYTES { return; }
    var w, start := OpenSession(enc, maxBytes, session, clock);
    PutAll(w, records, [start], [ReadStamp] + [Add(start)]);
    var stop := PutStop(w, [start] + records, Opening(start, records));
    CloseSession(w, [start] + records + [stop], Opening(start, records) + [ReadStamp] + [Add(stop)]);
    r, dated, ticks := Some(Session(w.files, w.paths, start, stop)), w.dated, w.ticks;
  }

  method CloseSession(w: Writer<Json>, ghost held: seq<Json>, ghost run: seq<Action<Json>>)
    requires Ready(w, run, held)
    modifies w
    ensures Did(w, run + [Close]) && !w.locked && !w.open && |w.paths| == |w.files|
    ensures AllClosed(w.setup.format, w.setup.maxBytes, w.files, |w.files|) && Payload(w.files, |w.files|) == held
    ensures StampedTo(w.setup, w.files, |w.files|)
    ensures NamesOk(w.setup.name, w.setup.clock, w.paths, w.dated, w.ticks)
  {
    ShutKeeps(w.setup, w.Now());
    ShutStamps(w.setup, w.Now());
    OneMore(w.setup, run, Close);
    w.FinishSegment();
    w.locked := false;
  }

  /** The clock reading at which record m of the session was appended. */
  ghost function AppendedAt(c: Setup<Json>, s: Session, records: seq<Json>, m: nat): nat
    requires m < |records|
  {
    After(c, SessionRun(s.start, records, s.stop), m + 2).ticks
  }

  /** Every record of a session lies in a file named by the date read when it was appended. */
  lemma SessionIsFiledByDate(enc: Encoding, maxBytes: nat, session: string, clock: Clock, s: Session, records: seq<Json>, m: nat)
    returns (seg: nat, line: nat)
    requires WrittenBy(SetupFor(enc, maxBytes, session, clock), s, records) && m < |records|
    ensures seg < |s.files| == |s.paths| && line < |s.files[seg]| && s.files[seg][line] == records[m]
    ensures var at := AppendedAt(SetupFor(enc, maxBytes, session, clock), s, records, m);
            s.paths[seg] == Name(DateOf(Reading(clock, at)), session, seg)
  {
    var c, run := SetupFor(enc, maxBytes, session, clock), SessionRun(s.start, records, s.stop);
    JsonFormatOk(enc);
    assert run[m + 2] == Add(records[m]);
    seg, line := RecordsAreFiledByDate(c, run, m + 2, |run|);
  }

  /******* Reading *******/

  /** `schema_version` compares equal to 1. */
  predicate IsOne(v: Json) { v == Bool(true) || (v.Number? && v.value == 1.0) }

  /** What the reader demands of a line. */
  predicate EnvelopeOk(stampOk: string -> bool, r: Json) {
    && r.Object? && (match Lookup(r.fields, "schema_version") case Some(v) => IsOne(v) case None => false)
    && (match Lookup(r.fields, "received_at_utc") case Some(Text(t)) => stampOk(t) case _ => false)
  }

  /** A line of a file: the value it parses to, if any, and whether a newline ends it. */
  datatype Line = Line(value: Option<Json>, ended: bool)

  predicate LineOk(stampOk: string -> bool, line: Line) { line.ended && line.value.Some? && EnvelopeOk(stampOk, line.value.value) }

  predicate LinesOk(stampOk: string -> bool, lines: seq<Line>) { forall i :: 0 <= i < |lines| ==> LineOk(stampOk, lines[i]) }

  function Values(stampOk: string -> bool, lines: seq<Line>): seq<Json>
    requires LinesOk(stampOk, lines)
  {
    seq(|lines|, i requires 0 <= i < |lines| => lines[i].value.value)
  }

  lemma LinesGrow(stampOk: string -> bool, lines: seq<Line>, n: nat)
    requires n < |lines| && LinesOk(stampOk, lines[..n]) && LineOk(stampOk, lines[n])
    ensures LinesOk(stampOk, lines[..n + 1]) && Values(stampOk, lines[..n + 1]) == Values(stampOk, lines[..n]) + [lines[n].value.value]
  {
    assert forall i :: 0 <= i < n ==> lines[..n + 1][i] == lines[..n][i];
  }

  /** The first n lines of everything, file by file: whole files, then the first lines of the next. */
  lemma {:induction false} LinesBeforeFile(files: seq<seq<Line>>, n: nat, m: nat)
    requires n <= m <= |files|
    ensures AllLines(files, n) <= AllLines(files, m)
  {
    if n < m { LinesBeforeFile(files, n, m - 1); }
  }

  lemma LineAt(files: seq<seq<Line>>, i: nat, j: nat)
    requires i < |files| && j < |files[i]|
    ensures var all, at := AllLines(files, |files|), |AllLines(files, i)| + j; at < |all| && all[at] == files[i][j]
  {
    LinesBeforeFile(files, i + 1, |files|);
    assert AllLines(files, i + 1) == AllLines(files, i) + files[i];
  }

  /** `read_records`: yields the lines in order, up to the first that is partial, no JSON or no envelope. */
  method ReadRecords(stampOk: string -> bool, files: seq<seq<Line>>) returns (out: seq<Json>, ok: bool)
    ensures var all := AllLines(files, |files|);
            && |out| <= |all| && LinesOk(stampOk, all[..|out|]) && out == Values(stampOk, all[..|out|])
            && (if ok then |out| == |all| else |out| < |all| && !LineOk(stampOk, all[|out|]))
  {
    ghost var all := AllLines(files, |files|);
    out := [];
    var i := 0;
    while i < |files|
      invariant 0 <= i <= |files| && |out| == |AllLines(files, i)| <= |all|
      invariant LinesOk(stampOk, all[..|out|]) && out == Values(stampOk, all[..|out|])
    {
      var j := 0;
      while j < |files[i]|
        invariant 0 <= j <= |files[i]| && |out| == |AllLines(files, i)| + j <= |all|
        invariant LinesOk(stampOk, all[..|out|]) && out == Values(stampOk, all[..|out|])
      {
        LineAt(files, i, j);
        var line := files[i][j];
        if !LineOk(stampOk, line) { return out, false; }
        LinesGrow(stampOk, all, |out|);
        out := out + [line.value.value];
        j := j + 1;
      }
      i := i + 1;
    }
    return out, true;
  }

  lemma DifferentMarks(r: Json, event: string)
    requires Marks(r, event) && event != "segment_start" && event != "segment_end"
    ensures !Marks(r, "segment_start") && !Marks(r, "segment_end")
  {
  }

  lemma ControlByMarks(clock: Clock, event: string, r: Json)
    requires ControlBy(clock, event, r)
    ensures Marks(r, event)
  {
    var k, extra :| r == Control(event, Reading(clock, k), extra);
    ControlMarks(event, Reading(clock, k), extra);
  }

  /** Dropping the segment markers from a session gives its records back, exactly if none of them looks like one. */
  lemma SessionWithoutMarks(enc: Encoding, c: Setup<Json>, s: Session, records: seq<Json>)
    requires c.format == JsonFormat(enc) && SessionOk(c, s, records)
    ensures DropMarks(c.format, AllLines(s.files, |s.files|)) == [s.start] + records + [s.stop] <==> Unmarked(c.format, records)
  {
    ControlByMarks(c.clock, "start", s.start);
    ControlByMarks(c.clock, "stop", s.stop);
    DifferentMarks(s.start, "start");
    DifferentMarks(s.stop, "stop");
    FramedReadBack(c.format, c.maxBytes, s.files, s.start, records, s.stop);
  }

  /** Every reading of the clock is a stamp the reader accepts. */
  ghost predicate ClockOk(stampOk: string -> bool, clock: Clock) { forall k :: stampOk(Reading(clock, k)) }

  lemma ControlIsEnvelope(stampOk: string -> bool, event: string, stamp: string, extra: seq<Field>)
    requires stampOk(stamp)
    ensures EnvelopeOk(stampOk, Control(event, stamp, extra))
  {
    ControlMarks(event, stamp, extra);
  }

  function Envelope(stampOk: string -> bool): Json -> bool { (r: Json) => EnvelopeOk(stampOk, r) }

  predicate Envelopes(stampOk: string -> bool, records: seq<Json>) { forall i :: 0 <= i < |records| ==> EnvelopeOk(stampOk, records[i]) }

  lemma MarksAreEnvelopes(stampOk: string -> bool, enc: Encoding, c: Setup<Json>)
    requires c.format == JsonFormat(enc) && ClockOk(stampOk, c.clock)
    ensures forall k, path :: Good(Envelope(stampOk), StartMark(c.format, Reading(c.clock, k), path))
    ensures forall k, path :: Good(Envelope(stampOk), EndMark(c.format, Reading(c.clock, k), path))
  {
    forall k, path ensures Good(Envelope(stampOk), StartMark(c.format, Reading(c.clock, k), path)) {
      ControlIsEnvelope(stampOk, "segment_start", Reading(c.clock, k), [Field("segment", Text(path))]);
    }
    forall k, path ensures Good(Envelope(stampOk), EndMark(c.format, Reading(c.clock, k), path)) {
      ControlIsEnvelope(stampOk, "segment_end", Reading(c.clock, k), [Field("segment", Text(path))]);
    }
  }

  lemma EnvelopesBetween(stampOk: string -> bool, first: Json, records: seq<Json>, last: Json)
    requires EnvelopeOk(stampOk, first) && EnvelopeOk(stampOk, last)
    ensures AllGood(Envelope(stampOk), [first] + records + [last]) <==> Envelopes(stampOk, records)
  {
    GoodInTwoParts(Envelope(stampOk), [first] + records, [last]);
    GoodInTwoParts(Envelope(stampOk), [first], records);
    assert AllGood(Envelope(stampOk), records) <==> Envelopes(stampOk, records) by {
      assert forall i :: 0 <= i < |records| ==> Good(Envelope(stampOk), records[i]) == EnvelopeOk(stampOk, records[i]);
    }
  }

  /** Of a clock whose readings are stamps, every line of a session is an envelope exactly if every record is. */
  lemma SessionEnvelopes(stampOk: string -> bool, enc: Encoding, c: Setup<Json>, s: Session, records: seq<Json>)
    requires c.format == JsonFormat(enc) && SessionOk(c, s, records) && ClockOk(stampOk, c.clock)
    ensures AllGood(Envelope(stampOk), AllLines(s.files, |s.files|)) <==> Envelopes(stampOk, records)
  {
    MarksAreEnvelopes(stampOk, enc, c);
    GoodLines(c, Envelope(stampOk), s.files, |s.files|);
    var k, extra :| s.start == Control("start", Reading(c.clock, k), extra);
    var k', extra' :| s.stop == Control("stop", Reading(c.clock, k'), extra');
    ControlIsEnvelope(stampOk, "start", Reading(c.clock, k), extra);
    ControlIsEnvelope(stampOk, "stop", Reading(c.clock, k'), extra');
    EnvelopesBetween(stampOk, s.start, records, s.stop);
  }

  /** The files as the writer leaves them: each record on a line of its own, ended by a newline. */
  function Printed(records: seq<Json>): (lines: seq<Line>)
    ensures |lines| == |records|
  {
    seq(|records|, i requires 0 <= i < |records| => Line(Some(records[i]), true))
  }

  function OnDisk(files: seq<seq<Json>>): (disk: seq<seq<Line>>)
    ensures |disk| == |files|
  {
    seq(|files|, i requires 0 <= i < |files| => Printed(files[i]))
  }

  lemma {:induction false} PrintedLines(files: seq<seq<Json>>, n: nat)
    requires n <= |files|
    ensures AllLines(OnDisk(files), n) == Printed(AllLines(files, n))
  {
    if n > 0 {
      PrintedLines(files, n - 1);
      assert OnDisk(files)[n - 1] == Printed(files[n - 1]);
    }
  }

  lemma PrintedOk(stampOk: string -> bool, records: seq<Json>)
    ensures LinesOk(stampOk, Printed(records)) <==> AllGood(Envelope(stampOk), records)
    ensures LinesOk(stampOk, Printed(records)) ==> Values(stampOk, Printed(records)) == records
  {
    var lines := Printed(records);
    assert forall i :: 0 <= i < |records| ==> LineOk(stampOk, lines[i]) == Good(Envelope(stampOk), records[i]);
  }

  lemma WholeOk(stampOk: string -> bool, lines: seq<Line>, n: nat)
    requires n <= |lines| && (n == |lines| || !LineOk(stampOk, lines[n]))
    requires LinesOk(stampOk, lines[..n])
    ensures LinesOk(stampOk, lines) <==> n == |lines|
  {
    if n == |lines| { assert lines[..n] == lines; }
  }

  /**
  A clean session and the reader together, with a clock whose readings are stamps: the reader
  accepts the files exactly if every record is an envelope, and its output without segment markers
  is then the session exactly if no record looks like such a marker.
  */
  method SessionReadsBack(stampOk: string -> bool, enc: Encoding, maxBytes: nat, session: string, clock: Clock, records: seq<Json>)
    returns (s: Session, out: seq<Json>, ok: bool)
    requires maxBytes >= MIN_SEGMENT_BYTES && ClockOk(stampOk, clock)
    ensures ok <==> Envelopes(stampOk, records)
    ensures SessionOk(SetupFor(enc, maxBytes, session, clock), s, records)
    ensures ok ==> (DropMarks(JsonFormat(enc), out) == [s.start] + records + [s.stop] <==> Unmarked(JsonFormat(enc), records))
  {
    ghost var c := SetupFor(enc, maxBytes, session, clock);
    var written, dated, ticks := CleanSession(enc, maxBytes, session, clock, records);
    s := written.value;
    out, ok := ReadRecords(stampOk, OnDisk(s.files));
    ghost var all := AllLines(s.files, |s.files|);
    PrintedLines(s.files, |s.files|);
    WholeOk(stampOk, Printed(all), |out|);
    PrintedOk(stampOk, all);
    SessionEnvelopes(stampOk, enc, c, s, records);
    SessionWithoutMarks(enc, c, s, records);
    assert ok ==> Printed(all)[..|out|] == Printed(all);
  }

  /** Of a steady clock, sorting the file names gives the order of writing exactly when dates change at the powers of ten. */
  lemma SessionNamesSort(enc: Encoding, maxBytes: nat, session: string, clock: Clock, paths: seq<string>, dated: seq<nat>, ticks: nat)
    requires NamesOk(SetupFor(enc, maxBytes, session, clock).name, clock, paths, dated, ticks) && SteadyClock(clock)
    ensures PathsSort(paths) <==> NewDateAtPowers(Dates(clock, dated))
  {
    NamesFollowWriting(session, SetupFor(enc, maxBytes, session, clock).name, clock, paths, dated, ticks);
  }
}
