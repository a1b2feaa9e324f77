/**
Updates of the canonical comment that overlap: each reads in one step and writes in a later one.
*/
module CommentSchedules {
  import opened Wrappers
  import opened Controller
  import opened CommentStore

  /** `update` reads the comment in one step and writes it, if it accepts what it read, in a later one. */
  datatype Step = Read(who: nat) | Write(who: nat)

  /** The comment, and what each update has read. */
  datatype Shared = Shared(comment: State, seen: map<nat, State>)

  /** What update i writes. */
  function Desired(us: seq<Update>, m: Shared, i: nat): Option<State> {
    if i < |us| && i in m.seen then Wanted(m.seen[i], us[i]) else None
  }

  function Do(us: seq<Update>, m: Shared, step: Step): Shared {
    match step
    case Read(i) => m.(seen := m.seen[i := m.comment])
    case Write(i) => if Desired(us, m, i).Some? then m.(comment := Desired(us, m, i).value) else m
  }

  datatype Schedule = Schedule(us: seq<Update>, start: State, steps: seq<Step>)

  /** After the first n steps. */
  function At(c: Schedule, n: nat): Shared
    requires n <= |c.steps|
  {
    if n == 0 then Shared(c.start, map[]) else Do(c.us, At(c, n - 1), c.steps[n - 1])
  }

  predicate StepsDiffer(c: Schedule, p: nat, q: nat)
    requires p < q < |c.steps|
  {
    c.steps[p] != c.steps[q]
  }

  /** A write comes after the read of its update. */
  predicate ReadFirst(c: Schedule, q: nat)
    requires q < |c.steps|
  {
    c.steps[q].Write? ==> Read(c.steps[q].who) in c.steps[..q]
  }

  predicate NewKey(c: Schedule, i: nat)
    requires i < |c.us|
  {
    c.us[i].key !in c.start.completed && forall j :: 0 <= j < i ==> c.us[j].key != c.us[i].key
  }

  /** Each update reads once and then writes once, under a key of its own that is not yet canonical. */
  ghost predicate ScheduleOk(c: Schedule) {
    && (forall p :: 0 <= p < |c.steps| ==> c.steps[p].who < |c.us|)
    && (forall p, q :: 0 <= p < q < |c.steps| ==> StepsDiffer(c, p, q))
    && (forall q :: 0 <= q < |c.steps| ==> ReadFirst(c, q))
    && (forall i :: 0 <= i < |c.us| ==> NewKey(c, i))
  }

  /** Step p writes the comment: its update accepted what it read. */
  predicate Lands(c: Schedule, p: nat)
    requires p < |c.steps|
  {
    c.steps[p].Write? && Desired(c.us, At(c, p), c.steps[p].who).Some?
  }

  function KeyAt(c: Schedule, p: nat): string
    requires p < |c.steps| && c.steps[p].who < |c.us|
  {
    c.us[c.steps[p].who].key
  }

  /** After n steps every key written so far is still canonical. */
  ghost predicate Kept(c: Schedule, n: nat)
    requires ScheduleOk(c) && n <= |c.steps|
  {
    forall p :: 0 <= p < n && Lands(c, p) ==> KeyAt(c, p) in At(c, n).comment.completed
  }

  /** Write p falls between the read r and the write q of one update. */
  ghost predicate Overlap(c: Schedule, r: nat, p: nat, q: nat)
    requires r < p < q < |c.steps|
  {
    c.steps[r].Read? && c.steps[q] == Write(c.steps[r].who) && Lands(c, p) && Lands(c, q)
  }

  ghost predicate Serial(c: Schedule, n: nat)
    requires n <= |c.steps|
  {
    forall r, p, q :: 0 <= r < p < q < n ==> !Overlap(c, r, p, q)
  }

  lemma WantedAddsKey(s: State, u: Update)
    requires Wanted(s, u).Some?
    ensures Wanted(s, u).value.completed == s.completed + [u.key]
  {
  }

  /** An update keeps what it read. */
  lemma {:induction false} SeenIsRead(c: Schedule, r: nat, n: nat)
    requires ScheduleOk(c) && r < n <= |c.steps| && c.steps[r].Read?
    ensures c.steps[r].who in At(c, n).seen && At(c, n).seen[c.steps[r].who] == At(c, r).comment
  {
    if r < n - 1 {
      SeenIsRead(c, r, n - 1);
      assert StepsDiffer(c, r, n - 1);
    }
  }

  /** Without a write in between, the comment stays as it is. */
  lemma {:induction false} CommentStays(c: Schedule, r: nat, n: nat)
    requires r <= n <= |c.steps| && forall p :: r <= p < n ==> !Lands(c, p)
    ensures At(c, n).comment == At(c, r).comment
  {
    if r < n {
      CommentStays(c, r, n - 1);
      assert !Lands(c, n - 1);
    }
  }

  lemma ReadBefore(c: Schedule, q: nat) returns (r: nat)
    requires ScheduleOk(c) && q < |c.steps| && c.steps[q].Write?
    ensures r < q && c.steps[r] == Read(c.steps[q].who)
  {
    assert ReadFirst(c, q);
    r :| 0 <= r < q && c.steps[r] == Read(c.steps[q].who);
  }

  lemma KeysDiffer(c: Schedule, p: nat, q: nat)
    requires ScheduleOk(c) && p < q < |c.steps| && c.steps[p].Write? && c.steps[q].Write?
    ensures KeyAt(c, p) != KeyAt(c, q)
  {
    assert StepsDiffer(c, p, q);
    assert NewKey(c, c.steps[p].who) && NewKey(c, c.steps[q].who);
  }

  /** What a landing write leaves: the state its update read, and its own key. */
  lemma WriteExtendsRead(c: Schedule, r: nat, q: nat)
    requires ScheduleOk(c) && r < q < |c.steps| && c.steps[r] == Read(c.steps[q].who) && Lands(c, q)
    ensures Wanted(At(c, r).comment, c.us[c.steps[q].who]) == Some(At(c, q + 1).comment)
    ensures At(c, q + 1).comment.completed == At(c, r).comment.completed + [KeyAt(c, q)]
  {
    SeenIsRead(c, r, q);
    WantedAddsKey(At(c, r).comment, c.us[c.steps[q].who]);
  }

  /** A key is canonical only once it has been written. */
  lemma {:induction false} NotYetWritten(c: Schedule, p: nat, n: nat)
    requires ScheduleOk(c) && n <= p < |c.steps| && c.steps[p].Write?
    ensures KeyAt(c, p) !in At(c, n).comment.completed
  {
    if n > 0 {
      NotYetWritten(c, p, n - 1);
      if Lands(c, n - 1) {
        var r := ReadBefore(c, n - 1);
        NotYetWritten(c, p, r);
        WriteExtendsRead(c, r, n - 1);
        KeysDiffer(c, n - 1, p);
      }
    } else {
      assert NewKey(c, c.steps[p].who);
    }
  }

  ghost predicate Quiet(c: Schedule, r: nat, q: nat)
    requires r <= q <= |c.steps|
  {
    forall p :: r <= p < q ==> !Lands(c, p)
  }

  /** All keys survive a write exactly if they were there when its update read and nothing was written since. */
  lemma KeptByWrite(c: Schedule, r: nat, q: nat)
    requires ScheduleOk(c) && r < q < |c.steps| && c.steps[r] == Read(c.steps[q].who) && Lands(c, q)
    ensures Kept(c, q + 1) <==> Kept(c, r) && Quiet(c, r, q)
  {
    WriteExtendsRead(c, r, q);
    forall p | 0 <= p < q && Lands(c, p)
      ensures KeyAt(c, p) in At(c, q + 1).comment.completed <==> KeyAt(c, p) in At(c, r).comment.completed
      ensures r <= p ==> KeyAt(c, p) !in At(c, r).comment.completed
    {
      KeysDiffer(c, p, q);
      if r <= p { NotYetWritten(c, p, r); }
    }
  }

  /** No overlap appears where nothing is written. */
  lemma SerialWhileQuiet(c: Schedule, r: nat, q: nat)
    requires r <= q <= |c.steps| && Quiet(c, r, q)
    ensures Serial(c, r) <==> Serial(c, q)
  {
  }

  lemma SerialByWrite(c: Schedule, r: nat, q: nat)
    requires ScheduleOk(c) && r < q < |c.steps| && c.steps[r] == Read(c.steps[q].who) && Lands(c, q)
    ensures Serial(c, q + 1) <==> Serial(c, q) && Quiet(c, r, q)
  {
    if Serial(c, q + 1) {
      forall p | r <= p < q ensures !Lands(c, p) {
        if r < p { assert !Overlap(c, r, p, q); }
      }
    }
    if Serial(c, q) && Quiet(c, r, q) {
      forall r', p, q' | 0 <= r' < p < q' < q + 1 ensures !Overlap(c, r', p, q') {
        if q' == q && r' != r { assert if r' < r then StepsDiffer(c, r', r) else StepsDiffer(c, r, r'); }
      }
    }
  }

  ghost predicate Agree(c: Schedule, n: nat)
    requires ScheduleOk(c) && n <= |c.steps|
  {
    Kept(c, n) <==> Serial(c, n)
  }

  lemma QuietStepAgrees(c: Schedule, n: nat)
    requires ScheduleOk(c) && n < |c.steps| && !Lands(c, n) && Agree(c, n)
    ensures Agree(c, n + 1)
  {
    CommentStays(c, n, n + 1);
    SerialWhileQuiet(c, n, n + 1);
    assert Kept(c, n + 1) <==> Kept(c, n);
  }

  lemma WriteAgrees(c: Schedule, r: nat, q: nat)
    requires ScheduleOk(c) && r < q < |c.steps| && c.steps[r] == Read(c.steps[q].who) && Lands(c, q) && Agree(c, r)
    ensures Agree(c, q + 1)
  {
    KeptByWrite(c, r, q);
    SerialByWrite(c, r, q);
    if Quiet(c, r, q) { SerialWhileQuiet(c, r, q); }
  }

  lemma StartAgrees(c: Schedule)
    requires ScheduleOk(c)
    ensures Agree(c, 0)
  {
  }

  lemma {:induction false} AllAgree(c: Schedule, n: nat)
    requires ScheduleOk(c) && n <= |c.steps|
    ensures Agree(c, n)
  {
    if n == 0 {
      StartAgrees(c);
    } else if Lands(c, n - 1) {
      var r := ReadBefore(c, n - 1);
      AllAgree(c, r);
      WriteAgrees(c, r, n - 1);
    } else {
      AllAgree(c, n - 1);
      QuietStepAgrees(c, n - 1);
    }
  }

  /** For every schedule: all written keys stay canonical exactly if no write falls between another update's read and write. */
  lemma KeptExactlyWhenSerial(c: Schedule)
    requires ScheduleOk(c)
    ensures Kept(c, |c.steps|) <==> Serial(c, |c.steps|)
  {
    AllAgree(c, |c.steps|);
  }

  /** Step p is the write of one update, steps r and q are the read and the write of another. */
  predicate WriteBetween(c: Schedule, r: nat, p: nat, q: nat)
    requires r < p < q < |c.steps|
  {
    c.steps[r].Read? && c.steps[q] == Write(c.steps[r].who) && c.steps[p].Write? && c.steps[p].who != c.steps[r].who
  }

  predicate AllLand(c: Schedule) { forall p :: 0 <= p < |c.steps| && c.steps[p].Write? ==> Lands(c, p) }

  lemma OverlapIsBetween(c: Schedule, r: nat, p: nat, q: nat)
    requires ScheduleOk(c) && AllLand(c) && r < p < q < |c.steps|
    ensures Overlap(c, r, p, q) <==> WriteBetween(c, r, p, q)
  {
    assert StepsDiffer(c, p, q);
  }

  /** When every update writes, the order of the steps alone decides. */
  lemma StepsDecide(c: Schedule)
    requires ScheduleOk(c) && AllLand(c)
    ensures (forall p :: 0 <= p < |c.steps| && c.steps[p].Write? ==> KeyAt(c, p) in At(c, |c.steps|).comment.completed)
       <==> (forall r, p, q :: 0 <= r < p < q < |c.steps| ==> !WriteBetween(c, r, p, q))
  {
    KeptExactlyWhenSerial(c);
    forall r, p, q | 0 <= r < p < q < |c.steps| ensures Overlap(c, r, p, q) <==> WriteBetween(c, r, p, q) {
      OverlapIsBetween(c, r, p, q);
    }
  }

  /** In a schedule without overlap each write does what a whole update at that point would do. */
  lemma SerialWriteIsAtomic(c: Schedule, q: nat)
    requires ScheduleOk(c) && q < |c.steps| && Serial(c, q + 1) && Lands(c, q)
    ensures Wanted(At(c, q).comment, c.us[c.steps[q].who]) == Some(At(c, q + 1).comment)
  {
    var r := ReadBefore(c, q);
    WriteExtendsRead(c, r, q);
    SerialByWrite(c, r, q);
    CommentStays(c, r, q);
  }

  /** Both read before either writes: the later write erases the earlier event, though each write reads back as wanted. */
  lemma InterleavedWriteIsLost(s: State, first: Update, second: Update)
    requires Wanted(s, first).Some? && Wanted(s, second).Some? && first.key != second.key
    ensures var c := Schedule([first, second], s, [Read(0), Read(1), Write(0), Write(1)]);
            && ScheduleOk(c) && Lands(c, 2) && Lands(c, 3) && first.key !in At(c, 4).comment.completed
            && At(c, 3).comment == Wanted(s, first).value && At(c, 4).comment == Wanted(s, second).value
  {
    var c := Schedule([first, second], s, [Read(0), Read(1), Write(0), Write(1)]);
    assert c.steps[0] == Read(0) && c.steps[1] == Read(1) && c.steps[2] == Write(0) && c.steps[3] == Write(1);
    assert ScheduleOk(c);
    SeenIsRead(c, 0, 2);
    SeenIsRead(c, 1, 3);
    CommentStays(c, 0, 1);
    WriteExtendsRead(c, 0, 2);
    WriteExtendsRead(c, 1, 3);
  }
}
