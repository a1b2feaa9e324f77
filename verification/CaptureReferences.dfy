/**
The references that records make to one another, collected record by record as the replay
does, and counted by what each reference is for.
*/
module CaptureReferences {
  import opened Wrappers
  import opened CaptureRecords
  import opened CaptureLedger

  function OptionalRef(ref: Option<Ref>): seq<Ref> { if ref.Some? then [ref.value] else [] }

  function OwnReferences(r: Record): seq<Ref> {
    match r.body
    case Signal(_, evidence, plans, shadows) => evidence + plans + shadows
    case Plan(signal, _, evidence) => [signal] + evidence
    case Shadow(plan, evidence) => [plan] + evidence
    case Observation(observed) => observed
    case Market(_, _, _, _, _, _) => []
    case Lifecycle(_, subject, _, references) => [subject] + references
    case Control(_, _, _, _, kill) => OptionalRef(kill)
    case KillState(_, _, _, controlEvent) => OptionalRef(controlEvent)
  }

  function References(r: Record): seq<Ref> {
    OwnReferences(r) + if r.body.Lifecycle? then [] else OptionalRef(r.correction) + OptionalRef(r.supersedes)
  }

  predicate Missing(byId: map<Ref, seq<Record>>, ref: Ref) { !(ref in byId && byId[ref] != []) }

  function MissingTo(byId: map<Ref, seq<Record>>, refs: seq<Ref>, n: nat): nat
    requires n <= |refs|
  {
    if n == 0 then 0 else MissingTo(byId, refs, n - 1) + if Missing(byId, refs[n - 1]) then 1 else 0
  }

  function MissingAmong(byId: map<Ref, seq<Record>>, refs: seq<Ref>): nat { MissingTo(byId, refs, |refs|) }

  /** Every reference of the first n records, in order. */
  function AllReferences(records: seq<Record>, n: nat): seq<Ref>
    requires n <= |records|
  {
    if n == 0 then [] else AllReferences(records, n - 1) + References(records[n - 1])
  }

  function MissingCount(records: seq<Record>, byId: map<Ref, seq<Record>>): nat {
    MissingAmong(byId, AllReferences(records, |records|))
  }

  method CountMissingAmong(byId: map<Ref, seq<Record>>, refs: seq<Ref>) returns (missing: nat)
    ensures missing == MissingAmong(byId, refs)
  {
    missing := 0;
    var i := 0;
    while i < |refs|
      invariant 0 <= i <= |refs| && missing == MissingTo(byId, refs, i)
    {
      if Missing(byId, refs[i]) { missing := missing + 1; }
      i := i + 1;
    }
  }

  method CollectReferences(records: seq<Record>) returns (references: seq<Ref>)
    ensures references == AllReferences(records, |records|)
  {
    references := [];
    var i := 0;
    while i < |records|
      invariant 0 <= i <= |records| && references == AllReferences(records, i)
    {
      references := references + References(records[i]);
      i := i + 1;
    }
  }

  /******* Counting field by field *******/

  ghost function One(records: seq<Record>, ref: Ref): nat { if IsRecordId(records, ref) then 0 else 1 }

  ghost function AtMostOne(records: seq<Record>, ref: Option<Ref>): nat { if ref.Some? then One(records, ref.value) else 0 }

  /** References among the first n that name no record. */
  ghost function UnnamedTo(records: seq<Record>, refs: seq<Ref>, n: nat): nat
    requires n <= |refs|
  {
    if n == 0 then 0 else UnnamedTo(records, refs, n - 1) + One(records, refs[n - 1])
  }

  ghost function Unnamed(records: seq<Record>, refs: seq<Ref>): nat { UnnamedTo(records, refs, |refs|) }

  /** The fields of one record that name no record. */
  ghost function UnnamedIn(records: seq<Record>, r: Record): nat {
    match r.body
    case Signal(_, evidence, plans, shadows) => Unnamed(records, evidence) + Unnamed(records, plans) + Unnamed(records, shadows)
    case Plan(signal, _, evidence) => One(records, signal) + Unnamed(records, evidence)
    case Shadow(plan, evidence) => One(records, plan) + Unnamed(records, evidence)
    case Observation(observed) => Unnamed(records, observed)
    case Market(_, _, _, _, _, _) => 0
    case Lifecycle(_, subject, _, references) => One(records, subject) + Unnamed(records, references)
    case Control(_, _, _, _, kill) => AtMostOne(records, kill)
    case KillState(_, _, _, controlEvent) => AtMostOne(records, controlEvent)
  }

  /** A lifecycle event's relation is its subject's and counts among its references. */
  ghost function UnnamedRelations(records: seq<Record>, r: Record): nat {
    if r.body.Lifecycle? then 0 else AtMostOne(records, r.correction) + AtMostOne(records, r.supersedes)
  }

  ghost function UnnamedOf(records: seq<Record>, r: Record): nat { UnnamedIn(records, r) + UnnamedRelations(records, r) }

  ghost function UnnamedBefore(records: seq<Record>, n: nat): nat
    requires n <= |records|
  {
    if n == 0 then 0 else UnnamedBefore(records, n - 1) + UnnamedOf(records, records[n - 1])
  }

  /** The references of all records that name no record. */
  ghost function UnnamedReferences(records: seq<Record>): nat { UnnamedBefore(records, |records|) }

  lemma MissingMeans(records: seq<Record>, ref: Ref)
    requires RecordsOk(records)
    ensures Missing(ById(records, |records|), ref) <==> !IsRecordId(records, ref)
  {
    ByIdMeans(records, |records|, ref);
    var byId := ById(records, |records|);
    if ref in byId { assert byId[ref][0] in records[..|records|] && byId[ref][0].id == ref; }
  }

  lemma {:induction false} MissingIsUnnamed(records: seq<Record>, refs: seq<Ref>, n: nat)
    requires RecordsOk(records) && n <= |refs|
    ensures MissingTo(ById(records, |records|), refs, n) == UnnamedTo(records, refs, n)
  {
    if n > 0 {
      MissingIsUnnamed(records, refs, n - 1);
      MissingMeans(records, refs[n - 1]);
    }
  }

  lemma {:induction false} UnnamedOfPrefix(records: seq<Record>, a: seq<Ref>, all: seq<Ref>, n: nat)
    requires n <= |a| <= |all| && all[..|a|] == a
    ensures UnnamedTo(records, all, n) == UnnamedTo(records, a, n)
  {
    if n > 0 {
      UnnamedOfPrefix(records, a, all, n - 1);
      assert all[n - 1] == all[..|a|][n - 1];
    }
  }

  lemma {:induction false} UnnamedSplits(records: seq<Record>, a: seq<Ref>, b: seq<Ref>, all: seq<Ref>, n: nat)
    requires all == a + b && n <= |b|
    ensures UnnamedTo(records, all, |a| + n) == UnnamedTo(records, a, |a|) + UnnamedTo(records, b, n)
  {
    if n == 0 {
      UnnamedOfPrefix(records, a, all, |a|);
    } else {
      UnnamedSplits(records, a, b, all, n - 1);
      assert all[|a| + n - 1] == b[n - 1];
    }
  }

  lemma UnnamedConcat(records: seq<Record>, a: seq<Ref>, b: seq<Ref>)
    ensures Unnamed(records, a + b) == Unnamed(records, a) + Unnamed(records, b)
  {
    UnnamedSplits(records, a, b, a + b, |b|);
  }

  lemma UnnamedFirst(records: seq<Record>, ref: Ref, rest: seq<Ref>)
    ensures Unnamed(records, [ref] + rest) == One(records, ref) + Unnamed(records, rest)
  {
    UnnamedConcat(records, [ref], rest);
    assert UnnamedTo(records, [ref], 0) == 0;
  }

  lemma UnnamedOptional(records: seq<Record>, ref: Option<Ref>)
    ensures Unnamed(records, OptionalRef(ref)) == AtMostOne(records, ref)
  {
    if ref.Some? { assert UnnamedTo(records, [ref.value], 0) == 0; }
  }

  lemma OwnUnnamed(records: seq<Record>, r: Record)
    ensures Unnamed(records, OwnReferences(r)) == UnnamedIn(records, r)
  {
    match r.body
    case Signal(_, evidence, plans, shadows) =>
      UnnamedConcat(records, evidence + plans, shadows);
      UnnamedConcat(records, evidence, plans);
    case Plan(signal, _, evidence) => UnnamedFirst(records, signal, evidence);
    case Shadow(plan, evidence) => UnnamedFirst(records, plan, evidence);
    case Observation(_) =>
    case Market(_, _, _, _, _, _) =>
    case Lifecycle(_, subject, _, references) => UnnamedFirst(records, subject, references);
    case Control(_, _, _, _, kill) => UnnamedOptional(records, kill);
    case KillState(_, _, _, controlEvent) => UnnamedOptional(records, controlEvent);
  }

  lemma RecordUnnamed(records: seq<Record>, r: Record)
    ensures Unnamed(records, References(r)) == UnnamedOf(records, r)
  {
    OwnUnnamed(records, r);
    if r.body.Lifecycle? {
      assert References(r) == OwnReferences(r);
    } else {
      UnnamedConcat(records, OwnReferences(r), OptionalRef(r.correction) + OptionalRef(r.supersedes));
      UnnamedConcat(records, OptionalRef(r.correction), OptionalRef(r.supersedes));
      UnnamedOptional(records, r.correction);
      UnnamedOptional(records, r.supersedes);
    }
  }

  lemma UnnamedAdds(records: seq<Record>, a: seq<Ref>, b: seq<Ref>, x: nat, y: nat)
    requires Unnamed(records, a) == x && Unnamed(records, b) == y
    ensures Unnamed(records, a + b) == x + y
  {
    UnnamedConcat(records, a, b);
  }

  lemma {:induction false} CollectedUnnamed(records: seq<Record>, n: nat, before: nat)
    requires n <= |records| && before == UnnamedBefore(records, n)
    ensures Unnamed(records, AllReferences(records, n)) == before
  {
    if n > 0 {
      var less, own := UnnamedBefore(records, n - 1), UnnamedOf(records, records[n - 1]);
      CollectedUnnamed(records, n - 1, less);
      RecordUnnamed(records, records[n - 1]);
      UnnamedAdds(records, AllReferences(records, n - 1), References(records[n - 1]), less, own);
    }
  }

  /** The collected count is the number of reference fields, over all records, that name no record. */
  lemma MissingCountMeans(records: seq<Record>)
    requires RecordsOk(records)
    ensures MissingCount(records, ById(records, |records|)) == UnnamedReferences(records)
  {
    var refs := AllReferences(records, |records|);
    MissingIsUnnamed(records, refs, |refs|);
    CollectedUnnamed(records, |records|, UnnamedBefore(records, |records|));
  }

  /******* When nothing is missing *******/

  ghost predicate AllNamed(records: seq<Record>, refs: seq<Ref>) { forall ref :: ref in refs ==> IsRecordId(records, ref) }

  /** Every reference a record makes, of any kind, names a record. */
  ghost predicate RecordIsNamed(records: seq<Record>, r: Record) {
    && (match r.body
        case Signal(_, evidence, plans, shadows) => AllNamed(records, evidence) && AllNamed(records, plans) && AllNamed(records, shadows)
        case Plan(signal, _, evidence) => IsRecordId(records, signal) && AllNamed(records, evidence)
        case Shadow(plan, evidence) => IsRecordId(records, plan) && AllNamed(records, evidence)
        case Observation(observed) => AllNamed(records, observed)
        case Market(_, _, _, _, _, _) => true
        case Lifecycle(_, subject, _, references) => IsRecordId(records, subject) && AllNamed(records, references)
        case Control(_, _, _, _, kill) => kill.Some? ==> IsRecordId(records, kill.value)
        case KillState(_, _, _, controlEvent) => controlEvent.Some? ==> IsRecordId(records, controlEvent.value))
    && (!r.body.Lifecycle? ==>
          && (r.correction.Some? ==> IsRecordId(records, r.correction.value))
          && (r.supersedes.Some? ==> IsRecordId(records, r.supersedes.value)))
  }

  lemma {:induction false} NoneUnnamedTo(records: seq<Record>, refs: seq<Ref>, n: nat)
    requires n <= |refs|
    ensures UnnamedTo(records, refs, n) == 0 <==> forall k :: 0 <= k < n ==> IsRecordId(records, refs[k])
  {
    if n > 0 { NoneUnnamedTo(records, refs, n - 1); }
  }

  lemma NoneUnnamed(records: seq<Record>, refs: seq<Ref>)
    ensures Unnamed(records, refs) == 0 <==> AllNamed(records, refs)
  {
    NoneUnnamedTo(records, refs, |refs|);
  }

  lemma NoneUnnamedIn(records: seq<Record>, r: Record)
    ensures UnnamedOf(records, r) == 0 <==> RecordIsNamed(records, r)
  {
    match r.body
    case Signal(_, evidence, plans, shadows) =>
      NoneUnnamed(records, evidence);
      NoneUnnamed(records, plans);
      NoneUnnamed(records, shadows);
    case Plan(_, _, evidence) => NoneUnnamed(records, evidence);
    case Shadow(_, evidence) => NoneUnnamed(records, evidence);
    case Observation(observed) => NoneUnnamed(records, observed);
    case Lifecycle(_, _, _, references) => NoneUnnamed(records, references);
    case _ =>
  }

  lemma {:induction false} NoneUnnamedBefore(records: seq<Record>, n: nat)
    requires n <= |records|
    ensures UnnamedBefore(records, n) == 0 <==> forall k :: 0 <= k < n ==> RecordIsNamed(records, records[k])
  {
    if n > 0 {
      NoneUnnamedBefore(records, n - 1);
      NoneUnnamedIn(records, records[n - 1]);
    }
  }

  /** `_missing_capture_reference_count`: how many references name no record ID at all. */
  method CountMissingReferences(records: seq<Record>) returns (missing: nat)
    requires RecordsOk(records)
    ensures missing == UnnamedReferences(records)
    ensures missing == 0 <==> forall k :: 0 <= k < |records| ==> RecordIsNamed(records, records[k])
  {
    MissingCountMeans(records);
    NoneUnnamedBefore(records, |records|);
    var byId := IndexById(records);
    var references := CollectReferences(records);
    missing := CountMissingAmong(byId, references);
  }
}
