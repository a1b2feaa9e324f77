/**
The references of the record graph: corrections, signals, plans, shadows and lifecycle events
as the validator tests them, as a definition over the ordered records alone, and what an
accepted graph then guarantees.
*/
module CaptureGraph {
  import opened Wrappers
  import opened CaptureRecords
  import opened CaptureLedger

  /******* `_validate_generic_corrections` *******/

  predicate CorrectionOk(l: Ledger, r: Record)
    requires VersionKey(r) in l.pos
  {
    if r.body.Lifecycle? then true
    else if r.correction.Some? && r.supersedes.Some? then false
    else if r.body.Control? || r.body.KillState? then r.correction.None? && r.supersedes.None?
    else
      Replaced(r).Some? ==>
        var target := RequireEarlier(l, Replaced(r).value, r);
        target.Some? && TypeOf(target.value) == TypeOf(r)
  }

  /******* `_validate_signal_plan_shadow_graph` *******/

  predicate EvidenceOk(l: Ledger, refs: seq<Ref>, r: Record)
    requires VersionKey(r) in l.pos
  {
    forall ref :: ref in refs ==>
      var evidence := RequireEarlier(l, ref, r);
      evidence.Some? && evidence.value.body.Market?
  }

  predicate ResolvesToPlanOf(l: Ledger, ref: Ref, signal: Record) {
    var plan := Resolve(l, ref);
    plan.Some? && plan.value.body.Plan? && plan.value.body.signal == signal.id
  }

  predicate SignalOk(l: Ledger, r: Record)
    requires VersionKey(r) in l.pos && r.body.Signal?
  {
    && EvidenceOk(l, r.body.evidence, r)
    && (forall ref :: ref in r.body.plans ==>
          ResolvesToPlanOf(l, ref, r) && Resolve(l, ref).value.body.planKind == r.body.kind)
    && (forall ref :: ref in r.body.shadows ==>
          var shadow := Resolve(l, ref);
          shadow.Some? && shadow.value.body.Shadow? && ResolvesToPlanOf(l, shadow.value.body.plan, r))
  }

  predicate PlanOk(l: Ledger, r: Record)
    requires VersionKey(r) in l.pos && r.body.Plan?
  {
    var signal := RequireEarlier(l, r.body.signal, r);
    && signal.Some? && signal.value.body.Signal?
    && signal.value.body.kind == r.body.planKind
    && r.id in signal.value.body.plans
    && EvidenceOk(l, r.body.evidence, r)
  }

  predicate ShadowOk(l: Ledger, r: Record)
    requires VersionKey(r) in l.pos && r.body.Shadow?
  {
    var plan := RequireEarlier(l, r.body.plan, r);
    && plan.Some? && plan.value.body.Plan?
    && (var signal := Resolve(l, plan.value.body.signal);
        signal.Some? && signal.value.body.Signal? && signal.value.body.kind != Wait
        && r.id in signal.value.body.shadows)
    && EvidenceOk(l, r.body.evidence, r)
  }

  predicate ReferencesOk(l: Ledger, r: Record)
    requires VersionKey(r) in l.pos
  {
    match r.body
    case Signal(_, _, _, _) => SignalOk(l, r)
    case Plan(_, _, _) => PlanOk(l, r)
    case Shadow(_, _) => ShadowOk(l, r)
    case Observation(observed) => forall ref :: ref in observed ==> RequireEarlier(l, ref, r).Some?
    case _ => true
  }

  /******* `_validate_lifecycle_graph` *******/

  predicate LifecycleOk(l: Ledger, r: Record)
    requires VersionKey(r) in l.pos
  {
    r.body.Lifecycle? ==>
      var subject := RequireEarlier(l, r.body.subject, r);
      && subject.Some?
      && TypeOf(subject.value) !in {CaptureLifecycleEvent, RuntimeControlEvent, CaptureKillState}
      && TypeOf(subject.value) == r.body.subjectType
      && match r.body.lifecycle
         case RecordCreated => subject.value.correction.None? && subject.value.supersedes.None?
         case WindowFinalized => subject.value.body.Market?
         case RecordCorrected => DescribesRelation(l, r, r.correction, subject.value, subject.value.correction)
         case RecordSuperseded => DescribesRelation(l, r, r.supersedes, subject.value, subject.value.supersedes)
  }

  predicate DescribesRelation(l: Ledger, event: Record, targetRef: Option<Ref>, subject: Record, subjectRef: Option<Ref>)
    requires VersionKey(event) in l.pos
  {
    targetRef.Some? &&
    var target := RequireEarlier(l, targetRef.value, event);
    target.Some? && TypeOf(target.value) == TypeOf(subject) && subjectRef == targetRef
  }

  predicate LinksOk(l: Ledger, r: Record)
    requires VersionKey(r) in l.pos
  {
    CorrectionOk(l, r) && ReferencesOk(l, r) && LifecycleOk(l, r)
  }

  /******* The graph, over the ordered records alone *******/

  predicate IsMarket(r: Record) { r.body.Market? }

  predicate IsAny(r: Record) { true }

  function OfType(t: RecordType): Record -> bool { (r: Record) => TypeOf(r) == t }

  function PlanOf(signal: Ref): Record -> bool { (r: Record) => r.body.Plan? && r.body.signal == signal }

  function PlanOfKind(signal: Ref, kind: SignalKind): Record -> bool {
    (r: Record) => r.body.Plan? && r.body.signal == signal && r.body.planKind == kind
  }

  ghost function ShadowOf(o: seq<Record>, signal: Ref): Record -> bool {
    (r: Record) => r.body.Shadow? && NamesWanted(o, r.body.plan, PlanOf(signal))
  }

  function SignalListingPlan(plan: Ref, kind: SignalKind): Record -> bool {
    (r: Record) => r.body.Signal? && r.body.kind == kind && plan in r.body.plans
  }

  function SignalListingShadow(shadow: Ref): Record -> bool {
    (r: Record) => r.body.Signal? && r.body.kind != Wait && shadow in r.body.shadows
  }

  ghost function PlanTracingShadow(o: seq<Record>, shadow: Ref): Record -> bool {
    (r: Record) => r.body.Plan? && NamesWanted(o, r.body.signal, SignalListingShadow(shadow))
  }

  /** A correction or supersession replaces an earlier record of the same type; control and kill-state records replace nothing. */
  ghost predicate CorrectionLinked(o: seq<Record>, i: int)
    requires 0 <= i < |o|
  {
    var r := o[i];
    r.body.Lifecycle? || Replaced(r).None? ||
    (&& (r.correction.None? || r.supersedes.None?) && !r.body.Control? && !r.body.KillState?
     && NamesEarlier(o, Replaced(r).value, i, OfType(TypeOf(r))))
  }

  ghost predicate AllEarlier(o: seq<Record>, refs: seq<Ref>, i: int, wanted: Record -> bool) {
    forall ref :: ref in refs ==> NamesEarlier(o, ref, i, wanted)
  }

  /** Evidence is earlier; a signal's plans and shadows are its own; a plan or shadow is listed by the signal it traces to. */
  ghost predicate ReferencesLinked(o: seq<Record>, i: int)
    requires 0 <= i < |o|
  {
    match o[i].body
    case Signal(kind, evidence, plans, shadows) =>
      && AllEarlier(o, evidence, i, IsMarket)
      && (forall ref :: ref in plans ==> NamesWanted(o, ref, PlanOfKind(o[i].id, kind)))
      && (forall ref :: ref in shadows ==> NamesWanted(o, ref, ShadowOf(o, o[i].id)))
    case Plan(signal, kind, evidence) =>
      NamesEarlier(o, signal, i, SignalListingPlan(o[i].id, kind)) && AllEarlier(o, evidence, i, IsMarket)
    case Shadow(plan, evidence) =>
      NamesEarlier(o, plan, i, PlanTracingShadow(o, o[i].id)) && AllEarlier(o, evidence, i, IsMarket)
    case Observation(observed) => AllEarlier(o, observed, i, IsAny)
    case _ => true
  }

  /** What an event of each kind says of its subject. */
  ghost predicate Describes(o: seq<Record>, i: int, subject: Record)
    requires 0 <= i < |o| && o[i].body.Lifecycle?
  {
    match o[i].body.lifecycle
    case RecordCreated => Replaced(subject).None?
    case WindowFinalized => subject.body.Market?
    case RecordCorrected =>
      && subject.correction.Some? && subject.correction == o[i].correction
      && NamesEarlier(o, subject.correction.value, i, OfType(TypeOf(subject)))
    case RecordSuperseded =>
      && subject.supersedes.Some? && subject.supersedes == o[i].supersedes
      && NamesEarlier(o, subject.supersedes.value, i, OfType(TypeOf(subject)))
  }

  ghost function SubjectOf(o: seq<Record>, i: int): Record -> bool
    requires 0 <= i < |o| && o[i].body.Lifecycle?
  {
    (r: Record) => && TypeOf(r) == o[i].body.subjectType && !r.body.Lifecycle? && !r.body.Control? && !r.body.KillState?
                   && Describes(o, i, r)
  }

  ghost predicate LifecycleLinked(o: seq<Record>, i: int)
    requires 0 <= i < |o|
  {
    o[i].body.Lifecycle? ==> NamesEarlier(o, o[i].body.subject, i, SubjectOf(o, i))
  }

  ghost predicate Linked(o: seq<Record>, i: int)
    requires 0 <= i < |o|
  {
    CorrectionLinked(o, i) && ReferencesLinked(o, i) && LifecycleLinked(o, i)
  }

  ghost predicate ReferenceGraphOk(o: seq<Record>) { forall i :: 0 <= i < |o| ==> Linked(o, i) }

  /******* The tests decide the definition *******/

  lemma CorrectionMeans(l: Ledger, i: nat)
    requires Coherent(l) && i < |l.ordered|
    ensures CorrectionOk(l, l.ordered[i]) <==> CorrectionLinked(l.ordered, i)
  {
    var r := l.ordered[i];
    if Replaced(r).Some? { NamesEarlierMeans(l, Replaced(r).value, i, OfType(TypeOf(r))); }
  }

  lemma EvidenceMeans(l: Ledger, refs: seq<Ref>, i: nat)
    requires Coherent(l) && i < |l.ordered|
    ensures EvidenceOk(l, refs, l.ordered[i]) <==> AllEarlier(l.ordered, refs, i, IsMarket)
  {
    forall ref | ref in refs
      ensures NamesEarlier(l.ordered, ref, i, IsMarket)
         <==> (var x := RequireEarlier(l, ref, l.ordered[i]); x.Some? && x.value.body.Market?)
    {
      NamesEarlierMeans(l, ref, i, IsMarket);
    }
  }

  lemma SignalMeans(l: Ledger, i: nat)
    requires Coherent(l) && i < |l.ordered| && l.ordered[i].body.Signal?
    ensures SignalOk(l, l.ordered[i]) <==> ReferencesLinked(l.ordered, i)
  {
    var o, r := l.ordered, l.ordered[i];
    EvidenceMeans(l, r.body.evidence, i);
    forall ref | ref in r.body.plans
      ensures NamesWanted(o, ref, PlanOfKind(r.id, r.body.kind))
         <==> ResolvesToPlanOf(l, ref, r) && Resolve(l, ref).value.body.planKind == r.body.kind
    {
      NamesWantedMeans(l, ref, PlanOfKind(r.id, r.body.kind));
    }
    forall ref | ref in r.body.shadows
      ensures NamesWanted(o, ref, ShadowOf(o, r.id))
         <==> (var x := Resolve(l, ref); x.Some? && x.value.body.Shadow? && ResolvesToPlanOf(l, x.value.body.plan, r))
    {
      ShadowRefMeans(l, ref, r);
    }
  }

  lemma ShadowRefMeans(l: Ledger, ref: Ref, signal: Record)
    requires Coherent(l)
    ensures NamesWanted(l.ordered, ref, ShadowOf(l.ordered, signal.id))
       <==> (var x := Resolve(l, ref); x.Some? && x.value.body.Shadow? && ResolvesToPlanOf(l, x.value.body.plan, signal))
  {
    NamesWantedMeans(l, ref, ShadowOf(l.ordered, signal.id));
    var x := Resolve(l, ref);
    if x.Some? && x.value.body.Shadow? { NamesWantedMeans(l, x.value.body.plan, PlanOf(signal.id)); }
  }

  lemma PlanMeans(l: Ledger, i: nat)
    requires Coherent(l) && i < |l.ordered| && l.ordered[i].body.Plan?
    ensures PlanOk(l, l.ordered[i]) <==> ReferencesLinked(l.ordered, i)
  {
    var r := l.ordered[i];
    EvidenceMeans(l, r.body.evidence, i);
    NamesEarlierMeans(l, r.body.signal, i, SignalListingPlan(r.id, r.body.planKind));
  }

  lemma ShadowMeans(l: Ledger, i: nat)
    requires Coherent(l) && i < |l.ordered| && l.ordered[i].body.Shadow?
    ensures ShadowOk(l, l.ordered[i]) <==> ReferencesLinked(l.ordered, i)
  {
    var r := l.ordered[i];
    EvidenceMeans(l, r.body.evidence, i);
    NamesEarlierMeans(l, r.body.plan, i, PlanTracingShadow(l.ordered, r.id));
    var plan := RequireEarlier(l, r.body.plan, r);
    if plan.Some? && plan.value.body.Plan? { NamesWantedMeans(l, plan.value.body.signal, SignalListingShadow(r.id)); }
  }

  lemma ObservationMeans(l: Ledger, i: nat)
    requires Coherent(l) && i < |l.ordered| && l.ordered[i].body.Observation?
    ensures ReferencesOk(l, l.ordered[i]) <==> ReferencesLinked(l.ordered, i)
  {
    forall ref | ref in l.ordered[i].body.observed
      ensures NamesEarlier(l.ordered, ref, i, IsAny) <==> RequireEarlier(l, ref, l.ordered[i]).Some?
    {
      NamesEarlierMeans(l, ref, i, IsAny);
    }
  }

  lemma ReferencesMean(l: Ledger, i: nat)
    requires Coherent(l) && i < |l.ordered|
    ensures ReferencesOk(l, l.ordered[i]) <==> ReferencesLinked(l.ordered, i)
  {
    if l.ordered[i].body.Signal? {
      SignalMeans(l, i);
    } else if l.ordered[i].body.Plan? {
      PlanMeans(l, i);
    } else if l.ordered[i].body.Shadow? {
      ShadowMeans(l, i);
    } else if l.ordered[i].body.Observation? {
      ObservationMeans(l, i);
    }
  }

  lemma RelationMeans(l: Ledger, i: nat, ref: Option<Ref>, subject: Record, subjectRef: Option<Ref>)
    requires Coherent(l) && i < |l.ordered|
    ensures DescribesRelation(l, l.ordered[i], ref, subject, subjectRef)
       <==> subjectRef.Some? && subjectRef == ref && NamesEarlier(l.ordered, subjectRef.value, i, OfType(TypeOf(subject)))
  {
    if ref.Some? { NamesEarlierMeans(l, ref.value, i, OfType(TypeOf(subject))); }
  }

  lemma LifecycleMeans(l: Ledger, i: nat)
    requires Coherent(l) && i < |l.ordered|
    ensures LifecycleOk(l, l.ordered[i]) <==> LifecycleLinked(l.ordered, i)
  {
    var o, r := l.ordered, l.ordered[i];
    if r.body.Lifecycle? {
      NamesEarlierMeans(l, r.body.subject, i, SubjectOf(o, i));
      var subject := RequireEarlier(l, r.body.subject, r);
      if subject.Some? {
        RelationMeans(l, i, r.correction, subject.value, subject.value.correction);
        RelationMeans(l, i, r.supersedes, subject.value, subject.value.supersedes);
      }
    }
  }

  lemma LinksMean(l: Ledger, i: nat)
    requires Coherent(l) && i < |l.ordered|
    ensures LinksOk(l, l.ordered[i]) <==> Linked(l.ordered, i)
  {
    CorrectionMeans(l, i);
    ReferencesMean(l, i);
    LifecycleMeans(l, i);
  }

  /** The three loops over the ordered records decide exactly the definition over those records. */
  method ValidateReferences(l: Ledger) returns (ok: bool)
    requires Coherent(l)
    ensures ok <==> ReferenceGraphOk(l.ordered)
  {
    var i := 0;
    while i < |l.ordered|
      invariant 0 <= i <= |l.ordered|
      invariant forall j :: 0 <= j < i ==> Linked(l.ordered, j)
    {
      LinksMean(l, i);
      if !LinksOk(l, l.ordered[i]) { return false; }
      i := i + 1;
    }
    return true;
  }

  lemma GraphTests(l: Ledger, i: nat)
    requires Coherent(l) && ReferenceGraphOk(l.ordered) && i < |l.ordered|
    ensures LinksOk(l, l.ordered[i])
  {
    LinksMean(l, i);
  }

  /******* Corrections and the events that describe them *******/

  lemma ReplacedIsEarlier(l: Ledger, i: nat) returns (t: nat)
    requires Coherent(l) && ReferenceGraphOk(l.ordered) && i < |l.ordered|
    requires !l.ordered[i].body.Lifecycle? && Replaced(l.ordered[i]).Some?
    ensures t < i && Names(l.ordered, Replaced(l.ordered[i]).value, t) && TypeOf(l.ordered[t]) == TypeOf(l.ordered[i])
  {
    GraphTests(l, i);
    t := RequireEarlierMeans(l, Replaced(l.ordered[i]).value, i);
  }

  /** Following corrections and supersessions always ends, at an original of the same type. */
  lemma {:induction false} CorrectionsReachAnOriginal(l: Ledger, i: nat) returns (root: nat)
    requires Coherent(l) && ReferenceGraphOk(l.ordered) && i < |l.ordered| && !l.ordered[i].body.Lifecycle?
    ensures root <= i && Replaced(l.ordered[root]).None? && TypeOf(l.ordered[root]) == TypeOf(l.ordered[i])
    ensures Replaced(l.ordered[i]).Some? ==> root < i
    decreases i
  {
    root := i;
    if Replaced(l.ordered[i]).Some? {
      var t := ReplacedIsEarlier(l, i);
      root := CorrectionsReachAnOriginal(l, t);
    }
  }

  /** The relation of the subject that each kind of event claims. */
  predicate Claims(kind: LifecycleKind, subject: Record) {
    match kind
    case RecordCreated => subject.correction.None? && subject.supersedes.None?
    case WindowFinalized => subject.body.Market?
    case RecordCorrected => subject.correction.Some? && subject.supersedes.None?
    case RecordSuperseded => subject.supersedes.Some? && subject.correction.None?
  }

  /** A lifecycle event follows its subject, has its type, and claims of it only what is so. */
  lemma LifecycleTellsTheTruth(l: Ledger, e: nat) returns (s: nat)
    requires Coherent(l) && ReferenceGraphOk(l.ordered) && e < |l.ordered| && l.ordered[e].body.Lifecycle?
    ensures s < e && Names(l.ordered, l.ordered[e].body.subject, s) && TypeOf(l.ordered[s]) == l.ordered[e].body.subjectType
    ensures !l.ordered[s].body.Lifecycle? && Claims(l.ordered[e].body.lifecycle, l.ordered[s])
  {
    var event := l.ordered[e];
    GraphTests(l, e);
    s := RequireEarlierMeans(l, event.body.subject, e);
    GraphTests(l, s);
  }

  /** Of the events about one subject, at most one of created, corrected and superseded occurs. */
  lemma LifecycleEventsAgree(l: Ledger, e: nat, e': nat)
    requires Coherent(l) && ReferenceGraphOk(l.ordered) && e < |l.ordered| && e' < |l.ordered|
    requires l.ordered[e].body.Lifecycle? && l.ordered[e'].body.Lifecycle? && l.ordered[e].body.subject == l.ordered[e'].body.subject
    requires l.ordered[e].body.lifecycle != WindowFinalized && l.ordered[e'].body.lifecycle != WindowFinalized
    ensures l.ordered[e].body.lifecycle == l.ordered[e'].body.lifecycle
  {
    var s := LifecycleTellsTheTruth(l, e);
    var s' := LifecycleTellsTheTruth(l, e');
  }

  /** An event about a correction comes after the corrected record, which comes after its target. */
  lemma CorrectionEventsAreOrdered(l: Ledger, e: nat) returns (t: nat, s: nat)
    requires Coherent(l) && ReferenceGraphOk(l.ordered) && e < |l.ordered| && l.ordered[e].body.Lifecycle?
    requires l.ordered[e].body.lifecycle == RecordCorrected || l.ordered[e].body.lifecycle == RecordSuperseded
    ensures t < s < e && Names(l.ordered, l.ordered[e].body.subject, s) && Replaced(l.ordered[s]) == Replaced(l.ordered[e])
    ensures Names(l.ordered, Replaced(l.ordered[e]).value, t) && TypeOf(l.ordered[t]) == TypeOf(l.ordered[s])
  {
    s := LifecycleTellsTheTruth(l, e);
    GraphTests(l, e);
    assert RecordOk(l.ordered[e]);
    var s' := RequireEarlierMeans(l, l.ordered[e].body.subject, e);
    t := ReplacedIsEarlier(l, s);
  }

  /******* Reverse references are exact *******/

  /** The plans that name a signal are exactly the signal's plan references. */
  lemma PlansOfSignalAreItsReferences(l: Ledger, s: nat, p: nat)
    requires Coherent(l) && ReferenceGraphOk(l.ordered) && s < |l.ordered| && p < |l.ordered|
    requires l.ordered[s].body.Signal? && l.ordered[p].body.Plan?
    ensures l.ordered[p].body.signal == l.ordered[s].id <==> l.ordered[p].id in l.ordered[s].body.plans
    ensures l.ordered[p].body.signal == l.ordered[s].id ==> s < p && l.ordered[p].body.planKind == l.ordered[s].body.kind
  {
    var signal, plan := l.ordered[s], l.ordered[p];
    GraphTests(l, p);
    GraphTests(l, s);
    var s' := RequireEarlierMeans(l, plan.body.signal, p);
    var p' := ResolveMeans(l, plan.id);
  }

  /** The signal a shadow traces back to, through its plan. */
  function TraceOf(l: Ledger, shadow: Record): Option<Ref>
    requires shadow.body.Shadow?
  {
    var plan := Resolve(l, shadow.body.plan);
    if plan.Some? && plan.value.body.Plan? then Some(plan.value.body.signal) else None
  }

  /** The shadows that trace to a signal are exactly the signal's shadow references; none traces to WAIT. */
  lemma ShadowsOfSignalAreItsReferences(l: Ledger, s: nat, h: nat)
    requires Coherent(l) && ReferenceGraphOk(l.ordered) && s < |l.ordered| && h < |l.ordered|
    requires l.ordered[s].body.Signal? && l.ordered[h].body.Shadow?
    ensures TraceOf(l, l.ordered[h]) == Some(l.ordered[s].id) <==> l.ordered[h].id in l.ordered[s].body.shadows
    ensures TraceOf(l, l.ordered[h]) == Some(l.ordered[s].id) ==> s < h && l.ordered[s].body.kind != Wait
  {
    var signal, shadow := l.ordered[s], l.ordered[h];
    GraphTests(l, h);
    GraphTests(l, s);
    var p := RequireEarlierMeans(l, shadow.body.plan, h);
    var p' := ResolveMeans(l, shadow.body.plan);
    var s' := ResolveMeans(l, l.ordered[p].body.signal);
    var h' := ResolveMeans(l, shadow.id);
    GraphTests(l, p);
    var s'' := RequireEarlierMeans(l, l.ordered[p].body.signal, p);
  }

  /** Every shadow traces to a real, earlier, non-WAIT signal of the ledger. */
  lemma EveryShadowHasASignal(l: Ledger, h: nat) returns (s: nat)
    requires Coherent(l) && ReferenceGraphOk(l.ordered) && h < |l.ordered| && l.ordered[h].body.Shadow?
    ensures s < h && l.ordered[s].body.Signal? && l.ordered[s].body.kind != Wait
    ensures TraceOf(l, l.ordered[h]) == Some(l.ordered[s].id) && l.ordered[h].id in l.ordered[s].body.shadows
  {
    GraphTests(l, h);
    var p := RequireEarlierMeans(l, l.ordered[h].body.plan, h);
    var p' := ResolveMeans(l, l.ordered[h].body.plan);
    s := ResolveMeans(l, l.ordered[p].body.signal);
    ShadowsOfSignalAreItsReferences(l, s, h);
  }

  /******* Conservation between reference lists and records *******/

  function PlanRefs(r: Record): seq<Ref> { if r.body.Signal? then r.body.plans else [] }

  function ShadowRefs(r: Record): seq<Ref> { if r.body.Signal? then r.body.shadows else [] }

  function TotalRefs(o: seq<Record>, n: nat, refsOf: Record -> seq<Ref>): nat
    requires n <= |o|
  {
    if n == 0 then 0 else TotalRefs(o, n - 1, refsOf) + |refsOf(o[n - 1])|
  }

  function CountRecords(o: seq<Record>, n: nat, wanted: RecordType): nat
    requires n <= |o|
  {
    if n == 0 then 0 else CountRecords(o, n - 1, wanted) + if TypeOf(o[n - 1]) == wanted then 1 else 0
  }

  function Elements(refs: seq<Ref>): set<Ref> { set ref | ref in refs }

  function RefsBefore(o: seq<Record>, n: nat, refsOf: Record -> seq<Ref>): set<Ref>
    requires n <= |o|
  {
    if n == 0 then {} else RefsBefore(o, n - 1, refsOf) + Elements(refsOf(o[n - 1]))
  }

  function IdsBefore(o: seq<Record>, n: nat, wanted: RecordType): set<Ref>
    requires n <= |o|
  {
    if n == 0 then {} else IdsBefore(o, n - 1, wanted) + if TypeOf(o[n - 1]) == wanted then {o[n - 1].id} else {}
  }

  lemma {:induction false} RefsBeforeMeans(o: seq<Record>, n: nat, refsOf: Record -> seq<Ref>, ref: Ref)
    requires n <= |o|
    ensures ref in RefsBefore(o, n, refsOf) <==> exists i :: 0 <= i < n && ref in refsOf(o[i])
  {
    if n > 0 {
      RefsBeforeMeans(o, n - 1, refsOf, ref);
      assert ref in refsOf(o[n - 1]) ==> ref in RefsBefore(o, n, refsOf);
    }
  }

  lemma {:induction false} IdsBeforeMeans(o: seq<Record>, n: nat, wanted: RecordType, ref: Ref)
    requires n <= |o|
    ensures ref in IdsBefore(o, n, wanted) <==> exists i :: 0 <= i < n && TypeOf(o[i]) == wanted && o[i].id == ref
  {
    if n > 0 {
      IdsBeforeMeans(o, n - 1, wanted, ref);
      assert TypeOf(o[n - 1]) == wanted && o[n - 1].id == ref ==> ref in IdsBefore(o, n, wanted);
    }
  }

  lemma {:induction false} ElementsCount(refs: seq<Ref>)
    requires forall i, j :: 0 <= i < j < |refs| ==> refs[i] != refs[j]
    ensures |Elements(refs)| == |refs|
  {
    if refs != [] {
      var last := |refs| - 1;
      ElementsCount(refs[..last]);
      assert refs == refs[..last] + [refs[last]];
      assert Elements(refs) == Elements(refs[..last]) + {refs[last]};
    }
  }

  lemma DisjointSize(a: set<Ref>, b: set<Ref>)
    requires a !! b
    ensures |a + b| == |a| + |b|
  {
  }

  lemma {:induction false} TotalRefsIsASetSize(o: seq<Record>, n: nat, refsOf: Record -> seq<Ref>)
    requires n <= |o|
    requires forall k :: 0 <= k < n ==> OrderedUnique(refsOf(o[k]))
    requires forall i, j, ref :: 0 <= i < j < n && ref in refsOf(o[i]) ==> ref !in refsOf(o[j])
    ensures TotalRefs(o, n, refsOf) == |RefsBefore(o, n, refsOf)|
  {
    if n > 0 {
      TotalRefsIsASetSize(o, n - 1, refsOf);
      var refs := refsOf(o[n - 1]);
      OrderedUniqueIsDuplicateFree(refs);
      ElementsCount(refs);
      var before := RefsBefore(o, n - 1, refsOf);
      forall ref | ref in before ensures ref !in Elements(refs) { RefsBeforeMeans(o, n - 1, refsOf, ref); }
      DisjointSize(before, Elements(refs));
    }
  }

  lemma {:induction false} CountIsASetSize(o: seq<Record>, n: nat, wanted: RecordType)
    requires n <= |o|
    requires forall i, j :: 0 <= i < j < n && TypeOf(o[i]) == wanted && TypeOf(o[j]) == wanted ==> o[i].id != o[j].id
    ensures CountRecords(o, n, wanted) == |IdsBefore(o, n, wanted)|
  {
    if n > 0 {
      CountIsASetSize(o, n - 1, wanted);
      IdsBeforeMeans(o, n - 1, wanted, o[n - 1].id);
    }
  }

  /** If the reference lists are duplicate-free, disjoint and name exactly the wanted records, they count them. */
  lemma ReferencesCountRecords(o: seq<Record>, refsOf: Record -> seq<Ref>, wanted: RecordType)
    requires forall k :: 0 <= k < |o| ==> OrderedUnique(refsOf(o[k]))
    requires forall i, j, ref :: 0 <= i < j < |o| && ref in refsOf(o[i]) ==> ref !in refsOf(o[j])
    requires forall i, j :: 0 <= i < j < |o| && TypeOf(o[i]) == wanted && TypeOf(o[j]) == wanted ==> o[i].id != o[j].id
    requires forall i, ref :: 0 <= i < |o| && ref in refsOf(o[i]) ==> ref in IdsBefore(o, |o|, wanted)
    requires forall i :: 0 <= i < |o| && TypeOf(o[i]) == wanted ==> o[i].id in RefsBefore(o, |o|, refsOf)
    ensures TotalRefs(o, |o|, refsOf) == CountRecords(o, |o|, wanted)
  {
    TotalRefsIsASetSize(o, |o|, refsOf);
    CountIsASetSize(o, |o|, wanted);
    forall ref ensures ref in RefsBefore(o, |o|, refsOf) <==> ref in IdsBefore(o, |o|, wanted) {
      RefsBeforeMeans(o, |o|, refsOf, ref);
      IdsBeforeMeans(o, |o|, wanted, ref);
    }
    assert RefsBefore(o, |o|, refsOf) == IdsBefore(o, |o|, wanted);
  }

  /** A plan reference names one plan record, and that plan names back the referring signal. */
  lemma PlanReferenceNames(l: Ledger, s: nat, ref: Ref) returns (p: nat)
    requires Coherent(l) && ReferenceGraphOk(l.ordered) && s < |l.ordered| && ref in PlanRefs(l.ordered[s])
    ensures Names(l.ordered, ref, p) && TypeOf(l.ordered[p]) == CapturePlan
    ensures Names(l.ordered, l.ordered[p].body.signal, s)
  {
    GraphTests(l, s);
    p := ResolveMeans(l, ref);
    GraphTests(l, p);
    var s' := RequireEarlierMeans(l, l.ordered[p].body.signal, p);
  }

  lemma ShadowReferenceNames(l: Ledger, s: nat, ref: Ref) returns (h: nat)
    requires Coherent(l) && ReferenceGraphOk(l.ordered) && s < |l.ordered| && ref in ShadowRefs(l.ordered[s])
    ensures Names(l.ordered, ref, h) && TypeOf(l.ordered[h]) == ShadowOrderIntent
    ensures TraceOf(l, l.ordered[h]).Some? && Names(l.ordered, TraceOf(l, l.ordered[h]).value, s)
  {
    GraphTests(l, s);
    h := ResolveMeans(l, ref);
    var plan := Resolve(l, l.ordered[h].body.plan).value;
    var p := ResolveMeans(l, l.ordered[h].body.plan);
    GraphTests(l, p);
    var s' := RequireEarlierMeans(l, plan.body.signal, p);
  }

  /** A plan is listed by a signal, so its record ID has one version only. */
  lemma PlanIsReferenced(l: Ledger, p: nat) returns (s: nat)
    requires Coherent(l) && ReferenceGraphOk(l.ordered) && p < |l.ordered| && l.ordered[p].body.Plan?
    ensures s < p && l.ordered[p].id in PlanRefs(l.ordered[s]) && Names(l.ordered, l.ordered[p].id, p)
  {
    GraphTests(l, p);
    s := RequireEarlierMeans(l, l.ordered[p].body.signal, p);
    var p' := PlanReferenceNames(l, s, l.ordered[p].id);
  }

  lemma ShadowIsReferenced(l: Ledger, h: nat) returns (s: nat)
    requires Coherent(l) && ReferenceGraphOk(l.ordered) && h < |l.ordered| && l.ordered[h].body.Shadow?
    ensures s < h && l.ordered[h].id in ShadowRefs(l.ordered[s]) && Names(l.ordered, l.ordered[h].id, h)
  {
    s := EveryShadowHasASignal(l, h);
    var h' := ShadowReferenceNames(l, s, l.ordered[h].id);
  }

  lemma ListsAreUnique(l: Ledger, k: nat)
    requires Coherent(l) && k < |l.ordered|
    ensures OrderedUnique(PlanRefs(l.ordered[k])) && OrderedUnique(ShadowRefs(l.ordered[k]))
  {
    assert RecordOk(l.ordered[k]) && ListsOk(l.ordered[k].body);
  }

  lemma PlanRefIsOwn(l: Ledger, i: nat, ref: Ref)
    requires Coherent(l) && ReferenceGraphOk(l.ordered) && i < |l.ordered| && ref in PlanRefs(l.ordered[i])
    ensures ref in IdsBefore(l.ordered, |l.ordered|, CapturePlan)
    ensures forall j :: 0 <= j < |l.ordered| && ref in PlanRefs(l.ordered[j]) ==> j == i
  {
    var p := PlanReferenceNames(l, i, ref);
    IdsBeforeMeans(l.ordered, |l.ordered|, CapturePlan, ref);
    forall j | 0 <= j < |l.ordered| && ref in PlanRefs(l.ordered[j]) ensures j == i { var p' := PlanReferenceNames(l, j, ref); }
  }

  lemma ShadowRefIsOwn(l: Ledger, i: nat, ref: Ref)
    requires Coherent(l) && ReferenceGraphOk(l.ordered) && i < |l.ordered| && ref in ShadowRefs(l.ordered[i])
    ensures ref in IdsBefore(l.ordered, |l.ordered|, ShadowOrderIntent)
    ensures forall j :: 0 <= j < |l.ordered| && ref in ShadowRefs(l.ordered[j]) ==> j == i
  {
    var h := ShadowReferenceNames(l, i, ref);
    IdsBeforeMeans(l.ordered, |l.ordered|, ShadowOrderIntent, ref);
    forall j | 0 <= j < |l.ordered| && ref in ShadowRefs(l.ordered[j]) ensures j == i { var h' := ShadowReferenceNames(l, j, ref); }
  }

  /** The number of plans is the summed length of all signals' plan reference lists. */
  lemma PlanCountIsConserved(l: Ledger)
    requires Coherent(l) && ReferenceGraphOk(l.ordered)
    ensures CountRecords(l.ordered, |l.ordered|, CapturePlan) == TotalRefs(l.ordered, |l.ordered|, PlanRefs)
  {
    var o := l.ordered;
    forall i, ref | 0 <= i < |o| && ref in PlanRefs(o[i]) ensures ref in IdsBefore(o, |o|, CapturePlan) { PlanRefIsOwn(l, i, ref); }
    forall i, j, ref | 0 <= i < j < |o| && ref in PlanRefs(o[i]) ensures ref !in PlanRefs(o[j]) { PlanRefIsOwn(l, i, ref); }
    forall p | 0 <= p < |o| && TypeOf(o[p]) == CapturePlan
      ensures o[p].id in RefsBefore(o, |o|, PlanRefs) && Names(o, o[p].id, p)
    {
      var s := PlanIsReferenced(l, p);
      RefsBeforeMeans(o, |o|, PlanRefs, o[p].id);
    }
    forall k | 0 <= k < |o| ensures OrderedUnique(PlanRefs(o[k])) { ListsAreUnique(l, k); }
    ReferencesCountRecords(o, PlanRefs, CapturePlan);
  }

  /** The number of shadows is the summed length of all signals' shadow reference lists. */
  lemma ShadowCountIsConserved(l: Ledger)
    requires Coherent(l) && ReferenceGraphOk(l.ordered)
    ensures CountRecords(l.ordered, |l.ordered|, ShadowOrderIntent) == TotalRefs(l.ordered, |l.ordered|, ShadowRefs)
  {
    var o := l.ordered;
    forall i, ref | 0 <= i < |o| && ref in ShadowRefs(o[i]) ensures ref in IdsBefore(o, |o|, ShadowOrderIntent) { ShadowRefIsOwn(l, i, ref); }
    forall i, j, ref | 0 <= i < j < |o| && ref in ShadowRefs(o[i]) ensures ref !in ShadowRefs(o[j]) { ShadowRefIsOwn(l, i, ref); }
    forall h | 0 <= h < |o| && TypeOf(o[h]) == ShadowOrderIntent
      ensures o[h].id in RefsBefore(o, |o|, ShadowRefs) && Names(o, o[h].id, h)
    {
      var s := ShadowIsReferenced(l, h);
      RefsBeforeMeans(o, |o|, ShadowRefs, o[h].id);
    }
    forall k | 0 <= k < |o| ensures OrderedUnique(ShadowRefs(o[k])) { ListsAreUnique(l, k); }
    ReferencesCountRecords(o, ShadowRefs, ShadowOrderIntent);
  }
}
