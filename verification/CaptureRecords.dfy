/**
The eight kinds of Capture records and what their model validators demand of a single one.

Fields that no validator reads (timestamps, display names, free text) are not modelled.
`id` and `hash` together are the record's version key; how SHA-256 computes them from the
content is not part of the model.
*/
module CaptureRecords {
  import opened Wrappers
  import opened Text

  type Ref = string

  datatype Key = Key(id: Ref, hash: Ref)

  datatype IdentityDomain = SignalPlanShadowProducer | MarketPathSource | HumanOperator | RuntimeControlActor

  datatype Identity = Identity(domain: IdentityDomain, identityHash: Ref)

  datatype SignalKind = Long | Short | Wait

  datatype RecordType =
    | SignalCapture | CapturePlan | ShadowOrderIntent | HumanObservation
    | MarketPathEvidence | CaptureLifecycleEvent | RuntimeControlEvent | CaptureKillState

  datatype LifecycleKind = RecordCreated | RecordCorrected | RecordSuperseded | WindowFinalized

  datatype ControlKind = StartPermitIssued | KillEngaged | ResumePermitIssued | IntegrityCheckCompleted

  datatype KillStatus = KilledFailClosed | ResumeBlockedPendingPermit | ResumePermittedAfterIntegrityCheck

  datatype Body =
    | Signal(kind: SignalKind, evidence: seq<Ref>, plans: seq<Ref>, shadows: seq<Ref>)
    | Plan(signal: Ref, planKind: SignalKind, evidence: seq<Ref>)
    | Shadow(plan: Ref, evidence: seq<Ref>)
    | Observation(observed: seq<Ref>)
    | Market(series: Ref, start: int, end: int, chunk: int, missing: seq<(int, int)>, sources: seq<Ref>)
    | Lifecycle(lifecycle: LifecycleKind, subject: Ref, subjectType: RecordType, references: seq<Ref>)
    | Control(control: ControlKind, scope: Ref, permit: Option<Ref>, integrity: Option<Ref>, kill: Option<Ref>)
    | KillState(status: KillStatus, permit: Option<Ref>, integrity: Option<Ref>, controlEvent: Option<Ref>)

  datatype Record = Record(id: Ref, hash: Ref, producer: Identity,
                           correction: Option<Ref>, supersedes: Option<Ref>, body: Body)

  function VersionKey(r: Record): Key { Key(r.id, r.hash) }

  function TypeOf(r: Record): RecordType {
    match r.body
    case Signal(_, _, _, _) => SignalCapture
    case Plan(_, _, _) => CapturePlan
    case Shadow(_, _) => ShadowOrderIntent
    case Observation(_) => HumanObservation
    case Market(_, _, _, _, _, _) => MarketPathEvidence
    case Lifecycle(_, _, _, _) => CaptureLifecycleEvent
    case Control(_, _, _, _, _) => RuntimeControlEvent
    case KillState(_, _, _, _) => CaptureKillState
  }

  /******* Ordered reference lists *******/

  /** A list that is its own sorted, duplicate-free form. */
  predicate OrderedUnique(refs: seq<Ref>) {
    forall i, j :: 0 <= i < j < |refs| ==> StringLess(refs[i], refs[j])
  }

  lemma OrderedUniqueIsDuplicateFree(refs: seq<Ref>)
    requires OrderedUnique(refs)
    ensures forall i, j :: 0 <= i < j < |refs| ==> refs[i] != refs[j]
  {
    forall i, j | 0 <= i < j < |refs| ensures refs[i] != refs[j] {
      StringLessIrreflexive(refs[i]);
    }
  }

  /******* One record on its own *******/

  predicate RefOk(ref: Ref) { 1 <= |ref| <= 160 }

  predicate OptionalRefOk(ref: Option<Ref>) { ref.Some? ==> RefOk(ref.value) }

  predicate RefsOk(refs: seq<Ref>) {
    OrderedUnique(refs) && forall i :: 0 <= i < |refs| ==> RefOk(refs[i])
  }

  predicate RequiredDomain(b: Body, domain: IdentityDomain) {
    match b
    case Market(_, _, _, _, _, _) => domain == MarketPathSource
    case Observation(_) => domain == HumanOperator
    case Control(_, _, _, _, _) | KillState(_, _, _, _) => domain == RuntimeControlActor
    case _ => domain == SignalPlanShadowProducer
  }

  /** Gaps inside a finalized window: non-empty, inside it, ordered and non-overlapping. */
  predicate MissingRangesOk(missing: seq<(int, int)>, start: int, end: int) {
    && (forall i :: 0 <= i < |missing| ==> start <= missing[i].0 < missing[i].1 <= end)
    && (forall i :: 0 < i < |missing| ==> missing[i - 1].1 <= missing[i].0)
  }

  predicate LifecycleShapeOk(b: Body, correction: Option<Ref>, supersedes: Option<Ref>)
    requires b.Lifecycle?
  {
    match b.lifecycle
    case RecordCreated => correction.None? && supersedes.None? && b.references == []
    case RecordCorrected => correction.Some? && supersedes.None? && b.references == [correction.value]
    case RecordSuperseded => supersedes.Some? && correction.None? && b.references == [supersedes.value]
    case WindowFinalized =>
      b.subjectType == MarketPathEvidence && correction.None? && supersedes.None? && b.references == []
  }

  predicate ControlShapeOk(b: Body)
    requires b.Control?
  {
    match b.control
    case StartPermitIssued => b.permit.Some? && b.integrity.None? && b.kill.None?
    case KillEngaged => b.permit.None? && b.integrity.None? && b.kill.Some?
    case IntegrityCheckCompleted => b.permit.None? && b.integrity.Some? && b.kill.None?
    case ResumePermitIssued => b.permit.Some? && b.integrity.Some? && b.kill.Some?
  }

  predicate KillShapeOk(b: Body)
    requires b.KillState?
  {
    match b.status
    case KilledFailClosed => b.permit.None? && b.integrity.None? && b.controlEvent.None?
    case ResumeBlockedPendingPermit => b.permit.None? && b.controlEvent.None?
    case ResumePermittedAfterIntegrityCheck => b.permit.Some? && b.integrity.Some? && b.controlEvent.Some?
  }

  /** The record's own reference lists and ranges. */
  predicate ListsOk(b: Body) {
    match b
    case Signal(kind, evidence, plans, shadows) =>
      && RefsOk(evidence) && RefsOk(plans) && RefsOk(shadows)
      && (kind == Wait ==> |plans| <= 1 && shadows == [])
    case Plan(signal, _, evidence) => RefOk(signal) && RefsOk(evidence) && evidence != []
    case Shadow(plan, evidence) => RefOk(plan) && RefsOk(evidence) && evidence != []
    case Observation(observed) => RefsOk(observed) && observed != []
    case Market(series, start, end, chunk, missing, sources) =>
      && RefOk(series) && 0 <= start < end && 0 <= chunk
      && MissingRangesOk(missing, start, end) && RefsOk(sources) && sources != []
    case Lifecycle(_, subject, subjectType, references) =>
      && RefOk(subject) && RefsOk(references)
      && subjectType !in {CaptureLifecycleEvent, RuntimeControlEvent, CaptureKillState}
    case Control(_, scope, permit, integrity, kill) =>
      RefOk(scope) && OptionalRefOk(permit) && OptionalRefOk(integrity) && OptionalRefOk(kill)
    case KillState(_, permit, integrity, controlEvent) =>
      OptionalRefOk(permit) && OptionalRefOk(integrity) && OptionalRefOk(controlEvent)
  }

  /** Which optional references each kind of event and state carries. */
  predicate ShapeOk(r: Record) {
    match r.body
    case Lifecycle(_, _, _, _) => LifecycleShapeOk(r.body, r.correction, r.supersedes)
    case Control(_, _, _, _, _) => r.correction.None? && r.supersedes.None? && ControlShapeOk(r.body)
    case KillState(_, _, _, _) => r.correction.None? && r.supersedes.None? && KillShapeOk(r.body)
    case _ => true
  }

  /** What pydantic and the record's own model validator accept. */
  predicate RecordOk(r: Record) {
    && RequiredDomain(r.body, r.producer.domain)
    && OptionalRefOk(r.correction) && OptionalRefOk(r.supersedes)
    && ShapeOk(r) && ListsOk(r.body)
  }

  /** The record tuple is accepted: every record is valid and no version key repeats. */
  predicate RecordsOk(records: seq<Record>) {
    && (forall i :: 0 <= i < |records| ==> RecordOk(records[i]))
    && (forall i, j :: 0 <= i < j < |records| ==> VersionKey(records[i]) != VersionKey(records[j]))
  }

  /** `_validated_capture_records`, with its set of seen version keys. */
  method ValidateRecords(records: seq<Record>) returns (ok: bool)
    ensures ok <==> RecordsOk(records)
  {
    var seen: set<Key> := {};
    var n := 0;
    while n < |records|
      invariant 0 <= n <= |records|
      invariant forall i :: 0 <= i < n ==> RecordOk(records[i])
      invariant forall i, j :: 0 <= i < j < n ==> VersionKey(records[i]) != VersionKey(records[j])
      invariant forall k :: k in seen <==> exists i :: 0 <= i < n && VersionKey(records[i]) == k
    {
      if !RecordOk(records[n]) || VersionKey(records[n]) in seen { return false; }
      seen := seen + {VersionKey(records[n])};
      n := n + 1;
    }
    return true;
  }
}
