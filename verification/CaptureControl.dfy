/**
The kill / integrity / resume protocol carried by runtime-control events and kill states,
checked in one pass over the ledger in manifest order.
*/
module CaptureControl {
  import opened Wrappers
  import opened CaptureRecords
  import opened CaptureLedger

  predicate IsEvent(r: Record, kind: ControlKind) { r.body.Control? && r.body.control == kind }

  predicate IsKill(r: Record, scope: Ref) { IsEvent(r, KillEngaged) && r.body.scope == scope }

  predicate IsResume(r: Record, scope: Ref) { IsEvent(r, ResumePermitIssued) && r.body.scope == scope }

  predicate UsesPermit(r: Record, ref: Ref) {
    (IsEvent(r, StartPermitIssued) || IsEvent(r, ResumePermitIssued)) && r.body.permit == Some(ref)
  }

  predicate CompletesIntegrity(r: Record, ref: Ref) {
    IsEvent(r, IntegrityCheckCompleted) && r.body.integrity == Some(ref)
  }

  predicate EngagesKill(r: Record, ref: Ref) { IsEvent(r, KillEngaged) && r.body.kill == Some(ref) }

  predicate ResumesKill(r: Record, ref: Ref) { IsEvent(r, ResumePermitIssued) && r.body.kill == Some(ref) }

  /******* What an accepted ledger is, without any running state *******/

  /** Kill k of the scope has been followed by no other kill or resume of that scope before n. */
  ghost predicate KillPending(o: seq<Record>, k: int, n: int, scope: Ref)
    requires n <= |o|
  {
    && 0 <= k < n && IsKill(o[k], scope)
    && forall j :: k < j < n ==> !IsKill(o[j], scope) && !IsResume(o[j], scope)
  }

  ghost predicate RefsAreOpaque(o: seq<Record>, r: Record)
    requires r.body.Control?
  {
    && !IsRecordId(o, r.body.scope)
    && (r.body.permit.Some? ==> !IsRecordId(o, r.body.permit.value))
    && (r.body.integrity.Some? ==> !IsRecordId(o, r.body.integrity.value))
  }

  ghost predicate PermitIsFresh(o: seq<Record>, i: int)
    requires 0 <= i < |o| && o[i].body.Control? && o[i].body.permit.Some?
  {
    forall j :: 0 <= j < i ==> !UsesPermit(o[j], o[i].body.permit.value)
  }

  ghost predicate EngageableKillState(o: seq<Record>, ref: Ref, i: int, t: int) {
    0 <= t < i && Names(o, ref, t) && o[t].body.KillState? && o[t].body.status != ResumePermittedAfterIntegrityCheck
  }

  ghost predicate KillAccepted(o: seq<Record>, i: int)
    requires 0 <= i < |o| && o[i].body.Control? && o[i].body.kill.Some?
  {
    var ref := o[i].body.kill.value;
    && (exists t :: EngageableKillState(o, ref, i, t))
    && (forall j :: 0 <= j < i ==> !EngagesKill(o[j], ref))
    && (forall k :: !KillPending(o, k, i, o[i].body.scope))
  }

  ghost predicate IntegrityAccepted(o: seq<Record>, i: int)
    requires 0 <= i < |o| && o[i].body.Control? && o[i].body.integrity.Some?
  {
    forall j :: 0 <= j < i ==> !CompletesIntegrity(o[j], o[i].body.integrity.value)
  }

  /** The resume answers the scope's pending kill, with a check of the scope strictly in between. */
  ghost predicate Answers(o: seq<Record>, i: int, k: int, p: int)
    requires 0 <= i < |o| && o[i].body.Control? && o[i].body.integrity.Some?
  {
    && KillPending(o, k, i, o[i].body.scope) && o[k].body.kill == o[i].body.kill
    && k < p < i && CompletesIntegrity(o[p], o[i].body.integrity.value) && o[p].body.scope == o[i].body.scope
  }

  ghost predicate EventAccepted(o: seq<Record>, i: int)
    requires 0 <= i < |o| && RecordOk(o[i])
  {
    o[i].body.Control? ==>
      && RefsAreOpaque(o, o[i])
      && match o[i].body.control
         case StartPermitIssued => PermitIsFresh(o, i)
         case KillEngaged => KillAccepted(o, i)
         case IntegrityCheckCompleted => IntegrityAccepted(o, i)
         case ResumePermitIssued => PermitIsFresh(o, i) && exists k, p :: Answers(o, i, k, p)
  }

  ghost predicate DescribesResume(o: seq<Record>, i: int, e: int)
    requires 0 <= i < |o| && o[i].body.KillState? && o[i].body.controlEvent.Some?
  {
    && 0 <= e < i && Names(o, o[i].body.controlEvent.value, e) && IsEvent(o[e], ResumePermitIssued)
    && o[e].body.permit == o[i].body.permit && o[e].body.integrity == o[i].body.integrity
  }

  ghost predicate KillStateAccepted(o: seq<Record>, i: int)
    requires 0 <= i < |o| && RecordOk(o[i])
  {
    o[i].body.KillState? ==>
      match o[i].body.status
      case KilledFailClosed => true
      case ResumeBlockedPendingPermit =>
        o[i].body.integrity.Some? ==> exists p :: 0 <= p < i && CompletesIntegrity(o[p], o[i].body.integrity.value)
      case ResumePermittedAfterIntegrityCheck => exists e :: DescribesResume(o, i, e)
  }

  ghost predicate ControlAccepted(o: seq<Record>)
    requires forall i :: 0 <= i < |o| ==> RecordOk(o[i])
  {
    forall i :: 0 <= i < |o| ==> EventAccepted(o, i) && KillStateAccepted(o, i)
  }

  /******* The source's running state *******/

  datatype Tracker = Tracker(usedPermits: set<Ref>, integrityOwners: map<Ref, (Ref, nat)>, killOwners: map<Ref, Ref>,
                             unresolved: map<Ref, (Ref, nat)>, resolved: set<Ref>, validResumes: set<Key>)

  const EMPTY := Tracker({}, map[], map[], map[], {}, {})

  datatype Fault =
    | ScopeIsRecord | OpaqueRefIsRecord | PermitReused
    | KillTargetInvalid | ResolvedKillEngaged | KillAlreadyOwned | ScopeAlreadyKilled
    | IntegrityReused
    | NoUnresolvedKill | ResolvedKillResumed | NotCurrentKill | KillOfOtherOwner
    | IntegrityNotCompleted | IntegrityOfOtherScope | IntegrityOutOfOrder
    | BlockedIntegrityNotEarlier | ResumeEventInvalid | ResumeRefsDiffer | ResumeWithoutOwningChain

  datatype Outcome = Accepted(tracker: Tracker) | Faulty(fault: Fault)

  /** The tests of one runtime-control event, in the source's order; the updates are in `Track`. */
  function ControlFault(l: Ledger, st: Tracker, r: Record): Option<Fault>
    requires r.body.Control? && RecordOk(r) && VersionKey(r) in l.pos
  {
    var scope := r.body.scope;
    if scope in l.byId then Some(ScopeIsRecord)
    else if r.body.permit.Some? && r.body.permit.value in l.byId then Some(OpaqueRefIsRecord)
    else if r.body.integrity.Some? && r.body.integrity.value in l.byId then Some(OpaqueRefIsRecord)
    else match r.body.control
      case StartPermitIssued => if r.body.permit.value in st.usedPermits then Some(PermitReused) else None
      case KillEngaged => KillFault(l, st, r)
      case IntegrityCheckCompleted => if r.body.integrity.value in st.integrityOwners then Some(IntegrityReused) else None
      case ResumePermitIssued => if r.body.permit.value in st.usedPermits then Some(PermitReused) else ResumeFault(l, st, r)
  }

  function KillFault(l: Ledger, st: Tracker, r: Record): Option<Fault>
    requires IsEvent(r, KillEngaged) && RecordOk(r) && VersionKey(r) in l.pos
  {
    var target := RequireEarlier(l, r.body.kill.value, r);
    if target.None? || !target.value.body.KillState? || target.value.body.status == ResumePermittedAfterIntegrityCheck
    then Some(KillTargetInvalid)
    else if target.value.id in st.resolved then Some(ResolvedKillEngaged)
    else if target.value.id in st.killOwners then Some(KillAlreadyOwned)
    else if r.body.scope in st.unresolved then Some(ScopeAlreadyKilled)
    else None
  }

  function ResumeFault(l: Ledger, st: Tracker, r: Record): Option<Fault>
    requires IsEvent(r, ResumePermitIssued) && RecordOk(r) && VersionKey(r) in l.pos
  {
    var scope, ref := r.body.scope, r.body.integrity.value;
    if scope !in st.unresolved then Some(NoUnresolvedKill) else
    var (kill, killedAt) := st.unresolved[scope];
    if kill in st.resolved then Some(ResolvedKillResumed)
    else if r.body.kill.value != kill then Some(NotCurrentKill)
    else if kill !in st.killOwners || st.killOwners[kill] != scope then Some(KillOfOtherOwner)
    else if ref !in st.integrityOwners then Some(IntegrityNotCompleted)
    else if st.integrityOwners[ref].0 != scope then Some(IntegrityOfOtherScope)
    else if !(killedAt < st.integrityOwners[ref].1 < l.pos[VersionKey(r)]) then Some(IntegrityOutOfOrder)
    else None
  }

  function Track(l: Ledger, st: Tracker, r: Record): Tracker
    requires r.body.Control? && RecordOk(r) && VersionKey(r) in l.pos
  {
    var at := l.pos[VersionKey(r)];
    match r.body.control
    case StartPermitIssued => st.(usedPermits := st.usedPermits + {r.body.permit.value})
    case KillEngaged =>
      st.(killOwners := st.killOwners[r.body.kill.value := r.body.scope],
          unresolved := st.unresolved[r.body.scope := (r.body.kill.value, at)])
    case IntegrityCheckCompleted => st.(integrityOwners := st.integrityOwners[r.body.integrity.value := (r.body.scope, at)])
    case ResumePermitIssued =>
      st.(usedPermits := st.usedPermits + {r.body.permit.value},
          validResumes := st.validResumes + {VersionKey(r)},
          resolved := st.resolved + {r.body.kill.value},
          unresolved := st.unresolved - {r.body.scope})
  }

  ghost predicate Trackable(l: Ledger) {
    forall i :: 0 <= i < |l.ordered| ==> RecordOk(l.ordered[i]) && VersionKey(l.ordered[i]) in l.pos
  }

  ghost function TrackAll(l: Ledger, n: nat): Tracker
    requires n <= |l.ordered| && Trackable(l)
  {
    if n == 0 then EMPTY
    else if l.ordered[n - 1].body.Control? then Track(l, TrackAll(l, n - 1), l.ordered[n - 1])
    else TrackAll(l, n - 1)
  }

  /******* What the running state records *******/

  lemma {:induction false} UsedPermitsMeans(l: Ledger, n: nat, ref: Ref)
    requires Trackable(l) && n <= |l.ordered|
    ensures ref in TrackAll(l, n).usedPermits <==> exists j :: 0 <= j < n && UsesPermit(l.ordered[j], ref)
  {
    if n > 0 {
      UsedPermitsMeans(l, n - 1, ref);
      assert UsesPermit(l.ordered[n - 1], ref) ==> ref in TrackAll(l, n).usedPermits;
    }
  }

  lemma {:induction false} IntegrityOwnersMeans(l: Ledger, n: nat, ref: Ref) returns (p: nat)
    requires Trackable(l) && n <= |l.ordered|
    ensures var owners := TrackAll(l, n).integrityOwners;
            if ref in owners then
              p < n && CompletesIntegrity(l.ordered[p], ref) && owners[ref] == (l.ordered[p].body.scope, l.pos[VersionKey(l.ordered[p])])
            else forall j :: 0 <= j < n ==> !CompletesIntegrity(l.ordered[j], ref)
  {
    p := 0;
    if n > 0 {
      p := IntegrityOwnersMeans(l, n - 1, ref);
      if CompletesIntegrity(l.ordered[n - 1], ref) { p := n - 1; }
    }
  }

  lemma {:induction false} KillOwnersMeans(l: Ledger, n: nat, ref: Ref) returns (k: nat)
    requires Trackable(l) && n <= |l.ordered|
    ensures var owners := TrackAll(l, n).killOwners;
            if ref in owners then k < n && EngagesKill(l.ordered[k], ref) && owners[ref] == l.ordered[k].body.scope
            else forall j :: 0 <= j < n ==> !EngagesKill(l.ordered[j], ref)
  {
    k := 0;
    if n > 0 {
      k := KillOwnersMeans(l, n - 1, ref);
      if EngagesKill(l.ordered[n - 1], ref) { k := n - 1; }
    }
  }

  /** One more record engages the kill, ends it, or leaves it as it was. */
  lemma PendingStep(o: seq<Record>, j: int, n: nat, scope: Ref)
    requires 0 < n <= |o|
    ensures KillPending(o, j, n, scope) <==>
              if IsKill(o[n - 1], scope) then j == n - 1 else !IsResume(o[n - 1], scope) && KillPending(o, j, n - 1, scope)
  {
  }

  lemma UnresolvedStep(l: Ledger, n: nat, scope: Ref)
    requires Trackable(l) && 0 < n <= |l.ordered|
    ensures var r, before, after := l.ordered[n - 1], TrackAll(l, n - 1).unresolved, TrackAll(l, n).unresolved;
            if IsKill(r, scope) then scope in after && after[scope] == (r.body.kill.value, l.pos[VersionKey(r)])
            else if IsResume(r, scope) then scope !in after
            else (scope in after <==> scope in before) && (scope in before ==> after[scope] == before[scope])
  {
  }

  lemma {:induction false} UnresolvedMeans(l: Ledger, n: nat, scope: Ref) returns (k: nat)
    requires Trackable(l) && n <= |l.ordered|
    ensures var unresolved := TrackAll(l, n).unresolved;
            if scope in unresolved then
              KillPending(l.ordered, k, n, scope) && RecordOk(l.ordered[k])
              && unresolved[scope] == (l.ordered[k].body.kill.value, l.pos[VersionKey(l.ordered[k])])
            else forall j :: !KillPending(l.ordered, j, n, scope)
  {
    k := 0;
    if n > 0 {
      k := UnresolvedMeans(l, n - 1, scope);
      UnresolvedStep(l, n, scope);
      if IsKill(l.ordered[n - 1], scope) { k := n - 1; }
      forall j ensures KillPending(l.ordered, j, n, scope) <==>
        if IsKill(l.ordered[n - 1], scope) then j == n - 1 else !IsResume(l.ordered[n - 1], scope) && KillPending(l.ordered, j, n - 1, scope)
      {
        PendingStep(l.ordered, j, n, scope);
      }
    }
  }

  lemma {:induction false} ResolvedMeans(l: Ledger, n: nat, ref: Ref)
    requires Trackable(l) && n <= |l.ordered|
    ensures ref in TrackAll(l, n).resolved <==> exists j :: 0 <= j < n && ResumesKill(l.ordered[j], ref)
  {
    if n > 0 {
      ResolvedMeans(l, n - 1, ref);
      assert ResumesKill(l.ordered[n - 1], ref) ==> ref in TrackAll(l, n).resolved;
    }
  }

  lemma {:induction false} ValidResumesAre(l: Ledger, n: nat, key: Key)
    requires Trackable(l) && n <= |l.ordered|
    ensures key in TrackAll(l, n).validResumes <==>
              exists j :: 0 <= j < n && VersionKey(l.ordered[j]) == key && IsEvent(l.ordered[j], ResumePermitIssued)
  {
    if n > 0 {
      ValidResumesAre(l, n - 1, key);
      assert VersionKey(l.ordered[n - 1]) == key && IsEvent(l.ordered[n - 1], ResumePermitIssued) ==> key in TrackAll(l, n).validResumes;
    }
  }

  lemma ValidResumesMeans(l: Ledger, n: nat, e: nat)
    requires Coherent(l) && n <= |l.ordered| && e < |l.ordered|
    ensures VersionKey(l.ordered[e]) in TrackAll(l, n).validResumes <==> e < n && IsEvent(l.ordered[e], ResumePermitIssued)
  {
    ValidResumesAre(l, n, VersionKey(l.ordered[e]));
    forall j | 0 <= j < n && VersionKey(l.ordered[j]) == VersionKey(l.ordered[e]) ensures j == e { PositionsDistinct(l, j, e); }
  }

  /******* The pass decides exactly the stateless definition *******/

  ghost predicate PrefixAccepted(o: seq<Record>, n: nat) {
    n <= |o| && (forall i :: 0 <= i < |o| ==> RecordOk(o[i])) && forall i :: 0 <= i < n ==> EventAccepted(o, i)
  }

  lemma EngagedOnce(o: seq<Record>, n: nat, a: nat, b: nat, ref: Ref)
    requires PrefixAccepted(o, n) && a < n && b < n && EngagesKill(o[a], ref) && EngagesKill(o[b], ref)
    ensures a == b
  {
    assert EventAccepted(o, a) && EventAccepted(o, b);
  }

  lemma CompletedOnce(o: seq<Record>, n: nat, a: nat, b: nat, ref: Ref)
    requires PrefixAccepted(o, n) && a < n && b < n && CompletesIntegrity(o[a], ref) && CompletesIntegrity(o[b], ref)
    ensures a == b
  {
    assert EventAccepted(o, a) && EventAccepted(o, b);
  }

  /** The kill a resume answers was engaged before it, by the resume's own scope. */
  lemma ResumeAnswers(o: seq<Record>, n: nat, i: nat) returns (k: nat, p: nat)
    requires PrefixAccepted(o, n) && i < n && IsEvent(o[i], ResumePermitIssued)
    ensures RecordOk(o[i]) && Answers(o, i, k, p) && EngagesKill(o[k], o[i].body.kill.value)
  {
    assert EventAccepted(o, i);
    k, p :| Answers(o, i, k, p);
    assert RecordOk(o[k]);
  }

  /** A pending kill has been resumed by nobody. */
  lemma PendingKillIsUnresumed(o: seq<Record>, n: nat, k: nat, scope: Ref, j: nat)
    requires PrefixAccepted(o, n) && KillPending(o, k, n, scope) && j < n && o[k].body.kill.Some?
    ensures !ResumesKill(o[j], o[k].body.kill.value)
  {
    if ResumesKill(o[j], o[k].body.kill.value) {
      var k', p := ResumeAnswers(o, n, j);
      EngagedOnce(o, n, k, k', o[k].body.kill.value);
    }
  }

  lemma KillTargetMeans(l: Ledger, i: nat, ref: Ref)
    requires Coherent(l) && i < |l.ordered|
    ensures var target := RequireEarlier(l, ref, l.ordered[i]);
            (target.Some? && target.value.body.KillState? && target.value.body.status != ResumePermittedAfterIntegrityCheck)
            <==> exists t :: EngageableKillState(l.ordered, ref, i, t)
    ensures var target := RequireEarlier(l, ref, l.ordered[i]); target.Some? ==> target.value.id == ref
  {
    var o := l.ordered;
    var t := RequireEarlierMeans(l, ref, i);
    if RequireEarlier(l, ref, o[i]).Some? {
      forall t' | EngageableKillState(o, ref, i, t') ensures t' == t {}
      assert o[t].body.KillState? && o[t].body.status != ResumePermittedAfterIntegrityCheck ==> EngageableKillState(o, ref, i, t);
    }
  }

  lemma KillUnengagedMeans(l: Ledger, i: nat, ref: Ref)
    requires Coherent(l) && PrefixAccepted(l.ordered, i)
    ensures var st := TrackAll(l, i);
            (ref !in st.resolved && ref !in st.killOwners) <==> forall j :: 0 <= j < i ==> !EngagesKill(l.ordered[j], ref)
  {
    ResolvedMeans(l, i, ref);
    var k := KillOwnersMeans(l, i, ref);
    if ref in TrackAll(l, i).resolved {
      var j :| 0 <= j < i && ResumesKill(l.ordered[j], ref);
      var k', p := ResumeAnswers(l.ordered, i, j);
    }
  }

  lemma KillFaultMeans(l: Ledger, i: nat)
    requires Coherent(l) && i < |l.ordered| && PrefixAccepted(l.ordered, i) && IsEvent(l.ordered[i], KillEngaged)
    ensures KillFault(l, TrackAll(l, i), l.ordered[i]).None? <==> KillAccepted(l.ordered, i)
  {
    var ref := l.ordered[i].body.kill.value;
    KillTargetMeans(l, i, ref);
    KillUnengagedMeans(l, i, ref);
    var u := UnresolvedMeans(l, i, l.ordered[i].body.scope);
  }

  lemma FaultlessResumeAnswers(l: Ledger, st: Tracker, i: nat, k: nat, p: nat)
    requires Coherent(l) && i < |l.ordered| && p < i && RecordOk(l.ordered[i]) && IsEvent(l.ordered[i], ResumePermitIssued)
    requires ResumeFault(l, st, l.ordered[i]).None?
    requires KillPending(l.ordered, k, i, l.ordered[i].body.scope) && RecordOk(l.ordered[k])
    requires st.unresolved[l.ordered[i].body.scope] == (l.ordered[k].body.kill.value, l.pos[VersionKey(l.ordered[k])])
    requires CompletesIntegrity(l.ordered[p], l.ordered[i].body.integrity.value)
    requires st.integrityOwners[l.ordered[i].body.integrity.value] == (l.ordered[p].body.scope, l.pos[VersionKey(l.ordered[p])])
    ensures Answers(l.ordered, i, k, p)
  {
    PositionsDistinct(l, k, p);
  }

  lemma ResumeWithoutFaultAnswers(l: Ledger, i: nat) returns (k: nat, p: nat)
    requires Coherent(l) && i < |l.ordered| && PrefixAccepted(l.ordered, i) && IsEvent(l.ordered[i], ResumePermitIssued)
    requires ResumeFault(l, TrackAll(l, i), l.ordered[i]).None?
    ensures RecordOk(l.ordered[i]) && Answers(l.ordered, i, k, p)
  {
    k := UnresolvedMeans(l, i, l.ordered[i].body.scope);
    p := IntegrityOwnersMeans(l, i, l.ordered[i].body.integrity.value);
    FaultlessResumeAnswers(l, TrackAll(l, i), i, k, p);
  }

  lemma AnsweringResumeHasNoFault(l: Ledger, i: nat, k: nat, p: nat)
    requires Coherent(l) && i < |l.ordered| && PrefixAccepted(l.ordered, i) && IsEvent(l.ordered[i], ResumePermitIssued)
    requires RecordOk(l.ordered[i]) && Answers(l.ordered, i, k, p)
    ensures ResumeFault(l, TrackAll(l, i), l.ordered[i]).None?
  {
    var scope, ref := l.ordered[i].body.scope, l.ordered[i].body.integrity.value;
    var k' := UnresolvedMeans(l, i, scope);
    assert k' == k;
    var p' := IntegrityOwnersMeans(l, i, ref);
    CompletedOnce(l.ordered, i, p, p', ref);
    PendingKillIsNotResolved(l, i, k, scope);
    PositionsDistinct(l, k, p);
    PositionsDistinct(l, p, i);
  }

  /** The "already resolved" and "wrong owner" tests of a resume can never fire. */
  lemma DefensiveResumeTestsNeverFire(l: Ledger, i: nat)
    requires Coherent(l) && i < |l.ordered| && PrefixAccepted(l.ordered, i) && IsEvent(l.ordered[i], ResumePermitIssued)
    ensures ResumeFault(l, TrackAll(l, i), l.ordered[i]) != Some(ResolvedKillResumed)
    ensures ResumeFault(l, TrackAll(l, i), l.ordered[i]) != Some(KillOfOtherOwner)
  {
    var scope := l.ordered[i].body.scope;
    var k := UnresolvedMeans(l, i, scope);
    if scope in TrackAll(l, i).unresolved { PendingKillIsNotResolved(l, i, k, scope); }
  }

  lemma PendingKillIsNotResolved(l: Ledger, i: nat, k: nat, scope: Ref)
    requires Coherent(l) && PrefixAccepted(l.ordered, i) && KillPending(l.ordered, k, i, scope)
    ensures RecordOk(l.ordered[k]) && l.ordered[k].body.kill.Some?
    ensures var st, kill := TrackAll(l, i), l.ordered[k].body.kill.value;
            kill !in st.resolved && kill in st.killOwners && st.killOwners[kill] == scope
  {
    var kill := l.ordered[k].body.kill.value;
    ResolvedMeans(l, i, kill);
    forall j | 0 <= j < i ensures !ResumesKill(l.ordered[j], kill) {
      PendingKillIsUnresumed(l.ordered, i, k, scope, j);
    }
    var k' := KillOwnersMeans(l, i, kill);
    assert EngagesKill(l.ordered[k], kill);
    EngagedOnce(l.ordered, i, k, k', kill);
  }

  predicate OpaqueTestsPass(l: Ledger, r: Record)
    requires r.body.Control?
  {
    && r.body.scope !in l.byId
    && (r.body.permit.Some? ==> r.body.permit.value !in l.byId)
    && (r.body.integrity.Some? ==> r.body.integrity.value !in l.byId)
  }

  lemma OpaqueTestsMean(l: Ledger, r: Record)
    requires Coherent(l) && r.body.Control?
    ensures OpaqueTestsPass(l, r) <==> RefsAreOpaque(l.ordered, r)
  {
    KnownIdMeans(l, r.body.scope);
    if r.body.permit.Some? { KnownIdMeans(l, r.body.permit.value); }
    if r.body.integrity.Some? { KnownIdMeans(l, r.body.integrity.value); }
  }

  lemma ResumeFaultMeans(l: Ledger, i: nat)
    requires Coherent(l) && i < |l.ordered| && PrefixAccepted(l.ordered, i) && IsEvent(l.ordered[i], ResumePermitIssued)
    ensures RecordOk(l.ordered[i])
    ensures ResumeFault(l, TrackAll(l, i), l.ordered[i]).None? <==> exists k, p :: Answers(l.ordered, i, k, p)
  {
    if ResumeFault(l, TrackAll(l, i), l.ordered[i]).None? {
      var k, p := ResumeWithoutFaultAnswers(l, i);
    } else if k, p :| Answers(l.ordered, i, k, p) {
      AnsweringResumeHasNoFault(l, i, k, p);
    }
  }

  lemma ControlFaultMeans(l: Ledger, i: nat)
    requires Coherent(l) && i < |l.ordered| && PrefixAccepted(l.ordered, i) && l.ordered[i].body.Control?
    ensures RecordOk(l.ordered[i])
    ensures ControlFault(l, TrackAll(l, i), l.ordered[i]).None? <==> EventAccepted(l.ordered, i)
  {
    var r := l.ordered[i];
    assert RecordOk(r);
    OpaqueTestsMean(l, r);
    match r.body.control
    case StartPermitIssued => UsedPermitsMeans(l, i, r.body.permit.value);
    case KillEngaged => KillFaultMeans(l, i);
    case IntegrityCheckCompleted => var p := IntegrityOwnersMeans(l, i, r.body.integrity.value);
    case ResumePermitIssued =>
      UsedPermitsMeans(l, i, r.body.permit.value);
      ResumeFaultMeans(l, i);
  }

  /** The second loop: kill states against the finished running state. */
  function KillStateFault(l: Ledger, st: Tracker, r: Record): Option<Fault>
    requires r.body.KillState? && RecordOk(r) && VersionKey(r) in l.pos
  {
    match r.body.status
    case KilledFailClosed => None
    case ResumeBlockedPendingPermit =>
      if r.body.integrity.None? then None
      else if r.body.integrity.value !in st.integrityOwners then Some(BlockedIntegrityNotEarlier)
      else if st.integrityOwners[r.body.integrity.value].1 >= l.pos[VersionKey(r)] then Some(BlockedIntegrityNotEarlier)
      else None
    case ResumePermittedAfterIntegrityCheck =>
      var event := Resolve(l, r.body.controlEvent.value);
      if event.None? || !event.value.body.Control? || VersionKey(event.value) !in l.pos then Some(ResumeEventInvalid)
      else if VersionKey(event.value) !in st.validResumes then Some(ResumeEventInvalid)
      else if l.pos[VersionKey(event.value)] >= l.pos[VersionKey(r)] then Some(ResumeEventInvalid)
      else if r.body.permit != event.value.body.permit || r.body.integrity != event.value.body.integrity then Some(ResumeRefsDiffer)
      else if event.value.body.kill.None? || event.value.body.kill.value !in st.killOwners then Some(ResumeWithoutOwningChain)
      else if st.killOwners[event.value.body.kill.value] != event.value.body.scope then Some(ResumeWithoutOwningChain)
      else if event.value.body.kill.value !in st.resolved then Some(ResumeWithoutOwningChain)
      else None
  }

  lemma ResumeHasOwningChain(l: Ledger, e: nat)
    requires Coherent(l) && PrefixAccepted(l.ordered, |l.ordered|) && e < |l.ordered| && IsEvent(l.ordered[e], ResumePermitIssued)
    ensures RecordOk(l.ordered[e]) && l.ordered[e].body.kill.Some?
    ensures var st, kill := TrackAll(l, |l.ordered|), l.ordered[e].body.kill.value;
            kill in st.killOwners && st.killOwners[kill] == l.ordered[e].body.scope && kill in st.resolved
  {
    var kill := l.ordered[e].body.kill.value;
    var k, p := ResumeAnswers(l.ordered, |l.ordered|, e);
    var k' := KillOwnersMeans(l, |l.ordered|, kill);
    EngagedOnce(l.ordered, |l.ordered|, k, k', kill);
    ResolvedMeans(l, |l.ordered|, kill);
    assert ResumesKill(l.ordered[e], kill);
  }

  lemma KillStateFaultMeans(l: Ledger, i: nat)
    requires Coherent(l) && PrefixAccepted(l.ordered, |l.ordered|) && i < |l.ordered| && l.ordered[i].body.KillState?
    ensures var fault := KillStateFault(l, TrackAll(l, |l.ordered|), l.ordered[i]);
            && (fault.None? <==> KillStateAccepted(l.ordered, i))
            && fault != Some(ResolvedKillResumed) && fault != Some(KillOfOtherOwner) && fault != Some(ResumeWithoutOwningChain)
  {
    var o, r := l.ordered, l.ordered[i];
    if r.body.status == ResumeBlockedPendingPermit && r.body.integrity.Some? {
      var p := IntegrityOwnersMeans(l, |o|, r.body.integrity.value);
      if r.body.integrity.value in TrackAll(l, |o|).integrityOwners {
        PositionsDistinct(l, p, i);
        forall p' | 0 <= p' < |o| && CompletesIntegrity(o[p'], r.body.integrity.value) ensures p' == p {
          CompletedOnce(o, |o|, p, p', r.body.integrity.value);
        }
      }
    } else if r.body.status == ResumePermittedAfterIntegrityCheck {
      var e := ResolveMeans(l, r.body.controlEvent.value);
      if Resolve(l, r.body.controlEvent.value).Some? {
        ValidResumesMeans(l, |o|, e);
        PositionsDistinct(l, e, i);
        if IsEvent(o[e], ResumePermitIssued) { ResumeHasOwningChain(l, e); }
        forall e' | DescribesResume(o, i, e') ensures e' == e {}
        if KillStateFault(l, TrackAll(l, |o|), r).None? { assert DescribesResume(o, i, e); }
      }
    }
  }

  /** The tests of one runtime-control event find a fault exactly when the event is not acceptable. */
  method ValidateControlEvent(l: Ledger, st: Tracker, i: nat) returns (fault: Option<Fault>)
    requires Coherent(l) && i < |l.ordered| && PrefixAccepted(l.ordered, i) && l.ordered[i].body.Control? && st == TrackAll(l, i)
    ensures RecordOk(l.ordered[i]) && (fault.None? <==> EventAccepted(l.ordered, i))
    ensures fault.Some? ==> fault.value !in {ResolvedKillResumed, KillOfOtherOwner, ResumeWithoutOwningChain}
  {
    ControlFaultMeans(l, i);
    fault := ControlFault(l, st, l.ordered[i]);
    if IsEvent(l.ordered[i], ResumePermitIssued) { DefensiveResumeTestsNeverFire(l, i); }
  }

  lemma PrefixGrows(o: seq<Record>, n: nat)
    requires PrefixAccepted(o, n) && n < |o|
    ensures RecordOk(o[n]) && (PrefixAccepted(o, n + 1) <==> EventAccepted(o, n))
  {
  }

  /** The first loop: runtime-control events in manifest order. */
  method ValidateControlEvents(l: Ledger) returns (outcome: Outcome)
    requires Coherent(l)
    ensures outcome.Accepted? <==> PrefixAccepted(l.ordered, |l.ordered|)
    ensures outcome.Accepted? ==> outcome.tracker == TrackAll(l, |l.ordered|)
    ensures outcome.Faulty? ==> outcome.fault !in {ResolvedKillResumed, KillOfOtherOwner, ResumeWithoutOwningChain}
  {
    var st := EMPTY;
    var i := 0;
    while i < |l.ordered|
      invariant 0 <= i <= |l.ordered|
      invariant PrefixAccepted(l.ordered, i) && st == TrackAll(l, i)
    {
      PrefixGrows(l.ordered, i);
      var r := l.ordered[i];
      if r.body.Control? {
        var fault := ValidateControlEvent(l, st, i);
        if fault.Some? { return Faulty(fault.value); }
        st := Track(l, st, r);
      }
      i := i + 1;
    }
    return Accepted(st);
  }

  /**
  `_validate_runtime_control_graph`: accepts exactly the stateless definition, and its
  "already resolved", "wrong owner" and "lacks owning control chain" tests never fire.
  */
  method ValidateRuntimeControlGraph(l: Ledger) returns (outcome: Outcome)
    requires Coherent(l)
    ensures outcome.Accepted? <==> ControlAccepted(l.ordered)
    ensures outcome.Faulty? ==> outcome.fault !in {ResolvedKillResumed, KillOfOtherOwner, ResumeWithoutOwningChain}
  {
    outcome := ValidateControlEvents(l);
    if outcome.Faulty? { return; }
    var st := outcome.tracker;
    var i := 0;
    while i < |l.ordered|
      invariant 0 <= i <= |l.ordered|
      invariant forall j :: 0 <= j < i ==> KillStateAccepted(l.ordered, j)
    {
      var r := l.ordered[i];
      if r.body.KillState? {
        KillStateFaultMeans(l, i);
        var fault := KillStateFault(l, st, r);
        if fault.Some? { return Faulty(fault.value); }
      }
      i := i + 1;
    }
  }

  /******* The protocol that every accepted ledger follows *******/

  ghost predicate RecordsOkIn(o: seq<Record>) { forall i :: 0 <= i < |o| ==> RecordOk(o[i]) }

  /** A resume follows a kill of its scope with its own integrity check strictly in between. */
  lemma ResumeFollowsKillAndCheck(o: seq<Record>, i: nat) returns (k: nat, p: nat)
    requires RecordsOkIn(o) && ControlAccepted(o) && i < |o| && IsEvent(o[i], ResumePermitIssued)
    ensures k < p < i
    ensures IsKill(o[k], o[i].body.scope) && o[k].body.kill == o[i].body.kill
    ensures IsEvent(o[p], IntegrityCheckCompleted) && o[p].body.scope == o[i].body.scope && o[p].body.integrity == o[i].body.integrity
    ensures forall j :: k < j < i ==> !IsKill(o[j], o[i].body.scope) && !IsResume(o[j], o[i].body.scope)
  {
    k, p := ResumeAnswers(o, |o|, i);
  }

  /** No permit, kill state or integrity check ever serves two resumes. */
  lemma NothingServesTwoResumes(o: seq<Record>, i: nat, j: nat)
    requires RecordsOkIn(o) && ControlAccepted(o) && i < j < |o|
    requires IsEvent(o[i], ResumePermitIssued) && IsEvent(o[j], ResumePermitIssued)
    ensures o[i].body.permit != o[j].body.permit
    ensures o[i].body.kill != o[j].body.kill
    ensures o[i].body.integrity != o[j].body.integrity
  {
    assert EventAccepted(o, i) && EventAccepted(o, j);
    var k, p := ResumeAnswers(o, |o|, i);
    var k', p' := ResumeAnswers(o, |o|, j);
    assert UsesPermit(o[i], o[i].body.permit.value);
    if o[i].body.kill == o[j].body.kill {
      EngagedOnce(o, |o|, k, k', o[i].body.kill.value);
    }
    if o[i].body.integrity == o[j].body.integrity {
      CompletedOnce(o, |o|, p, p', o[i].body.integrity.value);
    }
  }

  predicate IssuesPermit(r: Record) { IsEvent(r, StartPermitIssued) || IsEvent(r, ResumePermitIssued) }

  /** No permit starts or resumes twice, whatever the scopes; no kill state is engaged and no check completed twice. */
  lemma ControlIsSingleUse(o: seq<Record>, i: nat, j: nat)
    requires RecordsOkIn(o) && ControlAccepted(o) && i < j < |o|
    ensures IssuesPermit(o[i]) && IssuesPermit(o[j]) ==> o[i].body.permit != o[j].body.permit
    ensures IsEvent(o[i], KillEngaged) && IsEvent(o[j], KillEngaged) ==> o[i].body.kill != o[j].body.kill
    ensures IsEvent(o[i], IntegrityCheckCompleted) && IsEvent(o[j], IntegrityCheckCompleted) ==> o[i].body.integrity != o[j].body.integrity
  {
    assert EventAccepted(o, i) && EventAccepted(o, j) && RecordOk(o[i]) && RecordOk(o[j]);
    if IssuesPermit(o[i]) { assert UsesPermit(o[i], o[i].body.permit.value); }
    if IsEvent(o[i], KillEngaged) { assert EngagesKill(o[i], o[i].body.kill.value); }
    if IsEvent(o[i], IntegrityCheckCompleted) { assert CompletesIntegrity(o[i], o[i].body.integrity.value); }
  }

  /** Scopes, permits and integrity checks are opaque: none of them is the ID of a record of the ledger. */
  lemma ControlRefsAreNoRecords(o: seq<Record>, i: nat, u: nat)
    requires RecordsOkIn(o) && ControlAccepted(o) && i < |o| && u < |o| && o[i].body.Control?
    ensures o[u].id != o[i].body.scope && Some(o[u].id) != o[i].body.permit && Some(o[u].id) != o[i].body.integrity
  {
    assert EventAccepted(o, i) && IsRecordId(o, o[u].id);
  }

  function CountKills(o: seq<Record>, n: nat, scope: Ref): nat
    requires n <= |o|
  {
    if n == 0 then 0 else CountKills(o, n - 1, scope) + if IsKill(o[n - 1], scope) then 1 else 0
  }

  function CountResumes(o: seq<Record>, n: nat, scope: Ref): nat
    requires n <= |o|
  {
    if n == 0 then 0 else CountResumes(o, n - 1, scope) + if IsResume(o[n - 1], scope) then 1 else 0
  }

  ghost predicate SomePending(o: seq<Record>, n: nat, scope: Ref)
    requires n <= |o|
  {
    exists k :: KillPending(o, k, n, scope)
  }

  lemma PendingPersists(o: seq<Record>, m: nat, n: nat, scope: Ref)
    requires n == m + 1 <= |o| && !IsKill(o[m], scope) && !IsResume(o[m], scope)
    ensures SomePending(o, m, scope) <==> SomePending(o, n, scope)
  {
    if k :| KillPending(o, k, m, scope) { assert KillPending(o, k, n, scope); }
    if k :| KillPending(o, k, n, scope) { assert KillPending(o, k, m, scope); }
  }

  lemma KillOpens(o: seq<Record>, m: nat, n: nat, scope: Ref)
    requires RecordsOkIn(o) && ControlAccepted(o) && n == m + 1 <= |o| && IsKill(o[m], scope)
    ensures !SomePending(o, m, scope) && SomePending(o, n, scope)
  {
    assert EventAccepted(o, m);
    assert KillPending(o, m, n, scope);
  }

  lemma ResumeCloses(o: seq<Record>, m: nat, n: nat, scope: Ref)
    requires RecordsOkIn(o) && ControlAccepted(o) && n == m + 1 <= |o| && IsResume(o[m], scope)
    ensures SomePending(o, m, scope) && !SomePending(o, n, scope)
  {
    var k, p := ResumeAnswers(o, |o|, m);
    assert KillPending(o, k, m, scope);
  }

  /** Strict alternation: at every point of the ledger a scope is one kill ahead or level. */
  lemma {:induction false} ScopesAlternate(o: seq<Record>, n: nat, scope: Ref)
    requires RecordsOkIn(o) && ControlAccepted(o) && n <= |o|
    ensures CountKills(o, n, scope) - CountResumes(o, n, scope) == if SomePending(o, n, scope) then 1 else 0
  {
    if n > 0 {
      ScopesAlternate(o, n - 1, scope);
      if IsKill(o[n - 1], scope) {
        KillOpens(o, n - 1, n, scope);
      } else if IsResume(o[n - 1], scope) {
        ResumeCloses(o, n - 1, n, scope);
      } else {
        PendingPersists(o, n - 1, n, scope);
      }
    }
  }

  /** A permitted kill state is backed by a kill, a check and a resume, in that order. */
  lemma PermittedStateIsBacked(o: seq<Record>, i: nat) returns (k: nat, p: nat, e: nat)
    requires RecordsOkIn(o) && ControlAccepted(o) && i < |o|
    requires o[i].body.KillState? && o[i].body.status == ResumePermittedAfterIntegrityCheck
    ensures k < p < e < i
    ensures IsEvent(o[e], ResumePermitIssued) && o[e].body.permit == o[i].body.permit && o[e].body.integrity == o[i].body.integrity
    ensures IsKill(o[k], o[e].body.scope) && o[k].body.kill == o[e].body.kill
    ensures IsEvent(o[p], IntegrityCheckCompleted) && o[p].body.scope == o[e].body.scope && o[p].body.integrity == o[e].body.integrity
  {
    assert KillStateAccepted(o, i) && RecordOk(o[i]);
    e :| DescribesResume(o, i, e);
    k, p := ResumeFollowsKillAndCheck(o, e);
  }

  /** Acceptance is closed under prefixes of the ledger. */
  lemma AcceptanceIsPrefixClosed(o: seq<Record>, n: nat)
    requires RecordsOkIn(o) && ControlAccepted(o) && n <= |o|
    ensures ControlAccepted(o[..n])
  {
    var q := o[..n];
    forall i | 0 <= i < n ensures EventAccepted(q, i) {
      assert EventAccepted(o, i);
      EventAcceptedInPrefix(o, n, i);
    }
    forall i | 0 <= i < n ensures KillStateAccepted(q, i) {
      assert KillStateAccepted(o, i) && RecordOk(o[i]) && q[i] == o[i];
      if q[i].body.KillState? && q[i].body.status == ResumePermittedAfterIntegrityCheck {
        var e :| DescribesResume(o, i, e);
        NamesInPrefix(o, n, q[i].body.controlEvent.value, e);
        assert DescribesResume(q, i, e);
      } else if q[i].body.KillState? && q[i].body.status == ResumeBlockedPendingPermit && q[i].body.integrity.Some? {
        var p :| 0 <= p < i && CompletesIntegrity(o[p], o[i].body.integrity.value);
        assert CompletesIntegrity(q[p], q[i].body.integrity.value);
      }
    }
  }

  lemma NamesInPrefix(o: seq<Record>, n: nat, ref: Ref, t: int)
    requires n <= |o| && Names(o, ref, t) && t < n
    ensures Names(o[..n], ref, t)
  {
  }

  lemma EventAcceptedInPrefix(o: seq<Record>, n: nat, i: nat)
    requires RecordsOkIn(o) && n <= |o| && i < n && EventAccepted(o, i)
    ensures EventAccepted(o[..n], i)
  {
    var q := o[..n];
    if o[i].body.Control? {
      assert forall ref :: IsRecordId(q, ref) ==> IsRecordId(o, ref) by {
        forall ref | IsRecordId(q, ref) ensures IsRecordId(o, ref) {
          var u :| 0 <= u < n && q[u].id == ref;
          assert o[u].id == ref;
        }
      }
      forall k, m | m <= n && KillPending(q, k, m, q[i].body.scope) ensures KillPending(o, k, m, q[i].body.scope) {
        forall j | k < j < m ensures !IsKill(o[j], q[i].body.scope) && !IsResume(o[j], q[i].body.scope) { assert q[j] == o[j]; }
      }
      if o[i].body.control == KillEngaged {
        var ref := o[i].body.kill.value;
        var t :| EngageableKillState(o, ref, i, t);
        NamesInPrefix(o, n, ref, t);
        assert EngageableKillState(q, ref, i, t);
      } else if o[i].body.control == ResumePermitIssued {
        var k, p :| Answers(o, i, k, p);
        assert Answers(q, i, k, p);
      }
    }
  }
}
