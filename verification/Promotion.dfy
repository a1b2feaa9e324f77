/**
Promotion records: one append-only chain a strategy subject, from DRAFT towards the
Mainnet pilot, and the execution authority such a chain confers at an instant.
*/
module Promotion {
  import opened Wrappers

  datatype State =
    | Draft | Shadow | HumanReview | TestnetEligible
    | PilotEligible | PilotActive | Quarantined | Retired

  datatype Environment = ReadOnly | ShadowEnv | HumanReviewEnv | Testnet | MainnetPilot

  predicate Allowed(state: State, env: Environment) {
    match state
    case Draft => env == ReadOnly || env == ShadowEnv
    case Shadow => env == ShadowEnv
    case HumanReview => env == HumanReviewEnv
    case TestnetEligible => env == Testnet
    case PilotEligible => env == MainnetPilot
    case PilotActive => env == MainnetPilot
    case Quarantined => true
    case Retired => true
  }

  predicate Legal(from: State, to: State) {
    match from
    case Draft => to == Shadow
    case Shadow => to == HumanReview || to == Quarantined || to == Retired
    case HumanReview => to == TestnetEligible || to == Quarantined || to == Retired
    case TestnetEligible => to == PilotEligible || to == Quarantined || to == Retired
    case PilotEligible => to == PilotActive || to == Quarantined || to == Retired
    case PilotActive => to == Quarantined || to == Retired
    case Quarantined => to == Retired
    case Retired => false
  }

  /** What a chain is about; every record repeats it. */
  datatype Subject = Subject(playbook: string, strategy: string, parameter: string, feature: string, label_: string,
                             feedId: string, feedVersion: string, feedHash: string)

  datatype Record = Record(
    id: string, hash: string, subject: Subject, state: State, environment: Environment,
    predecessorId: Option<string>, predecessorHash: Option<string>, predecessorState: Option<State>,
    evidence: seq<string>, reviewed: int, activated: Option<int>, expires: Option<int>, revoked: Option<int>)

  /** When the record takes effect. */
  function Start(r: Record): int { if r.activated.Some? then r.activated.value else r.reviewed }

  predicate AfterIfSet(t: Option<int>, bound: int) { t.Some? ==> t.value > bound }

  /** `validate_promotion` */
  predicate RecordOk(r: Record) {
    && Allowed(r.state, r.environment)
    && (if r.state == Draft then
          r.predecessorId.None? && r.predecessorHash.None? && r.predecessorState.None? && r.activated.None?
        else
          && r.predecessorId.Some? && r.predecessorHash.Some? && r.predecessorState.Some?
          && r.evidence != [] && r.activated.Some?)
    && (r.activated.Some? ==> r.reviewed <= r.activated.value)
    && AfterIfSet(r.expires, Start(r)) && AfterIfSet(r.revoked, Start(r))
  }

  /******* One transition *******/

  /** The record continues the chain that ends in `previous`, or opens one. */
  predicate Follows(previous: Option<Record>, current: Record) {
    match previous
    case None => current.state == Draft
    case Some(p) =>
      && Legal(p.state, current.state) && current.subject == p.subject
      && current.predecessorId == Some(p.id) && current.predecessorHash == Some(p.hash)
      && current.predecessorState == Some(p.state) && current.id != p.id
      && Start(p) <= current.reviewed
      && AfterIfSet(p.expires, Start(current)) && AfterIfSet(p.revoked, Start(current))
  }

  datatype Failure =
    | InvalidRecord | NotDraft | DraftBindsPredecessor | RetiredIsTerminal | QuarantineRecovery | SameRecord
    | WrongPredecessorId | WrongPredecessorHash | PredecessorStateMismatch | IllegalTransition
    | SubjectMismatch(field: nat) | ReviewPredates | PredecessorExpired | PredecessorRevoked

  function SubjectField(s: Subject, i: nat): string
    requires i < 8
  {
    [s.playbook, s.strategy, s.parameter, s.feature, s.label_, s.feedId, s.feedVersion, s.feedHash][i]
  }

  lemma SubjectIsItsFields(a: Subject, b: Subject)
    ensures a == b <==> forall i :: 0 <= i < 8 ==> SubjectField(a, i) == SubjectField(b, i)
  {
    if forall i :: 0 <= i < 8 ==> SubjectField(a, i) == SubjectField(b, i) {
      assert SubjectField(a, 0) == SubjectField(b, 0) && SubjectField(a, 1) == SubjectField(b, 1);
      assert SubjectField(a, 2) == SubjectField(b, 2) && SubjectField(a, 3) == SubjectField(b, 3);
      assert SubjectField(a, 4) == SubjectField(b, 4) && SubjectField(a, 5) == SubjectField(b, 5);
      assert SubjectField(a, 6) == SubjectField(b, 6) && SubjectField(a, 7) == SubjectField(b, 7);
    }
  }

  method CompareSubjects(current: Subject, previous: Subject) returns (failures: seq<Failure>)
    ensures failures == [] <==> current == previous
  {
    failures := [];
    var i := 0;
    while i < 8
      invariant 0 <= i <= 8
      invariant failures == [] <==> forall j :: 0 <= j < i ==> SubjectField(current, j) == SubjectField(previous, j)
    {
      if SubjectField(current, i) != SubjectField(previous, i) { failures := failures + [SubjectMismatch(i)]; }
      i := i + 1;
    }
    SubjectIsItsFields(current, previous);
  }

  /** The time tests of a transition, over the review and the activation. */
  method CompareTimes(previous: Record, current: Record) returns (failures: seq<Failure>)
    requires RecordOk(current)
    ensures failures == [] <==>
      && Start(previous) <= current.reviewed
      && AfterIfSet(previous.expires, Start(current)) && AfterIfSet(previous.revoked, Start(current))
  {
    failures := if current.reviewed < Start(previous) then [ReviewPredates] else [];
    var times := [current.reviewed] + if current.activated.Some? then [current.activated.value] else [];
    assert times[|times| - 1] == Start(current);
    if previous.expires.Some? && exists i :: 0 <= i < |times| && times[i] >= previous.expires.value {
      failures := failures + [PredecessorExpired];
    }
    if previous.revoked.Some? && exists i :: 0 <= i < |times| && times[i] >= previous.revoked.value {
      failures := failures + [PredecessorRevoked];
    }
  }

  /** `validate_promotion_transition`: no failure is collected exactly when the record follows. */
  method ValidateTransition(previous: Option<Record>, current: Record) returns (failures: seq<Failure>)
    ensures failures == [] <==>
      RecordOk(current) && (previous.Some? ==> RecordOk(previous.value)) && Follows(previous, current)
  {
    if !RecordOk(current) || (previous.Some? && !RecordOk(previous.value)) { return [InvalidRecord]; }
    failures := [];
    if previous.None? {
      if current.state != Draft { failures := failures + [NotDraft]; }
      if current.predecessorId.Some? || current.predecessorHash.Some? || current.predecessorState.Some? {
        failures := failures + [DraftBindsPredecessor];
      }
      return;
    }
    var p := previous.value;
    if p.state == Retired { failures := failures + [RetiredIsTerminal]; }
    if p.state == Quarantined && current.state != Retired { failures := failures + [QuarantineRecovery]; }
    if current.id == p.id { failures := failures + [SameRecord]; }
    if current.predecessorId != Some(p.id) { failures := failures + [WrongPredecessorId]; }
    if current.predecessorHash != Some(p.hash) { failures := failures + [WrongPredecessorHash]; }
    if current.predecessorState != Some(p.state) { failures := failures + [PredecessorStateMismatch]; }
    if !Legal(p.state, current.state) { failures := failures + [IllegalTransition]; }
    var subjects := CompareSubjects(current.subject, p.subject);
    var times := CompareTimes(p, current);
    failures := failures + subjects + times;
  }

  /******* The chain *******/

  function Before(records: seq<Record>, i: nat): Option<Record>
    requires i < |records|
  {
    if i == 0 then None else Some(records[i - 1])
  }

  ghost predicate NewIn(records: seq<Record>, i: nat)
    requires i < |records|
  {
    forall j :: 0 <= j < i ==> records[j].id != records[i].id && records[j].hash != records[i].hash
  }

  ghost predicate LinkOk(records: seq<Record>, i: nat)
    requires i < |records|
  {
    RecordOk(records[i]) && NewIn(records, i) && Follows(Before(records, i), records[i])
  }

  ghost predicate ChainOk(records: seq<Record>) {
    records != [] && forall i {:trigger LinkOk(records, i)} :: 0 <= i < |records| ==> LinkOk(records, i)
  }

  /** `validate_promotion_chain`, with its sets of seen ids and hashes. */
  method ValidateChain(records: seq<Record>) returns (ok: bool)
    ensures ok <==> ChainOk(records)
  {
    if records == [] { return false; }
    if !(forall i :: 0 <= i < |records| ==> RecordOk(records[i])) {
      ghost var i :| 0 <= i < |records| && !RecordOk(records[i]);
      assert !LinkOk(records, i);
      return false;
    }
    var ids: set<string>, hashes: set<string> := {}, {};
    var previous: Option<Record> := None;
    var n := 0;
    while n < |records|
      invariant 0 <= n <= |records|
      invariant forall i {:trigger LinkOk(records, i)} :: 0 <= i < n ==> LinkOk(records, i)
      invariant forall x :: x in ids <==> exists j :: 0 <= j < n && records[j].id == x
      invariant forall x :: x in hashes <==> exists j :: 0 <= j < n && records[j].hash == x
      invariant previous == if n == 0 then None else Some(records[n - 1])
    {
      var record := records[n];
      if record.id in ids || record.hash in hashes {
        assert !LinkOk(records, n);
        return false;
      }
      assert NewIn(records, n);
      var failures := ValidateTransition(previous, record);
      if failures != [] {
        assert !LinkOk(records, n);
        return false;
      }
      assert LinkOk(records, n);
      ids, hashes := ids + {record.id}, hashes + {record.hash};
      previous := Some(record);
      n := n + 1;
    }
    return true;
  }

  /** Appending to an accepted chain needs exactly one good link. */
  lemma ChainExtends(records: seq<Record>, r: Record)
    requires records != []
    ensures ChainOk(records + [r]) <==> ChainOk(records) && LinkOk(records + [r], |records|)
  {
    var longer := records + [r];
    forall i | 0 <= i < |records| ensures LinkOk(records, i) <==> LinkOk(longer, i) {
      assert Before(records, i) == Before(longer, i) && records[i] == longer[i];
      assert forall j :: 0 <= j < i ==> records[j] == longer[j];
    }
    if ChainOk(longer) { assert LinkOk(longer, |records|); }
  }

  /** The payload with the predecessor fields `bind` derives. */
  function Bound(previous: Option<Record>, payload: Record): Record {
    match previous
    case None => payload.(predecessorId := None, predecessorHash := None, predecessorState := None)
    case Some(p) => payload.(predecessorId := Some(p.id), predecessorHash := Some(p.hash), predecessorState := Some(p.state))
  }

  /** `bind`: whatever it returns extends the accepted chain it was built on. */
  method BindNext(ghost records: seq<Record>, previous: Option<Record>, payload: Record) returns (r: Option<Record>)
    requires if records == [] then previous == None else ChainOk(records) && previous == Some(records[|records| - 1])
    ensures r.Some? ==> r.value == Bound(previous, payload)
    ensures (forall i :: 0 <= i < |records| ==> records[i].id != payload.id && records[i].hash != payload.hash) ==>
              (r.Some? <==> ChainOk(records + [Bound(previous, payload)]))
  {
    ghost var longer := records + [Bound(previous, payload)];
    if records != [] {
      ChainExtends(records, Bound(previous, payload));
      assert LinkOk(records, |records| - 1);
    }
    assert Before(longer, |records|) == previous && longer[|records|] == Bound(previous, payload);
    assert (forall i :: 0 <= i < |records| ==> records[i].id != payload.id && records[i].hash != payload.hash) ==> NewIn(longer, |records|);
    if previous.None? && payload.state != Draft {
      assert !LinkOk(longer, 0);
      return None;
    }
    if !RecordOk(Bound(previous, payload)) {
      assert !LinkOk(longer, |records|);
      return None;
    }
    var failures := ValidateTransition(previous, Bound(previous, payload));
    if failures != [] {
      assert !LinkOk(longer, |records|);
      return None;
    }
    assert LinkOk(longer, |records|) <==> NewIn(longer, |records|);
    return Some(Bound(previous, payload));
  }

  /******* What every accepted chain looks like *******/

  function Rank(s: State): nat {
    match s
    case Draft => 0 case Shadow => 1 case HumanReview => 2 case TestnetEligible => 3
    case PilotEligible => 4 case PilotActive => 5 case Quarantined => 6 case Retired => 7
  }

  predicate OnLadder(s: State) { s != Quarantined && s != Retired }

  lemma LinkMeans(records: seq<Record>, i: nat)
    requires ChainOk(records) && 0 < i < |records|
    ensures Follows(Some(records[i - 1]), records[i]) && RecordOk(records[i]) && RecordOk(records[i - 1])
  {
    assert LinkOk(records, i) && LinkOk(records, i - 1);
  }

  /** One rung up the ladder, or off it for good: into quarantine or retirement, though never from a draft. */
  lemma LegalMeans(from: State, to: State)
    ensures Legal(from, to) <==>
              || (OnLadder(from) && OnLadder(to) && Rank(to) == Rank(from) + 1)
              || (!OnLadder(to) && from != Draft && Rank(from) < Rank(to))
  {
  }

  /** Which record precedes which can be read off either link: IDs and hashes link exactly the neighbours. */
  lemma LinksAreExact(records: seq<Record>, i: nat, j: nat)
    requires ChainOk(records) && i < |records| && j < |records|
    ensures records[j].predecessorId == Some(records[i].id) <==> j == i + 1
    ensures records[j].predecessorHash == Some(records[i].hash) <==> j == i + 1
    ensures j == i + 1 ==> records[j].predecessorState == Some(records[i].state) && records[j].id != records[i].id
  {
    assert LinkOk(records, j);
    if j > 0 {
      LinkMeans(records, j);
      if i != j - 1 { IdsDiffer(records, i, j - 1); }
    }
  }

  lemma IdsDiffer(records: seq<Record>, i: nat, j: nat)
    requires ChainOk(records) && i < |records| && j < |records| && i != j
    ensures records[i].id != records[j].id && records[i].hash != records[j].hash
  {
    assert LinkOk(records, i) && LinkOk(records, j);
  }

  /** A record takes effect while the one before it is still in force, after its own review and evidence. */
  lemma ChainHasNoGap(records: seq<Record>, i: nat)
    requires ChainOk(records) && 0 < i < |records|
    ensures var p, r := records[i - 1], records[i];
            && r.activated.Some? && r.evidence != [] && Start(p) <= r.reviewed <= r.activated.value
            && (p.expires.Some? ==> r.activated.value < p.expires.value) && (p.revoked.Some? ==> r.activated.value < p.revoked.value)
            && (r.expires.Some? ==> r.activated.value < r.expires.value) && (r.revoked.Some? ==> r.activated.value < r.revoked.value)
  {
    LinkMeans(records, i);
  }

  /** Along a chain the state only climbs, the subject stays, and time does not go back. */
  lemma {:induction false} ChainClimbs(records: seq<Record>, i: nat, j: nat)
    requires ChainOk(records) && i < j < |records|
    ensures Rank(records[i].state) < Rank(records[j].state) && records[i].subject == records[j].subject
    ensures Start(records[i]) <= records[j].reviewed <= Start(records[j])
    decreases j
  {
    LinkMeans(records, j);
    if i < j - 1 { ChainClimbs(records, i, j - 1); }
  }

  /** No state occurs twice. */
  lemma StatesOccurOnce(records: seq<Record>, i: nat, j: nat)
    requires ChainOk(records) && i < |records| && j < |records| && records[i].state == records[j].state
    ensures i == j
  {
    if i < j { ChainClimbs(records, i, j); }
    if j < i { ChainClimbs(records, j, i); }
  }

  lemma {:induction false} RankIsAtLeastPosition(records: seq<Record>, n: nat)
    requires ChainOk(records) && n < |records|
    ensures Rank(records[n].state) >= n
  {
    if n > 0 {
      RankIsAtLeastPosition(records, n - 1);
      ChainClimbs(records, n - 1, n);
    }
  }

  /** A chain has at most eight records. */
  lemma ChainIsShort(records: seq<Record>)
    requires ChainOk(records)
    ensures |records| <= 8
  {
    RankIsAtLeastPosition(records, |records| - 1);
  }

  /** Until quarantine or retirement, the position in the chain is the rank of the state. */
  lemma {:induction false} LadderIsExact(records: seq<Record>, n: nat)
    requires ChainOk(records) && n < |records| && OnLadder(records[n].state)
    ensures n == Rank(records[n].state)
    ensures forall i :: 0 <= i <= n ==> OnLadder(records[i].state) && Rank(records[i].state) == i
  {
    if n == 0 {
      assert LinkOk(records, 0);
    } else {
      LinkMeans(records, n);
      LadderIsExact(records, n - 1);
    }
  }

  /******* Execution authority *******/

  predicate MayBeActive(s: State) { s == Shadow || s == HumanReview || s == TestnetEligible || s == PilotActive }

  predicate ActiveAt(r: Record, at: int) {
    && r.activated.Some? && r.activated.value <= at
    && AfterIfSet(r.revoked, at) && AfterIfSet(r.expires, at) && MayBeActive(r.state)
  }

  predicate ExecutionEnabled(r: Record) {
    (r.environment == Testnet && r.state == TestnetEligible) || (r.environment == MainnetPilot && r.state == PilotActive)
  }

  /** The chain confers execution authority at an instant. */
  ghost predicate Authorizes(records: seq<Record>, at: int) {
    ChainOk(records) && var last := records[|records| - 1]; ActiveAt(last, at) && ExecutionEnabled(last)
  }

  /** `validate_execution_promotion_authority`: the terminal record, or an error. */
  method ValidateExecutionAuthority(records: seq<Record>, at: int) returns (terminal: Option<Record>)
    ensures terminal.Some? <==> Authorizes(records, at)
    ensures terminal.Some? ==> terminal.value == records[|records| - 1]
  {
    var ok := ValidateChain(records);
    if !ok { return None; }
    var last := records[|records| - 1];
    if !ActiveAt(last, at) || !ExecutionEnabled(last) { return None; }
    return Some(last);
  }

  const LADDER: seq<State> := [Draft, Shadow, HumanReview, TestnetEligible, PilotEligible, PilotActive]

  ghost predicate Climbs(records: seq<Record>, n: nat) {
    |records| == n <= |LADDER| && forall i :: 0 <= i < n ==> records[i].state == LADDER[i]
  }

  /** Authority comes from exactly four records for Testnet and six for Mainnet, in the fixed order. */
  lemma AuthorityHasOneShape(records: seq<Record>, at: int)
    requires Authorizes(records, at)
    ensures records[|records| - 1].environment == Testnet ==> Climbs(records, 4)
    ensures records[|records| - 1].environment == MainnetPilot ==> Climbs(records, 6)
    ensures records[|records| - 1].environment == Testnet || records[|records| - 1].environment == MainnetPilot
  {
    var n := |records| - 1;
    LadderIsExact(records, n);
    forall i | 0 <= i <= n ensures records[i].state == LADDER[i] { LadderIsExact(records, i); }
  }

  const ENVIRONMENTS: seq<set<Environment>> :=
    [{ReadOnly, ShadowEnv}, {ShadowEnv}, {HumanReviewEnv}, {Testnet}, {MainnetPilot}, {MainnetPilot}]

  /** The environment of a record on the ladder follows from its position. */
  lemma EnvironmentFollowsPosition(records: seq<Record>, n: nat)
    requires ChainOk(records) && n < |records| && OnLadder(records[n].state)
    ensures n < |ENVIRONMENTS| && records[n].environment in ENVIRONMENTS[n]
  {
    LadderIsExact(records, n);
    assert LinkOk(records, n);
  }

  lemma EveryEnvironmentIsAllowed(state: State, env: Environment)
    ensures Allowed(state, env) <==> !OnLadder(state) || env in ENVIRONMENTS[Rank(state)]
  {
  }

  predicate Covers(r: Record, at: int) {
    && r.activated.Some? && r.activated.value <= at
    && (r.expires.Some? ==> at < r.expires.value) && (r.revoked.Some? ==> at < r.revoked.value)
  }

  lemma LengthIsState(records: seq<Record>, n: nat)
    requires ChainOk(records) && |records| == n + 1 && OnLadder(records[n].state)
    ensures n == Rank(records[n].state)
  {
    LadderIsExact(records, n);
  }

  /** An accepted chain authorizes exactly with four or six records on the ladder, from activation up to expiry or revocation. */
  lemma AuthorityIsLength(records: seq<Record>, at: int)
    requires ChainOk(records)
    ensures var last := records[|records| - 1];
            Authorizes(records, at) <==> OnLadder(last.state) && (|records| == 4 || |records| == 6) && Covers(last, at)
  {
    var n := |records| - 1;
    assert LinkOk(records, n);
    if OnLadder(records[n].state) {
      LengthIsState(records, n);
      EveryEnvironmentIsAllowed(records[n].state, records[n].environment);
    }
  }
}
