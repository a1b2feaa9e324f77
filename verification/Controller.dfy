/**
The package-state controller: the stage machine with its pauses and repair budget, head
invalidation, CI routing, and whole runs of deliveries and head changes.
*/
module Controller {
  import opened Wrappers

  datatype Stage =
    | ControlFreeze | Plan | PrecodeReview | Implement | LocalValidate | Publish | CiWait
    | OptionalInternalReview | FinalReviewReady | FinalIndependentReview | HumanCloseoutGate | Done
    | PlanRevise | ControlReplan | MechanicalRepair | Repair1 | Repair2
    | PausedQuota | PausedTransport | PausedCapability | StaleRebind

  predicate IsPause(s: Stage) { s == PausedQuota || s == PausedTransport || s == PausedCapability }

  predicate IsRepair(s: Stage) { s == Repair1 || s == Repair2 }

  /** The table of normal transitions. */
  predicate Normal(from: Stage, to: Stage) {
    match from
    case ControlFreeze => to == Plan
    case Plan => to == PrecodeReview
    case PrecodeReview => to == Implement || to == PlanRevise || to == ControlReplan
    case PlanRevise => to == PrecodeReview
    case Implement => to == LocalValidate
    case LocalValidate => to == Publish || IsRepair(to) || to == ControlReplan
    case Publish => to == CiWait
    case CiWait =>
      to == OptionalInternalReview || to == MechanicalRepair || IsRepair(to) || to == ControlReplan || to == StaleRebind
    case OptionalInternalReview => to == FinalReviewReady
    case FinalReviewReady => to == FinalIndependentReview
    case FinalIndependentReview => to == HumanCloseoutGate || to == StaleRebind
    case HumanCloseoutGate => to == Done
    case MechanicalRepair => to == LocalValidate || to == ControlReplan
    case Repair1 => to == LocalValidate || to == ControlReplan
    case Repair2 => to == LocalValidate || to == ControlReplan
    case StaleRebind => to == LocalValidate || to == ControlReplan
    case _ => false
  }

  datatype State = State(
    schema: string, revision: int, package: string, head: string, tree: string, stage: Stage, resume: Stage,
    ciHead: Option<string>, ciLocators: seq<string>, repairs: int, pauseClass: Option<Stage>, completed: seq<string>,
    evidence: string, next: string)

  predicate StateOk(s: State) { s.schema == "1" && s.revision >= 0 && s.package != "" && 0 <= s.repairs < 3 }

  /** Where a fresh event takes the package: into a pause, out of one, or along the table within the repair budget. */
  function Moved(s: State, target: Stage): Option<State> {
    if IsPause(target) then
      Some(s.(stage := target, resume := s.stage, pauseClass := Some(target), revision := s.revision + 1))
    else if IsPause(s.stage) then
      if target != s.resume then None
      else Some(s.(stage := target, pauseClass := None, revision := s.revision + 1))
    else if !Normal(s.stage, target) then None
    else
      var repairs := s.repairs + if IsRepair(target) then 1 else 0;
      var (landing, spent) := if repairs > 2 then (ControlReplan, s.repairs) else (target, repairs);
      Some(s.(stage := landing, resume := landing, repairs := spent, revision := s.revision + 1))
  }

  /** `transition`: the next state, or a refusal. A completed key returns the state itself. */
  function Transition(s: State, target: Stage, key: string, head: Option<string>): Option<State> {
    if !StateOk(s) then None
    else if head.Some? && head.value != s.head then None
    else if key in s.completed then Some(s)
    else
      var moved := Moved(s, target);
      if moved.None? then None
      else Some(moved.value.(completed := s.completed + [key], next := "CONTROLLER_COMPUTED"))
  }

  /** `invalidate_old_head_evidence` */
  function Invalidate(s: State, head: string, tree: string): Option<State> {
    if head == s.head then if tree != s.tree then None else Some(s)
    else Some(s.(head := head, tree := tree, ciHead := None, ciLocators := [], evidence := "STALE_HEAD_INVALIDATED",
                 stage := StaleRebind, resume := StaleRebind, next := "LOCAL_VALIDATE", revision := s.revision + 1))
  }

  /******* CI routing *******/

  datatype Observation = Observation(head: string, conclusion: string, classification: string, reruns: int)

  /** `route_ci` */
  function RouteCi(s: State, o: Observation): Stage {
    if o.head != s.head then StaleRebind
    else if o.conclusion == "success" then OptionalInternalReview
    else if o.classification == "TRANSIENT_OR_KNOWN_FLAKE" then if o.reruns < 1 then CiWait else PausedTransport
    else if o.classification == "DETERMINISTIC_MECHANICAL" then MechanicalRepair
    else if o.classification == "SEMANTIC" then
      if s.repairs == 0 then Repair1 else if s.repairs == 1 then Repair2 else ControlReplan
    else if o.classification == "INFRASTRUCTURE_OR_TRANSPORT" then PausedTransport
    else ControlReplan
  }

  /** From CI_WAIT every routed stage but CI_WAIT itself is accepted, and is where the package lands. */
  lemma RoutedStageIsReached(s: State, o: Observation, key: string)
    requires StateOk(s) && s.stage == CiWait && key !in s.completed
    ensures var target := RouteCi(s, o);
            match Transition(s, target, key, None)
            case Some(t) => target != CiWait && t.stage == target && t.repairs == s.repairs + (if IsRepair(target) then 1 else 0)
            case None => target == CiWait
  {
    var target := RouteCi(s, o);
    assert target != CiWait ==> IsPause(target) || Normal(CiWait, target);
    assert IsRepair(target) ==> s.repairs <= 1;
  }

  /******* Runs *******/

  /** A delivered event, or a new head observed. */
  datatype Event = Deliver(target: Stage, key: string, expectedHead: Option<string>) | Push(head: string, tree: string)

  /** A refused event leaves the state as it was. */
  function Step(s: State, e: Event): State {
    var r := match e
      case Deliver(target, key, head) => Transition(s, target, key, head)
      case Push(head, tree) => Invalidate(s, head, tree);
    if r.Some? then r.value else s
  }

  /** The state after the first n events. */
  function After(s: State, events: seq<Event>, n: nat): State
    requires n <= |events|
  {
    if n == 0 then s else Step(After(s, events, n - 1), events[n - 1])
  }

  predicate Initial(s: State) { StateOk(s) && s.stage == ControlFreeze && s.resume == ControlFreeze && s.repairs == 0 }

  lemma StepKeepsOk(s: State, e: Event)
    requires StateOk(s)
    ensures StateOk(Step(s, e))
  {
  }

  /** Validity survives every run. */
  lemma {:induction false} RunKeepsOk(s: State, events: seq<Event>, n: nat)
    requires StateOk(s) && n <= |events|
    ensures StateOk(After(s, events, n))
  {
    if n > 0 {
      RunKeepsOk(s, events, n - 1);
      StepKeepsOk(After(s, events, n - 1), events[n - 1]);
    }
  }

  /******* The repair budget *******/

  /** The event enters a repair stage afresh, rather than resuming one. */
  predicate EntersRepair(s: State, e: Event) {
    !IsPause(s.stage) && Step(s, e) != s && IsRepair(Step(s, e).stage)
  }

  function RepairEntries(s: State, events: seq<Event>, n: nat): nat
    requires n <= |events|
  {
    if n == 0 then 0 else RepairEntries(s, events, n - 1) + if EntersRepair(After(s, events, n - 1), events[n - 1]) then 1 else 0
  }

  lemma RepairIsCounted(s: State, e: Event)
    ensures Step(s, e).repairs == s.repairs + if EntersRepair(s, e) then 1 else 0
  {
  }

  /** The stored count is the number of fresh repair entries. */
  lemma {:induction false} RepairsAreCounted(s: State, events: seq<Event>, n: nat)
    requires n <= |events|
    ensures After(s, events, n).repairs == s.repairs + RepairEntries(s, events, n)
  {
    if n > 0 {
      RepairsAreCounted(s, events, n - 1);
      RepairIsCounted(After(s, events, n - 1), events[n - 1]);
    }
  }

  /** No run from the start enters a repair stage more than twice. */
  lemma AtMostTwoRepairs(s: State, events: seq<Event>, n: nat)
    requires Initial(s) && n <= |events|
    ensures RepairEntries(s, events, n) <= 2
  {
    RepairsAreCounted(s, events, n);
    RunKeepsOk(s, events, n);
  }

  predicate Semantic(s: State, o: Observation) { o.head == s.head && o.conclusion != "success" && o.classification == "SEMANTIC" }

  /** Routing spends the budget of the whole run: only a semantic failure on the current head, and by the repairs entered so far. */
  lemma RepairRouteFollowsTheRun(s: State, events: seq<Event>, n: nat, o: Observation)
    requires Initial(s) && n <= |events|
    ensures var now, spent := After(s, events, n), RepairEntries(s, events, n);
            && (IsRepair(RouteCi(now, o)) <==> Semantic(now, o) && spent < 2)
            && (Semantic(now, o) ==> RouteCi(now, o) == if spent == 0 then Repair1 else if spent == 1 then Repair2 else ControlReplan)
  {
    RepairsAreCounted(s, events, n);
    RunKeepsOk(s, events, n);
    RouteByRepairs(After(s, events, n), o);
  }

  lemma RouteByRepairs(now: State, o: Observation)
    requires StateOk(now)
    ensures IsRepair(RouteCi(now, o)) <==> Semantic(now, o) && now.repairs < 2
    ensures Semantic(now, o) ==> RouteCi(now, o) == if now.repairs == 0 then Repair1 else if now.repairs == 1 then Repair2 else ControlReplan
  {
  }

  /******* At-least-once delivery *******/

  lemma {:induction false} KeysAreKept(s: State, events: seq<Event>, n: nat, key: string)
    requires n <= |events| && key in s.completed
    ensures key in After(s, events, n).completed
  {
    if n > 0 { KeysAreKept(s, events, n - 1, key); }
  }

  lemma {:induction false} AfterInTwoParts(s: State, a: seq<Event>, b: seq<Event>, all: seq<Event>, n: nat)
    requires n <= |b| && all == a + b
    ensures After(s, all, |a| + n) == After(After(s, a, |a|), b, n)
  {
    if n == 0 {
      SamePrefix(s, all, a, |a|);
    } else {
      AfterInTwoParts(s, a, b, all, n - 1);
      NextState(s, all, |a| + n - 1);
      NextState(After(s, a, |a|), b, n - 1);
    }
  }

  lemma NextState(s: State, events: seq<Event>, n: nat)
    requires n < |events|
    ensures After(s, events, n + 1) == Step(After(s, events, n), events[n])
  {
  }

  lemma {:induction false} SamePrefix(s: State, a: seq<Event>, b: seq<Event>, n: nat)
    requires n <= |a| && n <= |b| && a[..n] == b[..n]
    ensures After(s, a, n) == After(s, b, n)
  {
    if n > 0 {
      assert a[n - 1] == a[..n][n - 1] == b[n - 1];
      assert a[..n - 1] == a[..n][..n - 1] == b[..n - 1];
      SamePrefix(s, a, b, n - 1);
    }
  }

  /** The state a whole run ends in. */
  function End(s: State, events: seq<Event>): State { After(s, events, |events|) }

  lemma EndInTwoParts(s: State, a: seq<Event>, b: seq<Event>)
    ensures End(s, a + b) == End(End(s, a), b)
  {
    AfterInTwoParts(s, a, b, a + b, |b|);
  }

  lemma EndOfOne(s: State, e: Event)
    ensures End(s, [e]) == Step(s, e)
  {
    assert After(s, [e], 0) == s;
  }

  /** Delivering again an event whose key is already recorded changes nothing, anywhere in a run. */
  lemma DuplicateIsInvisible(s: State, before: seq<Event>, e: Event, rest: seq<Event>)
    requires e.Deliver? && e.key in End(s, before).completed
    ensures End(s, before + [e] + rest) == End(s, before + rest)
  {
    EndInTwoParts(s, before, [e]);
    EndOfOne(End(s, before), e);
    DuplicateStep(End(s, before), e);
    EndInTwoParts(s, before + [e], rest);
    EndInTwoParts(s, before, rest);
  }

  lemma DuplicateStep(s: State, e: Event)
    requires e.Deliver? && e.key in s.completed
    ensures Step(s, e) == s
  {
  }

  /** An accepted delivery stays recorded, so its later copies are all duplicates. */
  lemma AcceptedStaysRecorded(s: State, e: Event, events: seq<Event>, n: nat)
    requires e.Deliver? && Transition(s, e.target, e.key, e.expectedHead).Some? && n <= |events|
    ensures e.key in After(Step(s, e), events, n).completed
    ensures Step(After(Step(s, e), events, n), e) == After(Step(s, e), events, n)
  {
    KeysAreKept(Step(s, e), events, n, e.key);
  }

  /******* Pauses *******/

  /** The stage the package works in, seen through a pause. */
  function Effective(s: State): Stage { if IsPause(s.stage) then s.resume else s.stage }

  /** Paused, and the stage to resume is itself a pause. */
  predicate Wedged(s: State) { IsPause(s.stage) && IsPause(s.resume) }

  /** One step keeps the effective stage, follows the table, wedges, or restarts on a new head. */
  predicate Moves(s: State, t: State, push: bool) {
    || (Effective(t) == Effective(s) && t.head == s.head)
    || (!IsPause(s.stage) && !IsPause(t.stage) && Normal(s.stage, t.stage) && t.head == s.head)
    || (Wedged(t) && IsPause(s.stage) && t.head == s.head)
    || (push && t.stage == StaleRebind && t.head != s.head)
  }

  /** Wherever a repair may be asked for, the overflow to CONTROL_REPLAN is in the table too. */
  lemma OverflowIsNormal(from: Stage, to: Stage)
    requires Normal(from, to) && IsRepair(to)
    ensures Normal(from, ControlReplan)
  {
  }

  lemma TableMoves(s: State, target: Stage, t: State)
    requires s.repairs <= 2 && !IsPause(s.stage) && !IsPause(target) && Moved(s, target) == Some(t)
    ensures !IsPause(t.stage) && Normal(s.stage, t.stage) && t.head == s.head
  {
    if IsRepair(target) { OverflowIsNormal(s.stage, target); }
    assert t.stage == target || t.stage == ControlReplan;
  }

  lemma FreshMoves(s: State, target: Stage, t: State)
    requires s.repairs <= 2 && Moved(s, target) == Some(t)
    ensures Moves(s, t, false)
  {
    if !IsPause(target) && !IsPause(s.stage) { TableMoves(s, target, t); }
  }

  lemma DeliveryMoves(s: State, target: Stage, key: string, head: Option<string>, u: State)
    requires Transition(s, target, key, head) == Some(u)
    ensures Moves(s, u, false)
  {
    if key !in s.completed { FreshMoves(s, target, Moved(s, target).value); }
  }

  lemma StepMoves(s: State, e: Event)
    ensures Moves(s, Step(s, e), e.Push?)
  {
    match e {
      case Deliver(target, key, head) =>
        var r := Transition(s, target, key, head);
        if r.Some? { DeliveryMoves(s, target, key, head, r.value); }
      case Push(head, tree) =>
    }
  }

  /** A pause from a working stage resumes to that stage and to no other. */
  lemma SinglePauseResumes(s: State, p: Stage, key: string, target: Stage, key': string)
    requires StateOk(s) && !IsPause(s.stage) && IsPause(p) && !IsPause(target)
    requires key !in s.completed && key' !in s.completed && key != key'
    ensures Transition(s, p, key, None).Some?
    ensures var paused := Transition(s, p, key, None).value;
            && paused.stage == p && paused.pauseClass == Some(p) && paused.resume == s.stage
            && match Transition(paused, target, key', None)
               case Some(t) => target == s.stage == t.stage && t.repairs == s.repairs && t.pauseClass == None
               case None => target != s.stage
  {
    assert Transition(s, p, key, None).value.completed == s.completed + [key];
  }

  /** Some delivery ends the pause exactly when the stored stage is not itself a pause. */
  lemma PauseCanEnd(s: State, key: string)
    requires StateOk(s) && IsPause(s.stage) && key !in s.completed
    ensures (exists target :: var r := Transition(s, target, key, None); r.Some? && !IsPause(r.value.stage)) <==> !IsPause(s.resume)
  {
    if !IsPause(s.resume) {
      var r := Transition(s, s.resume, key, None);
      assert r.Some? && !IsPause(r.value.stage);
    }
  }

  /** Pausing while paused wedges the package: no sequence of deliveries leaves the pauses again. */
  lemma {:induction false} DoublePauseNeverEnds(s: State, p: Stage, key: string, events: seq<Event>, n: nat)
    requires StateOk(s) && IsPause(s.stage) && IsPause(p) && key !in s.completed
    requires n <= |events| && forall i :: 0 <= i < n ==> events[i].Deliver?
    ensures Wedged(After(Step(s, Deliver(p, key, None)), events, n))
  {
    if n > 0 {
      DoublePauseNeverEnds(s, p, key, events, n - 1);
      StepMoves(After(Step(s, Deliver(p, key, None)), events, n - 1), events[n - 1]);
    }
  }

  /** The states a run goes through, one more than its events. */
  ghost predicate IsRun(states: seq<State>, events: seq<Event>) {
    |states| == |events| + 1 && forall i {:trigger Linked(states, events, i)} :: 0 <= i < |events| ==> Linked(states, events, i)
  }

  ghost predicate Linked(states: seq<State>, events: seq<Event>, i: nat)
    requires i < |events| < |states|
  {
    states[i + 1] == Step(states[i], events[i])
  }

  lemma RunMoves(states: seq<State>, events: seq<Event>, i: nat)
    requires IsRun(states, events) && i < |events|
    ensures Moves(states[i], states[i + 1], events[i].Push?)
  {
    assert Linked(states, events, i);
    StepMoves(states[i], events[i]);
  }

  lemma {:induction false} PausedKeeps(states: seq<State>, events: seq<Event>, i: nat, n: nat)
    requires IsRun(states, events) && i < n <= |events| && !IsPause(states[i].stage)
    requires forall k :: i < k <= n ==> IsPause(states[k].stage)
    requires forall k :: i <= k < n ==> events[k].Deliver?
    ensures Wedged(states[n]) || Effective(states[n]) == states[i].stage
    decreases n
  {
    RunMoves(states, events, n - 1);
    if i < n - 1 { PausedKeeps(states, events, i, n - 1); }
  }

  /** Whenever deliveries lead from a working stage through pauses to a working stage, it is the same stage. */
  lemma PauseReturnsToItsStage(states: seq<State>, events: seq<Event>, i: nat, j: nat)
    requires IsRun(states, events) && i + 1 < j <= |events| && !IsPause(states[i].stage) && !IsPause(states[j].stage)
    requires forall k :: i < k < j ==> IsPause(states[k].stage)
    requires forall k :: i <= k < j ==> events[k].Deliver?
    ensures states[j].stage == states[i].stage
  {
    PausedKeeps(states, events, i, j - 1);
    RunMoves(states, events, j - 1);
  }

  /******* Revisions and heads *******/

  /** A step either changes nothing or raises the revision by one and records what it was. */
  lemma StepRaisesRevision(s: State, e: Event)
    ensures var t := Step(s, e);
            t == s || (t.revision == s.revision + 1 && t.completed == if e.Deliver? then s.completed + [e.key] else s.completed)
  {
  }

  lemma {:induction false} RevisionsGrow(states: seq<State>, events: seq<Event>, i: nat, j: nat)
    requires IsRun(states, events) && i <= j < |states|
    ensures states[i].revision <= states[j].revision && (states[i].revision == states[j].revision ==> states[i] == states[j])
    decreases j
  {
    if i < j {
      RevisionsGrow(states, events, i, j - 1);
      assert Linked(states, events, j - 1);
      StepRaisesRevision(states[j - 1], events[j - 1]);
    }
  }

  /** Within a run a revision number identifies the state, which is what an expected revision relies on. */
  lemma RevisionIdentifiesState(states: seq<State>, events: seq<Event>, i: nat, j: nat)
    requires IsRun(states, events) && i < |states| && j < |states| && states[i].revision == states[j].revision
    ensures states[i] == states[j]
  {
    if i <= j { RevisionsGrow(states, events, i, j); } else { RevisionsGrow(states, events, j, i); }
  }

  /** The event moves the package to another head. */
  predicate ChangesHead(s: State, e: Event) { e.Push? && e.head != s.head }

  lemma HeadStep(s: State, e: Event)
    ensures var t := Step(s, e);
            if ChangesHead(s, e) then
              && t.head == e.head && t.tree == e.tree && t.ciHead == None && t.ciLocators == [] && t.evidence == "STALE_HEAD_INVALIDATED"
              && t.stage == t.resume == StaleRebind && t.repairs == s.repairs && t.completed == s.completed
            else t.head == s.head && t.tree == s.tree && t.ciHead == s.ciHead && t.ciLocators == s.ciLocators && t.evidence == s.evidence
    ensures e.Push? ==> (Invalidate(s, e.head, e.tree).None? <==> e.head == s.head && e.tree != s.tree)
  {
  }

  /** Until the next head, the package keeps head and tree of the push and has no CI evidence of an older head. */
  lemma {:induction false} HeadIsKept(states: seq<State>, events: seq<Event>, i: nat, j: nat)
    requires IsRun(states, events) && i < j <= |events| && ChangesHead(states[i], events[i])
    requires forall k :: i < k < j ==> !ChangesHead(states[k], events[k])
    ensures states[j].head == events[i].head && states[j].tree == events[i].tree
    ensures states[j].ciHead == None && states[j].ciLocators == [] && states[j].evidence == "STALE_HEAD_INVALIDATED"
    decreases j
  {
    assert Linked(states, events, j - 1);
    HeadStep(states[j - 1], events[j - 1]);
    if i < j - 1 { HeadIsKept(states, events, i, j - 1); }
  }

  /** After a new head no delivery bound to another head changes anything, until the next head. */
  lemma OldHeadIsRefused(states: seq<State>, events: seq<Event>, i: nat, j: nat)
    requires IsRun(states, events) && i < j < |events| && ChangesHead(states[i], events[i])
    requires forall k :: i < k < j ==> !ChangesHead(states[k], events[k])
    requires events[j].Deliver? && events[j].expectedHead.Some? && events[j].expectedHead.value != events[i].head
    ensures states[j + 1] == states[j]
  {
    HeadIsKept(states, events, i, j);
    assert Linked(states, events, j);
  }

  /******* The way to DONE *******/

  /** The stages with a single way in. */
  predicate Late(x: Stage) {
    x == OptionalInternalReview || x == FinalReviewReady || x == FinalIndependentReview || x == HumanCloseoutGate || x == Done
  }

  function WayIn(x: Stage): Stage
    requires Late(x)
  {
    match x
    case OptionalInternalReview => CiWait
    case FinalReviewReady => OptionalInternalReview
    case FinalIndependentReview => FinalReviewReady
    case HumanCloseoutGate => FinalIndependentReview
    case Done => HumanCloseoutGate
  }

  lemma LateMove(s: State, t: State, push: bool, x: Stage)
    requires Moves(s, t, push) && Late(x) && Effective(t) == x
    ensures t.head == s.head && (Effective(s) == x || s.stage == WayIn(x))
  {
  }

  /** A late stage was entered, at some step, from the one stage before it, and never left since. */
  lemma {:induction false} EnteredFrom(states: seq<State>, events: seq<Event>, n: nat, x: Stage) returns (m: nat)
    requires IsRun(states, events) && n <= |events| && Late(x) && Effective(states[n]) == x && Effective(states[0]) != x
    ensures m < n && states[m].stage == WayIn(x)
    ensures forall k :: m < k <= n ==> Effective(states[k]) == x && states[k].head == states[m].head
  {
    RunMoves(states, events, n - 1);
    LateMove(states[n - 1], states[n], events[n - 1].Push?, x);
    if Effective(states[n - 1]) == x {
      m := EnteredFrom(states, events, n - 1, x);
    } else {
      m := n - 1;
    }
  }

  /** Nothing after CI but the review tail, on one head: no repair, no rebind, no new head. */
  ghost predicate ReviewTail(states: seq<State>, i: nat, n: nat)
    requires i <= n < |states|
  {
    forall k :: i < k <= n ==> Late(Effective(states[k])) && states[k].head == states[i].head
  }

  /** DONE is reached only through CI, the independent review and the human gate, all after the last repair or head change. */
  lemma DoneOnlyThroughReview(states: seq<State>, events: seq<Event>, n: nat) returns (ci: nat, review: nat, gate: nat)
    requires IsRun(states, events) && Initial(states[0]) && n <= |events| && states[n].stage == Done
    ensures ci < review < gate < n
    ensures states[ci].stage == CiWait && states[review].stage == FinalIndependentReview && states[gate].stage == HumanCloseoutGate
    ensures ReviewTail(states, ci, n) && Effective(states[ci + 1]) == OptionalInternalReview
  {
    gate := EnteredFrom(states, events, n, Done);
    review := EnteredFrom(states, events, gate, HumanCloseoutGate);
    var ready := EnteredFrom(states, events, review, FinalIndependentReview);
    var optional := EnteredFrom(states, events, ready, FinalReviewReady);
    ci := EnteredFrom(states, events, optional, OptionalInternalReview);
  }

  /******* CI and DONE *******/

  /** What an observation on the current head is taken for, and the stage each leads to. */
  lemma RouteIsExact(s: State, o: Observation)
    requires StateOk(s)
    ensures RouteCi(s, o) == StaleRebind <==> o.head != s.head
    ensures RouteCi(s, o) == OptionalInternalReview <==> o.head == s.head && o.conclusion == "success"
    ensures o.head == s.head && o.conclusion != "success" ==>
              var kind := o.classification;
              && (RouteCi(s, o) == CiWait <==> kind == "TRANSIENT_OR_KNOWN_FLAKE" && o.reruns < 1)
              && (RouteCi(s, o) == MechanicalRepair <==> kind == "DETERMINISTIC_MECHANICAL")
              && (RouteCi(s, o) == PausedTransport <==>
                    kind == "INFRASTRUCTURE_OR_TRANSPORT" || (kind == "TRANSIENT_OR_KNOWN_FLAKE" && o.reruns >= 1))
  {
  }

  /** Where a delivery takes a package that waits for CI, unless into a pause, is where CI routes it. */
  ghost predicate FollowsCi(states: seq<State>, events: seq<Event>, observed: seq<Observation>) {
    && |observed| == |events| < |states|
    && forall i :: 0 <= i < |events| && events[i].Deliver? && states[i].stage == CiWait && !IsPause(events[i].target) ==>
         events[i].target == RouteCi(states[i], observed[i])
  }

  /** Only a delivery to OPTIONAL_INTERNAL_REVIEW leads there from CI_WAIT. */
  lemma LeavesCiByReview(s: State, e: Event)
    requires s.stage == CiWait && Effective(Step(s, e)) == OptionalInternalReview
    ensures StateOk(s) && e.Deliver? && e.target == OptionalInternalReview
  {
  }

  /** When CI decides where CI_WAIT leads, a DONE package had a success on the very head that is DONE. */
  lemma DoneHasGreenCi(states: seq<State>, events: seq<Event>, observed: seq<Observation>, n: nat) returns (ci: nat)
    requires IsRun(states, events) && Initial(states[0]) && FollowsCi(states, events, observed)
    requires n <= |events| && states[n].stage == Done
    ensures ci < n && states[ci].stage == CiWait && ReviewTail(states, ci, n)
    ensures observed[ci].conclusion == "success" && observed[ci].head == states[n].head
  {
    var review, gate;
    ci, review, gate := DoneOnlyThroughReview(states, events, n);
    assert Linked(states, events, ci);
    LeavesCiByReview(states[ci], events[ci]);
    RouteIsExact(states[ci], observed[ci]);
  }

  /******* The table read backwards *******/

  /** The stages from which the table leads to a stage. */
  predicate IsSource(from: Stage, to: Stage) {
    match to
    case Plan => from == ControlFreeze
    case PrecodeReview => from == Plan || from == PlanRevise
    case PlanRevise => from == PrecodeReview
    case Implement => from == PrecodeReview
    case LocalValidate => from == Implement || from == MechanicalRepair || from == Repair1 || from == Repair2 || from == StaleRebind
    case Publish => from == LocalValidate
    case CiWait => from == Publish
    case OptionalInternalReview => from == CiWait
    case FinalReviewReady => from == OptionalInternalReview
    case FinalIndependentReview => from == FinalReviewReady
    case HumanCloseoutGate => from == FinalIndependentReview
    case Done => from == HumanCloseoutGate
    case MechanicalRepair => from == CiWait
    case Repair1 => from == LocalValidate || from == CiWait
    case Repair2 => from == LocalValidate || from == CiWait
    case StaleRebind => from == CiWait || from == FinalIndependentReview
    case ControlReplan =>
      || from == PrecodeReview || from == LocalValidate || from == CiWait || from == MechanicalRepair
      || from == Repair1 || from == Repair2 || from == StaleRebind
    case _ => false
  }

  predicate Preparing(x: Stage) { x == Plan || x == PrecodeReview || x == PlanRevise || x == Implement || x == LocalValidate || x == Publish }

  lemma PreparingBackwards(from: Stage, to: Stage)
    requires Preparing(to)
    ensures Normal(from, to) <==> IsSource(from, to)
  {
  }

  lemma LateBackwards(from: Stage, to: Stage)
    requires Late(to) || to == CiWait
    ensures Normal(from, to) <==> IsSource(from, to)
  {
  }

  lemma RepairBackwards(from: Stage, to: Stage)
    requires IsRepair(to) || to == MechanicalRepair || to == StaleRebind
    ensures Normal(from, to) <==> IsSource(from, to)
  {
  }

  lemma TableBackwards(from: Stage, to: Stage)
    ensures Normal(from, to) <==> IsSource(from, to)
  {
    if Preparing(to) {
      PreparingBackwards(from, to);
    } else if Late(to) || to == CiWait {
      LateBackwards(from, to);
    } else if IsRepair(to) || to == MechanicalRepair || to == StaleRebind {
      RepairBackwards(from, to);
    }
  }

  /** A move to another working stage that is not rebinding follows the table. */
  lemma MoveFromSource(s: State, t: State, push: bool, x: Stage)
    requires Moves(s, t, push) && Effective(t) == x && Effective(s) != x && x != StaleRebind && !IsPause(x)
    ensures IsSource(s.stage, x) && t.head == s.head
  {
    TableBackwards(s.stage, t.stage);
  }

  lemma SameStageSameHead(s: State, t: State, push: bool, x: Stage)
    requires Moves(s, t, push) && Effective(t) == x && x != StaleRebind
    ensures t.head == s.head
  {
  }

  /** A stage other than rebinding is entered, on one head, only from a source of it. */
  lemma {:induction false} EnteredFromSource(states: seq<State>, events: seq<Event>, n: nat, x: Stage) returns (m: nat)
    requires IsRun(states, events) && n <= |events| && x != StaleRebind && !IsPause(x)
    requires Effective(states[n]) == x && Effective(states[0]) != x
    ensures m < n && IsSource(states[m].stage, x)
    ensures forall k :: m < k <= n ==> Effective(states[k]) == x && states[k].head == states[m].head
  {
    RunMoves(states, events, n - 1);
    if Effective(states[n - 1]) == x {
      SameStageSameHead(states[n - 1], states[n], events[n - 1].Push?, x);
      m := EnteredFromSource(states, events, n - 1, x);
    } else {
      m := n - 1;
      MoveFromSource(states[m], states[n], events[m].Push?, x);
    }
  }

  /** CI is waited for only behind a publication of what was validated locally, on the same head. */
  lemma CiOnlyAfterValidation(states: seq<State>, events: seq<Event>, n: nat) returns (validated: nat, published: nat)
    requires IsRun(states, events) && Initial(states[0]) && n <= |events| && states[n].stage == CiWait
    ensures validated < published < n && states[validated].stage == LocalValidate && states[published].stage == Publish
    ensures forall k :: validated < k <= n ==> states[k].head == states[validated].head
  {
    published := EnteredFromSource(states, events, n, CiWait);
    validated := EnteredFromSource(states, events, published, Publish);
  }

  /** Implementation comes only behind a plan and its review. */
  lemma ImplementOnlyAfterReview(states: seq<State>, events: seq<Event>, n: nat) returns (review: nat)
    requires IsRun(states, events) && Initial(states[0]) && n <= |events| && states[n].stage == Implement
    ensures review < n && states[review].stage == PrecodeReview
    ensures exists p :: 0 <= p < review && (states[p].stage == Plan || states[p].stage == PlanRevise)
  {
    review := EnteredFromSource(states, events, n, Implement);
    var p := EnteredFromSource(states, events, review, PrecodeReview);
  }

  /** Once a package is up for replanning, no delivery takes it elsewhere than into pauses; only a new head does. */
  lemma {:induction false} ReplanIsFinal(states: seq<State>, events: seq<Event>, i: nat, j: nat)
    requires IsRun(states, events) && i <= j <= |events| && states[i].stage == ControlReplan
    requires forall k :: i <= k < j ==> events[k].Deliver?
    ensures Effective(states[j]) == ControlReplan || Wedged(states[j])
    decreases j
  {
    if i < j {
      ReplanIsFinal(states, events, i, j - 1);
      RunMoves(states, events, j - 1);
      TableBackwards(states[j - 1].stage, states[j].stage);
    }
  }

  /******* DONE can be reached *******/

  /** How many deliveries DONE is away. */
  function Distance(x: Stage): nat {
    match x
    case Done => 0
    case HumanCloseoutGate => 1
    case FinalIndependentReview => 2
    case FinalReviewReady => 3
    case OptionalInternalReview => 4
    case CiWait => 5
    case Publish => 6
    case LocalValidate => 7
    case Implement => 8
    case MechanicalRepair => 8
    case Repair1 => 8
    case Repair2 => 8
    case StaleRebind => 8
    case PrecodeReview => 9
    case Plan => 10
    case PlanRevise => 10
    case ControlFreeze => 11
    case _ => 12
  }

  predicate Open(x: Stage) { !IsPause(x) && x != ControlReplan && x != Done }

  lemma StepCloser(x: Stage) returns (y: Stage)
    requires Open(x)
    ensures Normal(x, y) && Distance(y) == Distance(x) - 1 && !IsRepair(y) && (Open(y) || y == Done)
  {
    y := match x
      case ControlFreeze => Plan
      case Plan => PrecodeReview
      case PlanRevise => PrecodeReview
      case PrecodeReview => Implement
      case LocalValidate => Publish
      case Publish => CiWait
      case CiWait => OptionalInternalReview
      case OptionalInternalReview => FinalReviewReady
      case FinalReviewReady => FinalIndependentReview
      case FinalIndependentReview => HumanCloseoutGate
      case HumanCloseoutGate => Done
      case _ => LocalValidate;
  }

  /** No delivery shortens the way by more than one stage. */
  lemma NoShortcut(x: Stage, y: Stage)
    requires Normal(x, y)
    ensures Distance(x) <= Distance(y) + 1
  {
  }

  lemma FreshDelivery(s: State, y: Stage, key: string)
    requires StateOk(s) && Open(s.stage) && Normal(s.stage, y) && !IsRepair(y) && !IsPause(y) && key !in s.completed
    ensures var t := Step(s, Deliver(y, key, None)); StateOk(t) && t.stage == y && t.completed == s.completed + [key]
  {
  }

  lemma FirstThenRest(s: State, e: Event, rest: seq<Event>)
    ensures After(s, [e] + rest, |[e] + rest|) == After(Step(s, e), rest, |rest|)
  {
    AfterInTwoParts(s, [e], rest, [e] + rest, |rest|);
    assert After(s, [e], 1) == Step(After(s, [e], 0), e);
  }

  /** From every open stage, with fresh keys, a run of deliveries reaches DONE in exactly its distance. */
  lemma {:induction false} DoneIsReachable(s: State, keys: seq<string>) returns (events: seq<Event>)
    requires StateOk(s) && (Open(s.stage) || s.stage == Done) && |keys| == Distance(s.stage)
    requires forall i :: 0 <= i < |keys| ==> keys[i] !in s.completed
    requires forall i, j :: 0 <= i < j < |keys| ==> keys[i] != keys[j]
    ensures |events| == Distance(s.stage) && After(s, events, |events|).stage == Done
    decreases Distance(s.stage)
  {
    if s.stage == Done {
      events := [];
    } else {
      var y := StepCloser(s.stage);
      var e := Deliver(y, keys[0], None);
      FreshDelivery(s, y, keys[0]);
      var rest := DoneIsReachable(Step(s, e), keys[1..]);
      events := [e] + rest;
      FirstThenRest(s, e, rest);
    }
  }
}
