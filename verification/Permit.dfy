/**
Execution permits: what binds a permit to its proposal, its order, its human decision and
its promotion chain, and the authority that binding secures for as long as the permit lasts.
Times count microseconds.
*/
module Permit {
  import opened Wrappers
  import opened Promotion

  datatype Order = Order(id: string, hash: string, validUntil: int)

  datatype Proposal = Proposal(
    id: string, hash: string, playbook: string, strategy: string, parameter: string, riskPolicy: string,
    accountHash: string, order: Order, created: int, expires: int)

  predicate ProposalOk(p: Proposal) { p.created < p.expires && p.order.validUntil <= p.expires }

  datatype DecisionKind = Approve | Reject | Modify | Observe

  datatype Decision = Decision(
    id: string, hash: string, proposalId: string, proposalHash: string, kind: DecisionKind, operator: string,
    decided: int, approvedOrderHash: Option<string>, superseding: Option<string>)

  predicate DecisionOk(d: Decision) {
    match d.kind
    case Approve => d.approvedOrderHash.Some? && d.superseding.None?
    case Modify => d.superseding.Some? && d.approvedOrderHash.None?
    case _ => d.approvedOrderHash.None?
  }

  datatype Action = SubmitEntry | CancelEntry | PlaceProtection | EmergencyReduceOnly

  datatype Permit = Permit(
    environment: Environment, playbook: string, strategy: string, parameter: string, riskPolicy: string,
    operator: string, approved: int, decisionId: string, decisionHash: string, proposalId: string, proposalHash: string,
    orderId: string, orderHash: string, accountHash: string, promotionId: string, promotionHash: string,
    issued: int, expires: int, actions: set<Action>,
    reviewId: Option<string>, reviewed: Option<int>, authorizationId: Option<string>, authorized: Option<int>)

  /** `validate_permit` */
  predicate PermitOk(p: Permit) {
    && (p.environment == Testnet || p.environment == MainnetPilot)
    && p.approved <= p.issued < p.expires && p.actions != {}
    && if p.environment == MainnetPilot then
         && p.reviewId.Some? && p.reviewed.Some? && p.authorizationId.Some? && p.authorized.Some?
         && p.reviewed.value <= p.authorized.value <= p.issued
       else p.reviewId.None? && p.reviewed.None? && p.authorizationId.None? && p.authorized.None?
  }

  datatype Failure =
    | InvalidRecord | InvalidPromotionAuthority | NotTerminalRecord
    | DecisionProposalMismatch | DecisionPredatesProposal | DecisionOutsideWindow | WrongOrderApproved
    | NotApproved | NoActions | PermitProposalMismatch | DecisionIdMismatch | DecisionHashMismatch
    | ApprovalMismatch | OrderIdMismatch | OrderHashMismatch | AccountMismatch | PermitSubjectMismatch
    | RiskPolicyMismatch | PromotionMismatch | PromotionSubjectMismatch | EnvironmentMismatch
    | IssuedTooLate | ExpiresTooLate | NotTestnetEligible | NotPilotActive | NoEligibleHistory
    | NotAfterEligible | ReviewPredatesEligibility | ActivationPredatesAuthorization

  function Least(a: int, b: int): int { if a <= b then a else b }

  /******* The human decision *******/

  predicate DecisionBinds(p: Proposal, d: Decision) {
    && d.proposalId == p.id && d.proposalHash == p.hash
    && p.created <= d.decided < Least(p.expires, p.order.validUntil)
    && (d.kind == Approve ==> d.approvedOrderHash == Some(p.order.hash))
  }

  /** `validate_human_decision_binding` */
  method ValidateDecisionBinding(p: Proposal, d: Decision) returns (failures: seq<Failure>)
    ensures failures == [] <==> ProposalOk(p) && DecisionOk(d) && DecisionBinds(p, d)
  {
    if !ProposalOk(p) || !DecisionOk(d) { return [Failure.InvalidRecord]; }
    failures := [];
    if d.proposalId != p.id || d.proposalHash != p.hash { failures := failures + [DecisionProposalMismatch]; }
    if d.decided < p.created { failures := failures + [DecisionPredatesProposal]; }
    if d.decided >= Least(p.expires, p.order.validUntil) { failures := failures + [DecisionOutsideWindow]; }
    if d.kind == Approve && d.approvedOrderHash != Some(p.order.hash) { failures := failures + [WrongOrderApproved]; }
  }

  /******* Identities *******/

  /** The permit names exactly this proposal, order, decision and operator. */
  predicate NamesReview(permit: Permit, p: Proposal, d: Decision) {
    && permit.proposalId == p.id && permit.proposalHash == p.hash
    && permit.orderId == p.order.id && permit.orderHash == p.order.hash && permit.accountHash == p.accountHash
    && permit.decisionId == d.id && permit.decisionHash == d.hash && permit.operator == d.operator && permit.approved == d.decided
    && permit.riskPolicy == p.riskPolicy
  }

  /** Permit, proposal and promotion record are about one strategy, and the permit names the record. */
  predicate NamesPromotion(permit: Permit, p: Proposal, promotion: Record) {
    && permit.playbook == p.playbook == promotion.subject.playbook
    && permit.strategy == p.strategy == promotion.subject.strategy
    && permit.parameter == p.parameter == promotion.subject.parameter
    && permit.promotionId == promotion.id && permit.promotionHash == promotion.hash
    && permit.environment == promotion.environment
  }

  method CheckReviewNames(permit: Permit, p: Proposal, d: Decision) returns (failures: seq<Failure>)
    ensures failures == [] <==> NamesReview(permit, p, d)
  {
    failures := [];
    if permit.proposalId != p.id || permit.proposalHash != p.hash { failures := failures + [PermitProposalMismatch]; }
    if permit.decisionId != d.id { failures := failures + [DecisionIdMismatch]; }
    if permit.decisionHash != d.hash { failures := failures + [DecisionHashMismatch]; }
    if permit.operator != d.operator || permit.approved != d.decided { failures := failures + [ApprovalMismatch]; }
    if permit.orderId != p.order.id { failures := failures + [OrderIdMismatch]; }
    if permit.orderHash != p.order.hash { failures := failures + [OrderHashMismatch]; }
    if permit.accountHash != p.accountHash { failures := failures + [AccountMismatch]; }
    if permit.riskPolicy != p.riskPolicy { failures := failures + [RiskPolicyMismatch]; }
  }

  method CheckPromotionNames(permit: Permit, p: Proposal, promotion: Record) returns (failures: seq<Failure>)
    ensures failures == [] <==> NamesPromotion(permit, p, promotion)
  {
    failures := [];
    var subject := (p.playbook, p.strategy, p.parameter);
    if (permit.playbook, permit.strategy, permit.parameter) != subject { failures := failures + [PermitSubjectMismatch]; }
    if permit.promotionId != promotion.id || permit.promotionHash != promotion.hash { failures := failures + [PromotionMismatch]; }
    if (promotion.subject.playbook, promotion.subject.strategy, promotion.subject.parameter) != subject {
      failures := failures + [PromotionSubjectMismatch];
    }
    if promotion.environment != permit.environment { failures := failures + [EnvironmentMismatch]; }
  }

  /******* Deadlines *******/

  function Deadlines(p: Proposal, promotion: Record): seq<int> {
    [p.expires, p.order.validUntil]
    + (if promotion.expires.Some? then [promotion.expires.value] else [])
    + (if promotion.revoked.Some? then [promotion.revoked.value] else [])
  }

  method Minimum(times: seq<int>) returns (least: int)
    requires times != []
    ensures least in times && forall i :: 0 <= i < |times| ==> least <= times[i]
  {
    least := times[0];
    var n := 1;
    while n < |times|
      invariant 1 <= n <= |times| && least in times && forall i :: 0 <= i < n ==> least <= times[i]
    {
      if times[n] < least { least := times[n]; }
      n := n + 1;
    }
  }

  /** No deadline of the proposal, the order or the promotion record has passed. */
  predicate Unexpired(p: Proposal, promotion: Record, t: int) {
    t < p.expires && t < p.order.validUntil && AfterIfSet(promotion.expires, t) && AfterIfSet(promotion.revoked, t)
  }

  lemma UnexpiredIsEveryDeadline(p: Proposal, promotion: Record, t: int)
    ensures Unexpired(p, promotion, t) <==> forall i :: 0 <= i < |Deadlines(p, promotion)| ==> t < Deadlines(p, promotion)[i]
  {
    var all := Deadlines(p, promotion);
    assert all[0] == p.expires && all[1] == p.order.validUntil;
    assert promotion.expires.Some? ==> all[2] == promotion.expires.value;
    assert promotion.revoked.Some? ==> all[|all| - 1] == promotion.revoked.value;
  }

  /** The permit's own expiry is early enough: the last instant it covers is before every deadline. */
  method CheckDeadlines(permit: Permit, p: Proposal, promotion: Record) returns (failures: seq<Failure>)
    requires PermitOk(permit)
    ensures failures == [] <==> Unexpired(p, promotion, permit.expires - 1)
  {
    failures := [];
    if permit.issued >= Least(p.expires, p.order.validUntil) { failures := failures + [IssuedTooLate]; }
    var earliest := Minimum(Deadlines(p, promotion));
    if permit.expires > earliest { failures := failures + [ExpiresTooLate]; }
    UnexpiredIsEveryDeadline(p, promotion, permit.expires - 1);
  }

  /******* The environment *******/

  /** Eligibility, pre-pilot review, human authorization, activation and issue, in this order. */
  predicate PilotOrder(permit: Permit, history: seq<Record>) {
    && |history| >= 2 && permit.reviewed.Some? && permit.authorized.Some?
    && var last := history[|history| - 1];
    && last.activated.Some?
    && Start(history[|history| - 2]) <= permit.reviewed.value <= permit.authorized.value <= last.activated.value <= permit.issued
  }

  predicate EnvironmentOk(permit: Permit, promotion: Record, history: seq<Record>) {
    if permit.environment == Testnet then promotion.state == TestnetEligible
    else
      && promotion.state == PilotActive && |history| >= 2 && history[|history| - 2].state == PilotEligible
      && permit.reviewed.Some? && Start(history[|history| - 2]) <= permit.reviewed.value
      && permit.authorized.Some? && promotion.activated.Some? && permit.authorized.value <= promotion.activated.value
  }

  method CheckEnvironment(permit: Permit, promotion: Record, history: seq<Record>) returns (failures: seq<Failure>)
    ensures failures == [] <==> EnvironmentOk(permit, promotion, history)
  {
    failures := [];
    if permit.environment == Testnet {
      if promotion.state != TestnetEligible { failures := failures + [NotTestnetEligible]; }
      return;
    }
    if promotion.state != PilotActive { failures := failures + [NotPilotActive]; }
    if |history| < 2 {
      failures := failures + [NoEligibleHistory];
    } else {
      var eligible := history[|history| - 2];
      if eligible.state != PilotEligible { failures := failures + [NotAfterEligible]; }
      if permit.reviewed.None? || permit.reviewed.value < Start(eligible) { failures := failures + [ReviewPredatesEligibility]; }
      if permit.authorized.None? || promotion.activated.None? || promotion.activated.value < permit.authorized.value {
        failures := failures + [ActivationPredatesAuthorization];
      }
    }
  }

  /******* The whole binding *******/

  /** At this instant the chain confers authority and neither proposal nor order has run out. */
  ghost predicate AuthorityAt(p: Proposal, history: seq<Record>, t: int) {
    Authorizes(history, t) && t < p.expires && t < p.order.validUntil
  }

  /** What an accepted permit means: identities, an approval in time, and authority throughout. */
  ghost predicate Secured(permit: Permit, p: Proposal, d: Decision, promotion: Record, history: seq<Record>) {
    && history != [] && var last := history[|history| - 1];
    && promotion.id == last.id && promotion.hash == last.hash
    && DecisionBinds(p, d) && d.kind == Approve && NamesReview(permit, p, d) && NamesPromotion(permit, p, last)
    && (permit.environment == MainnetPilot ==> PilotOrder(permit, history))
    && forall t :: permit.issued <= t < permit.expires ==> AuthorityAt(p, history, t)
  }

  lemma AuthorityLasts(permit: Permit, p: Proposal, history: seq<Record>)
    requires PermitOk(permit) && Authorizes(history, permit.issued)
    ensures Unexpired(p, history[|history| - 1], permit.expires - 1) <==>
              forall t :: permit.issued <= t < permit.expires ==> AuthorityAt(p, history, t)
  {
    if forall t :: permit.issued <= t < permit.expires ==> AuthorityAt(p, history, t) {
      assert AuthorityAt(p, history, permit.expires - 1);
    }
  }

  /** With authority at issue, the state tests and the history tests of the environment hold by themselves. */
  lemma EnvironmentTestsReduceToOrder(permit: Permit, history: seq<Record>)
    requires PermitOk(permit) && Authorizes(history, permit.issued) && permit.environment == history[|history| - 1].environment
    ensures EnvironmentOk(permit, history[|history| - 1], history) <==>
              (permit.environment == MainnetPilot ==> PilotOrder(permit, history))
  {
    AuthorityHasOneShape(history, permit.issued);
  }

  /** `validate_execution_permit_bindings`: no failure exactly when the permit is secured. */
  method ValidatePermitBindings(permit: Permit, p: Proposal, d: Decision, promotion: Record, history: seq<Record>)
    returns (failures: seq<Failure>)
    ensures failures == [] <==>
      && PermitOk(permit) && ProposalOk(p) && DecisionOk(d) && RecordOk(promotion)
      && Secured(permit, p, d, promotion, history)
  {
    if !PermitOk(permit) || !ProposalOk(p) || !DecisionOk(d) || !RecordOk(promotion) { return [Failure.InvalidRecord]; }
    var terminal := ValidateExecutionAuthority(history, permit.issued);
    if terminal.None? {
      failures := [InvalidPromotionAuthority];
      if history != [] { NoAuthorityNoPermit(permit, p, d, promotion, history); }
    } else {
      failures := [];
      AuthorityLasts(permit, p, history);
    }
    var authoritative := if terminal.Some? then terminal.value else promotion;
    if authoritative.id != promotion.id || authoritative.hash != promotion.hash { failures := failures + [NotTerminalRecord]; }
    var decision := ValidateDecisionBinding(p, d);
    failures := failures + decision;
    if d.kind != Approve { failures := failures + [NotApproved]; }
    if permit.actions == {} { failures := failures + [NoActions]; }
    var review := CheckReviewNames(permit, p, d);
    var names := CheckPromotionNames(permit, p, authoritative);
    var deadlines := CheckDeadlines(permit, p, authoritative);
    var environment := CheckEnvironment(permit, authoritative, history);
    if terminal.Some? && names == [] { EnvironmentTestsReduceToOrder(permit, history); }
    failures := failures + review + names + deadlines + environment;
  }

  lemma NoAuthorityNoPermit(permit: Permit, p: Proposal, d: Decision, promotion: Record, history: seq<Record>)
    requires PermitOk(permit) && history != [] && !Authorizes(history, permit.issued)
    ensures !Secured(permit, p, d, promotion, history)
  {
    assert !AuthorityAt(p, history, permit.issued);
  }

  /******* What a permit pins down *******/

  /** One permit is secured for one proposal, order, account, decision and promotion record only. */
  lemma PermitBindsOneChain(permit: Permit, p: Proposal, d: Decision, history: seq<Record>, promotion: Record,
                            p': Proposal, d': Decision, history': seq<Record>, promotion': Record)
    requires Secured(permit, p, d, promotion, history) && Secured(permit, p', d', promotion', history')
    ensures p.id == p'.id && p.hash == p'.hash && p.order.id == p'.order.id && p.order.hash == p'.order.hash
    ensures p.accountHash == p'.accountHash && p.riskPolicy == p'.riskPolicy
    ensures (p.playbook, p.strategy, p.parameter) == (p'.playbook, p'.strategy, p'.parameter)
    ensures d.id == d'.id && d.hash == d'.hash && d.operator == d'.operator && d.decided == d'.decided
    ensures promotion.id == promotion'.id && promotion.hash == promotion'.hash
    ensures history[|history| - 1].environment == history'[|history'| - 1].environment
  {
  }

  /** What was approved is what the permit names: this decision, on this proposal, of this order. */
  lemma ApprovalIsOfThisOrder(permit: Permit, p: Proposal, d: Decision, history: seq<Record>, promotion: Record)
    requires Secured(permit, p, d, promotion, history)
    ensures d.kind == Approve && (d.proposalId, d.proposalHash) == (permit.proposalId, permit.proposalHash) == (p.id, p.hash)
    ensures d.approvedOrderHash == Some(permit.orderHash) && permit.orderHash == p.order.hash
    ensures var s := history[|history| - 1].subject;
            (s.playbook, s.strategy, s.parameter) == (permit.playbook, permit.strategy, permit.parameter) == (p.playbook, p.strategy, p.parameter)
  {
  }

  /** Proposal, approval, issue and expiry come in this order, and the permit ends before every deadline. */
  lemma PermitTimeline(permit: Permit, p: Proposal, d: Decision, history: seq<Record>, promotion: Record)
    requires PermitOk(permit) && Secured(permit, p, d, promotion, history)
    ensures p.created <= d.decided == permit.approved <= permit.issued < permit.expires
    ensures permit.expires <= p.expires && permit.expires <= p.order.validUntil
    ensures var last := history[|history| - 1];
            && last.activated.Some? && last.activated.value <= permit.issued
            && (last.expires.Some? ==> permit.expires <= last.expires.value) && (last.revoked.Some? ==> permit.expires <= last.revoked.value)
  {
    assert AuthorityAt(p, history, permit.issued) && AuthorityAt(p, history, permit.expires - 1);
  }

  /** A Mainnet permit follows, in this order, eligibility, review, authorization and activation; a Testnet permit has no review. */
  lemma PilotTimeline(permit: Permit, p: Proposal, d: Decision, history: seq<Record>, promotion: Record)
    requires PermitOk(permit) && Secured(permit, p, d, promotion, history)
    ensures permit.environment == Testnet || permit.environment == MainnetPilot
    ensures permit.environment == Testnet ==> |history| == 4 && permit.reviewed == None && permit.authorized == None
    ensures permit.environment == MainnetPilot ==>
              && |history| == 6 && history[4].state == PilotEligible && permit.reviewed.Some? && permit.authorized.Some?
              && history[4].activated.Some? && history[5].activated.Some?
              && history[4].activated.value <= permit.reviewed.value <= permit.authorized.value <= history[5].activated.value <= permit.issued
  {
    assert AuthorityAt(p, history, permit.issued);
    AuthorityHasOneShape(history, permit.issued);
    if permit.environment == MainnetPilot { ChainHasNoGap(history, 4); }
  }
}
