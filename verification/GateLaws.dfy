/** What it means that every gate passed. */
module GateLaws {
  import opened Ordering
  import opened Wrappers
  import opened Scopes
  import opened Runs
  import opened Policies
  import opened PolicyLaws
  import opened Grants
  import opened Approvals
  import opened Gates

  lemma {:induction false} FoundRule(rules: seq<Rule>, id: string)
    ensures
      match FindRule(rules, id)
      case Some(r) => r in rules && r.id == id
      case None => forall r | r in rules :: r.id != id
  {
    if rules != [] && rules[0].id != id {
      FoundRule(rules[1..], id);
    }
  }

  /** The rule that the caps and the grant path look at is the rule that won the evaluation. */
  lemma MatchedRuleWon(s: Setting, p: Policy, q: EnvelopeRequest, now: int)
    requires DistinctRules(p)
    ensures
      match MatchedRule(p, Fresh(s, p, q, now))
      case Some(r) => Wins(s.texts, [p], EvaluationOf(q), now, Candidate(p.header, r))
      case None => forall c :: !Competes(s.texts, [p], EvaluationOf(q), now, c)
  {
    var e := Fresh(s, p, q, now);
    EvaluateMeetsSpec(s.texts, [p], EvaluationOf(q), now);
    if e.ruleId.Some? {
      FoundRule(p.rules, e.ruleId.value);
      var c :| Wins(s.texts, [p], EvaluationOf(q), now, c) && Essence(e) == Verdict(c, 0, 0);
      assert WellFormed([p]) && Belongs([p], c);
      assert c.policy == p.header && c.rule in p.rules;
      var r := MatchedRule(p, e).value;
      assert Belongs([p], Candidate(p.header, r)) by { assert p in [p]; }
      SameIdsSameCandidate([p], c, Candidate(p.header, r));
    }
  }

  /** What the policy is asked about. */
  function AskedOf(q: EnvelopeRequest): Request {
    Request(q.actionType, q.actionName, q.target, q.risk, q.severity, q.eventIds)
  }

  /** No DENY rule of the policy stands against the request. */
  ghost predicate NotDenied(s: Setting, p: Policy, q: EnvelopeRequest, now: int) {
    Active(p.header, now) && p.header.mode == ModeApprovalRequired ==>
      forall r | r in p.rules && r.decision == Deny :: !RuleMatches(s.texts, r, AskedOf(q))
  }

  lemma DenyGateExactly(s: Setting, p: Policy, q: EnvelopeRequest, now: int)
    ensures Fresh(s, p, q, now).decision != Deny <==> NotDenied(s, p, q, now)
  {
    DeniedExactly(s.texts, [p], EvaluationOf(q), now);
    assert p in [p];
  }

  /** A prepare-only policy is never an obstacle: its DENY rules do not deny at this gate. */
  lemma PrepareOnlyIsNeverDenied(s: Setting, p: Policy, q: EnvelopeRequest, now: int)
    requires p.header.mode == ModePrepareOnly
    ensures Fresh(s, p, q, now).decision != Deny
  {
    DenyGateExactly(s, p, q, now);
  }

  /** The rule that wins among the policy's own, if one matches. */
  ghost predicate Decides(s: Setting, p: Policy, q: EnvelopeRequest, evaluatedAt: int, r: Rule) {
    Wins(s.texts, [p], AskedOf(q), evaluatedAt, Candidate(p.header, r))
  }

  /**
    * An active grant of this version and policy that has not expired, allows the action and the
    * risk, holds target and agent, and has room in the hour.
    */
  predicate GrantHolds(s: Setting, p: Policy, world: World, q: EnvelopeRequest) {
    && p.header.id in world.grants
    && var g := world.grants[p.header.id];
    && g.active
    && g.policyVersion == p.header.version
    && world.now < g.bounds.expiresAt
    && (q.actionType, q.actionName) in g.bounds.allowedActions
    && q.risk <= g.bounds.maxRisk
    && g.bounds.targetScope != map[]
    && InScope(s.texts, g.bounds.targetScope, q.target)
    && AgentInScope(
         s.texts, g.bounds.agentScope, Use((q.actionType, q.actionName), q.target, q.risk, q.agentKey, q.hostId))
    && Recent(world.runs, p.header.id, None, world.now - 3_600_000_000) < g.bounds.maxPerHour
  }

  /** Such a grant, and a deciding rule that lets a grant stand in for an approval. */
  ghost predicate GrantCovers(s: Setting, p: Policy, evaluatedAt: int, world: World, q: EnvelopeRequest) {
    GrantHolds(s, p, world, q) && exists r :: Decides(s, p, q, evaluatedAt, r) && r.approvalMode == PreAuthorized
  }

  /** An approval of this decision, action type and target that has not expired. */
  predicate ApprovalCovers(world: World, q: EnvelopeRequest) {
    && q.approvalId in world.approvals.requests
    && var a := world.approvals.requests[q.approvalId];
    && a.status == Approved
    && world.now <= a.expiresAt
    && a.decisionId == q.decisionId
    && a.actionType == q.actionType
    && a.target == q.target
  }

  /** The stored evaluation that a request refers to is about the same policy, action, target and incident. */
  predicate EvaluationFits(s: Setting, row: StoredEvaluation, q: EnvelopeRequest) {
    && row.policyId == Some(q.policyId)
    && row.actionType == q.actionType && row.actionName == q.actionName
    && s.targetHash(row.target) == s.targetHash(q.target)
    && row.incidentId == q.incidentId
    && row.policyVersion in {None, Some(q.expectedVersion)}
  }

  /** No run of this policy and target within the rule's cooldown, and fewer than its cap within the hour. */
  predicate RuleAllows(r: Rule, runs: seq<Run>, policyId: string, targetHash: string, now: int) {
    && (r.cooldownSeconds.Some? && r.cooldownSeconds.value != 0 ==>
          forall x | x in runs && x.policyId == policyId && x.targetHash == targetHash && !x.blocked ::
            x.createdAt < now - r.cooldownSeconds.value * 1_000_000)
    && (r.maxPerHour.Some? && r.maxPerHour.value != 0 ==>
          Recent(runs, policyId, Some(targetHash), now - 3_600_000_000) < r.maxPerHour.value)
  }

  /** The mode that a request names, in whatever case; without one it asks for a manual approval. */
  predicate Named(s: Setting, q: EnvelopeRequest, mode: string) {
    s.texts.lower(if q.authorizationMode == "" then "approved_manual" else q.authorizationMode) == mode
  }

  /** What a full set of passed gates vouches for, each part at the moment its gate was asked. */
  ghost predicate FullyAuthorized(s: Setting, seen: seq<World>, q: EnvelopeRequest)
    requires |seen| == |GATE_ORDER|
  {
    && q.policyId in seen[0].policies
    && var p := seen[0].policies[q.policyId];
    && p.header.enabled && p.header.mode != ModeDisabled
    && (p.header.expiresAt.Some? ==> seen[0].now < p.header.expiresAt.value)
    && p.header.version == q.expectedVersion
    && (q.evaluationId != "" ==>
          q.evaluationId in seen[2].evaluations && EvaluationFits(s, seen[2].evaluations[q.evaluationId], q))
    && !seen[3].killSwitchGlobal
    && seen[4].killSwitchScoped == Clear
    && seen[5].breaker == Clear
    && seen[6].limiter == Clear
    && (forall r | Decides(s, p, q, seen[1].now, r) ::
          RuleAllows(r, seen[7].runs, p.header.id, s.targetHash(q.target), seen[7].now))
    && seen[8].targetValid
    && NotDenied(s, p, q, seen[1].now)
    && if Named(s, q, "preauthorized_bounded") then GrantCovers(s, p, seen[1].now, seen[10], q)
       else q.approvalId != "" && ApprovalCovers(seen[11], q)
  }

  /** Policies were validated before they were stored. */
  ghost predicate StoredPoliciesValid(world: World) {
    forall id | id in world.policies :: DistinctRules(world.policies[id])
  }

  lemma NoneRecent(runs: seq<Run>, policyId: string, targetHash: string, cutoff: int)
    ensures Recent(runs, policyId, Some(targetHash), cutoff) == 0 <==>
      forall x | x in runs && x.policyId == policyId && x.targetHash == targetHash && !x.blocked :: x.createdAt < cutoff
  {
    var pick := IfSince(policyId, Some(targetHash), cutoff);
    if x :| x in runs && x.policyId == policyId && x.targetHash == targetHash && !x.blocked && x.createdAt >= cutoff {
      GatherMembers(runs, pick, x);
      assert x in pick(x);
    }
    if Gather(runs, pick) != [] {
      var x := Gather(runs, pick)[0];
      GatherMembers(runs, pick, x);
    }
  }

  lemma CapsOfRule(matched: Option<Rule>, runs: seq<Run>, policyId: string, targetHash: string, now: int)
    ensures CapsClear(matched, runs, policyId, targetHash, now) <==>
      (matched.Some? ==> RuleAllows(matched.value, runs, policyId, targetHash, now))
  {
    if matched.Some? && matched.value.cooldownSeconds.Some? {
      NoneRecent(runs, policyId, targetHash, now - matched.value.cooldownSeconds.value * SECOND);
    }
  }

  /** The rule that the gates found is the one that decides. */
  lemma DecidesExactly(s: Setting, p: Policy, q: EnvelopeRequest, evaluatedAt: int, matched: Option<Rule>)
    requires DistinctRules(p) && matched == MatchedRule(p, Fresh(s, p, q, evaluatedAt))
    ensures forall r :: Decides(s, p, q, evaluatedAt, r) <==> matched == Some(r)
  {
    MatchedRuleWon(s, p, q, evaluatedAt);
    forall r | Decides(s, p, q, evaluatedAt, r) ensures matched == Some(r) {
      assert matched.Some?;
      WinnerIsUnique(
        s.texts, [p], EvaluationOf(q), evaluatedAt, Candidate(p.header, r), Candidate(p.header, matched.value));
    }
  }

  /** The caps of the matched rule are those of the deciding one. */
  lemma CapsOfDecidingRule(
    s: Setting, p: Policy, q: EnvelopeRequest, evaluatedAt: int, world: World, matched: Option<Rule>)
    requires DistinctRules(p) && matched == MatchedRule(p, Fresh(s, p, q, evaluatedAt))
    ensures CapsClear(matched, world.runs, p.header.id, s.targetHash(q.target), world.now) <==>
      forall r | Decides(s, p, q, evaluatedAt, r) ::
        RuleAllows(r, world.runs, p.header.id, s.targetHash(q.target), world.now)
  {
    DecidesExactly(s, p, q, evaluatedAt, matched);
    CapsOfRule(matched, world.runs, p.header.id, s.targetHash(q.target), world.now);
  }

  lemma GrantHoldsExactly(s: Setting, p: Policy, world: World, q: EnvelopeRequest)
    requires p.header.version == q.expectedVersion
    ensures GrantHolds(s, p, world, q) <==>
      && p.header.id in world.grants
      && Authorizes(s.texts, world.grants[p.header.id], p.header, q.expectedVersion, UseOf(q), world.runs, world.now)
  {
  }

  lemma GrantPathExactly(
    s: Setting, p: Policy, q: EnvelopeRequest, evaluatedAt: int, world: World, matched: Option<Rule>)
    requires DistinctRules(p) && matched == MatchedRule(p, Fresh(s, p, q, evaluatedAt))
    requires p.header.version == q.expectedVersion
    ensures GrantCovers(s, p, evaluatedAt, world, q) <==>
      && matched.Some? && matched.value.approvalMode == PreAuthorized
      && p.header.id in world.grants
      && Authorizes(s.texts, world.grants[p.header.id], p.header, q.expectedVersion, UseOf(q), world.runs, world.now)
  {
    GrantHoldsExactly(s, p, world, q);
    DecidesExactly(s, p, q, evaluatedAt, matched);
  }

  /** Gate i of a loaded policy, by its name. */
  lemma GateByName(s: Setting, seen: seq<World>, p: Policy, q: EnvelopeRequest, i: nat, g: Gate)
    requires i < |seen| == |GATE_ORDER| && q.policyId in seen[0].policies && p == seen[0].policies[q.policyId]
    requires GATE_ORDER[i] == g && 0 < i
    ensures HoldsAt(s, seen, q, i) <==> Holds(s, g, seen[i], p, Fresh(s, p, q, seen[1].now), q)
  {
  }

  lemma GateNames()
    ensures GATE_ORDER[0] == PolicyActive && GATE_ORDER[1] == PolicyVersion && GATE_ORDER[2] == Identity
    ensures GATE_ORDER[3] == KillSwitchGlobal && GATE_ORDER[4] == KillSwitchScoped && GATE_ORDER[5] == CircuitBreaker
    ensures GATE_ORDER[6] == RateLimit && GATE_ORDER[7] == Cooldown && GATE_ORDER[8] == TargetValidation
    ensures GATE_ORDER[9] == PolicyAuthorization && GATE_ORDER[10] == PreauthAuthorization
    ensures GATE_ORDER[11] == ApprovalGate
  {
  }

  function GateName(g: Gate): string {
    match g
    case PolicyActive => "policy_active"
    case PolicyVersion => "policy_version"
    case Identity => "identity"
    case KillSwitchGlobal => "kill_switch_global"
    case KillSwitchScoped => "kill_switch_scoped"
    case CircuitBreaker => "circuit_breaker"
    case RateLimit => "rate_limit"
    case Cooldown => "cooldown"
    case TargetValidation => "target_validation"
    case PolicyAuthorization => "policy_authorization"
    case PreauthAuthorization => "preauth_authorization"
    case ApprovalGate => "approval"
  }

  /** A grant can only name all the gates, in the order in which they are asked. */
  lemma GrantsNameAllGates(w: Texts, actions: set<ActionKey>, b: Bounds, now: Time)
    requires ValidBounds(w, actions, b, now)
    ensures b.safetyGates == [] || b.safetyGates == seq(12, i requires 0 <= i < 12 => GateName(GATE_ORDER[i]))
    ensures CleanBounds(b).safetyGates == seq(12, i requires 0 <= i < 12 => GateName(GATE_ORDER[i]))
  {
    GateNames();
    var names := seq(12, i requires 0 <= i < 12 => GateName(GATE_ORDER[i]));
    assert names == SAFETY_GATES;
  }

  /** What the gates of the policy and of the stored evaluation ask, in words. */
  lemma HeaderGatesMean(s: Setting, seen: seq<World>, p: Policy, q: EnvelopeRequest)
    requires |seen| == |GATE_ORDER| && q.policyId in seen[0].policies && p == seen[0].policies[q.policyId]
    ensures HoldsAt(s, seen, q, 0) <==>
      p.header.enabled && p.header.mode != ModeDisabled
      && (p.header.expiresAt.Some? ==> seen[0].now < p.header.expiresAt.value)
    ensures HoldsAt(s, seen, q, 1) <==> p.header.version == q.expectedVersion
    ensures HoldsAt(s, seen, q, 2) <==>
      (q.evaluationId != "" ==>
        q.evaluationId in seen[2].evaluations && EvaluationFits(s, seen[2].evaluations[q.evaluationId], q))
  {
    GateNames();
    GateByName(s, seen, p, q, 1, PolicyVersion);
    GateByName(s, seen, p, q, 2, Identity);
  }

  lemma SafetyGatesMean(s: Setting, seen: seq<World>, p: Policy, q: EnvelopeRequest)
    requires |seen| == |GATE_ORDER| && q.policyId in seen[0].policies && p == seen[0].policies[q.policyId]
    ensures HoldsAt(s, seen, q, 3) <==> !seen[3].killSwitchGlobal
    ensures HoldsAt(s, seen, q, 4) <==> seen[4].killSwitchScoped == Clear
    ensures HoldsAt(s, seen, q, 5) <==> seen[5].breaker == Clear
    ensures HoldsAt(s, seen, q, 6) <==> seen[6].limiter == Clear
    ensures HoldsAt(s, seen, q, 8) <==> seen[8].targetValid
  {
    GateNames();
    GateByName(s, seen, p, q, 3, KillSwitchGlobal);
    GateByName(s, seen, p, q, 4, KillSwitchScoped);
    GateByName(s, seen, p, q, 5, CircuitBreaker);
    GateByName(s, seen, p, q, 6, RateLimit);
    GateByName(s, seen, p, q, 8, TargetValidation);
  }

  /** What the gates of policy decision and approval ask. */
  lemma AuthorityGatesMean(s: Setting, seen: seq<World>, p: Policy, q: EnvelopeRequest)
    requires |seen| == |GATE_ORDER| && q.policyId in seen[0].policies && p == seen[0].policies[q.policyId]
    ensures HoldsAt(s, seen, q, 9) <==> NotDenied(s, p, q, seen[1].now)
    ensures HoldsAt(s, seen, q, 11) <==>
      (!Named(s, q, "preauthorized_bounded") ==> q.approvalId != "" && ApprovalCovers(seen[11], q))
  {
    GateNames();
    DenyGateExactly(s, p, q, seen[1].now);
    GateByName(s, seen, p, q, 9, PolicyAuthorization);
    GateByName(s, seen, p, q, 11, ApprovalGate);
  }

  /** What the caps of the deciding rule ask. */
  lemma CapsMean(s: Setting, seen: seq<World>, p: Policy, q: EnvelopeRequest)
    requires |seen| == |GATE_ORDER| && q.policyId in seen[0].policies && p == seen[0].policies[q.policyId]
    requires DistinctRules(p)
    ensures HoldsAt(s, seen, q, 7) <==>
      forall r | Decides(s, p, q, seen[1].now, r) ::
        RuleAllows(r, seen[7].runs, p.header.id, s.targetHash(q.target), seen[7].now)
  {
    GateNames();
    CapsOfDecidingRule(s, p, q, seen[1].now, seen[7], MatchedRule(p, Fresh(s, p, q, seen[1].now)));
    GateByName(s, seen, p, q, 7, Cooldown);
  }

  /** What the grant path asks. */
  lemma GrantMeans(s: Setting, seen: seq<World>, p: Policy, q: EnvelopeRequest)
    requires |seen| == |GATE_ORDER| && q.policyId in seen[0].policies && p == seen[0].policies[q.policyId]
    requires DistinctRules(p) && p.header.version == q.expectedVersion
    ensures HoldsAt(s, seen, q, 10) <==>
      (Named(s, q, "preauthorized_bounded") ==> GrantCovers(s, p, seen[1].now, seen[10], q))
  {
    GateNames();
    GateByName(s, seen, p, q, 10, PreauthAuthorization);
    GrantPathExactly(s, p, q, seen[1].now, seen[10], MatchedRule(p, Fresh(s, p, q, seen[1].now)));
  }

  /** Passing all gates is full authorisation and nothing more, even while the world changes between gates. */
  lemma AllGatesAuthorize(s: Setting, seen: seq<World>, q: EnvelopeRequest)
    requires |seen| == |GATE_ORDER| && StoredPoliciesValid(seen[0])
    ensures AllHold(s, seen, q) <==> FullyAuthorized(s, seen, q)
  {
    if q.policyId in seen[0].policies {
      var p := seen[0].policies[q.policyId];
      HeaderGatesMean(s, seen, p, q);
      SafetyGatesMean(s, seen, p, q);
      AuthorityGatesMean(s, seen, p, q);
      CapsMean(s, seen, p, q);
      if p.header.version == q.expectedVersion {
        GrantMeans(s, seen, p, q);
      }
      AllHoldOneByOne(s, seen, q);
    } else {
      assert !HoldsAt(s, seen, q, 0);
    }
  }

  lemma AllHoldOneByOne(s: Setting, seen: seq<World>, q: EnvelopeRequest)
    requires |seen| == |GATE_ORDER|
    ensures AllHold(s, seen, q) <==>
      && HoldsAt(s, seen, q, 0) && HoldsAt(s, seen, q, 1) && HoldsAt(s, seen, q, 2) && HoldsAt(s, seen, q, 3)
      && HoldsAt(s, seen, q, 4) && HoldsAt(s, seen, q, 5) && HoldsAt(s, seen, q, 6) && HoldsAt(s, seen, q, 7)
      && HoldsAt(s, seen, q, 8) && HoldsAt(s, seen, q, 9) && HoldsAt(s, seen, q, 10) && HoldsAt(s, seen, q, 11)
  {
    var answers := seq(12, i requires 0 <= i < 12 => HoldsAt(s, seen, q, i));
    assert forall i | 0 <= i < 12 :: answers[i] == HoldsAt(s, seen, q, i);
    if forall i | 0 <= i < 12 :: answers[i] {
      forall i | 0 <= i < |GATE_ORDER| ensures HoldsAt(s, seen, q, i) {
        assert answers[i];
      }
    }
    TwelveAnswers(answers);
  }

  lemma TwelveAnswers(answers: seq<bool>)
    requires |answers| == 12
    ensures (forall i | 0 <= i < 12 :: answers[i]) <==>
      && answers[0] && answers[1] && answers[2] && answers[3] && answers[4] && answers[5]
      && answers[6] && answers[7] && answers[8] && answers[9] && answers[10] && answers[11]
  {
  }

  /** With a hash that tells targets apart, the evaluation that a request refers to was made of its very target. */
  lemma BoundTarget(s: Setting, seen: seq<World>, q: EnvelopeRequest)
    requires forall t, u :: s.targetHash(t) == s.targetHash(u) ==> t == u
    requires AllHold(s, seen, q) && q.evaluationId != ""
    ensures q.evaluationId in seen[2].evaluations && seen[2].evaluations[q.evaluationId].target == q.target
  {
    assert HoldsAt(s, seen, q, 0) && HoldsAt(s, seen, q, 2);
    HeaderGatesMean(s, seen, seen[0].policies[q.policyId], q);
  }

  /** The rows of `CheckGates` are all passed exactly when all gates hold, each in its own moment. */
  lemma AllPassedExactly(s: Setting, worlds: Moments, q: EnvelopeRequest, n: nat)
    requires n <= |GATE_ORDER| && PolicyAt(worlds[0], q).Some?
    requires
      var p := worlds[0].policies[q.policyId];
      FailsFirstAt(s, worlds, p, Fresh(s, p, q, worlds[1].now), q, n)
    ensures AllPassed(Shape(n)) <==> AllHold(s, worlds, q)
  {
    ShapeIsWellShaped(n);
    GatesOfLoadedPolicy(s, worlds, q);
    if n < |GATE_ORDER| {
      assert !HoldsAt(s, worlds, q, n);
    }
  }

  /** What a gate asks, once the policy is loaded and evaluated. */
  lemma GatesOfLoadedPolicy(s: Setting, worlds: Moments, q: EnvelopeRequest)
    requires PolicyAt(worlds[0], q).Some?
    ensures
      var p := worlds[0].policies[q.policyId];
      forall i | 0 <= i < |GATE_ORDER| :: HoldsAt(s, worlds, q, i) <==>
        HoldsNow(s, worlds, p, Fresh(s, p, q, worlds[1].now), q, i)
  {
    var p := worlds[0].policies[q.policyId];
    forall i | 0 <= i < |GATE_ORDER|
      ensures HoldsAt(s, worlds, q, i) <==> HoldsNow(s, worlds, p, Fresh(s, p, q, worlds[1].now), q, i)
    {
      if i == 0 {
        assert Holds(s, PolicyActive, worlds[0], p, Fresh(s, p, q, worlds[0].now), q) <==>
               Holds(s, PolicyActive, worlds[0], p, Fresh(s, p, q, worlds[1].now), q);
      }
    }
  }

  // ----- Prepare-only policies -----

  /** Every gate but the policy gate. */
  ghost predicate AllButPolicyGate(s: Setting, worlds: Moments, q: EnvelopeRequest) {
    forall i | 0 <= i < |GATE_ORDER| && GATE_ORDER[i] != PolicyAuthorization :: HoldsAt(s, worlds, q, i)
  }

  /** For a prepare-only policy that gate is no obstacle: all gates hold exactly when the other eleven do. */
  lemma PrepareOnlyPassesExactly(s: Setting, worlds: Moments, q: EnvelopeRequest)
    requires PolicyAt(worlds[0], q).Some? && worlds[0].policies[q.policyId].header.mode == ModePrepareOnly
    ensures AllHold(s, worlds, q) <==> AllButPolicyGate(s, worlds, q)
  {
    var p := worlds[0].policies[q.policyId];
    PrepareOnlyIsNeverDenied(s, p, q, worlds[1].now);
    assert HoldsAt(s, worlds, q, 9);
    if AllButPolicyGate(s, worlds, q) {
      forall i | 0 <= i < |GATE_ORDER| ensures HoldsAt(s, worlds, q, i) {
      }
    }
  }

  /** Where a rule matched, the gates' own evaluation tells which kind of policy it was. */
  lemma EvaluationTellsMode(s: Setting, p: Policy, q: EnvelopeRequest, now: int)
    requires Fresh(s, p, q, now).ruleId.Some? && forall r | r in p.rules :: r.decision != Prepare
    ensures Fresh(s, p, q, now).decision == Prepare <==> p.header.mode == ModePrepareOnly
  {
    EvaluateMeetsSpec(s.texts, [p], EvaluationOf(q), now);
    var c :| Wins(s.texts, [p], EvaluationOf(q), now, c) && Essence(Fresh(s, p, q, now)) == Verdict(c, 0, 0);
    assert c.policy == p.header && c.rule in p.rules;
  }
}
