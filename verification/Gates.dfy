/** The twelve ordered gates between an execution request and the action. */
module Gates {
  import opened Wrappers
  import opened Scopes
  import opened Policies
  import opened Runs
  import opened Grants
  import opened Approvals
  import opened Modes

  datatype Gate =
    | PolicyActive | PolicyVersion | Identity | KillSwitchGlobal | KillSwitchScoped | CircuitBreaker
    | RateLimit | Cooldown | TargetValidation | PolicyAuthorization | PreauthAuthorization | ApprovalGate

  const GATE_ORDER := [
    PolicyActive, PolicyVersion, Identity, KillSwitchGlobal, KillSwitchScoped, CircuitBreaker,
    RateLimit, Cooldown, TargetValidation, PolicyAuthorization, PreauthAuthorization, ApprovalGate]

  datatype GateResult = GateResult(gate: Gate, passed: bool, skipped: bool)

  /** Empty text stands for an absent approval, evaluation, mode or agent. */
  datatype EnvelopeRequest = EnvelopeRequest(
    policyId: string,
    expectedVersion: int,
    actionType: string,
    actionName: string,
    target: Target,
    decisionId: string,
    approvalId: string,
    risk: real,
    severity: string,
    incidentId: Option<int>,
    eventIds: seq<string>,
    evaluationId: string,
    agentKey: Option<string>,
    hostId: Option<string>,
    authorizationMode: string)

  /** A simulation record that a request may bind itself to. */
  datatype StoredEvaluation = StoredEvaluation(
    policyId: Option<string>,
    policyVersion: Option<int>,
    actionType: string,
    actionName: string,
    target: Target,
    incidentId: Option<int>)

  /** The answer of a safety component; an exception is not an answer. */
  datatype Check = Clear | Refused | Failed

  /** Everything the gates read: tables, the answers of the safety components and the clock. */
  datatype World = World(
    policies: map<string, Policy>,
    evaluations: map<string, StoredEvaluation>,
    grants: map<string, Grant>,
    approvals: Ledger,
    runs: seq<Run>,
    killSwitchGlobal: bool,
    killSwitchScoped: Check,
    breaker: Check,
    limiter: Check,
    targetValid: bool,
    now: Time)

  /** The parts that do not change between requests. */
  datatype Setting = Setting(texts: Texts, targetHash: Target -> string, actions: set<ActionKey>)

  function ModeOf(s: Setting, q: EnvelopeRequest): string {
    s.texts.lower(if q.authorizationMode == "" then MANUAL else q.authorizationMode)
  }

  predicate ValidEnvelopeRequest(s: Setting, q: EnvelopeRequest) {
    && 1 <= |q.policyId| <= 128
    && q.expectedVersion >= 1
    && (q.actionType, q.actionName) in s.actions
    && q.actionType != WILDCARD
    && q.actionName != WILDCARD
    && 1 <= |q.decisionId| <= 128
    && (ModeOf(s, q) == MANUAL || ModeOf(s, q) == PREAUTHORIZED)
    && (ModeOf(s, q) == MANUAL ==> q.approvalId != "")
    && |q.approvalId| <= 128
    && 0.0 <= q.risk <= 100.0
    && q.severity in SEVERITIES
    && |q.eventIds| <= 100
  }

  function EvaluationOf(q: EnvelopeRequest): Request {
    Request(q.actionType, q.actionName, q.target, q.risk, q.severity, q.eventIds)
  }

  function UseOf(q: EnvelopeRequest): Use {
    Use((q.actionType, q.actionName), q.target, q.risk, q.agentKey, q.hostId)
  }

  // ----- What each gate asks -----

  /** Loaded once, before the first gate. */
  function PolicyAt(world: World, q: EnvelopeRequest): Option<Policy> {
    if q.policyId in world.policies then Some(world.policies[q.policyId]) else None
  }

  /** Only the named policy is evaluated again. */
  function Fresh(s: Setting, p: Policy, q: EnvelopeRequest, now: Time): Evaluation {
    Evaluate(s.texts, [p], EvaluationOf(q), now, false)
  }

  function FindRule(rules: seq<Rule>, id: string): Option<Rule> {
    if rules == [] then None
    else if rules[0].id == id then Some(rules[0])
    else FindRule(rules[1..], id)
  }

  function MatchedRule(p: Policy, e: Evaluation): Option<Rule> {
    if e.ruleId.Some? then FindRule(p.rules, e.ruleId.value) else None
  }

  predicate BindingHolds(s: Setting, row: StoredEvaluation, q: EnvelopeRequest) {
    && row.policyId == Some(q.policyId)
    && row.actionType == q.actionType
    && row.actionName == q.actionName
    && s.targetHash(row.target) == s.targetHash(q.target)
    && row.incidentId == q.incidentId
    && (row.policyVersion.Some? ==> row.policyVersion.value == q.expectedVersion)
  }

  /** The matched rule's own caps, counted per policy and target; zero means no cap. */
  predicate CapsClear(rule: Option<Rule>, runs: seq<Run>, policyId: string, targetHash: string, now: Time) {
    rule.Some? ==>
      && (rule.value.cooldownSeconds.Some? && rule.value.cooldownSeconds.value != 0 ==>
            Recent(runs, policyId, Some(targetHash), now - rule.value.cooldownSeconds.value * SECOND) == 0)
      && (rule.value.maxPerHour.Some? && rule.value.maxPerHour.value != 0 ==>
            Recent(runs, policyId, Some(targetHash), now - HOUR) < rule.value.maxPerHour.value)
  }

  predicate PreauthHolds(s: Setting, world: World, p: Policy, e: Evaluation, q: EnvelopeRequest) {
    ModeOf(s, q) == PREAUTHORIZED ==>
      && MatchedRule(p, e).Some?
      && MatchedRule(p, e).value.approvalMode == PreAuthorized
      && p.header.id in world.grants
      && Authorizes(s.texts, world.grants[p.header.id], p.header, q.expectedVersion, UseOf(q), world.runs, world.now)
  }

  predicate ApprovalHolds(s: Setting, world: World, q: EnvelopeRequest) {
    ModeOf(s, q) != PREAUTHORIZED ==>
      q.approvalId != "" && Usable(world.approvals, q.approvalId, q.decisionId, q.target, q.actionType, world.now)
  }

  /** One gate, asked in `world`, about the policy and evaluation that earlier gates loaded. */
  predicate Holds(s: Setting, g: Gate, world: World, p: Policy, e: Evaluation, q: EnvelopeRequest) {
    match g
    case PolicyActive => Active(p.header, world.now)
    case PolicyVersion => p.header.version == q.expectedVersion
    case Identity =>
      q.evaluationId != "" ==>
        q.evaluationId in world.evaluations && BindingHolds(s, world.evaluations[q.evaluationId], q)
    case KillSwitchGlobal => !world.killSwitchGlobal
    case KillSwitchScoped => world.killSwitchScoped == Clear
    case CircuitBreaker => world.breaker == Clear
    case RateLimit => world.limiter == Clear
    case Cooldown => CapsClear(MatchedRule(p, e), world.runs, p.header.id, s.targetHash(q.target), world.now)
    case TargetValidation => world.targetValid
    case PolicyAuthorization => e.decision != Deny
    case PreauthAuthorization => PreauthHolds(s, world, p, e, q)
    case ApprovalGate => ApprovalHolds(s, world, q)
  }

  /**
    * Gate i of a request whose gates are asked one after the other; `seen` holds the
    * world each gate met. The policy comes from the first, the evaluation from the second.
    */
  predicate HoldsAt(s: Setting, seen: seq<World>, q: EnvelopeRequest, i: nat)
    requires i < |seen| && i < |GATE_ORDER|
  {
    var p := PolicyAt(seen[0], q);
    p.Some? &&
    Holds(s, GATE_ORDER[i], seen[i], p.value, Fresh(s, p.value, q, seen[if i == 0 then 0 else 1].now), q)
  }

  predicate AllHold(s: Setting, seen: seq<World>, q: EnvelopeRequest) {
    |seen| == |GATE_ORDER| && forall i | 0 <= i < |GATE_ORDER| :: HoldsAt(s, seen, q, i)
  }

  /** A passed prefix, then failures; all after the first failure are skipped. */
  predicate WellShaped(gates: seq<GateResult>) {
    && |gates| == |GATE_ORDER|
    && (forall i | 0 <= i < |gates| :: gates[i].gate == GATE_ORDER[i])
    && (forall i, j | 0 <= i < j < |gates| && gates[j].passed :: gates[i].passed)
    && (forall i | 0 <= i < |gates| :: gates[i].skipped <==> exists j | 0 <= j < i :: !gates[j].passed)
  }

  predicate AllPassed(gates: seq<GateResult>) { forall g | g in gates :: g.passed }

  function Passed(n: nat): seq<GateResult>
    requires n <= |GATE_ORDER|
  {
    seq(n, i requires 0 <= i < n => GateResult(GATE_ORDER[i], true, false))
  }

  /** The rows when the first `n` gates passed and gate n, if there is one, failed. */
  function Shape(n: nat): seq<GateResult> {
    seq(|GATE_ORDER|, i requires 0 <= i < |GATE_ORDER| => GateResult(GATE_ORDER[i], i < n, i > n))
  }

  lemma ShapeIsWellShaped(n: nat)
    requires n <= |GATE_ORDER|
    ensures WellShaped(Shape(n))
    ensures AllPassed(Shape(n)) <==> n == |GATE_ORDER|
  {
    var gates := Shape(n);
    if n < |GATE_ORDER| {
      assert gates[n] in gates && !gates[n].passed;
    }
  }

  /** The worlds that the gates are asked in, one for each: clock and tables may move on between them. */
  type Moments = worlds: seq<World> | |worlds| == 12 witness seq(12, _ => EMPTY_WORLD)

  const EMPTY_WORLD := World(map[], map[], map[], Ledger(map[], []), [], false, Clear, Clear, Clear, true, 0)

  /** Gate n, asked in its own moment about a loaded policy and its evaluation. */
  predicate HoldsNow(s: Setting, worlds: Moments, p: Policy, e: Evaluation, q: EnvelopeRequest, n: nat)
    requires n < |GATE_ORDER|
  {
    Holds(s, GATE_ORDER[n], worlds[n], p, e, q)
  }

  ghost predicate HoldUpTo(s: Setting, worlds: Moments, p: Policy, e: Evaluation, q: EnvelopeRequest, n: nat)
    requires n <= |GATE_ORDER|
  {
    forall i | 0 <= i < n :: HoldsNow(s, worlds, p, e, q, i)
  }

  /** The first `n` gates hold and gate n, if there is one, does not. */
  ghost predicate FailsFirstAt(s: Setting, worlds: Moments, p: Policy, e: Evaluation, q: EnvelopeRequest, n: nat)
    requires n <= |GATE_ORDER|
  {
    HoldUpTo(s, worlds, p, e, q, n) && (n < |GATE_ORDER| ==> !HoldsNow(s, worlds, p, e, q, n))
  }

  method Fail(n: nat, gates: seq<GateResult>) returns (all: seq<GateResult>)
    requires n < |GATE_ORDER| && gates == Passed(n)
    ensures all == Shape(n)
  {
    all := gates + [GateResult(GATE_ORDER[n], false, false)];
    for i := n + 1 to |GATE_ORDER|
      invariant all == Shape(n)[..i]
    {
      all := all + [GateResult(GATE_ORDER[i], false, true)];
    }
  }

  method Pass(ghost n: nat, gates: seq<GateResult>, g: Gate) returns (all: seq<GateResult>)
    requires n < |GATE_ORDER| && gates == Passed(n) && g == GATE_ORDER[n]
    ensures all == Passed(n + 1)
  {
    all := gates + [GateResult(g, true, false)];
  }

  /** The evaluation that a request refers to; `n` gates have been answered with a pass so far. */
  method CheckIdentity(s: Setting, worlds: Moments, p: Policy, e: Evaluation, q: EnvelopeRequest,
                       gates: seq<GateResult>)
    returns (n: nat, all: seq<GateResult>)
    requires gates == Passed(2) && HoldUpTo(s, worlds, p, e, q, 2)
    ensures n <= 3 && HoldUpTo(s, worlds, p, e, q, n)
    ensures n < 3 ==> all == Shape(n) && FailsFirstAt(s, worlds, p, e, q, n)
    ensures n == 3 ==> all == Passed(3)
  {
    n, all := 2, gates;
    if q.evaluationId != "" {
      if q.evaluationId !in worlds[2].evaluations {
        all := Fail(n, all);
        return;
      }
      var row := worlds[2].evaluations[q.evaluationId];
      var mismatches := (if row.policyId != Some(q.policyId) then ["policy_id"] else [])
        + (if row.actionType != q.actionType || row.actionName != q.actionName then ["action"] else [])
        + (if s.targetHash(row.target) != s.targetHash(q.target) then ["target"] else [])
        + (if row.incidentId != q.incidentId then ["incident_id"] else []);
      if mismatches != [] || (row.policyVersion.Some? && row.policyVersion.value != q.expectedVersion) {
        all := Fail(n, all);
        return;
      }
    }
    all := Pass(2, all, Identity);
    n := 3;
  }

  /** Kill switches and breaker. */
  method CheckSwitches(s: Setting, worlds: Moments, p: Policy, e: Evaluation, q: EnvelopeRequest,
                       gates: seq<GateResult>)
    returns (n: nat, all: seq<GateResult>)
    requires gates == Passed(3) && HoldUpTo(s, worlds, p, e, q, 3)
    ensures n <= 6 && HoldUpTo(s, worlds, p, e, q, n)
    ensures n < 6 ==> all == Shape(n) && FailsFirstAt(s, worlds, p, e, q, n)
    ensures n == 6 ==> all == Passed(6)
  {
    n, all := 3, gates;
    if worlds[3].killSwitchGlobal {
      all := Fail(n, all);
      return;
    }
    all := Pass(3, all, KillSwitchGlobal);
    n := 4;
    if worlds[4].killSwitchScoped != Clear {
      all := Fail(n, all);
      return;
    }
    all := Pass(4, all, KillSwitchScoped);
    n := 5;
    if worlds[5].breaker != Clear {
      all := Fail(n, all);
      return;
    }
    all := Pass(5, all, CircuitBreaker);
    n := 6;
  }

  /** Rate limit and the matched rule's caps; quota is taken here only. */
  method CheckLimits(s: Setting, worlds: Moments, p: Policy, e: Evaluation, q: EnvelopeRequest, recordQuota: bool,
                     gates: seq<GateResult>)
    returns (n: nat, all: seq<GateResult>, quotaUsed: bool)
    requires gates == Passed(6) && HoldUpTo(s, worlds, p, e, q, 6)
    ensures 6 <= n <= 8 && HoldUpTo(s, worlds, p, e, q, n)
    ensures n < 8 ==> all == Shape(n) && FailsFirstAt(s, worlds, p, e, q, n)
    ensures n == 8 ==> all == Passed(8)
    ensures quotaUsed <==> recordQuota && n > 6
  {
    n, all, quotaUsed := 6, gates, false;
    if worlds[6].limiter != Clear {
      all := Fail(n, all);
      return;
    }
    quotaUsed := recordQuota;
    all := Pass(6, all, RateLimit);
    n := 7;
    var rule := MatchedRule(p, e);
    if !CapsClear(rule, worlds[7].runs, p.header.id, s.targetHash(q.target), worlds[7].now) {
      all := Fail(n, all);
      return;
    }
    all := Pass(7, all, Cooldown);
    n := 8;
  }

  /** Target and policy. */
  method CheckTarget(s: Setting, worlds: Moments, p: Policy, e: Evaluation, q: EnvelopeRequest, gates: seq<GateResult>)
    returns (n: nat, all: seq<GateResult>)
    requires gates == Passed(8) && HoldUpTo(s, worlds, p, e, q, 8)
    ensures 8 <= n <= 10 && HoldUpTo(s, worlds, p, e, q, n)
    ensures n < 10 ==> all == Shape(n) && FailsFirstAt(s, worlds, p, e, q, n)
    ensures n == 10 ==> all == Passed(10)
  {
    n, all := 8, gates;
    if !worlds[8].targetValid {
      all := Fail(n, all);
      return;
    }
    all := Pass(8, all, TargetValidation);
    n := 9;
    if e.decision == Deny {
      all := Fail(n, all);
      return;
    }
    all := Pass(9, all, PolicyAuthorization);
    n := 10;
  }

  /** Asking the approval gate expires an overdue approval; no other gate touches the ledger. */
  function LedgerAfter(s: Setting, worlds: Moments, q: EnvelopeRequest, n: nat): Ledger {
    if n >= 11 && ModeOf(s, q) != PREAUTHORIZED && q.approvalId != "" then
      AfterCheck(worlds[11].approvals, q.approvalId, worlds[11].now)
    else worlds[11].approvals
  }

  /** The bounded grant or the approval; the approval is looked at on the manual path only. */
  method CheckAuthority(
    s: Setting, worlds: Moments, p: Policy, e: Evaluation, q: EnvelopeRequest,
    approvals: ApprovalManager, grants: GrantStore, gates: seq<GateResult>)
    returns (n: nat, all: seq<GateResult>)
    requires gates == Passed(10) && HoldUpTo(s, worlds, p, e, q, 10)
    requires approvals.ledger == worlds[11].approvals && grants.grants == worlds[10].grants
    modifies approvals`ledger
    ensures 10 <= n <= 12 && FailsFirstAt(s, worlds, p, e, q, n) && all == Shape(n)
    ensures approvals.ledger == LedgerAfter(s, worlds, q, n)
  {
    n, all := 10, gates;
    var preauthorized := ModeOf(s, q) == PREAUTHORIZED;
    if preauthorized {
      var authorized := grants.CheckGrantForRequest(
        s.texts, p.header, q.expectedVersion, UseOf(q), worlds[10].runs, worlds[10].now);
      var rule := MatchedRule(p, e);
      if rule.None? || rule.value.approvalMode != PreAuthorized || !authorized {
        all := Fail(n, all);
        return;
      }
    }
    all := Pass(10, all, PreauthAuthorization);
    n := 11;
    if !preauthorized {
      if q.approvalId == "" {
        all := Fail(n, all);
        return;
      }
      var valid := approvals.ValidateForExecution(q.approvalId, q.decisionId, q.target, q.actionType, worlds[11].now);
      if !valid {
        all := Fail(n, all);
        return;
      }
    }
    all := Pass(11, all, ApprovalGate);
    n := 12;
  }

  /** Every gate after the evaluation. */
  method CheckEvaluated(
    s: Setting, worlds: Moments, p: Policy, e: Evaluation, q: EnvelopeRequest, recordQuota: bool,
    approvals: ApprovalManager, grants: GrantStore, gates: seq<GateResult>)
    returns (n: nat, all: seq<GateResult>, quotaUsed: bool)
    requires gates == Passed(2) && HoldUpTo(s, worlds, p, e, q, 2)
    requires approvals.ledger == worlds[11].approvals && grants.grants == worlds[10].grants
    modifies approvals`ledger
    ensures n <= |GATE_ORDER| && FailsFirstAt(s, worlds, p, e, q, n) && all == Shape(n)
    ensures quotaUsed <==> recordQuota && n > 6
    ensures approvals.ledger == LedgerAfter(s, worlds, q, n)
  {
    quotaUsed := false;
    n, all := CheckIdentity(s, worlds, p, e, q, gates);
    if n == 3 {
      n, all := CheckSwitches(s, worlds, p, e, q, all);
    }
    if n == 6 {
      n, all, quotaUsed := CheckLimits(s, worlds, p, e, q, recordQuota, all);
    }
    if n == 8 {
      n, all := CheckTarget(s, worlds, p, e, q, all);
    }
    if n == 10 {
      n, all := CheckAuthority(s, worlds, p, e, q, approvals, grants, all);
    }
  }

  /** Why no gate results come back at all: the request itself is rejected. */
  predicate Rejected(s: Setting, worlds: Moments, q: EnvelopeRequest) {
    || !ValidEnvelopeRequest(s, q)
    || (PolicyAt(worlds[0], q).Some?
        && Active(worlds[0].policies[q.policyId].header, worlds[0].now)
        && worlds[0].policies[q.policyId].header.version == q.expectedVersion
        && !ValidRequest(EvaluationOf(q)))
  }

  /** The two gates that come before the evaluation, whatever it will say. */
  method CheckHeader(s: Setting, worlds: Moments, p: Policy, q: EnvelopeRequest) returns (n: nat, all: seq<GateResult>)
    ensures n <= 2 && (n == 2 <==> Active(p.header, worlds[0].now) && p.header.version == q.expectedVersion)
    ensures n < 2 ==> all == Shape(n) && forall e :: FailsFirstAt(s, worlds, p, e, q, n)
    ensures n == 2 ==> all == Passed(2) && forall e :: HoldUpTo(s, worlds, p, e, q, 2)
  {
    n, all := 0, [];
    if !Active(p.header, worlds[0].now) {
      all := Fail(0, all);
      return;
    }
    all := Pass(0, all, PolicyActive);
    n := 1;
    if p.header.version != q.expectedVersion {
      all := Fail(1, all);
      return;
    }
    all := Pass(1, all, PolicyVersion);
    n := 2;
  }

  /** All gates of a policy that exists. */
  method CheckPolicy(s: Setting, worlds: Moments, p: Policy, q: EnvelopeRequest, recordQuota: bool,
                     approvals: ApprovalManager, grants: GrantStore)
    returns (r: Result<seq<GateResult>>, quotaUsed: bool, ghost n: nat)
    requires approvals.ledger == worlds[11].approvals && grants.grants == worlds[10].grants
    modifies approvals`ledger
    ensures r.Invalid? <==>
      Active(p.header, worlds[0].now) && p.header.version == q.expectedVersion && !ValidRequest(EvaluationOf(q))
    ensures r.Ok? ==>
      n <= |GATE_ORDER| && r.value == Shape(n) && FailsFirstAt(s, worlds, p, Fresh(s, p, q, worlds[1].now), q, n)
    ensures quotaUsed <==> recordQuota && r.Ok? && n > 6
    ensures approvals.ledger == if r.Ok? then LedgerAfter(s, worlds, q, n) else old(approvals.ledger)
  {
    quotaUsed := false;
    var done, gates := CheckHeader(s, worlds, p, q);
    n := done;
    if done < 2 {
      return Ok(gates), false, done;
    }
    var evaluated := EvaluatePolicies(s.texts, [p], EvaluationOf(q), worlds[1].now, false);
    if evaluated.Invalid? {
      return Invalid, false, 0;
    }
    var checked;
    checked, gates, quotaUsed := CheckEvaluated(s, worlds, p, evaluated.value, q, recordQuota, approvals, grants,
      gates);
    return Ok(gates), quotaUsed, checked;
  }

  /** What the number of passed gates says about the identity gate. */
  lemma IdentityGateTells(s: Setting, worlds: Moments, p: Policy, q: EnvelopeRequest, n: nat)
    requires n <= |GATE_ORDER| && FailsFirstAt(s, worlds, p, Fresh(s, p, q, worlds[1].now), q, n)
    ensures n > 2 && q.evaluationId != "" ==>
      q.evaluationId in worlds[2].evaluations && BindingHolds(s, worlds[2].evaluations[q.evaluationId], q)
    ensures n == 2 ==>
      q.evaluationId != "" &&
      (q.evaluationId in worlds[2].evaluations ==> !BindingHolds(s, worlds[2].evaluations[q.evaluationId], q))
  {
    var e := Fresh(s, p, q, worlds[1].now);
    if n >= 2 {
      assert HoldsNow(s, worlds, p, e, q, 2) <==> n > 2;
    }
  }

  /**
    * All gates in order. There is one row for each gate: those before the first gate that
    * does not hold are passed, that one failed, and the rest are skipped. A request of a
    * policy that does not exist fails the first gate.
    */
  method CheckGates(s: Setting, worlds: Moments, q: EnvelopeRequest, recordQuota: bool, approvals: ApprovalManager,
                    grants: GrantStore)
    returns (r: Result<seq<GateResult>>, quotaUsed: bool, ghost n: nat)
    requires approvals.ledger == worlds[11].approvals && grants.grants == worlds[10].grants
    modifies approvals`ledger
    ensures r.Invalid? <==> Rejected(s, worlds, q)
    ensures r.Ok? ==> n <= |GATE_ORDER| && r.value == Shape(n)
    ensures r.Ok? && PolicyAt(worlds[0], q).None? ==> n == 0
    ensures r.Ok? && PolicyAt(worlds[0], q).Some? ==>
      FailsFirstAt(s, worlds, worlds[0].policies[q.policyId],
        Fresh(s, worlds[0].policies[q.policyId], q, worlds[1].now), q, n)
    ensures r.Ok? && n > 2 && q.evaluationId != "" ==>
      && q.evaluationId in worlds[2].evaluations
      && var row := worlds[2].evaluations[q.evaluationId];
      && row.policyId == Some(q.policyId)
      && row.actionType == q.actionType && row.actionName == q.actionName
      && s.targetHash(row.target) == s.targetHash(q.target)
      && row.incidentId == q.incidentId
      && row.policyVersion in {None, Some(q.expectedVersion)}
    ensures r.Ok? && n == 2 ==>
      q.evaluationId != "" &&
      (q.evaluationId in worlds[2].evaluations ==>
        var row := worlds[2].evaluations[q.evaluationId];
        || row.policyId != Some(q.policyId)
        || row.actionType != q.actionType || row.actionName != q.actionName
        || s.targetHash(row.target) != s.targetHash(q.target)
        || row.incidentId != q.incidentId
        || row.policyVersion !in {None, Some(q.expectedVersion)})
    ensures quotaUsed <==> recordQuota && r.Ok? && n > 6
    ensures approvals.ledger == if r.Ok? then LedgerAfter(s, worlds, q, n) else old(approvals.ledger)
  {
    if !ValidEnvelopeRequest(s, q) {
      return Invalid, false, 0;
    }
    if q.policyId !in worlds[0].policies {
      var gates := Fail(0, []);
      return Ok(gates), false, 0;
    }
    r, quotaUsed, n := CheckPolicy(s, worlds, worlds[0].policies[q.policyId], q, recordQuota, approvals, grants);
    if r.Ok? {
      IdentityGateTells(s, worlds, worlds[0].policies[q.policyId], q, n);
    }
  }
}
