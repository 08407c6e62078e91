/** The envelope with its real gates: nothing runs without full authority. */
module EnvelopeAuthority {
  import opened Wrappers
  import opened Policies
  import opened Gates
  import opened GateLaws
  import opened Modes
  import Approvals
  import opened Envelope
  import opened EnvelopeLaws
  import opened EnvelopeSafety

  /** The twelve gates, each asked in the world of its own moment. */
  function GateJudge(s: Setting): Judge<EnvelopeRequest, World> {
    Judge(
      12,
      (q: EnvelopeRequest) => ValidEnvelopeRequest(s, q),
      (seen: seq<World>, q: EnvelopeRequest, i: nat) => i < |seen| && i < 12 && HoldsAt(s, seen, q, i),
      (q: EnvelopeRequest) => !ValidRequest(EvaluationOf(q)))
  }

  /** A gate looks at no world but the first two and its own. */
  lemma GatesLookBack(s: Setting, seen: seq<World>, q: EnvelopeRequest, i: nat)
    requires i < |seen| && i < |GATE_ORDER|
    ensures HoldsAt(s, seen[..i + 1], q, i) <==> HoldsAt(s, seen, q, i)
  {
  }

  /** What it takes for a request to pass, gate by gate, in the worlds it meets. */
  ghost predicate Authorised(s: Setting, worlds: seq<World>, q: EnvelopeRequest) {
    ValidEnvelopeRequest(s, q) && ValidRequest(EvaluationOf(q)) && AllHold(s, worlds, q)
  }

  lemma HasPassedExactly(s: Setting, worlds: seq<World>, q: EnvelopeRequest)
    ensures HasPassed(GateJudge(s), q, worlds) <==> Authorised(s, worlds, q)
  {
    if |worlds| == |GATE_ORDER| {
      forall i | 0 <= i < |GATE_ORDER| ensures GateHeld(GateJudge(s), q, worlds, i) <==> HoldsAt(s, worlds, q, i) {
        GatesLookBack(s, worlds, q, i);
      }
    }
  }

  /**
    * In every run, each action that was run was run by a call whose request was fully
    * authorised: policy active at the expected version and not denying, switches, breaker,
    * limiter, caps and target clear, and a covering grant or a usable approval, each at the
    * moment its gate was asked. Stored policies only have to be valid when they are loaded.
    */
  lemma ExecutionImpliesAuthority(s: Setting, world: World, es: seq<Event<EnvelopeRequest, World>>, i: nat)
    requires i < |After(GateJudge(s), world, es).effects|
    ensures
      var st := After(GateJudge(s), world, es);
      var c := st.effects[i].caller;
      && c in st.callers
      && Authorised(s, st.callers[c].seen, st.callers[c].request)
      && (StoredPoliciesValid(st.callers[c].seen[0]) ==> FullyAuthorized(s, st.callers[c].seen, st.callers[c].request))
  {
    ExecutesAtMostOnce(GateJudge(s), world, es);
    var st := After(GateJudge(s), world, es);
    var caller := st.callers[st.effects[i].caller];
    HasPassedExactly(s, caller.seen, caller.request);
    if StoredPoliciesValid(caller.seen[0]) {
      AllGatesAuthorize(s, caller.seen, caller.request);
    }
  }

  /** And nothing more is asked: some run executes whatever is authorised in this sense. */
  lemma ExecutableExactly(s: Setting, start: World, q: EnvelopeRequest, worlds: seq<World>)
    ensures CanExecute(GateJudge(s), start, q, worlds) <==> Authorised(s, worlds, q)
  {
    ExecutesExactly(GateJudge(s), start, q, worlds);
    HasPassedExactly(s, worlds, q);
  }

  /** A request that is well formed, field by field. */
  predicate WellFormedRequest(s: Setting, q: EnvelopeRequest) {
    && 1 <= |q.policyId| <= 128 && 1 <= |q.decisionId| <= 128 && |q.approvalId| <= 128
    && q.expectedVersion >= 1
    && (q.actionType, q.actionName) in s.actions
    && 1 <= |q.actionType| <= 64 && 1 <= |q.actionName| <= 64 && q.actionType != "*" && q.actionName != "*"
    && (Named(s, q, "preauthorized_bounded") || (Named(s, q, "approved_manual") && q.approvalId != ""))
    && 0.0 <= q.risk <= 100.0
    && q.severity in {"low", "medium", "high", "critical"}
    && |q.eventIds| <= 100 && forall e | e in q.eventIds :: 1 <= |e| <= 256
  }

  lemma WellFormedExactly(s: Setting, q: EnvelopeRequest)
    ensures ValidEnvelopeRequest(s, q) && ValidRequest(EvaluationOf(q)) <==> WellFormedRequest(s, q)
  {
  }

  /** In given moments a request can be executed exactly when it is well formed and has full authority. */
  lemma ExecutableWithAuthority(s: Setting, start: World, q: EnvelopeRequest, worlds: Moments)
    requires StoredPoliciesValid(worlds[0])
    ensures CanExecute(GateJudge(s), start, q, worlds) <==> WellFormedRequest(s, q) && FullyAuthorized(s, worlds, q)
  {
    ExecutableExactly(s, start, q, worlds);
    AllGatesAuthorize(s, worlds, q);
    WellFormedExactly(s, q);
  }

  // ----- Prepare-only policies -----

  /**
    * Prepare-only policies are said never to authorise execution. The envelope executes under
    * one exactly when the eleven gates other than the policy gate hold.
    */
  lemma PrepareOnlyExecutesExactly(s: Setting, start: World, q: EnvelopeRequest, worlds: Moments)
    requires PolicyAt(worlds[0], q).Some? && worlds[0].policies[q.policyId].header.mode == ModePrepareOnly
    ensures CanExecute(GateJudge(s), start, q, worlds) <==>
      ValidEnvelopeRequest(s, q) && ValidRequest(EvaluationOf(q)) && AllButPolicyGate(s, worlds, q)
  {
    ExecutableExactly(s, start, q, worlds);
    PrepareOnlyPassesExactly(s, worlds, q);
  }

  lemma AuthorisedLoadsPolicy(s: Setting, worlds: seq<World>, q: EnvelopeRequest)
    requires Authorised(s, worlds, q)
    ensures q.policyId in worlds[0].policies && Active(worlds[0].policies[q.policyId].header, worlds[0].now)
  {
    assert HoldsAt(s, worlds, q, 0);
  }

  /**
    * Of whatever can be executed by a rule that matched, the gates' own evaluation says whether
    * the policy is prepare-only.
    */
  lemma ExecutedEvaluationTellsMode(s: Setting, start: World, q: EnvelopeRequest, worlds: seq<World>)
    requires CanExecute(GateJudge(s), start, q, worlds)
    ensures |worlds| == 12 && q.policyId in worlds[0].policies
    ensures
      var p := worlds[0].policies[q.policyId];
      var e := Fresh(s, p, q, worlds[1].now);
      e.ruleId.Some? && (forall r | r in p.rules :: r.decision != Prepare) ==>
        (p.header.mode == ModePrepareOnly <==> e.decision == Prepare)
  {
    ExecutableExactly(s, start, q, worlds);
    AuthorisedLoadsPolicy(s, worlds, q);
    var p := worlds[0].policies[q.policyId];
    if Fresh(s, p, q, worlds[1].now).ruleId.Some? && forall r | r in p.rules :: r.decision != Prepare {
      EvaluationTellsMode(s, p, q, worlds[1].now);
    }
  }

  const DRAFT := Policy(Header("draft", "Draft", "", ModePrepareOnly, true, 1, 100, None), [])

  function ApprovedRequest(action: (string, string)): EnvelopeRequest {
    EnvelopeRequest(
      "draft", 1, action.0, action.1, map[], "decision", "approval", 0.0, "low", None, [], "", None, None, MANUAL)
  }

  /** A prepare-only policy without a rule, and an approval of the request. */
  function DraftWorld(action: (string, string)): World {
    EMPTY_WORLD.(
      policies := map["draft" := DRAFT],
      approvals := Approvals.Ledger(
        map["approval" := Approvals.Approval("decision", action.0, map[], Approvals.Approved, 0)], []))
  }

  /** Whatever actions are registered, one of them can be executed under that policy. */
  lemma PrepareOnlyPolicyExecutes(s: Setting, start: World, action: (string, string))
    requires s.texts.lower(MANUAL) == MANUAL && action in s.actions
    requires 1 <= |action.0| <= 64 && 1 <= |action.1| <= 64 && action.0 != WILDCARD && action.1 != WILDCARD
    ensures CanExecute(GateJudge(s), start, ApprovedRequest(action), seq(12, _ => DraftWorld(action)))
  {
    var q, worlds := ApprovedRequest(action), seq(12, _ => DraftWorld(action));
    forall i | 0 <= i < |GATE_ORDER| && GATE_ORDER[i] != PolicyAuthorization ensures HoldsAt(s, worlds, q, i) {
      DraftGates(s, action, i);
    }
    PrepareOnlyExecutesExactly(s, start, q, worlds);
  }

  lemma DraftGates(s: Setting, action: (string, string), i: nat)
    requires i < |GATE_ORDER| && GATE_ORDER[i] != PolicyAuthorization
    requires s.texts.lower(MANUAL) == MANUAL
    ensures HoldsAt(s, seq(12, _ => DraftWorld(action)), ApprovedRequest(action), i)
  {
    var e := Fresh(s, DRAFT, ApprovedRequest(action), 0);
    NoRulesNoMatch(s, action);
    assert Holds(s, GATE_ORDER[i], DraftWorld(action), DRAFT, e, ApprovedRequest(action));
  }

  lemma NoRulesNoMatch(s: Setting, action: (string, string))
    ensures MatchedRule(DRAFT, Fresh(s, DRAFT, ApprovedRequest(action), 0)).None?
  {
    MatchedRuleWon(s, DRAFT, ApprovedRequest(action), 0);
    FoundRule(DRAFT.rules, "");
  }
}
