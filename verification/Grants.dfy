/** Bounded pre-authorization grants: their bounds, their store and the per-request check. */
module Grants {
  import opened Wrappers
  import opened Scopes
  import opened Policies
  import opened Runs

  type ActionKey = (string, string)

  const MAX_ALLOWED_ACTIONS := 25

  /** The gates that a grant may name, which are all gates in their order. */
  const SAFETY_GATES := [
    "policy_active", "policy_version", "identity", "kill_switch_global", "kill_switch_scoped", "circuit_breaker",
    "rate_limit", "cooldown", "target_validation", "policy_authorization", "preauth_authorization", "approval"]

  /** What an administrator asks for; an empty list of gates stands for the default. */
  datatype Bounds = Bounds(
    policyId: string,
    allowedActions: seq<ActionKey>,
    targetScope: Scope,
    agentScope: Scope,
    maxRisk: real,
    maxPerHour: int,
    cooldownSeconds: int,
    expiresAt: Time,
    safetyGates: seq<string>,
    reason: string,
    rollbackRequired: bool)

  datatype Grant = Grant(policyVersion: int, active: bool, bounds: Bounds)

  // ----- Bounds -----

  predicate AllowedAction(actions: set<ActionKey>, a: ActionKey) {
    && 1 <= |a.0| <= 64
    && 1 <= |a.1| <= 64
    && a.0 != WILDCARD
    && a.1 != WILDCARD
    && a in actions
  }

  predicate ValidAllowedActions(actions: set<ActionKey>, allowed: seq<ActionKey>) {
    && 1 <= |allowed| <= MAX_ALLOWED_ACTIONS
    && (forall a | a in allowed :: AllowedAction(actions, a))
    && forall i, j | 0 <= i < j < |allowed| :: allowed[i] != allowed[j]
  }

  method ValidateAllowedActions(actions: set<ActionKey>, allowed: seq<ActionKey>) returns (r: Result<seq<ActionKey>>)
    ensures r == if ValidAllowedActions(actions, allowed) then Ok(allowed) else Invalid
    ensures r.Ok? <==>
      && 1 <= |allowed| <= 25
      && (forall i, j | 0 <= i < j < |allowed| :: allowed[i] != allowed[j])
      && forall a | a in allowed ::
        a in actions && a.0 != "*" && a.1 != "*" && 1 <= |a.0| <= 64 && 1 <= |a.1| <= 64
  {
    if allowed == [] || |allowed| > MAX_ALLOWED_ACTIONS {
      return Invalid;
    }
    var cleaned: seq<ActionKey> := [];
    var seen: set<ActionKey> := {};
    for i := 0 to |allowed|
      invariant cleaned == allowed[..i]
      invariant seen == set a | a in allowed[..i]
      invariant forall j | 0 <= j < i :: AllowedAction(actions, allowed[j])
      invariant forall j, k | 0 <= j < k < i :: allowed[j] != allowed[k]
    {
      var entry := allowed[i];
      if !AllowedAction(actions, entry) || entry in seen {
        return Invalid;
      }
      seen := seen + {entry};
      cleaned := cleaned + [entry];
    }
    assert allowed[..|allowed|] == allowed;
    assert forall a | a in allowed :: AllowedAction(actions, a);
    return Ok(cleaned);
  }

  predicate ValidBounds(w: Texts, actions: set<ActionKey>, b: Bounds, now: Time) {
    && 1 <= |b.policyId| <= 128
    && ValidAllowedActions(actions, b.allowedActions)
    && AcceptableScope(w, b.targetScope)
    && Normalized(b.targetScope) != map[]
    && AcceptableScope(w, b.agentScope)
    && 0.0 <= b.maxRisk <= 100.0
    && 1 <= b.maxPerHour <= 1000
    && 0 <= b.cooldownSeconds <= 86400
    && b.expiresAt > now
    && (b.safetyGates == [] || b.safetyGates == SAFETY_GATES)
    && 1 <= |b.reason| <= 2048
  }

  function CleanBounds(b: Bounds): Bounds {
    b.(targetScope := Normalized(b.targetScope), agentScope := Normalized(b.agentScope), safetyGates := SAFETY_GATES)
  }

  // ----- Policy side -----

  predicate Selects(r: Rule, a: ActionKey) {
    (r.actionType == WILDCARD || r.actionType == a.0) && (r.actionName == WILDCARD || r.actionName == a.1)
  }

  /** `find_preauth_rule` finds something. */
  predicate HasPreauthRule(p: Policy, a: ActionKey) {
    exists r | r in p.rules :: Selects(r, a) && r.approvalMode == PreAuthorized
  }

  predicate SupportsPreauth(p: Policy, now: Time) {
    Active(p.header, now) && exists r | r in p.rules :: r.approvalMode == PreAuthorized
  }

  predicate CanActivate(w: Texts, actions: set<ActionKey>, policies: map<string, Policy>, b: Bounds, now: Time) {
    && ValidBounds(w, actions, b, now)
    && b.policyId in policies
    && SupportsPreauth(policies[b.policyId], now)
    && forall a | a in b.allowedActions :: HasPreauthRule(policies[b.policyId], a)
  }

  // ----- Per-request check -----

  /** The part of a request that a grant bounds. */
  datatype Use = Use(action: ActionKey, target: Target, risk: real, agentKey: Option<string>, hostId: Option<string>)

  function AgentTarget(u: Use): Target {
    (if u.agentKey.Some? then map[AgentKeys := u.agentKey.value] else map[])
    + (if u.hostId.Some? then map[HostIds := u.hostId.value] else map[])
  }

  /** An agent scope can constrain the agent's key and its host, each by entries that match; nothing else passes. */
  predicate AgentInScope(w: Texts, scope: Scope, u: Use) {
    forall d | d in scope && scope[d] != [] ::
      || (d == AgentKeys && u.agentKey.Some? && EntriesMatch(w, d, scope[d], u.agentKey.value))
      || (d == HostIds && u.hostId.Some? && EntriesMatch(w, d, scope[d], u.hostId.value))
  }

  lemma AgentTargetMatches(w: Texts, scope: Scope, u: Use)
    ensures InScope(w, scope, AgentTarget(u)) <==> AgentInScope(w, scope, u)
  {
    assert AgentKeys in AgentTarget(u) <==> u.agentKey.Some?;
    assert HostIds in AgentTarget(u) <==> u.hostId.Some?;
    assert forall d :: d in AgentTarget(u) ==> d == AgentKeys || d == HostIds;
  }

  /** What the bounds of a grant promise. */
  predicate WithinBounds(w: Texts, b: Bounds, u: Use, now: Time) {
    && now < b.expiresAt
    && u.action in b.allowedActions
    && u.risk <= b.maxRisk
    && b.targetScope != map[]
    && InScope(w, b.targetScope, u.target)
    && AgentInScope(w, b.agentScope, u)
  }

  /** `grant_covers_request`: the bounds one after the other. */
  method CoversRequest(w: Texts, g: Grant, u: Use, now: Time) returns (covered: bool)
    ensures covered <==> g.active && WithinBounds(w, g.bounds, u, now)
  {
    AgentTargetMatches(w, g.bounds.agentScope, u);
    if !g.active || now >= g.bounds.expiresAt {
      return false;
    }
    if !exists i | 0 <= i < |g.bounds.allowedActions| ::
        g.bounds.allowedActions[i].0 == u.action.0 && g.bounds.allowedActions[i].1 == u.action.1 {
      return false;
    }
    if u.risk > g.bounds.maxRisk || g.bounds.targetScope == map[] || !InScope(w, g.bounds.targetScope, u.target) {
      return false;
    }
    if g.bounds.agentScope != map[] && !InScope(w, g.bounds.agentScope, AgentTarget(u)) {
      return false;
    }
    return true;
  }

  /** The whole check; `cooldownSeconds` of the grant plays no part in it. */
  predicate Authorizes(w: Texts, g: Grant, h: Header, expectedVersion: int, u: Use, runs: seq<Run>, now: Time) {
    && g.active
    && g.policyVersion == h.version
    && expectedVersion == h.version
    && WithinBounds(w, g.bounds, u, now)
    && Recent(runs, h.id, None, now - HOUR) < g.bounds.maxPerHour
  }

  datatype GrantEvent = Activation(bounds: Bounds, at: Time) | Revocation(policyId: string, reason: string)

  /** The table after one operation; a rejected operation changes nothing. */
  function After(w: Texts, actions: set<ActionKey>, policies: map<string, Policy>, grants: map<string, Grant>,
                 e: GrantEvent)
    : map<string, Grant>
  {
    match e
    case Activation(b, at) =>
      if CanActivate(w, actions, policies, b, at)
      then grants[b.policyId := Grant(policies[b.policyId].header.version, true, CleanBounds(b))]
      else grants
    case Revocation(id, reason) =>
      if id in grants && 1 <= |id| <= 128 && 1 <= |reason| <= 2048 then grants[id := grants[id].(active := false)]
      else grants
  }

  /** The persisted grants, one row for each policy id; rows are never deleted. */
  class GrantStore {
    var grants: map<string, Grant>

    constructor ()
      ensures grants == map[]
    {
      grants := map[];
    }

    method ActivateGrant(w: Texts, actions: set<ActionKey>, policies: map<string, Policy>, b: Bounds, now: Time)
      returns (r: Result<Grant>)
      modifies this
      ensures r.Ok? <==> CanActivate(w, actions, policies, b, now)
      ensures r.Ok? <==>
        && ValidBounds(w, actions, b, now)
        && b.policyId in policies
        && var p := policies[b.policyId];
        && p.header.enabled && p.header.mode != ModeDisabled
        && (p.header.expiresAt.Some? ==> now < p.header.expiresAt.value)
        && (exists rule | rule in p.rules :: rule.approvalMode == PreAuthorized)
        && forall a | a in b.allowedActions :: exists rule | rule in p.rules ::
          && rule.approvalMode == PreAuthorized
          && rule.actionType in {"*", a.0} && rule.actionName in {"*", a.1}
      ensures r.Ok? ==> b.policyId in grants && r.value == grants[b.policyId] && r.value.active
      ensures grants == After(w, actions, policies, old(grants), Activation(b, now))
    {
      var allowed := ValidateAllowedActions(actions, b.allowedActions);
      var target := ValidateScope(w, b.targetScope);
      var agent := ValidateScope(w, b.agentScope);
      if allowed.Invalid? || target.Invalid? || agent.Invalid? || target.value == map[] {
        return Invalid;
      }
      if !(1 <= |b.policyId| <= 128) || !(0.0 <= b.maxRisk <= 100.0) || !(1 <= b.maxPerHour <= 1000)
         || !(0 <= b.cooldownSeconds <= 86400) || b.expiresAt <= now || !(1 <= |b.reason| <= 2048) {
        return Invalid;
      }
      if b.safetyGates != [] && b.safetyGates != SAFETY_GATES {
        return Invalid;
      }
      if b.policyId !in policies || !SupportsPreauth(policies[b.policyId], now) {
        return Invalid;
      }
      var policy := policies[b.policyId];
      for i := 0 to |allowed.value|
        invariant forall j | 0 <= j < i :: HasPreauthRule(policy, allowed.value[j])
      {
        if !HasPreauthRule(policy, allowed.value[i]) {
          return Invalid;
        }
      }
      var row := Grant(policy.header.version, true,
        b.(targetScope := target.value, agentScope := agent.value, safetyGates := SAFETY_GATES));
      grants := grants[b.policyId := row];
      return Ok(row);
    }

    method RevokeGrant(policyId: string, reason: string) returns (r: Result<Grant>)
      modifies this
      ensures r.Ok? <==> policyId in old(grants) && 1 <= |policyId| <= 128 && 1 <= |reason| <= 2048
      ensures r.Ok? ==> policyId in grants && r.value == grants[policyId] && !r.value.active
      ensures forall w, actions, policies ::
        grants == After(w, actions, policies, old(grants), Revocation(policyId, reason))
    {
      if !(1 <= |policyId| <= 128) || !(1 <= |reason| <= 2048) || policyId !in grants {
        return Invalid;
      }
      grants := grants[policyId := grants[policyId].(active := false)];
      return Ok(grants[policyId]);
    }

    method CheckGrantForRequest(w: Texts, h: Header, expectedVersion: int, u: Use, runs: seq<Run>, now: Time)
      returns (authorized: bool)
      ensures authorized <==> h.id in grants && Authorizes(w, grants[h.id], h, expectedVersion, u, runs, now)
      ensures authorized <==>
        && h.id in grants
        && var g := grants[h.id];
        && g.active
        && g.policyVersion == h.version == expectedVersion
        && now < g.bounds.expiresAt
        && u.action in g.bounds.allowedActions
        && u.risk <= g.bounds.maxRisk
        && g.bounds.targetScope != map[]
        && (forall d | d in g.bounds.targetScope && g.bounds.targetScope[d] != [] ::
              d in u.target && EntriesMatch(w, d, g.bounds.targetScope[d], u.target[d]))
        && AgentInScope(w, g.bounds.agentScope, u)
        && Recent(runs, h.id, None, now - 3_600_000_000) < g.bounds.maxPerHour
    {
      if h.id !in grants || !grants[h.id].active {
        return false;
      }
      var grant := grants[h.id];
      if grant.policyVersion != h.version || expectedVersion != h.version {
        return false;
      }
      var covered := CoversRequest(w, grant, u, now);
      if !covered {
        return false;
      }
      return Recent(runs, h.id, None, now - HOUR) < grant.bounds.maxPerHour;
    }
  }
}
