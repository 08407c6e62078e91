/** Grant safety over whole histories of grant operations, policy updates and time. */
module GrantLaws {
  import opened Wrappers
  import opened Scopes
  import opened Policies
  import opened Runs
  import opened Grants

  datatype Event =
    | Activate(bounds: Bounds)
    | Revoke(policyId: string, reason: string)
    | Publish(policy: Policy)
    | Pass(time: nat)

  datatype Desk = Desk(policies: map<string, Policy>, grants: map<string, Grant>, now: Time)

  /** A policy is only ever replaced by a newer version. */
  predicate Newer(policies: map<string, Policy>, p: Policy) {
    p.header.id in policies ==> p.header.version > policies[p.header.id].header.version
  }

  function Step(w: Texts, actions: set<ActionKey>, s: Desk, e: Event): Desk {
    match e
    case Activate(b) => s.(grants := After(w, actions, s.policies, s.grants, Activation(b, s.now)))
    case Revoke(id, reason) => s.(grants := After(w, actions, s.policies, s.grants, Revocation(id, reason)))
    case Publish(p) => if Newer(s.policies, p) then s.(policies := s.policies[p.header.id := p]) else s
    case Pass(time) => s.(now := s.now + time)
  }

  /** The desk after a history, starting with no policies and no grants. */
  function DeskAfter(w: Texts, actions: set<ActionKey>, es: seq<Event>): Desk {
    if es == [] then Desk(map[], map[], 0)
    else Step(w, actions, DeskAfter(w, actions, es[..|es| - 1]), es[|es| - 1])
  }

  datatype Standing = Never | Activated(bounds: Bounds, version: int) | Revoked

  predicate Activates(w: Texts, actions: set<ActionKey>, s: Desk, e: Event, id: string) {
    e.Activate? && e.bounds.policyId == id && CanActivate(w, actions, s.policies, e.bounds, s.now)
  }

  predicate Revokes(e: Event, id: string) {
    e.Revoke? && e.policyId == id && 1 <= |id| <= 128 && 1 <= |e.reason| <= 2048
  }

  /** The latest operation that took effect on the grant of one policy. */
  function Latest(w: Texts, actions: set<ActionKey>, es: seq<Event>, id: string): Standing {
    if es == [] then Never
    else
      var init, e := es[..|es| - 1], es[|es| - 1];
      var s := DeskAfter(w, actions, init);
      if Activates(w, actions, s, e, id) then Activated(CleanBounds(e.bounds), s.policies[id].header.version)
      else if Revokes(e, id) && Latest(w, actions, init, id) != Never then Revoked
      else Latest(w, actions, init, id)
  }

  function StandingOf(grants: map<string, Grant>, id: string): Standing {
    if id !in grants then Never
    else if grants[id].active then Activated(grants[id].bounds, grants[id].policyVersion)
    else Revoked
  }

  /** The stored row always says what the latest effective operation was. */
  lemma {:induction false} RowTellsLatest(w: Texts, actions: set<ActionKey>, es: seq<Event>, id: string)
    ensures StandingOf(DeskAfter(w, actions, es).grants, id) == Latest(w, actions, es, id)
  {
    if es != [] {
      RowTellsLatest(w, actions, es[..|es| - 1], id);
    }
  }

  predicate Authorized(w: Texts, s: Desk, id: string, expectedVersion: int, u: Use, runs: seq<Run>) {
    && id in s.policies && id in s.grants
    && Authorizes(w, s.grants[id], s.policies[id].header, expectedVersion, u, runs, s.now)
  }

  /** Published policies are filed under their own id. */
  lemma {:induction false} FiledUnderOwnId(w: Texts, actions: set<ActionKey>, es: seq<Event>)
    ensures forall id | id in DeskAfter(w, actions, es).policies ::
      DeskAfter(w, actions, es).policies[id].header.id == id
  {
    if es != [] {
      FiledUnderOwnId(w, actions, es[..|es| - 1]);
    }
  }

  /** An activation of the current and expected version, within whose bounds and cap the request falls. */
  predicate Covers(w: Texts, s: Desk, standing: Standing, id: string, expectedVersion: int, u: Use, runs: seq<Run>) {
    && id in s.policies
    && standing.Activated?
    && standing.version == s.policies[id].header.version == expectedVersion
    && s.now < standing.bounds.expiresAt
    && u.action in standing.bounds.allowedActions
    && u.risk <= standing.bounds.maxRisk
    && standing.bounds.targetScope != map[]
    && InScope(w, standing.bounds.targetScope, u.target)
    && AgentInScope(w, standing.bounds.agentScope, u)
    && Recent(runs, id, None, s.now - 3_600_000_000) < standing.bounds.maxPerHour
  }

  /**
    * A request is authorised exactly when the latest effective grant operation was an
    * activation at the version that is current and expected, whose bounds hold the
    * request and have not expired, and the hourly cap has room.
    */
  lemma AuthorizedExactly(w: Texts, actions: set<ActionKey>, es: seq<Event>, id: string, expectedVersion: int, u: Use,
                          runs: seq<Run>)
    ensures
      var s := DeskAfter(w, actions, es);
      Authorized(w, s, id, expectedVersion, u, runs) <==>
      Covers(w, s, Latest(w, actions, es, id), id, expectedVersion, u, runs)
  {
    RowTellsLatest(w, actions, es, id);
    FiledUnderOwnId(w, actions, es);
    AuthorizedByRow(w, DeskAfter(w, actions, es), Latest(w, actions, es, id), id, expectedVersion, u, runs);
  }

  lemma AuthorizedByRow(w: Texts, s: Desk, standing: Standing, id: string, expectedVersion: int, u: Use, runs: seq<Run>)
    requires StandingOf(s.grants, id) == standing && (id in s.policies ==> s.policies[id].header.id == id)
    ensures Authorized(w, s, id, expectedVersion, u, runs) <==> Covers(w, s, standing, id, expectedVersion, u, runs)
  {
  }

  lemma {:induction false} ActivationIsNotAhead(w: Texts, actions: set<ActionKey>, es: seq<Event>, id: string)
    ensures Latest(w, actions, es, id).Activated? ==>
      var s := DeskAfter(w, actions, es);
      id in s.policies && Latest(w, actions, es, id).version <= s.policies[id].header.version
  {
    if es != [] {
      ActivationIsNotAhead(w, actions, es[..|es| - 1], id);
    }
  }

  /** No activation for this policy takes effect after the first `n` events. */
  ghost predicate Quiet(w: Texts, actions: set<ActionKey>, es: seq<Event>, n: nat, id: string) {
    forall k | n <= k < |es| :: !Activates(w, actions, DeskAfter(w, actions, es[..k]), es[k], id)
  }

  predicate NotEarlier(s: Desk, t: Desk, id: string) {
    && s.now <= t.now
    && (id in s.policies ==> id in t.policies && s.policies[id].header.version <= t.policies[id].header.version)
  }

  lemma {:induction false} TimeAndVersionsGrow(w: Texts, actions: set<ActionKey>, es: seq<Event>, n: nat, id: string)
    requires n <= |es|
    ensures NotEarlier(DeskAfter(w, actions, es[..n]), DeskAfter(w, actions, es), id)
    decreases |es|
  {
    if |es| == n {
      assert es[..n] == es;
    } else {
      var init := es[..|es| - 1];
      TimeAndVersionsGrow(w, actions, init, n, id);
      assert init[..n] == es[..n];
      assert NotEarlier(DeskAfter(w, actions, init), Step(w, actions, DeskAfter(w, actions, init), es[|es| - 1]), id);
    }
  }

  /** Without a new activation the standing can only be lost. */
  lemma {:induction false} QuietKeeps(w: Texts, actions: set<ActionKey>, es: seq<Event>, n: nat, id: string)
    requires n <= |es| && Quiet(w, actions, es, n, id)
    ensures Latest(w, actions, es, id) == Latest(w, actions, es[..n], id) || Latest(w, actions, es, id) == Revoked
    decreases |es|
  {
    if |es| == n {
      assert es[..n] == es;
    } else {
      var init := es[..|es| - 1];
      assert Quiet(w, actions, init, n, id) by {
        assert forall k | n <= k < |init| :: init[..k] == es[..k];
      }
      QuietKeeps(w, actions, init, n, id);
      assert init[..n] == es[..n];
      assert !Activates(w, actions, DeskAfter(w, actions, es[..|es| - 1]), es[|es| - 1], id);
    }
  }

  /** What ends the authority of an earlier activation. */
  predicate Ends(w: Texts, actions: set<ActionKey>, before: seq<Event>, e: Event, id: string) {
    var s := DeskAfter(w, actions, before);
    || Revokes(e, id)
    || (e.Publish? && e.policy.header.id == id && Newer(s.policies, e.policy))
    || (e.Pass? && Latest(w, actions, before, id).Activated? &&
      s.now + e.time >= Latest(w, actions, before, id).bounds.expiresAt)
  }

  /** After a revocation, a new policy version or expiry, nothing is authorised until the next activation. */
  lemma NothingUntilReactivation(
    w: Texts, actions: set<ActionKey>, es: seq<Event>, n: nat, id: string,
    expectedVersion: int, u: Use, runs: seq<Run>)
    requires n < |es| && Ends(w, actions, es[..n], es[n], id) && Quiet(w, actions, es, n + 1, id)
    ensures !Authorized(w, DeskAfter(w, actions, es), id, expectedVersion, u, runs)
  {
    var before, upTo := es[..n], es[..n + 1];
    assert upTo[..|upTo| - 1] == before && upTo[|upTo| - 1] == es[n];
    QuietKeeps(w, actions, es, n + 1, id);
    TimeAndVersionsGrow(w, actions, es, n + 1, id);
    ActivationIsNotAhead(w, actions, before, id);
    AuthorizedExactly(w, actions, es, id, expectedVersion, u, runs);
  }
}
