/** Versioned automation policies and their deterministic evaluation. */
module Policies {
  import opened Wrappers
  import opened Ordering
  import opened Scopes

  datatype Decision = Allow | Deny | RequireApproval | Prepare

  datatype Mode = ModeDisabled | ModePrepareOnly | ModeApprovalRequired

  datatype ApprovalMode = Required | PreAuthorized

  /** Moments are counted in microseconds. */
  type Time = int

  datatype Rule = Rule(
    id: string,
    actionType: string,
    actionName: string,
    minRisk: real,
    maxRisk: real,
    severity: Option<string>,
    decision: Decision,
    requiresApproval: bool,
    priority: int,
    scope: Scope,
    approvalMode: ApprovalMode,
    maxPerHour: Option<int>,
    cooldownSeconds: Option<int>)

  /** Everything a policy says besides its rules. */
  datatype Header = Header(
    id: string,
    name: string,
    description: string,
    mode: Mode,
    enabled: bool,
    version: int,
    priority: int,
    expiresAt: Option<Time>)

  datatype Policy = Policy(header: Header, rules: seq<Rule>)

  datatype Request = Request(
    actionType: string,
    actionName: string,
    target: Target,
    risk: real,
    severity: string,
    eventIds: seq<string>)

  const WILDCARD := "*"
  const SEVERITIES := {"low", "medium", "high", "critical"}
  const MAX_RULES_PER_POLICY := 100
  const MAX_EVENT_IDS := 100

  // ----- Validation -----

  predicate IdChar(c: char) {
    'A' <= c <= 'Z' || 'a' <= c <= 'z' || '0' <= c <= '9' || c == '_' || c == '-'
  }

  /** What `re.match` lets `$` look past: one newline at the very end. */
  function BeforeFinalNewline(s: string): string {
    if s != "" && s[|s| - 1] == '\n' then s[..|s| - 1] else s
  }

  predicate ValidId(id: string) {
    var body := BeforeFinalNewline(id);
    1 <= |body| <= 128 && forall c | c in body :: IdChar(c)
  }

  predicate KnownType(actions: set<(string, string)>, t: string) {
    t == WILDCARD || exists a | a in actions :: a.0 == t
  }

  predicate KnownName(actions: set<(string, string)>, n: string) {
    n == WILDCARD || exists a | a in actions :: a.1 == n
  }

  /** `actions` are the registered pairs of action type and name. */
  predicate ValidRule(w: Texts, actions: set<(string, string)>, r: Rule) {
    && ValidId(r.id)
    && 1 <= |r.actionType| <= 64
    && 1 <= |r.actionName| <= 64
    && KnownType(actions, r.actionType)
    && KnownName(actions, r.actionName)
    && 0.0 <= r.minRisk <= r.maxRisk <= 100.0
    && (r.severity.Some? ==> r.severity.value in SEVERITIES)
    && 0 <= r.priority <= 1000
    && (r.maxPerHour.Some? ==> r.maxPerHour.value >= 1)
    && (r.cooldownSeconds.Some? ==> r.cooldownSeconds.value >= 0)
    && AcceptableScope(w, r.scope)
  }

  predicate ValidPolicy(w: Texts, actions: set<(string, string)>, p: Policy) {
    && ValidId(p.header.id)
    && 1 <= |p.header.name| <= 255
    && |p.header.description| <= 4096
    && p.header.version >= 1
    && 0 <= p.header.priority <= 1000
    && |p.rules| <= MAX_RULES_PER_POLICY
    && AllValid(w, actions, p.rules)
    && DistinctRules(p)
  }

  predicate DistinctRules(p: Policy) {
    forall i, j | 0 <= i < j < |p.rules| :: p.rules[i].id != p.rules[j].id
  }

  ghost predicate IdOf(id: string, body: string) {
    && (id == body || id == body + "\n")
    && 1 <= |body| <= 128
    && forall c | c in body :: 'A' <= c <= 'Z' || 'a' <= c <= 'z' || '0' <= c <= '9' || c == '_' || c == '-'
  }

  /** An id is a word of up to 128 characters, which a newline may follow. */
  lemma ValidIdExactly(id: string)
    ensures ValidId(id) <==> exists body :: IdOf(id, body)
  {
    if ValidId(id) {
      var body := BeforeFinalNewline(id);
      assert forall c | c in body :: IdChar(c);
      assert id == body || id == body + [id[|id| - 1]];
      assert IdOf(id, body);
    }
    if body :| IdOf(id, body) {
      assert body[|body| - 1] in body;
      assert BeforeFinalNewline(id) == body;
    }
  }

  /** What makes a rule valid besides its scope. */
  lemma ValidRuleExactly(w: Texts, actions: set<(string, string)>, r: Rule)
    ensures ValidRule(w, actions, r) <==>
      && (exists body :: IdOf(r.id, body))
      && 1 <= |r.actionType| <= 64 && 1 <= |r.actionName| <= 64
      && (r.actionType == "*" || exists name :: (r.actionType, name) in actions)
      && (r.actionName == "*" || exists kind :: (kind, r.actionName) in actions)
      && 0.0 <= r.minRisk <= r.maxRisk <= 100.0
      && r.severity in {None, Some("low"), Some("medium"), Some("high"), Some("critical")}
      && 0 <= r.priority <= 1000
      && (r.maxPerHour.Some? ==> r.maxPerHour.value >= 1)
      && (r.cooldownSeconds.Some? ==> r.cooldownSeconds.value >= 0)
      && AcceptableScope(w, r.scope)
  {
    ValidIdExactly(r.id);
    assert forall s :: s in SEVERITIES <==> Some(s) in {Some("low"), Some("medium"), Some("high"), Some("critical")};
    if a :| a in actions && a.0 == r.actionType {
      assert (r.actionType, a.1) in actions;
    }
    if a :| a in actions && a.1 == r.actionName {
      assert (a.0, r.actionName) in actions;
    }
  }

  /** A rule that was accepted, and what it became. */
  predicate Accepts(w: Texts, actions: set<(string, string)>, rule: Rule, r: Rule) {
    && ValidRule(w, actions, rule)
    && r == rule.(scope := Normalized(rule.scope))
    && ValidRule(w, actions, r)
    && ValidScope(w, r.scope)
  }

  /** Checks one rule and replaces its scope by the normalised one. */
  method ValidateRule(w: Texts, actions: set<(string, string)>, rule: Rule) returns (r: Result<Rule>)
    ensures r.Ok? <==> ValidRule(w, actions, rule)
    ensures r.Ok? ==> Accepts(w, actions, rule, r.value)
  {
    if !ValidId(rule.id) || rule.actionType == "" || |rule.actionType| > 64 || rule.actionName == ""
      || |rule.actionName| > 64 {
      return Invalid;
    }
    if !KnownType(actions, rule.actionType) || !KnownName(actions, rule.actionName) {
      return Invalid;
    }
    if !(0.0 <= rule.minRisk <= rule.maxRisk <= 100.0) || (rule.severity.Some? && rule.severity.value !in SEVERITIES) {
      return Invalid;
    }
    if !(0 <= rule.priority <= 1000) || (rule.maxPerHour.Some? && rule.maxPerHour.value < 1)
       || (rule.cooldownSeconds.Some? && rule.cooldownSeconds.value < 0) {
      return Invalid;
    }
    var scope := ValidateScope(w, rule.scope);
    if scope.Invalid? {
      return Invalid;
    }
    return Ok(rule.(scope := scope.value));
  }

  function RuleIds(rules: seq<Rule>): set<string> { set r | r in rules :: r.id }

  predicate AllValid(w: Texts, actions: set<(string, string)>, rules: seq<Rule>) {
    forall i | 0 <= i < |rules| :: ValidRule(w, actions, rules[i])
  }

  predicate AllAccepted(w: Texts, actions: set<(string, string)>, rules: seq<Rule>, accepted: seq<Rule>) {
    |accepted| == |rules| && forall i | 0 <= i < |rules| :: Accepts(w, actions, rules[i], accepted[i])
  }

  lemma AcceptedAreValid(w: Texts, actions: set<(string, string)>, rules: seq<Rule>, accepted: seq<Rule>)
    requires AllAccepted(w, actions, rules, accepted)
    ensures AllValid(w, actions, rules)
  {
    forall i | 0 <= i < |rules| ensures ValidRule(w, actions, rules[i]) {
      assert Accepts(w, actions, rules[i], accepted[i]);
    }
  }

  lemma AcceptOneMore(w: Texts, actions: set<(string, string)>, rules: seq<Rule>, accepted: seq<Rule>, rule: Rule,
                      r: Rule)
    requires AllAccepted(w, actions, rules, accepted) && Accepts(w, actions, rule, r)
    ensures AllAccepted(w, actions, rules + [rule], accepted + [r])
  {
  }

  /** An id that is new keeps the ids distinct. */
  lemma DistinctOneMore(header: Header, rules: seq<Rule>, i: nat)
    requires i < |rules| && DistinctRules(Policy(header, rules[..i]))
    ensures DistinctRules(Policy(header, rules[..i + 1])) <==> rules[i].id !in RuleIds(rules[..i])
  {
    var longer := rules[..i + 1];
    if rules[i].id in RuleIds(rules[..i]) {
      var r :| r in rules[..i] && r.id == rules[i].id;
      var k :| 0 <= k < i && rules[k] == r;
      assert longer[k] == rules[k] && longer[i] == rules[i];
      assert longer[k].id == longer[i].id;
    } else {
      forall a, b | 0 <= a < b < |longer| ensures longer[a].id != longer[b].id {
        assert longer[a] == rules[..i][a] && rules[..i][a].id in RuleIds(rules[..i]);
        assert b < i ==> longer[b] == rules[..i][b];
      }
    }
  }

  /** The rule loop of the validator: checks, normalises and watches for repeated ids. */
  method ValidateRules(w: Texts, actions: set<(string, string)>, header: Header, rules: seq<Rule>)
    returns (r: Result<seq<Rule>>)
    ensures r.Ok? <==> AllValid(w, actions, rules) && DistinctRules(Policy(header, rules))
    ensures r.Ok? ==> AllAccepted(w, actions, rules, r.value)
  {
    var seen: set<string> := {};
    var accepted: seq<Rule> := [];
    for i := 0 to |rules|
      invariant seen == RuleIds(rules[..i])
      invariant DistinctRules(Policy(header, rules[..i]))
      invariant AllAccepted(w, actions, rules[..i], accepted)
    {
      DistinctOneMore(header, rules, i);
      var rule := ValidateRule(w, actions, rules[i]);
      if rule.Invalid? || rules[i].id in seen {
        return Invalid;
      }
      AcceptOneMore(w, actions, rules[..i], accepted, rules[i], rule.value);
      assert rules[..i + 1] == rules[..i] + [rules[i]];
      accepted := accepted + [rule.value];
      seen := seen + {rules[i].id};
    }
    assert rules[..|rules|] == rules;
    AcceptedAreValid(w, actions, rules, accepted);
    return Ok(accepted);
  }

  /** Checks a whole policy; rule ids must not repeat. */
  method ValidatePolicy(w: Texts, actions: set<(string, string)>, p: Policy) returns (r: Result<Policy>)
    ensures r.Ok? <==> ValidPolicy(w, actions, p)
    ensures r.Ok? <==>
      && ValidId(p.header.id) && 1 <= |p.header.name| <= 255 && |p.header.description| <= 4096
      && p.header.version >= 1 && 0 <= p.header.priority <= 1000
      && |p.rules| <= 100 && (forall i | 0 <= i < |p.rules| :: ValidRule(w, actions, p.rules[i]))
      && forall i, j | 0 <= i < j < |p.rules| :: p.rules[i].id != p.rules[j].id
    ensures r.Ok? ==>
      r.value.header == p.header && AllAccepted(w, actions, p.rules, r.value.rules)
  {
    if !ValidId(p.header.id) || !(1 <= |p.header.name| <= 255) || |p.header.description| > 4096 {
      return Invalid;
    }
    if p.header.version < 1 || !(0 <= p.header.priority <= 1000) || |p.rules| > MAX_RULES_PER_POLICY {
      return Invalid;
    }
    var rules := ValidateRules(w, actions, p.header, p.rules);
    if rules.Invalid? {
      return Invalid;
    }
    return Ok(Policy(p.header, rules.value));
  }

  predicate ValidRequest(q: Request) {
    && 1 <= |q.actionType| <= 64
    && 1 <= |q.actionName| <= 64
    && 0.0 <= q.risk <= 100.0
    && q.severity in SEVERITIES
    && |q.eventIds| <= MAX_EVENT_IDS
    && forall e | e in q.eventIds :: 1 <= |e| <= 256
  }

  // ----- Matching -----

  predicate RuleMatches(w: Texts, r: Rule, q: Request) {
    && (r.actionType == WILDCARD || r.actionType == q.actionType)
    && (r.actionName == WILDCARD || r.actionName == q.actionName)
    && r.minRisk <= q.risk <= r.maxRisk
    && (r.severity.Some? ==> r.severity.value == q.severity)
    && InScope(w, r.scope, q.target)
  }

  predicate Expired(h: Header, now: Time) {
    h.expiresAt.Some? && now >= h.expiresAt.value
  }

  predicate Active(h: Header, now: Time) {
    h.enabled && h.mode != ModeDisabled && !Expired(h, now)
  }

  // ----- Precedence -----

  /** A matching rule together with the policy it comes from. */
  datatype Candidate = Candidate(policy: Header, rule: Rule)

  datatype SortKey = SortKey(rule: int, scope: int, policy: int, policyId: string, ruleId: string)

  function KeyOf(c: Candidate): SortKey {
    SortKey(-c.rule.priority, 0 - Specificity(c.rule.scope), -c.policy.priority, c.policy.id, c.rule.id)
  }

  predicate KeyLe(a: SortKey, b: SortKey) {
    if a.rule != b.rule then a.rule < b.rule
    else if a.scope != b.scope then a.scope < b.scope
    else if a.policy != b.policy then a.policy < b.policy
    else if a.policyId != b.policyId then StringLe(a.policyId, b.policyId)
    else StringLe(a.ruleId, b.ruleId)
  }

  predicate Precedes(a: Candidate, b: Candidate) { KeyLe(KeyOf(a), KeyOf(b)) }

  predicate PolicyIdLe(p: Policy, q: Policy) { StringLe(p.header.id, q.header.id) }

  /** A DENY rule blocks, except inside a policy that only prepares. */
  predicate Blocks(c: Candidate) {
    c.rule.decision == Deny && c.policy.mode != ModePrepareOnly
  }

  lemma KeyLeTotal(a: SortKey, b: SortKey)
    ensures KeyLe(a, b) || KeyLe(b, a)
    ensures KeyLe(a, b) && KeyLe(b, a) ==> a == b
  {
    StringLeTotal(a.policyId, b.policyId);
    StringLeTotal(a.ruleId, b.ruleId);
  }

  lemma KeyLeTransitive(a: SortKey, b: SortKey, c: SortKey)
    requires KeyLe(a, b) && KeyLe(b, c)
    ensures KeyLe(a, c)
  {
    if a.policyId == b.policyId == c.policyId {
      if a.rule == b.rule == c.rule && a.scope == b.scope == c.scope && a.policy == b.policy == c.policy {
        StringLeTransitive(a.ruleId, b.ruleId, c.ruleId);
      }
    } else if a.rule == b.rule == c.rule && a.scope == b.scope == c.scope && a.policy == b.policy == c.policy {
      StringLeTotal(a.policyId, b.policyId);
      StringLeTotal(b.policyId, c.policyId);
      if a.policyId != b.policyId && b.policyId != c.policyId {
        StringLeTransitive(a.policyId, b.policyId, c.policyId);
        StringLeTotal(a.policyId, c.policyId);
      }
    }
  }

  /** The sort key is a total order: rule priority, scope, policy priority, ids. */
  lemma PrecedesIsTotal()
    ensures TotalPreorder(Precedes)
  {
    forall a, b ensures Precedes(a, b) || Precedes(b, a) { KeyLeTotal(KeyOf(a), KeyOf(b)); }
    forall a, b, c | Precedes(a, b) && Precedes(b, c) ensures Precedes(a, c) {
      KeyLeTransitive(KeyOf(a), KeyOf(b), KeyOf(c));
    }
  }

  // ----- Evaluation -----

  datatype Evaluation = Evaluation(
    decision: Decision,
    policyId: Option<string>,
    policyVersion: Option<int>,
    ruleId: Option<string>,
    approvalMode: ApprovalMode,
    wouldRequireApproval: bool,
    wouldExecute: bool,
    evaluatedPolicies: nat,
    candidateRules: nat,
    scopeSpecificity: int)

  function MatchOf(w: Texts, h: Header, q: Request): Rule -> seq<Candidate> {
    (r: Rule) => if RuleMatches(w, r, q) then [Candidate(h, r)] else []
  }

  function MatchesIn(w: Texts, h: Header, rules: seq<Rule>, q: Request): seq<Candidate> {
    Gather(rules, MatchOf(w, h, q))
  }

  function TurnOf(w: Texts, q: Request, now: Time): Policy -> seq<Candidate> {
    (p: Policy) => if Active(p.header, now) then MatchesIn(w, p.header, p.rules, q) else []
  }

  /** The matching rules of the active policies, in the order of the list. */
  function Candidates(w: Texts, ps: seq<Policy>, q: Request, now: Time): seq<Candidate> {
    Gather(ps, TurnOf(w, q, now))
  }

  function IfActive(now: Time): Policy -> seq<Policy> {
    (p: Policy) => if Active(p.header, now) then [p] else []
  }

  function ActiveCount(ps: seq<Policy>, now: Time): nat { |Gather(ps, IfActive(now))| }

  function IfBlocks(blocking: bool): Candidate -> seq<Candidate> {
    (c: Candidate) => if Blocks(c) == blocking then [c] else []
  }

  /** The candidates of one class: those that block, or those that do not. */
  function Class(cs: seq<Candidate>, blocking: bool): seq<Candidate> {
    Gather(cs, IfBlocks(blocking))
  }

  /** With a blocking candidate the blockers compete, otherwise the rest. */
  function Contenders(cs: seq<Candidate>): seq<Candidate> {
    if Class(cs, true) != [] then Class(cs, true) else Class(cs, false)
  }

  function Verdict(c: Candidate, evaluated: nat, candidates: nat): Evaluation {
    Evaluation(
      if Blocks(c) then Deny
      else if c.policy.mode == ModePrepareOnly then Prepare
      else if c.rule.requiresApproval && c.rule.decision == Allow then RequireApproval
      else c.rule.decision,
      Some(c.policy.id), Some(c.policy.version), Some(c.rule.id),
      c.rule.approvalMode,
      Blocks(c) || c.policy.mode == ModeApprovalRequired || c.rule.requiresApproval || c.rule.approvalMode == Required,
      false, evaluated, candidates, Specificity(c.rule.scope))
  }

  function NoVerdict(decision: Decision, evaluated: nat): Evaluation {
    Evaluation(decision, None, None, None, Required, true, false, evaluated, 0, 0)
  }

  function Evaluate(w: Texts, ps: seq<Policy>, q: Request, now: Time, killSwitch: bool): Evaluation {
    if killSwitch then NoVerdict(Deny, |ps|)
    else Decide(Candidates(w, Sort(ps, PolicyIdLe), q, now), ActiveCount(Sort(ps, PolicyIdLe), now))
  }

  /** The decision among the candidates of `n` active policies. */
  function Decide(cs: seq<Candidate>, n: nat): Evaluation {
    if cs == [] then NoVerdict(RequireApproval, n)
    else
      ContendersExist(cs);
      Verdict(First(Contenders(cs), Precedes), n, |cs|)
  }

  lemma {:induction false} ClassSplits(cs: seq<Candidate>)
    ensures |Class(cs, true)| + |Class(cs, false)| == |cs|
    ensures forall c, b :: c in Class(cs, b) <==> c in cs && Blocks(c) == b
  {
    forall c, b ensures c in Class(cs, b) <==> c in cs && Blocks(c) == b {
      GatherMembers(cs, IfBlocks(b), c);
    }
    if cs != [] {
      ClassSplits(cs[..|cs| - 1]);
    }
  }

  lemma ContendersExist(cs: seq<Candidate>)
    requires cs != []
    ensures Contenders(cs) != []
  {
    ClassSplits(cs);
  }

  lemma ClassGrows(cs: seq<Candidate>, c: Candidate, blocking: bool)
    ensures Class(cs + [c], blocking) == Class(cs, blocking) + if Blocks(c) == blocking then [c] else []
  {
    assert (cs + [c])[..|cs|] == cs;
  }

  lemma MatchesGrow(w: Texts, h: Header, rules: seq<Rule>, j: nat, q: Request)
    requires j < |rules|
    ensures MatchesIn(w, h, rules[..j + 1], q) ==
      MatchesIn(w, h, rules[..j], q) + if RuleMatches(w, rules[j], q) then [Candidate(h, rules[j])] else []
  {
    GatherStep(rules, j, MatchOf(w, h, q));
  }

  /** One policy's turn: its matching rules join the two lists. */
  method Consider(w: Texts, p: Policy, q: Request, denies: seq<Candidate>, allows: seq<Candidate>)
    returns (denies': seq<Candidate>, allows': seq<Candidate>)
    ensures denies' == denies + Class(MatchesIn(w, p.header, p.rules, q), true)
    ensures allows' == allows + Class(MatchesIn(w, p.header, p.rules, q), false)
  {
    denies', allows' := denies, allows;
    for j := 0 to |p.rules|
      invariant denies' == denies + Class(MatchesIn(w, p.header, p.rules[..j], q), true)
      invariant allows' == allows + Class(MatchesIn(w, p.header, p.rules[..j], q), false)
    {
      var rule := p.rules[j];
      ghost var found := MatchesIn(w, p.header, p.rules[..j], q);
      MatchesGrow(w, p.header, p.rules, j, q);
      if RuleMatches(w, rule, q) {
        var entry := Candidate(p.header, rule);
        ClassGrows(found, entry, true);
        ClassGrows(found, entry, false);
        if p.header.mode != ModePrepareOnly && rule.decision == Deny {
          denies' := denies' + [entry];
        } else {
          allows' := allows' + [entry];
        }
      } else {
        assert found + [] == found;
      }
    }
    assert p.rules[..|p.rules|] == p.rules;
  }

  /** All policies in turn, each skipped unless it is active. */
  method Collect(w: Texts, ps: seq<Policy>, q: Request, now: Time)
    returns (evaluated: nat, denies: seq<Candidate>, allows: seq<Candidate>)
    ensures evaluated == ActiveCount(ps, now)
    ensures denies == Class(Candidates(w, ps, q, now), true)
    ensures allows == Class(Candidates(w, ps, q, now), false)
  {
    evaluated, denies, allows := 0, [], [];
    for i := 0 to |ps|
      invariant denies == Class(Candidates(w, ps[..i], q, now), true)
      invariant allows == Class(Candidates(w, ps[..i], q, now), false)
      invariant evaluated == ActiveCount(ps[..i], now)
    {
      var p := ps[i];
      ghost var found := Candidates(w, ps[..i], q, now);
      GatherStep(ps, i, TurnOf(w, q, now));
      GatherStep(ps, i, IfActive(now));
      if Active(p.header, now) {
        evaluated := evaluated + 1;
        GatherConcat(found, MatchesIn(w, p.header, p.rules, q), IfBlocks(true));
        GatherConcat(found, MatchesIn(w, p.header, p.rules, q), IfBlocks(false));
        denies, allows := Consider(w, p, q, denies, allows);
      } else {
        assert found + [] == found;
      }
    }
    assert ps[..|ps|] == ps;
  }

  /** Sort by precedence and take the entry at index 0. */
  method Head(entries: seq<Candidate>) returns (winner: Candidate)
    requires entries != []
    ensures winner == First(entries, Precedes)
  {
    SortHead(entries, Precedes);
    winner := Sort(entries, Precedes)[0];
  }

  /** The denying entries decide when there are any, then the others, then the default. */
  method Conclude(ghost cs: seq<Candidate>, evaluated: nat, denies: seq<Candidate>, allows: seq<Candidate>)
    returns (e: Evaluation)
    requires denies == Class(cs, true) && allows == Class(cs, false)
    ensures e == Decide(cs, evaluated)
  {
    ClassSplits(cs);
    if denies != [] {
      var winner := Head(denies);
      return Verdict(winner, evaluated, |denies| + |allows|);
    }
    if allows != [] {
      var winner := Head(allows);
      return Verdict(winner, evaluated, |denies| + |allows|);
    }
    return NoVerdict(RequireApproval, evaluated);
  }

  /** The evaluation as it is carried out: collect, sort the surviving list, take its head. */
  method EvaluatePolicies(w: Texts, ps: seq<Policy>, q: Request, now: Time, killSwitch: bool)
    returns (r: Result<Evaluation>)
    ensures r == if ValidRequest(q) then Ok(Evaluate(w, ps, q, now, killSwitch)) else Invalid
    ensures r.Ok? <==>
      && 1 <= |q.actionType| <= 64 && 1 <= |q.actionName| <= 64
      && 0.0 <= q.risk <= 100.0
      && q.severity in {"low", "medium", "high", "critical"}
      && |q.eventIds| <= 100 && forall e | e in q.eventIds :: 1 <= |e| <= 256
  {
    if !ValidRequest(q) {
      return Invalid;
    }
    if killSwitch {
      return Ok(NoVerdict(Deny, |ps|));
    }
    var evaluated, denies, allows := Collect(w, Sort(ps, PolicyIdLe), q, now);
    var e := Conclude(Candidates(w, Sort(ps, PolicyIdLe), q, now), evaluated, denies, allows);
    return Ok(e);
  }
}
