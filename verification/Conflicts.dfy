/** The advisory analyser: overlaps, shadowing and the predicted winner of each pair of rules. */
module Conflicts {
  import opened Ordering
  import opened Addresses
  import opened Scopes
  import opened Policies

  // ----- Overlap -----

  predicate ActionsOverlap(a: Rule, b: Rule) {
    && (a.actionType == WILDCARD || b.actionType == WILDCARD || a.actionType == b.actionType)
    && (a.actionName == WILDCARD || b.actionName == WILDCARD || a.actionName == b.actionName)
  }

  function MaxReal(x: real, y: real): real { if x < y then y else x }
  function MinReal(x: real, y: real): real { if x < y then x else y }

  predicate RiskOverlap(a: Rule, b: Rule) {
    MaxReal(a.minRisk, b.minRisk) <= MinReal(a.maxRisk, b.maxRisk)
  }

  predicate SeverityOverlap(a: Rule, b: Rule) {
    a.severity.None? || b.severity.None? || a.severity == b.severity
  }

  predicate EntriesOverlapIn(w: Texts, d: Dim, a: seq<string>, b: seq<string>) {
    match MatcherOf(d)
    case Exact => exists x | x in a :: exists y | y in b :: w.lower(x) == w.lower(y)
    case Prefix =>
      exists x | x in a :: exists y | y in b ::
        StartsWith(w.lower(x), w.lower(y)) || StartsWith(w.lower(y), w.lower(x))
    case Ip =>
      exists x | x in a :: exists y | y in b ::
        w.Entry(x).Some? && w.Entry(y).Some? && EntriesOverlap(w.Entry(x).value, w.Entry(y).value)
  }

  predicate Constrains(scope: Scope, d: Dim) { d in scope && scope[d] != [] }

  /** Only a dimension that both constrain, with disjoint entries, separates two scopes. */
  predicate ScopesOverlap(w: Texts, a: Scope, b: Scope) {
    forall d | d in a :: Constrains(a, d) && Constrains(b, d) ==> EntriesOverlapIn(w, d, a[d], b[d])
  }

  predicate RulesOverlap(w: Texts, a: Rule, b: Rule) {
    ActionsOverlap(a, b) && RiskOverlap(a, b) && SeverityOverlap(a, b) && ScopesOverlap(w, a.scope, b.scope)
  }

  function IfOverlapping(w: Texts, a: Scope, b: Scope): Dim -> seq<Dim> {
    (d: Dim) => if Constrains(a, d) && Constrains(b, d) && EntriesOverlapIn(w, d, a[d], b[d]) then [d] else []
  }

  /** The shared dimensions whose entries overlap, in key order. */
  method OverlappingScopeKeys(w: Texts, a: Scope, b: Scope) returns (keys: seq<Dim>)
    ensures keys == Gather(DIMS, IfOverlapping(w, a, b))
    ensures forall d :: d in keys <==> Constrains(a, d) && Constrains(b, d) && EntriesOverlapIn(w, d, a[d], b[d])
  {
    keys := [];
    for i := 0 to |DIMS|
      invariant keys == Gather(DIMS[..i], IfOverlapping(w, a, b))
    {
      var key := DIMS[i];
      GatherStep(DIMS, i, IfOverlapping(w, a, b));
      if Constrains(a, key) && Constrains(b, key) && EntriesOverlapIn(w, key, a[key], b[key]) {
        keys := keys + [key];
      }
    }
    assert DIMS[..|DIMS|] == DIMS;
    EveryDim();
    forall d ensures d in keys <==> Constrains(a, d) && Constrains(b, d) && EntriesOverlapIn(w, d, a[d], b[d]) {
      var pick := IfOverlapping(w, a, b);
      GatherMembers(DIMS, pick, d);
      assert d in DIMS && (d in pick(d) <==> pick(d) == [d]);
      assert forall t :: d in pick(t) ==> t == d;
    }
  }

  // ----- Inclusion -----

  predicate EntriesSubset(w: Texts, d: Dim, inner: seq<string>, outer: seq<string>) {
    match MatcherOf(d)
    case Exact => forall x | x in inner :: exists y | y in outer :: w.lower(x) == w.lower(y)
    case Prefix => forall x | x in inner :: exists y | y in outer :: StartsWith(w.lower(x), w.lower(y))
    case Ip =>
      forall x | x in inner :: exists y | y in outer ::
        w.Entry(x).Some? && w.Entry(y).Some? && Covers(w.Entry(y).value, w.Entry(x).value)
  }

  predicate ScopeIsSubset(w: Texts, inner: Scope, outer: Scope) {
    || outer == map[]
    || (inner != map[]
        && forall d | d in outer && outer[d] != [] ::
             Constrains(inner, d) && EntriesSubset(w, d, inner[d], outer[d]))
  }

  predicate RuleMatchSubset(w: Texts, inner: Rule, outer: Rule) {
    && (outer.actionType == WILDCARD || outer.actionType == inner.actionType)
    && (outer.actionName == WILDCARD || outer.actionName == inner.actionName)
    && outer.minRisk <= inner.minRisk
    && inner.maxRisk <= outer.maxRisk
    && (outer.severity.Some? ==> outer.severity == inner.severity)
    && ScopeIsSubset(w, inner.scope, outer.scope)
  }

  // ----- Findings -----

  datatype Kind = DenyConflict | DormantOverlap | RedundantOverlap | PrecedenceShadow

  datatype Impact = High | Medium | Low

  datatype Finding = Finding(
    id: string,
    kind: Kind,
    isConflict: bool,
    runtimeImpact: bool,
    impact: Impact,
    first: Candidate,
    second: Candidate,
    riskRange: (real, real),
    scopeKeys: seq<Dim>,
    winner: Candidate,
    shadowed: Candidate,
    fullCoverage: bool,
    ambiguous: bool)

  /** A rule is named by its policy id and its own id. */
  type RuleName = (string, string)

  function NameOf(c: Candidate): RuleName { (c.policy.id, c.rule.id) }

  predicate NameLe(a: RuleName, b: RuleName) {
    if a.0 != b.0 then StringLe(a.0, b.0) else StringLe(a.1, b.1)
  }

  /** The digest behind conflict ids, taken of the two names in order and the kind. */
  type Digest = (RuleName, RuleName, Kind) -> string

  function ConflictId(digest: Digest, a: Candidate, b: Candidate, kind: Kind): string {
    if NameLe(NameOf(a), NameOf(b)) then digest(NameOf(a), NameOf(b), kind) else digest(NameOf(b), NameOf(a), kind)
  }

  /** Whom the analyser expects to prevail: any DENY over any other rule, else the sort key. */
  predicate FirstPrevails(a: Candidate, b: Candidate) {
    if (a.rule.decision == Deny) != (b.rule.decision == Deny) then a.rule.decision == Deny
    else Precedes(a, b)
  }

  function FindingOf(w: Texts, digest: Digest, a: Candidate, b: Candidate, now: Time): Finding {
    var runtime := Active(a.policy, now) && Active(b.policy, now);
    var incompatible := (a.rule.decision == Deny) != (b.rule.decision == Deny);
    var winner, loser := if FirstPrevails(a, b) then a else b, if FirstPrevails(a, b) then b else a;
    var kind :=
      if !runtime then DormantOverlap
      else if incompatible then DenyConflict
      else if a.rule.decision == b.rule.decision then RedundantOverlap
      else PrecedenceShadow;
    var full := RuleMatchSubset(w, loser.rule, winner.rule);
    Finding(
      ConflictId(digest, a, b, kind), kind, runtime && incompatible, runtime,
      if runtime && incompatible then High else if kind == RedundantOverlap then Low else Medium,
      a, b,
      (MaxReal(a.rule.minRisk, b.rule.minRisk), MinReal(a.rule.maxRisk, b.rule.maxRisk)),
      Gather(DIMS, IfOverlapping(w, a.rule.scope, b.rule.scope)),
      winner, loser, full, runtime && !full)
  }

  // ----- The pairwise analysis -----

  predicate RuleIdLe(a: Rule, b: Rule) { StringLe(a.id, b.id) }
  predicate FindingIdLe(a: Finding, b: Finding) { StringLe(a.id, b.id) }

  function InPolicy(h: Header): Rule -> seq<Candidate> { (r: Rule) => [Candidate(h, r)] }

  function RulesOf(): Policy -> seq<Candidate> {
    (p: Policy) => Gather(Sort(p.rules, RuleIdLe), InPolicy(p.header))
  }

  /** All rules of all policies, by policy id and then rule id. */
  function Flat(ps: seq<Policy>): seq<Candidate> { Gather(Sort(ps, PolicyIdLe), RulesOf()) }

  /** What comparing `a` with a later rule contributes. */
  function Versus(w: Texts, digest: Digest, a: Candidate, now: Time): Candidate -> seq<Finding> {
    (b: Candidate) => if RulesOverlap(w, a.rule, b.rule) then [FindingOf(w, digest, a, b, now)] else []
  }

  /** Row i of the comparison: rule i against every later one. */
  function Row(w: Texts, digest: Digest, flat: seq<Candidate>, i: nat, now: Time): seq<Finding>
    requires i < |flat|
  {
    Against(w, digest, flat[i], flat[i + 1..], now)
  }

  function Against(w: Texts, digest: Digest, a: Candidate, later: seq<Candidate>, now: Time): seq<Finding> {
    Gather(later, Versus(w, digest, a, now))
  }

  lemma AgainstOneMore(w: Texts, digest: Digest, a: Candidate, later: seq<Candidate>, k: nat, now: Time)
    requires k < |later|
    ensures Against(w, digest, a, later[..k + 1], now) ==
      Against(w, digest, a, later[..k], now) + Versus(w, digest, a, now)(later[k])
  {
    GatherStep(later, k, Versus(w, digest, a, now));
  }

  function Rows(w: Texts, digest: Digest, flat: seq<Candidate>, now: Time): nat -> seq<Finding> {
    (i: nat) => if i < |flat| then Row(w, digest, flat, i, now) else []
  }

  /** One finding for each overlapping pair, sorted by conflict id. */
  function Findings(w: Texts, digest: Digest, ps: seq<Policy>, now: Time): seq<Finding> {
    Sort(Joined(Rows(w, digest, Flat(ps), now), |Flat(ps)|), FindingIdLe)
  }

  method Flatten(ps: seq<Policy>) returns (flat: seq<Candidate>)
    ensures flat == Flat(ps)
  {
    var ordered := Sort(ps, PolicyIdLe);
    flat := [];
    for i := 0 to |ordered|
      invariant flat == Gather(ordered[..i], RulesOf())
    {
      flat := AppendRules(ordered[i], flat);
      GatherStep(ordered, i, RulesOf());
    }
    assert ordered[..|ordered|] == ordered;
  }

  method AppendRules(p: Policy, before: seq<Candidate>) returns (flat: seq<Candidate>)
    ensures flat == before + RulesOf()(p)
  {
    var rules := Sort(p.rules, RuleIdLe);
    flat := before;
    for j := 0 to |rules|
      invariant flat == before + Gather(rules[..j], InPolicy(p.header))
    {
      GatherStep(rules, j, InPolicy(p.header));
      flat := flat + [Candidate(p.header, rules[j])];
    }
    assert rules[..|rules|] == rules;
  }

  method Compare(w: Texts, digest: Digest, a: Candidate, b: Candidate, now: Time) returns (found: seq<Finding>)
    ensures found == Versus(w, digest, a, now)(b)
  {
    if !RulesOverlap(w, a.rule, b.rule) {
      return [];
    }
    return [FindingOf(w, digest, a, b, now)];
  }

  method AnalyzeRow(w: Texts, digest: Digest, flat: seq<Candidate>, i: nat, now: Time)
    returns (row: seq<Finding>)
    requires i < |flat|
    ensures row == Row(w, digest, flat, i, now)
  {
    row := [];
    ghost var later := flat[i + 1..];
    for j := i + 1 to |flat|
      invariant row == Against(w, digest, flat[i], later[..j - i - 1], now)
    {
      var found := Compare(w, digest, flat[i], flat[j], now);
      assert later[j - i - 1] == flat[j];
      AgainstOneMore(w, digest, flat[i], later, j - i - 1, now);
      row := row + found;
    }
    assert later[..|later|] == later;
  }

  method AppendRow(w: Texts, digest: Digest, flat: seq<Candidate>, i: nat, now: Time, findings: seq<Finding>)
    returns (longer: seq<Finding>)
    requires i < |flat| && findings == Joined(Rows(w, digest, flat, now), i)
    ensures longer == Joined(Rows(w, digest, flat, now), i + 1)
  {
    var row := AnalyzeRow(w, digest, flat, i, now);
    longer := findings + row;
  }

  method AnalyzePairs(w: Texts, digest: Digest, flat: seq<Candidate>, now: Time) returns (findings: seq<Finding>)
    ensures findings == Joined(Rows(w, digest, flat, now), |flat|)
  {
    findings := [];
    for i := 0 to |flat|
      invariant findings == Joined(Rows(w, digest, flat, now), i)
    {
      findings := AppendRow(w, digest, flat, i, now, findings);
    }
  }

  method AnalyzePolicyConflicts(w: Texts, digest: Digest, ps: seq<Policy>, now: Time)
    returns (findings: seq<Finding>)
    ensures findings == Findings(w, digest, ps, now)
  {
    var flat := Flatten(ps);
    findings := AnalyzePairs(w, digest, flat, now);
    findings := Sort(findings, FindingIdLe);
  }
}
