/** When the analyser's coverage test finds everything that is covered, and what a finding says. */
module Coverage {
  import opened Wrappers
  import opened Ordering
  import opened Addresses
  import opened Scopes
  import opened Policies
  import opened PolicyLaws
  import opened Conflicts
  import opened ConflictLaws
  import Precedence

  /** Every valid request that the inner rule matches, the outer one matches too. */
  ghost predicate Within(w: Texts, inner: Rule, outer: Rule) {
    forall q | ValidRequest(q) && RuleMatches(w, inner, q) :: RuleMatches(w, outer, q)
  }

  // ----- Targets -----

  lemma ScopeHasTarget(w: Texts, scope: Scope) returns (t: Target)
    requires w.Complete() && ValidScope(w, scope)
    ensures InScope(w, scope, t)
  {
    forall d | d in scope ensures EntriesOverlapIn(w, d, scope[d], scope[d]) {
      EntriesOverlapThemselves(w, d, scope[d]);
    }
    ScopeOverlapIsExact(w, scope, scope);
    t :| InScope(w, scope, t);
  }

  /** Any value that matches in its dimension can stand in a matching target. */
  lemma ValueInTarget(w: Texts, scope: Scope, t: Target, d: Dim, value: string)
    requires InScope(w, scope, t) && d in scope && EntriesMatch(w, d, scope[d], value)
    ensures InScope(w, scope, t[d := value])
  {
  }

  ghost predicate TargetsWithin(w: Texts, inner: Scope, outer: Scope) {
    forall t: Target | InScope(w, inner, t) :: InScope(w, outer, t)
  }

  lemma OuterDimIsLimited(w: Texts, inner: Scope, outer: Scope, d: Dim)
    requires w.Complete() && ValidScope(w, inner) && ValidScope(w, outer) && TargetsWithin(w, inner, outer)
    requires d in outer
    ensures d in inner
  {
    if d !in inner {
      var t := ScopeHasTarget(w, inner);
      var without := t - {d};
      assert InScope(w, inner, without);
    }
  }

  lemma ValuesWithin(w: Texts, inner: Scope, outer: Scope, d: Dim, value: string)
    requires w.Complete() && ValidScope(w, inner) && ValidScope(w, outer) && TargetsWithin(w, inner, outer)
    requires d in inner && d in outer && EntriesMatch(w, d, inner[d], value)
    ensures EntriesMatch(w, d, outer[d], value)
  {
    var t := ScopeHasTarget(w, inner);
    ValueInTarget(w, inner, t, d, value);
    assert InScope(w, outer, t[d := value]);
  }

  // ----- Entries -----

  lemma TextIsCovered(w: Texts, inner: Scope, outer: Scope, d: Dim, x: string)
    requires w.Complete() && ValidScope(w, inner) && ValidScope(w, outer) && TargetsWithin(w, inner, outer)
    requires d in inner && d in outer && x in inner[d] && MatcherOf(d) != Ip
    ensures EntriesMatch(w, d, outer[d], x)
  {
    assert ValidEntry(w, d, x);
    assert StartsWith(w.lower(x), w.lower(x));
    ValuesWithin(w, inner, outer, d, x);
  }

  lemma HostIsCovered(w: Texts, inner: Scope, outer: Scope, x: string)
    requires w.Complete() && ValidScope(w, inner) && ValidScope(w, outer) && TargetsWithin(w, inner, outer)
    requires DestinationIps in inner && DestinationIps in outer && x in inner[DestinationIps]
    requires w.Entry(x).Some? && w.Entry(x).value.Host?
    ensures exists y | y in outer[DestinationIps] :: w.Entry(y).Some? && Covers(w.Entry(y).value, w.Entry(x).value)
  {
    assert ValidEntry(w, DestinationIps, x);
    assert w.address(x) == Some(w.Entry(x).value.address);
    ValuesWithin(w, inner, outer, DestinationIps, x);
    var y :| y in outer[DestinationIps] && w.Entry(y).Some? && EntryMatches(w.Entry(y).value, w.address(x).value);
    assert Covers(w.Entry(y).value, w.Entry(x).value);
  }

  /** Every address of a block of the inner list, written without a zone, matches the outer list. */
  lemma AddressIsCovered(w: Texts, inner: Scope, outer: Scope, x: string, a: Address)
    requires w.Complete() && ValidScope(w, inner) && ValidScope(w, outer) && TargetsWithin(w, inner, outer)
    requires DestinationIps in inner && DestinationIps in outer && x in inner[DestinationIps]
    requires w.Entry(x).Some? && EntryMatches(w.Entry(x).value, a) && a.zone == ""
    ensures exists y | y in outer[DestinationIps] :: w.Entry(y).Some? && EntryMatches(w.Entry(y).value, a)
  {
    assert w.Writable(a);
    var value :| value != "" && w.address(value) == Some(a);
    assert EntriesMatch(w, DestinationIps, inner[DestinationIps], value);
    ValuesWithin(w, inner, outer, DestinationIps, value);
  }

  predicate Meets(w: Texts, x: string, y: string) {
    w.Entry(x).Some? && w.Entry(y).Some? && EntriesOverlap(w.Entry(x).value, w.Entry(y).value)
  }

  /** A block of the inner list overlaps at most one entry of the outer list, and that is a block. */
  predicate OneBlockAtMost(w: Texts, x: string, outer: seq<string>) {
    w.Entry(x).Some? && w.Entry(x).value.Block? ==>
      forall y | y in outer && Meets(w, x, y) ::
        w.Entry(y).value.Block? && forall z | z in outer && Meets(w, x, z) :: w.Entry(z) == w.Entry(y)
  }

  /** No address block of the inner scope is spread over several entries of the outer one. */
  predicate Unspread(w: Texts, inner: Scope, outer: Scope) {
    DestinationIps in inner && DestinationIps in outer ==>
      forall x | x in inner[DestinationIps] :: OneBlockAtMost(w, x, outer[DestinationIps])
  }

  lemma BlockIsCovered(w: Texts, inner: Scope, outer: Scope, x: string)
    requires w.Complete() && ValidScope(w, inner) && ValidScope(w, outer) && TargetsWithin(w, inner, outer)
    requires DestinationIps in inner && DestinationIps in outer && x in inner[DestinationIps]
    requires w.Entry(x).Some? && w.Entry(x).value.Block? && OneBlockAtMost(w, x, outer[DestinationIps])
    ensures exists y | y in outer[DestinationIps] :: w.Entry(y).Some? && Covers(w.Entry(y).value, w.Entry(x).value)
  {
    var n := w.Entry(x).value.network;
    var first := FirstAddress(n);
    InNetworkIsInterval(first, n);
    AddressIsCovered(w, inner, outer, x, first);
    var y :| y in outer[DestinationIps] && w.Entry(y).Some? && EntryMatches(w.Entry(y).value, first);
    OverlapIsCommonAddress(w.Entry(x).value, w.Entry(y).value);
    assert Meets(w, x, y);
    var m := w.Entry(y).value.network;
    forall a: Address | InNetwork(a, n) ensures InNetwork(a, m) {
      var plain: Address := Address(a.version, a.bits, "");
      AddressIsCovered(w, inner, outer, x, plain);
      var z :| z in outer[DestinationIps] && w.Entry(z).Some? && EntryMatches(w.Entry(z).value, plain);
      OverlapIsCommonAddress(w.Entry(x).value, w.Entry(z).value);
      assert Meets(w, x, z);
    }
    SubnetIsInclusion(n, m);
  }

  lemma DimIsCovered(w: Texts, inner: Scope, outer: Scope, d: Dim)
    requires w.Complete() && ValidScope(w, inner) && ValidScope(w, outer) && TargetsWithin(w, inner, outer)
    requires d in inner && d in outer && Unspread(w, inner, outer)
    ensures EntriesSubset(w, d, inner[d], outer[d])
  {
    match MatcherOf(d) {
      case Exact =>
        forall x | x in inner[d] ensures exists y | y in outer[d] :: w.lower(x) == w.lower(y) {
          TextIsCovered(w, inner, outer, d, x);
          var y :| y in outer[d] && w.lower(y) == w.lower(x);
        }
      case Prefix =>
        forall x | x in inner[d] ensures exists y | y in outer[d] :: StartsWith(w.lower(x), w.lower(y)) {
          TextIsCovered(w, inner, outer, d, x);
        }
      case Ip =>
        forall x | x in inner[d]
          ensures exists y | y in outer[d] ::
            w.Entry(x).Some? && w.Entry(y).Some? && Covers(w.Entry(y).value, w.Entry(x).value)
        {
          assert ValidEntry(w, d, x);
          if w.Entry(x).value.Host? {
            HostIsCovered(w, inner, outer, x);
          } else {
            BlockIsCovered(w, inner, outer, x);
          }
        }
    }
  }

  lemma ScopeSubsetIsComplete(w: Texts, inner: Scope, outer: Scope)
    requires w.Complete() && ValidScope(w, inner) && ValidScope(w, outer) && TargetsWithin(w, inner, outer)
    requires Unspread(w, inner, outer)
    ensures ScopeIsSubset(w, inner, outer)
  {
    forall d | d in outer ensures Constrains(inner, d) && EntriesSubset(w, d, inner[d], outer[d]) {
      OuterDimIsLimited(w, inner, outer, d);
      DimIsCovered(w, inner, outer, d);
    }
    if outer != map[] {
      var d :| d in outer;
      assert d in inner;
    }
  }

  // ----- Rules -----

  function Other(text: string): string { if text == "a" then "b" else "a" }

  /** A request that a rule matches, as free as the rule leaves it. */
  ghost predicate Admits(r: Rule, q: Request) {
    && (r.actionType == WILDCARD || q.actionType == r.actionType)
    && (r.actionName == WILDCARD || q.actionName == r.actionName)
    && r.minRisk <= q.risk <= r.maxRisk
    && (r.severity.None? || r.severity == Some(q.severity))
  }

  lemma AdmittedMatches(w: Texts, inner: Rule, outer: Rule, q: Request, t: Target)
    requires Within(w, inner, outer) && InScope(w, inner.scope, t) && ValidRequest(q) && Admits(inner, q)
    ensures RuleMatches(w, outer, q.(target := t))
  {
    assert RuleMatches(w, inner, q.(target := t)) && ValidRequest(q.(target := t));
  }

  /** Some request that the rule admits. */
  function Sample(r: Rule): Request {
    Request(
      if r.actionType == WILDCARD then "a" else r.actionType, if r.actionName == WILDCARD then "a" else r.actionName,
      map[], r.minRisk, if r.severity.Some? then r.severity.value else "low", [])
  }

  lemma ActionsAreCovered(w: Texts, actions: set<(string, string)>, inner: Rule, outer: Rule)
    requires w.Complete() && Validated(w, actions, inner) && Validated(w, actions, outer) && Within(w, inner, outer)
    ensures outer.actionType == WILDCARD || outer.actionType == inner.actionType
    ensures outer.actionName == WILDCARD || outer.actionName == inner.actionName
  {
    var t := ScopeHasTarget(w, inner.scope);
    var q := Sample(inner);
    AdmittedMatches(w, inner, outer, q, t);
    if inner.actionType == WILDCARD {
      AdmittedMatches(w, inner, outer, q.(actionType := Other(outer.actionType)), t);
    }
    if inner.actionName == WILDCARD {
      AdmittedMatches(w, inner, outer, q.(actionName := Other(outer.actionName)), t);
    }
  }

  lemma RangesAreCovered(w: Texts, actions: set<(string, string)>, inner: Rule, outer: Rule)
    requires w.Complete() && Validated(w, actions, inner) && Validated(w, actions, outer) && Within(w, inner, outer)
    ensures outer.minRisk <= inner.minRisk && inner.maxRisk <= outer.maxRisk
    ensures outer.severity.Some? ==> outer.severity == inner.severity
  {
    var t := ScopeHasTarget(w, inner.scope);
    var q := Sample(inner);
    AdmittedMatches(w, inner, outer, q, t);
    AdmittedMatches(w, inner, outer, q.(risk := inner.maxRisk), t);
    if inner.severity.None? {
      AdmittedMatches(w, inner, outer, q.(severity := "high"), t);
    }
  }

  lemma TargetsAreCovered(w: Texts, actions: set<(string, string)>, inner: Rule, outer: Rule)
    requires Validated(w, actions, inner) && Within(w, inner, outer)
    ensures TargetsWithin(w, inner.scope, outer.scope)
  {
    forall t: Target | InScope(w, inner.scope, t) ensures InScope(w, outer.scope, t) {
      AdmittedMatches(w, inner, outer, Sample(inner), t);
    }
  }

  /**
    * The coverage test of two validated rules succeeds exactly when every valid request that
    * the inner one matches is matched by the outer one, unless an address block of the inner
    * scope is spread over several entries of the outer one.
    */
  lemma CoverageExactly(w: Texts, actions: set<(string, string)>, inner: Rule, outer: Rule)
    requires w.Complete() && Validated(w, actions, inner) && Validated(w, actions, outer)
    requires Unspread(w, inner.scope, outer.scope)
    ensures RuleMatchSubset(w, inner, outer) <==> Within(w, inner, outer)
  {
    if Within(w, inner, outer) {
      ActionsAreCovered(w, actions, inner, outer);
      RangesAreCovered(w, actions, inner, outer);
      TargetsAreCovered(w, actions, inner, outer);
      ScopeSubsetIsComplete(w, inner.scope, outer.scope);
    }
    if RuleMatchSubset(w, inner, outer) {
      forall q | ValidRequest(q) && RuleMatches(w, inner, q) ensures RuleMatches(w, outer, q) {
        SubsetIsSound(w, inner, outer, q);
      }
    }
  }

  // ----- Where the test misses something -----

  function Half(n: Network, upper: bool): Network
    requires n.length < Width(n.version)
  {
    HalvesAreBlocks(n);
    Network(n.version, if upper then n.base + Pow2(Width(n.version) - n.length - 1) else n.base, n.length + 1)
  }

  lemma HalvesAreBlocks(n: Network)
    requires n.length < Width(n.version)
    ensures
      var half := Pow2(Width(n.version) - n.length - 1);
      && Network(n.version, n.base, n.length + 1).Valid()
      && Network(n.version, n.base + half, n.length + 1).Valid()
      && n.Size() == 2 * half
  {
    var half := Pow2(Width(n.version) - n.length - 1);
    assert n.base % (2 * half) == 0;
    EvenMultiple(n.base, half, n.base / (2 * half));
  }

  lemma EvenMultiple(x: nat, half: nat, k: nat)
    requires half > 0 && x == k * (2 * half)
    ensures x % half == 0 && (x + half) % half == 0
  {
    MultipleOf(x, half, 2 * k);
    MultipleOf(x + half, half, 2 * k + 1);
  }

  lemma MultipleOf(x: nat, half: nat, k: nat)
    requires half > 0 && x == k * half
    ensures x % half == 0
  {
    DivisionStep(x, half, k);
  }

  /** A block and its two halves: the halves match whatever the block matches, and the test denies it. */
  lemma HalvesAreMissed(w: Texts, n: Network, x: string, y: string, z: string)
    requires n.length < Width(n.version)
    requires w.Entry(x) == Some(Block(n))
    requires w.Entry(y) == Some(Block(Half(n, false))) && w.Entry(z) == Some(Block(Half(n, true)))
    ensures !EntriesSubset(w, DestinationIps, [x], [y, z])
    ensures forall value ::
      EntriesMatch(w, DestinationIps, [x], value) ==> EntriesMatch(w, DestinationIps, [y, z], value)
  {
    HalvesAreBlocks(n);
    assert !Covers(Block(Half(n, false)), Block(n)) && !Covers(Block(Half(n, true)), Block(n));
    assert x in [x];
    forall value | EntriesMatch(w, DestinationIps, [x], value)
      ensures EntriesMatch(w, DestinationIps, [y, z], value)
    {
      var a := w.address(value).value;
      InNetworkIsInterval(a, n);
      InNetworkIsInterval(a, Half(n, false));
      InNetworkIsInterval(a, Half(n, true));
      assert y in [y, z] && z in [y, z];
    }
  }

  // ----- What a finding says -----

  /** Full coverage and ambiguity of a finding, in terms of requests. */
  lemma FullCoverageExactly(
    w: Texts, digest: Digest, actions: set<(string, string)>, ps: seq<Policy>, now: Time, f: Finding)
    requires w.Complete() && AllValidated(w, actions, ps) && f in Findings(w, digest, ps, now)
    requires Unspread(w, f.shadowed.rule.scope, f.winner.rule.scope)
    ensures f.fullCoverage <==> Within(w, f.shadowed.rule, f.winner.rule)
    ensures f.ambiguous <==>
      && Active(f.first.policy, now) && Active(f.second.policy, now)
      && exists q :: ValidRequest(q) && RuleMatches(w, f.shadowed.rule, q) && !RuleMatches(w, f.winner.rule, q)
  {
    ReportedIsPair(w, digest, ps, now, f);
    CoverageExactly(w, actions, f.shadowed.rule, f.winner.rule);
  }

  predicate InRange(low: real, high: real, risk: real) { low <= risk <= high }

  /** The rest of a finding: whose rules, whether it matters now, of which kind, and where the two meet. */
  lemma FindingTells(w: Texts, digest: Digest, ps: seq<Policy>, now: Time, f: Finding)
    requires f in Findings(w, digest, ps, now)
    ensures
      var denied := (f.first.rule.decision == Deny) != (f.second.rule.decision == Deny);
      && (f.runtimeImpact <==> Active(f.first.policy, now) && Active(f.second.policy, now))
      && (f.isConflict <==> f.runtimeImpact && denied)
      && (f.kind == DormantOverlap <==> !f.runtimeImpact)
      && (f.kind == DenyConflict <==> f.runtimeImpact && denied)
      && (f.kind == RedundantOverlap <==> f.runtimeImpact && f.first.rule.decision == f.second.rule.decision)
      && (f.impact == High <==> f.kind == DenyConflict)
      && (f.impact == Low <==> f.kind == RedundantOverlap)
    ensures {f.winner, f.shadowed} == {f.first, f.second}
    ensures f.first.rule.decision == Deny && f.second.rule.decision != Deny ==> f.winner == f.first
    ensures f.second.rule.decision == Deny && f.first.rule.decision != Deny ==> f.winner == f.second
    ensures forall risk ::
      InRange(f.riskRange.0, f.riskRange.1, risk) <==>
      && InRange(f.first.rule.minRisk, f.first.rule.maxRisk, risk)
      && InRange(f.second.rule.minRisk, f.second.rule.maxRisk, risk)
    ensures forall d ::
      d in f.scopeKeys <==> Constrains(f.first.rule.scope, d) && Constrains(f.second.rule.scope, d)
  {
    ReportedIsPair(w, digest, ps, now, f);
    var a, b := f.first.rule.scope, f.second.rule.scope;
    forall d ensures d in f.scopeKeys <==> Constrains(a, d) && Constrains(b, d) {
      GatherMembers(DIMS, IfOverlapping(w, a, b), d);
      EveryDim();
      assert d in IfOverlapping(w, a, b)(d) <==>
        Constrains(a, d) && Constrains(b, d) && EntriesOverlapIn(w, d, a[d], b[d]);
    }
  }

  // ----- How findings are ordered and named -----

  lemma ByTextOrders<T(!new)>(le: (T, T) -> bool, text: T -> string)
    requires forall x, y :: le(x, y) <==> StringLe(text(x), text(y))
    ensures TotalPreorder(le)
  {
    forall x, y ensures le(x, y) || le(y, x) {
      StringLeTotal(text(x), text(y));
    }
    forall x, y, z | le(x, y) && le(y, z) ensures le(x, z) {
      StringLeTransitive(text(x), text(y), text(z));
    }
  }

  /** By policy id, then by rule id. */
  ghost predicate NamedBefore(c: Candidate, d: Candidate) {
    Smaller(c.policy.id, d.policy.id) || (c.policy.id == d.policy.id && Smaller(c.rule.id, d.rule.id))
  }

  ghost predicate Ascends(flat: seq<Candidate>) {
    forall i, j | 0 <= i < j < |flat| :: NamedBefore(flat[i], flat[j])
  }

  lemma {:induction false} RulesInPlace(h: Header, rules: seq<Rule>)
    ensures |Gather(rules, InPolicy(h))| == |rules|
    ensures forall i | 0 <= i < |rules| :: Gather(rules, InPolicy(h))[i] == Candidate(h, rules[i])
  {
    if rules != [] {
      RulesInPlace(h, rules[..|rules| - 1]);
    }
  }

  lemma RulesAscend(p: Policy)
    requires DistinctRules(p)
    ensures Ascends(RulesOf()(p))
  {
    var rules := Sort(p.rules, RuleIdLe);
    ByTextOrders(RuleIdLe, (r: Rule) => r.id);
    SortOrders(p.rules, RuleIdLe);
    SortedRulesDistinct(p);
    RulesInPlace(p.header, rules);
    forall i, j | 0 <= i < j < |rules| ensures Smaller(rules[i].id, rules[j].id) {
      StringLeMeans(rules[i].id, rules[j].id);
      assert RuleIdLe(rules[i], rules[j]);
      assert DistinctRules(Policy(p.header, rules)) && Policy(p.header, rules).rules == rules;
    }
  }

  lemma OfPolicy(p: Policy, c: Candidate)
    ensures c in RulesOf()(p) ==> c.policy == p.header
  {
    GatherMembers(Sort(p.rules, RuleIdLe), InPolicy(p.header), c);
  }

  lemma {:induction false} PoliciesAscend(ps: seq<Policy>)
    requires WellFormed(ps) && SortedBy(ps, PolicyIdLe)
    ensures Ascends(Gather(ps, RulesOf()))
    decreases |ps|
  {
    if ps != [] {
      var init, p := ps[..|ps| - 1], ps[|ps| - 1];
      var before := Gather(init, RulesOf());
      PoliciesAscend(init);
      assert p in ps;
      RulesAscend(p);
      forall c, d | c in before && d in RulesOf()(p) ensures NamedBefore(c, d) {
        OfPolicy(p, d);
        GatherMembers(init, RulesOf(), c);
        var o :| o in init && c in RulesOf()(o);
        OfPolicy(o, c);
        var i :| 0 <= i < |init| && init[i] == o;
        assert ps[i] == o && PolicyIdLe(ps[i], ps[|ps| - 1]);
        StringLeMeans(o.header.id, p.header.id);
      }
    }
  }

  /** Two rules of one policy or of two have one conflict id, whichever comes first. */
  lemma ConflictIdExactly(digest: Digest, a: Candidate, b: Candidate, kind: Kind)
    requires NamedBefore(a, b)
    ensures ConflictId(digest, a, b, kind) == ConflictId(digest, b, a, kind)
    ensures ConflictId(digest, a, b, kind) == digest((a.policy.id, a.rule.id), (b.policy.id, b.rule.id), kind)
  {
    StringLeMeans(a.policy.id, b.policy.id);
    StringLeTotal(a.policy.id, b.policy.id);
    StringLeMeans(a.rule.id, b.rule.id);
    StringLeTotal(a.rule.id, b.rule.id);
    if Smaller(a.policy.id, b.policy.id) {
      Precedence.SmallerIsStrict(a.policy.id, b.policy.id);
    } else {
      Precedence.SmallerIsStrict(a.rule.id, b.rule.id);
    }
  }

  /** A finding names the earlier rule first, and its id is taken of the two names in that order. */
  lemma FindingIsNamed(w: Texts, digest: Digest, ps: seq<Policy>, now: Time, f: Finding)
    requires WellFormed(ps) && f in Findings(w, digest, ps, now)
    ensures NamedBefore(f.first, f.second)
    ensures f.id ==
      digest((f.first.policy.id, f.first.rule.id), (f.second.policy.id, f.second.rule.id), f.kind)
  {
    FindingsMembers(w, digest, ps, now, f);
    SortKeeps(ps, PolicyIdLe);
    RearrangedWellFormed(ps, Sort(ps, PolicyIdLe));
    ByTextOrders(PolicyIdLe, (p: Policy) => p.header.id);
    SortOrders(ps, PolicyIdLe);
    PoliciesAscend(Sort(ps, PolicyIdLe));
    var i, j :| PairAt(w, digest, Flat(ps), i, j, now, f);
    ConflictIdExactly(digest, f.first, f.second, f.kind);
  }

  /** Findings come in the order of their ids. */
  lemma FindingsAscend(w: Texts, digest: Digest, ps: seq<Policy>, now: Time)
    ensures
      var fs := Findings(w, digest, ps, now);
      forall i, k | 0 <= i < k < |fs| :: fs[i].id == fs[k].id || Smaller(fs[i].id, fs[k].id)
  {
    var fs := Findings(w, digest, ps, now);
    ByTextOrders(FindingIdLe, (f: Finding) => f.id);
    SortOrders(Joined(Rows(w, digest, Flat(ps), now), |Flat(ps)|), FindingIdLe);
    forall i, k | 0 <= i < k < |fs| ensures fs[i].id == fs[k].id || Smaller(fs[i].id, fs[k].id) {
      assert FindingIdLe(fs[i], fs[k]);
      StringLeMeans(fs[i].id, fs[k].id);
    }
  }

  /** What a dimension is called in a policy. */
  function KeyName(d: Dim): string {
    match d
    case AgentKeys => "agent_keys"
    case DestinationIps => "destination_ips"
    case FilePaths => "file_paths"
    case HostIds => "host_ids"
    case PersistencePaths => "persistence_paths"
    case PersistenceTypes => "persistence_types"
    case ProcessNames => "process_names"
    case UserNames => "user_names"
  }

  lemma FirstLetters()
    ensures KeyName(AgentKeys)[0] == 'a' && KeyName(DestinationIps)[0] == 'd' && KeyName(FilePaths)[0] == 'f'
    ensures KeyName(HostIds)[0] == 'h' && KeyName(UserNames)[0] == 'u'
    ensures KeyName(PersistencePaths)[..2] == KeyName(PersistenceTypes)[..2] == "pe"
    ensures KeyName(ProcessNames)[..2] == "pr"
    ensures KeyName(PersistencePaths)[..12] == KeyName(PersistenceTypes)[..12]
    ensures KeyName(PersistencePaths)[12] == 'p' && KeyName(PersistenceTypes)[12] == 't'
  {
    assert KeyName(PersistencePaths)[..12] == "persistence_";
  }

  /** The keys that a finding names come in the order of their names. */
  lemma ScopeKeysAscend(w: Texts, digest: Digest, ps: seq<Policy>, now: Time, f: Finding, i: nat, k: nat)
    requires f in Findings(w, digest, ps, now) && i < k < |f.scopeKeys|
    ensures Smaller(KeyName(f.scopeKeys[i]), KeyName(f.scopeKeys[k]))
  {
    ReportedIsPair(w, digest, ps, now, f);
    var x, y := f.scopeKeys[i], f.scopeKeys[k];
    GatherKeepsOrder(DIMS, IfOverlapping(w, f.first.rule.scope, f.second.rule.scope), x, y);
    DimsAreSorted(x, y);
  }

  lemma DimsAreSorted(x: Dim, y: Dim)
    requires Before(DIMS, x, y)
    ensures Smaller(KeyName(x), KeyName(y))
  {
    var a, b := KeyName(x), KeyName(y);
    FirstLetters();
    if a[0] < b[0] {
      assert a[..0] == b[..0];
    } else if y == ProcessNames {
      assert a[..1] == a[..2][..1] && b[..1] == b[..2][..1] && a[1] == a[..2][1] && b[1] == b[..2][1];
    }
  }
}
