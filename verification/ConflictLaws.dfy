/**
  * The analyser against the evaluator: overlap is exact, a fully shadowed rule is
  * dead, and the predicted winner is the one that evaluation picks.
  */
module ConflictLaws {
  import opened Wrappers
  import opened Ordering
  import opened Addresses
  import opened Scopes
  import opened Policies
  import opened PolicyLaws
  import opened Conflicts

  // ----- Overlap is exact -----

  predicate ValidEntries(w: Texts, d: Dim, entries: seq<string>) {
    entries != [] && forall e | e in entries :: ValidEntry(w, d, e)
  }

  ghost predicate CommonValue(w: Texts, d: Dim, a: seq<string>, b: seq<string>, value: string) {
    EntriesMatch(w, d, a, value) && EntriesMatch(w, d, b, value)
  }

  lemma PrefixesOfOneText(text: string, p: string, q: string)
    requires StartsWith(text, p) && StartsWith(text, q)
    ensures StartsWith(p, q) || StartsWith(q, p)
  {
    if |p| <= |q| {
      assert q[..|p|] == text[..|q|][..|p|] == p;
    } else {
      assert p[..|q|] == text[..|p|][..|q|] == q;
    }
  }

  lemma TextualOverlap(w: Texts, d: Dim, a: seq<string>, b: seq<string>)
    requires MatcherOf(d) != Ip && ValidEntries(w, d, a) && ValidEntries(w, d, b)
    ensures EntriesOverlapIn(w, d, a, b) <==> exists value :: CommonValue(w, d, a, b, value)
  {
    if EntriesOverlapIn(w, d, a, b) {
      if MatcherOf(d) == Exact {
        var x :| x in a && exists y | y in b :: w.lower(x) == w.lower(y);
        assert CommonValue(w, d, a, b, x);
      } else {
        var x :| x in a && exists y | y in b ::
          StartsWith(w.lower(x), w.lower(y)) || StartsWith(w.lower(y), w.lower(x));
        var y :| y in b && (StartsWith(w.lower(x), w.lower(y)) || StartsWith(w.lower(y), w.lower(x)));
        assert StartsWith(w.lower(x), w.lower(x)) && StartsWith(w.lower(y), w.lower(y));
        assert CommonValue(w, d, a, b, if StartsWith(w.lower(x), w.lower(y)) then x else y);
      }
    }
    if value :| CommonValue(w, d, a, b, value) {
      if MatcherOf(d) == Prefix {
        var x :| x in a && StartsWith(w.lower(value), w.lower(x));
        var y :| y in b && StartsWith(w.lower(value), w.lower(y));
        PrefixesOfOneText(w.lower(value), w.lower(x), w.lower(y));
      }
    }
  }

  /** The address that two overlapping entries share is written by one of them, or has no zone. */
  lemma CommonAddressIsWritable(w: Texts, x: string, y: string)
    requires w.Complete() && x != "" && y != "" && w.Entry(x).Some? && w.Entry(y).Some?
    requires EntriesOverlap(w.Entry(x).value, w.Entry(y).value)
    ensures w.Writable(CommonAddress(w.Entry(x).value, w.Entry(y).value))
  {
    match (w.Entry(x).value, w.Entry(y).value) {
      case (Host(h), _) => assert w.address(x) == Some(h);
      case (_, Host(h)) => assert w.address(y) == Some(h);
      case (Block(m), Block(n)) => assert CommonAddress(Block(m), Block(n)).zone == "";
    }
  }

  lemma AddressOverlap(w: Texts, d: Dim, a: seq<string>, b: seq<string>)
    requires MatcherOf(d) == Ip && w.Complete() && ValidEntries(w, d, a) && ValidEntries(w, d, b)
    ensures EntriesOverlapIn(w, d, a, b) <==> exists value :: CommonValue(w, d, a, b, value)
  {
    if EntriesOverlapIn(w, d, a, b) {
      var x :| x in a && exists y | y in b ::
        w.Entry(x).Some? && w.Entry(y).Some? && EntriesOverlap(w.Entry(x).value, w.Entry(y).value);
      var y :| y in b && w.Entry(x).Some? && w.Entry(y).Some? && EntriesOverlap(w.Entry(x).value, w.Entry(y).value);
      var address := CommonAddress(w.Entry(x).value, w.Entry(y).value);
      CommonAddressIsWritable(w, x, y);
      var value :| value != "" && w.address(value) == Some(address);
      assert CommonValue(w, d, a, b, value);
    }
    if value :| CommonValue(w, d, a, b, value) {
      var address := w.address(value).value;
      var x :| x in a && w.Entry(x).Some? && EntryMatches(w.Entry(x).value, address);
      var y :| y in b && w.Entry(y).Some? && EntryMatches(w.Entry(y).value, address);
      OverlapIsCommonAddress(w.Entry(x).value, w.Entry(y).value);
    }
  }

  /** In one dimension the test succeeds exactly when some value matches both lists. */
  lemma DimensionOverlapIsExact(w: Texts, d: Dim, a: seq<string>, b: seq<string>)
    requires w.Complete() && ValidEntries(w, d, a) && ValidEntries(w, d, b)
    ensures EntriesOverlapIn(w, d, a, b) <==> exists value :: CommonValue(w, d, a, b, value)
  {
    if MatcherOf(d) == Ip {
      AddressOverlap(w, d, a, b);
    } else {
      TextualOverlap(w, d, a, b);
    }
  }

  lemma EntriesOverlapThemselves(w: Texts, d: Dim, a: seq<string>)
    requires ValidEntries(w, d, a)
    ensures EntriesOverlapIn(w, d, a, a)
  {
    var x := a[0];
    assert x in a && ValidEntry(w, d, x);
    if MatcherOf(d) == Prefix {
      assert StartsWith(w.lower(x), w.lower(x));
    } else if MatcherOf(d) == Ip {
      match w.Entry(x).value
      case Host(h) =>
      case Block(n) => InNetworkIsInterval(FirstAddress(n), n);
    }
  }

  /** The two lists that constrain a dimension; a free side takes the other's list. */
  function ListFor(a: Scope, b: Scope, d: Dim): seq<string>
    requires Constrains(a, d) || Constrains(b, d)
  {
    if Constrains(a, d) then a[d] else b[d]
  }

  lemma ScopeOverlapIsExact(w: Texts, a: Scope, b: Scope)
    requires w.Complete() && ValidScope(w, a) && ValidScope(w, b)
    ensures ScopesOverlap(w, a, b) <==> exists t: Target :: InScope(w, a, t) && InScope(w, b, t)
  {
    if ScopesOverlap(w, a, b) {
      forall d | d in a.Keys + b.Keys ensures exists v :: CommonValue(w, d, ListFor(a, b, d), ListFor(b, a, d), v) {
        EntriesOverlapThemselves(w, d, ListFor(a, b, d));
        DimensionOverlapIsExact(w, d, ListFor(a, b, d), ListFor(b, a, d));
      }
      var t: Target := map d | d in a.Keys + b.Keys ::
        (var v :| CommonValue(w, d, ListFor(a, b, d), ListFor(b, a, d), v); v);
      assert forall d | d in t :: CommonValue(w, d, ListFor(a, b, d), ListFor(b, a, d), t[d]);
      assert InScope(w, a, t) && InScope(w, b, t);
    }
    if t: Target :| InScope(w, a, t) && InScope(w, b, t) {
      forall d | d in a && Constrains(b, d) ensures EntriesOverlapIn(w, d, a[d], b[d]) {
        assert CommonValue(w, d, a[d], b[d], t[d]);
        DimensionOverlapIsExact(w, d, a[d], b[d]);
      }
    }
  }

  ghost predicate MatchesBoth(w: Texts, a: Rule, b: Rule, q: Request) {
    ValidRequest(q) && RuleMatches(w, a, q) && RuleMatches(w, b, q)
  }

  function Concrete(x: string, y: string): string {
    if x != WILDCARD then x else if y != WILDCARD then y else "any"
  }

  ghost predicate Validated(w: Texts, actions: set<(string, string)>, r: Rule) {
    ValidRule(w, actions, r) && ValidScope(w, r.scope)
  }

  /** Two validated rules overlap exactly when some valid request matches both. */
  lemma OverlapIsExact(w: Texts, actions: set<(string, string)>, a: Rule, b: Rule)
    requires w.Complete() && Validated(w, actions, a) && Validated(w, actions, b)
    ensures RulesOverlap(w, a, b) <==> exists q :: MatchesBoth(w, a, b, q)
  {
    ScopeOverlapIsExact(w, a.scope, b.scope);
    if RulesOverlap(w, a, b) {
      var t: Target :| InScope(w, a.scope, t) && InScope(w, b.scope, t);
      var severity := if a.severity.Some? then a.severity.value else if b.severity.Some? then b.severity.value
        else "low";
      var q := Request(
        Concrete(a.actionType, b.actionType), Concrete(a.actionName, b.actionName), t,
        MaxReal(a.minRisk, b.minRisk), severity, []);
      assert MatchesBoth(w, a, b, q);
    }
  }

  // ----- Inclusion is sound -----

  lemma ScopeSubsetIsSound(w: Texts, inner: Scope, outer: Scope, t: Target)
    requires ScopeIsSubset(w, inner, outer) && InScope(w, inner, t)
    ensures InScope(w, outer, t)
  {
    forall d | d in outer && outer[d] != [] ensures d in t && EntriesMatch(w, d, outer[d], t[d]) {
      assert EntriesMatch(w, d, inner[d], t[d]);
      match MatcherOf(d) {
        case Exact =>
        case Prefix =>
          var x :| x in inner[d] && StartsWith(w.lower(t[d]), w.lower(x));
          var y :| y in outer[d] && StartsWith(w.lower(x), w.lower(y));
          assert w.lower(t[d])[..|w.lower(y)|] == w.lower(t[d])[..|w.lower(x)|][..|w.lower(y)|];
        case Ip =>
          var address := w.address(t[d]).value;
          var x :| x in inner[d] && w.Entry(x).Some? && EntryMatches(w.Entry(x).value, address);
          var y :| y in outer[d] && w.Entry(y).Some? && Covers(w.Entry(y).value, w.Entry(x).value);
          CoversIsSubset(w.Entry(y).value, w.Entry(x).value, address);
      }
    }
  }

  /** Full coverage is never claimed wrongly: what the inner rule matches, the outer matches. */
  lemma SubsetIsSound(w: Texts, inner: Rule, outer: Rule, q: Request)
    requires RuleMatchSubset(w, inner, outer) && RuleMatches(w, inner, q)
    ensures RuleMatches(w, outer, q)
  {
    ScopeSubsetIsSound(w, inner.scope, outer.scope, q.target);
  }

  // ----- Every overlapping pair is reported -----

  lemma FlatMembers(ps: seq<Policy>, c: Candidate)
    ensures c in Flat(ps) <==> Belongs(ps, c)
  {
    GatherMembers(Sort(ps, PolicyIdLe), RulesOf(), c);
    SortKeeps(ps, PolicyIdLe);
    forall p: Policy ensures c in Gather(Sort(p.rules, RuleIdLe), InPolicy(p.header)) <==>
      c.policy == p.header && c.rule in p.rules {
      GatherMembers(Sort(p.rules, RuleIdLe), InPolicy(p.header), c);
      SortKeeps(p.rules, RuleIdLe);
    }
  }

  ghost predicate PairAt(w: Texts, digest: Digest, flat: seq<Candidate>, i: int, j: int, now: Time, f: Finding) {
    && 0 <= i < j < |flat|
    && RulesOverlap(w, flat[i].rule, flat[j].rule)
    && f == FindingOf(w, digest, flat[i], flat[j], now)
  }

  lemma RowMembers(w: Texts, digest: Digest, flat: seq<Candidate>, i: nat, now: Time, f: Finding)
    requires i < |flat|
    ensures f in Row(w, digest, flat, i, now) <==> exists j :: PairAt(w, digest, flat, i, j, now, f)
  {
    var later := flat[i + 1..];
    var versus := Versus(w, digest, flat[i], now);
    GatherMembers(later, versus, f);
    if b :| b in later && f in versus(b) {
      var k :| 0 <= k < |later| && later[k] == b;
      assert PairAt(w, digest, flat, i, k + i + 1, now, f);
    }
    if j :| PairAt(w, digest, flat, i, j, now, f) {
      assert later[j - i - 1] in later && f in versus(later[j - i - 1]);
    }
  }

  lemma FindingsMembers(w: Texts, digest: Digest, ps: seq<Policy>, now: Time, f: Finding)
    ensures f in Findings(w, digest, ps, now) <==> exists i, j :: PairAt(w, digest, Flat(ps), i, j, now, f)
  {
    var flat := Flat(ps);
    var rows := Rows(w, digest, flat, now);
    SortKeeps(Joined(rows, |flat|), FindingIdLe);
    JoinedMembers(rows, |flat|, f);
    if h: nat :| h < |flat| && f in rows(h) {
      RowMembers(w, digest, flat, h, now, f);
    }
    if i, j :| PairAt(w, digest, flat, i, j, now, f) {
      RowMembers(w, digest, flat, i, now, f);
      assert f in rows(i);
    }
  }

  ghost predicate DistinctNames(flat: seq<Candidate>) {
    forall i, j | 0 <= i < j < |flat| :: NameOf(flat[i]) != NameOf(flat[j])
  }

  lemma {:induction false} RowNames(h: Header, rules: seq<Rule>)
    requires DistinctRules(Policy(h, rules))
    ensures DistinctNames(Gather(rules, InPolicy(h)))
    decreases |rules|
  {
    if rules != [] {
      var init := rules[..|rules| - 1];
      RowNames(h, init);
      forall c | c in Gather(init, InPolicy(h)) ensures c.rule in init {
        GatherMembers(init, InPolicy(h), c);
      }
    }
  }

  lemma {:induction false} FlatNames(ps: seq<Policy>)
    requires WellFormed(ps)
    ensures DistinctNames(Gather(ps, RulesOf()))
    decreases |ps|
  {
    if ps != [] {
      var init, p := ps[..|ps| - 1], ps[|ps| - 1];
      FlatNames(init);
      SortKeeps(p.rules, RuleIdLe);
      assert p in ps;
      SortedRulesDistinct(p);
      RowNames(p.header, Sort(p.rules, RuleIdLe));
      forall c | c in Gather(init, RulesOf()) ensures c.policy.id != p.header.id {
        GatherMembers(init, RulesOf(), c);
        var o :| o in init && c in RulesOf()(o);
        GatherMembers(Sort(o.rules, RuleIdLe), InPolicy(o.header), c);
      }
      forall c | c in RulesOf()(p) ensures c.policy == p.header {
        GatherMembers(Sort(p.rules, RuleIdLe), InPolicy(p.header), c);
      }
    }
  }

  lemma SortedRulesDistinct(p: Policy)
    requires DistinctRules(p)
    ensures DistinctRules(Policy(p.header, Sort(p.rules, RuleIdLe)))
  {
    var id := (r: Rule) => r.id;
    var rules := Sort(p.rules, RuleIdLe);
    SortKeeps(p.rules, RuleIdLe);
    RearrangedStaysDistinct(p.rules, rules, id);
    assert forall i | 0 <= i < |rules| :: id(rules[i]) == rules[i].id;
  }

  /** No rule is compared with itself. */
  lemma PairsAreDistinct(w: Texts, digest: Digest, ps: seq<Policy>, now: Time, f: Finding)
    requires WellFormed(ps) && f in Findings(w, digest, ps, now)
    ensures f.first != f.second
  {
    FindingsMembers(w, digest, ps, now, f);
    SortKeeps(ps, PolicyIdLe);
    RearrangedWellFormed(ps, Sort(ps, PolicyIdLe));
    FlatNames(Sort(ps, PolicyIdLe));
    var i, j :| PairAt(w, digest, Flat(ps), i, j, now, f);
    assert NameOf(Flat(ps)[i]) != NameOf(Flat(ps)[j]);
  }

  /** A finding about exactly this pair. */
  ghost predicate About(f: Finding, c: Candidate, d: Candidate) {
    (f.first == c && f.second == d) || (f.first == d && f.second == c)
  }

  lemma OverlapIsSymmetric(w: Texts, d: Dim, a: seq<string>, b: seq<string>)
    requires EntriesOverlapIn(w, d, a, b)
    ensures EntriesOverlapIn(w, d, b, a)
  {
    match MatcherOf(d)
    case Exact =>
      var x :| x in a && exists y | y in b :: w.lower(x) == w.lower(y);
    case Prefix =>
      var x :| x in a && exists y | y in b :: StartsWith(w.lower(x), w.lower(y)) || StartsWith(w.lower(y), w.lower(x));
    case Ip =>
      var x :| x in a && exists y | y in b ::
        w.Entry(x).Some? && w.Entry(y).Some? && EntriesOverlap(w.Entry(x).value, w.Entry(y).value);
  }

  lemma RulesOverlapSymmetric(w: Texts, a: Rule, b: Rule)
    requires RulesOverlap(w, a, b)
    ensures RulesOverlap(w, b, a)
  {
    forall d | d in b.scope && Constrains(b.scope, d) && Constrains(a.scope, d)
      ensures EntriesOverlapIn(w, d, b.scope[d], a.scope[d])
    {
      OverlapIsSymmetric(w, d, a.scope[d], b.scope[d]);
    }
  }

  /** Two rules that some request matches overlap, whether or not they were validated. */
  lemma CommonRequestOverlaps(w: Texts, a: Rule, b: Rule, q: Request)
    requires RuleMatches(w, a, q) && RuleMatches(w, b, q)
    ensures RulesOverlap(w, a, b)
  {
    forall d | d in a.scope && Constrains(a.scope, d) && Constrains(b.scope, d)
      ensures EntriesOverlapIn(w, d, a.scope[d], b.scope[d])
    {
      CommonValueOverlaps(w, d, a.scope[d], b.scope[d], q.target[d]);
    }
  }

  lemma CommonValueOverlaps(w: Texts, d: Dim, a: seq<string>, b: seq<string>, value: string)
    requires CommonValue(w, d, a, b, value)
    ensures EntriesOverlapIn(w, d, a, b)
  {
    if MatcherOf(d) == Prefix {
      var x :| x in a && StartsWith(w.lower(value), w.lower(x));
      var y :| y in b && StartsWith(w.lower(value), w.lower(y));
      PrefixesOfOneText(w.lower(value), w.lower(x), w.lower(y));
    } else if MatcherOf(d) == Ip {
      var address := w.address(value).value;
      var x :| x in a && w.Entry(x).Some? && EntryMatches(w.Entry(x).value, address);
      var y :| y in b && w.Entry(y).Some? && EntryMatches(w.Entry(y).value, address);
      OverlapIsCommonAddress(w.Entry(x).value, w.Entry(y).value);
    }
  }

  lemma PairIsReported(w: Texts, digest: Digest, ps: seq<Policy>, now: Time, c: Candidate, d: Candidate)
    requires Belongs(ps, c) && Belongs(ps, d) && c != d && RulesOverlap(w, c.rule, d.rule)
    ensures exists f :: f in Findings(w, digest, ps, now) && About(f, c, d)
  {
    FlatMembers(ps, c);
    FlatMembers(ps, d);
    var flat := Flat(ps);
    var i :| 0 <= i < |flat| && flat[i] == c;
    var j :| 0 <= j < |flat| && flat[j] == d;
    RulesOverlapSymmetric(w, c.rule, d.rule);
    var x, y := if i < j then i else j, if i < j then j else i;
    var f := FindingOf(w, digest, flat[x], flat[y], now);
    assert PairAt(w, digest, flat, x, y, now, f);
    FindingsMembers(w, digest, ps, now, f);
  }

  lemma ReportedIsPair(w: Texts, digest: Digest, ps: seq<Policy>, now: Time, f: Finding)
    requires f in Findings(w, digest, ps, now)
    ensures Belongs(ps, f.first) && Belongs(ps, f.second) && RulesOverlap(w, f.first.rule, f.second.rule)
    ensures f == FindingOf(w, digest, f.first, f.second, now)
  {
    FindingsMembers(w, digest, ps, now, f);
    var i, j :| PairAt(w, digest, Flat(ps), i, j, now, f);
    FlatMembers(ps, f.first);
    FlatMembers(ps, f.second);
  }

  // ----- The predicted winner -----

  /**
    * The one way a prediction fails: the expected winner is a DENY rule of a prepare-only
    * policy, which does not block, and the other rule either does block or comes first.
    */
  predicate Misjudged(winner: Candidate, loser: Candidate) {
    && winner.rule.decision == Deny
    && winner.policy.mode == ModePrepareOnly
    && (Blocks(loser) || (loser.rule.decision != Deny && Precedes(loser, winner)))
  }

  ghost predicate NoDenyInPrepareOnly(ps: seq<Policy>) {
    forall p, r | p in ps && r in p.rules :: !(p.header.mode == ModePrepareOnly && r.decision == Deny)
  }

  /** For two different rules of active policies, the prediction is right unless misjudged. */
  lemma PredictionExactly(ps: seq<Policy>, w: Texts, digest: Digest, a: Candidate, b: Candidate, now: Time)
    requires WellFormed(ps) && Belongs(ps, a) && Belongs(ps, b) && a != b
    ensures
      var f := FindingOf(w, digest, a, b, now);
      && (RanksBefore(f.winner, f.shadowed) <==> !Misjudged(f.winner, f.shadowed))
      && (RanksBefore(f.shadowed, f.winner) <==> Misjudged(f.winner, f.shadowed))
  {
    KeyLeTotal(KeyOf(a), KeyOf(b));
    if Precedes(a, b) && Precedes(b, a) {
      Antisymmetric(ps, a, b);
    }
  }

  /** Every two rules that compete for some valid request are reported with the right winner. */
  ghost predicate Agrees(w: Texts, digest: Digest, ps: seq<Policy>, now: Time) {
    forall q, c, d | ValidRequest(q) && Competes(w, ps, q, now, c) && Competes(w, ps, q, now, d)
                     && c != d && RanksBefore(c, d) ::
      exists f :: PredictsPair(w, digest, ps, now, f, c, d)
  }

  ghost predicate PredictsPair(w: Texts, digest: Digest, ps: seq<Policy>, now: Time, f: Finding, c: Candidate,
                               d: Candidate)
  {
    f in Findings(w, digest, ps, now) && About(f, c, d) && f.runtimeImpact && f.winner == c && f.shadowed == d
  }

  /**
    * A DENY rule of a prepare-only policy beside a rule that the evaluator prefers to it but
    * the analyser does not: a DENY that blocks and would come later, or a rule that does not
    * deny and would come earlier.
    */
  predicate Contested(a: Candidate, b: Candidate) {
    && a.rule.decision == Deny
    && a.policy.mode == ModePrepareOnly
    && (if Blocks(b) then Precedes(a, b) else b.rule.decision != Deny && Precedes(b, a))
  }

  /** No two overlapping rules of active policies are contested: readable from the policies alone. */
  ghost predicate NothingContested(w: Texts, ps: seq<Policy>, now: Time) {
    forall a, b | Belongs(ps, a) && Belongs(ps, b) && Active(a.policy, now) && Active(b.policy, now)
                  && RulesOverlap(w, a.rule, b.rule) ::
      !Contested(a, b)
  }

  /** Of a pair that the analyser has judged, the expected winner is misjudged when it is contested. */
  lemma MisjudgedIsContested(ps: seq<Policy>, winner: Candidate, loser: Candidate)
    requires WellFormed(ps) && Belongs(ps, winner) && Belongs(ps, loser) && winner != loser
    requires FirstPrevails(winner, loser)
    ensures Misjudged(winner, loser) <==> Contested(winner, loser)
    ensures !Contested(loser, winner)
  {
    KeyLeTotal(KeyOf(winner), KeyOf(loser));
    if Precedes(winner, loser) && Precedes(loser, winner) {
      Antisymmetric(ps, winner, loser);
    }
  }

  ghost predicate AllValidated(w: Texts, actions: set<(string, string)>, ps: seq<Policy>) {
    forall p, r | p in ps && r in p.rules :: Validated(w, actions, r)
  }

  /** Without a contested pair the analyser agrees, for whatever parsers and rules, validated or not. */
  lemma AgreesUnlessContested(w: Texts, digest: Digest, ps: seq<Policy>, now: Time)
    requires WellFormed(ps) && NothingContested(w, ps, now)
    ensures Agrees(w, digest, ps, now)
  {
    forall q, c, d | ValidRequest(q) && Competes(w, ps, q, now, c) && Competes(w, ps, q, now, d)
                     && c != d && RanksBefore(c, d)
      ensures exists f :: PredictsPair(w, digest, ps, now, f, c, d)
    {
      PairPredicted(w, digest, ps, now, q, c, d);
    }
  }

  /** The analyser agrees with the evaluator exactly when no overlapping pair is contested. */
  lemma AnalyserAgreesExactly(w: Texts, digest: Digest, actions: set<(string, string)>, ps: seq<Policy>, now: Time)
    requires w.Complete() && WellFormed(ps) && AllValidated(w, actions, ps)
    ensures Agrees(w, digest, ps, now) <==> NothingContested(w, ps, now)
  {
    if NothingContested(w, ps, now) {
      AgreesUnlessContested(w, digest, ps, now);
    }
    if Agrees(w, digest, ps, now) {
      forall a, b | Belongs(ps, a) && Belongs(ps, b) && Active(a.policy, now) && Active(b.policy, now)
                    && RulesOverlap(w, a.rule, b.rule)
        ensures !Contested(a, b)
      {
        if Contested(a, b) {
          ContestedDisagrees(w, digest, actions, ps, now, a, b);
        }
      }
    }
  }

  lemma ContestedDisagrees(
    w: Texts, digest: Digest, actions: set<(string, string)>, ps: seq<Policy>, now: Time, a: Candidate, b: Candidate)
    requires w.Complete() && WellFormed(ps) && AllValidated(w, actions, ps)
    requires Belongs(ps, a) && Belongs(ps, b) && Active(a.policy, now) && Active(b.policy, now)
    requires RulesOverlap(w, a.rule, b.rule) && Contested(a, b)
    ensures !Agrees(w, digest, ps, now)
  {
    PairIsReported(w, digest, ps, now, a, b);
    var f :| f in Findings(w, digest, ps, now) && About(f, a, b);
    ReportedIsPair(w, digest, ps, now, f);
    OneWinnerPerPair(ps, f.first, f.second);
    MisjudgedIsContested(ps, f.winner, f.shadowed);
    MisjudgedDisagrees(w, digest, actions, ps, now, f);
  }

  lemma PairPredicted(w: Texts, digest: Digest, ps: seq<Policy>, now: Time, q: Request, c: Candidate, d: Candidate)
    requires WellFormed(ps) && NothingContested(w, ps, now)
    requires Competes(w, ps, q, now, c) && Competes(w, ps, q, now, d) && c != d && RanksBefore(c, d)
    ensures exists f :: PredictsPair(w, digest, ps, now, f, c, d)
  {
    CommonRequestOverlaps(w, c.rule, d.rule, q);
    PairIsReported(w, digest, ps, now, c, d);
    var f :| f in Findings(w, digest, ps, now) && About(f, c, d);
    FindingPredicts(w, digest, ps, now, f, c, d);
  }

  /** The finding about two active rules names the one that ranks first. */
  lemma FindingPredicts(w: Texts, digest: Digest, ps: seq<Policy>, now: Time, f: Finding, c: Candidate, d: Candidate)
    requires WellFormed(ps) && NothingContested(w, ps, now)
    requires f in Findings(w, digest, ps, now) && About(f, c, d) && c != d && RanksBefore(c, d)
    requires Active(c.policy, now) && Active(d.policy, now)
    ensures PredictsPair(w, digest, ps, now, f, c, d)
  {
    ReportedIsPair(w, digest, ps, now, f);
    PredictionExactly(ps, w, digest, f.first, f.second, now);
    OneWinnerPerPair(ps, f.first, f.second);
    MisjudgedIsContested(ps, f.winner, f.shadowed);
    RulesOverlapSymmetric(w, f.first.rule, f.second.rule);
    if f.winner == d {
      Antisymmetric(ps, c, d);
    }
  }

  lemma MisjudgedDisagrees(w: Texts, digest: Digest, actions: set<(string, string)>, ps: seq<Policy>, now: Time,
                           f: Finding)
    requires w.Complete() && WellFormed(ps) && AllValidated(w, actions, ps)
    requires f in Findings(w, digest, ps, now) && f.runtimeImpact && Misjudged(f.winner, f.shadowed)
    ensures !Agrees(w, digest, ps, now)
  {
    ReportedIsPair(w, digest, ps, now, f);
    PairsAreDistinct(w, digest, ps, now, f);
    OverlapIsExact(w, actions, f.first.rule, f.second.rule);
    var q :| MatchesBoth(w, f.first.rule, f.second.rule, q);
    PredictionExactly(ps, w, digest, f.first, f.second, now);
    var c, d := f.shadowed, f.winner;
    assert Competes(w, ps, q, now, c) && Competes(w, ps, q, now, d) && RanksBefore(c, d) && c != d;
    forall g ensures !PredictsPair(w, digest, ps, now, g, c, d) {
      SamePairSameWinner(w, digest, ps, now, f, g);
    }
  }

  lemma SamePairSameWinner(w: Texts, digest: Digest, ps: seq<Policy>, now: Time, f: Finding, g: Finding)
    requires WellFormed(ps) && f in Findings(w, digest, ps, now)
    ensures g in Findings(w, digest, ps, now) && About(g, f.first, f.second) ==> g.winner == f.winner
    ensures About(g, f.shadowed, f.winner) <==> About(g, f.first, f.second)
    ensures f.winner != f.shadowed
  {
    ReportedIsPair(w, digest, ps, now, f);
    PairsAreDistinct(w, digest, ps, now, f);
    OneWinnerPerPair(ps, f.first, f.second);
    if g in Findings(w, digest, ps, now) {
      ReportedIsPair(w, digest, ps, now, g);
    }
  }

  /** The prediction does not depend on which rule of the pair comes first. */
  lemma OneWinnerPerPair(ps: seq<Policy>, a: Candidate, b: Candidate)
    requires WellFormed(ps) && Belongs(ps, a) && Belongs(ps, b) && a != b
    ensures FirstPrevails(a, b) <==> !FirstPrevails(b, a)
  {
    KeyLeTotal(KeyOf(a), KeyOf(b));
    if Precedes(a, b) && Precedes(b, a) {
      Antisymmetric(ps, a, b);
    }
  }

  /** Without a DENY rule in a prepare-only policy the analyser always agrees. */
  lemma AgreesWithoutPrepareOnlyDeny(w: Texts, digest: Digest, ps: seq<Policy>, now: Time, q: Request, c: Candidate,
                                     d: Candidate)
    requires WellFormed(ps) && NoDenyInPrepareOnly(ps)
    requires Wins(w, ps, q, now, c) && Competes(w, ps, q, now, d) && c != d
    ensures exists f :: PredictsPair(w, digest, ps, now, f, c, d)
  {
    WinnerRanksFirst(w, ps, q, now, c);
    PairPredicted(w, digest, ps, now, q, c, d);
  }

  // ----- Dead rules -----

  function Unless(dead: Rule): Rule -> seq<Rule> { (r: Rule) => if r == dead then [] else [r] }

  function WithoutRule(p: Policy, dead: Candidate): Policy {
    if p.header == dead.policy then Policy(p.header, Gather(p.rules, Unless(dead.rule))) else p
  }

  /** The policies with one rule deleted. */
  function Delete(ps: seq<Policy>, dead: Candidate): seq<Policy> {
    seq(|ps|, i requires 0 <= i < |ps| => WithoutRule(ps[i], dead))
  }

  lemma {:induction false} StaysDistinct(p: Policy, dead: Rule)
    requires DistinctRules(p)
    ensures DistinctRules(Policy(p.header, Gather(p.rules, Unless(dead))))
    decreases |p.rules|
  {
    if p.rules != [] {
      var init, last := p.rules[..|p.rules| - 1], p.rules[|p.rules| - 1];
      StaysDistinct(Policy(p.header, init), dead);
      forall r | r in Gather(init, Unless(dead)) ensures r.id != last.id {
        GatherMembers(init, Unless(dead), r);
      }
    }
  }

  lemma DeleteKeepsForm(ps: seq<Policy>, dead: Candidate)
    requires WellFormed(ps)
    ensures WellFormed(Delete(ps, dead))
  {
    var del := Delete(ps, dead);
    forall p | p in del ensures DistinctRules(p) {
      var i :| 0 <= i < |del| && del[i] == p;
      assert ps[i] in ps;
      StaysDistinct(ps[i], dead.rule);
    }
  }

  lemma DeleteKeeps(ps: seq<Policy>, dead: Candidate)
    ensures forall c :: Belongs(Delete(ps, dead), c) <==> Belongs(ps, c) && c != dead
    ensures WellFormed(ps) ==> WellFormed(Delete(ps, dead))
  {
    var del := Delete(ps, dead);
    forall p: Policy, r: Rule ensures r in WithoutRule(p, dead).rules <==>
      r in p.rules && Candidate(p.header, r) != dead {
      GatherMembers(p.rules, Unless(dead.rule), r);
    }
    forall c ensures Belongs(del, c) <==> Belongs(ps, c) && c != dead {
      if Belongs(del, c) {
        var i :| 0 <= i < |del| && del[i].header == c.policy && c.rule in del[i].rules;
        assert ps[i] in ps && Candidate(ps[i].header, c.rule) == c;
      }
      if Belongs(ps, c) && c != dead {
        var i :| 0 <= i < |ps| && ps[i].header == c.policy && c.rule in ps[i].rules;
        assert del[i] in del && Candidate(ps[i].header, c.rule) == c;
      }
    }
    if WellFormed(ps) {
      DeleteKeepsForm(ps, dead);
    }
  }

  /** A rule that never wins where it matches can go. */
  lemma BeatenRuleIsDead(w: Texts, ps: seq<Policy>, q: Request, now: Time, winner: Candidate, dead: Candidate)
    requires WellFormed(ps) && Belongs(ps, winner) && Active(winner.policy, now)
    requires winner != dead && RanksBefore(winner, dead)
    requires RuleMatches(w, dead.rule, q) ==> RuleMatches(w, winner.rule, q)
    ensures Essence(Evaluate(w, Delete(ps, dead), q, now, false)) == Essence(Evaluate(w, ps, q, now, false))
  {
    var del := Delete(ps, dead);
    DeleteKeeps(ps, dead);
    assert forall d :: Competes(w, del, q, now, d) <==> Competes(w, ps, q, now, d) && d != dead;
    EvaluateMeetsSpec(w, ps, q, now);
    EvaluateMeetsSpec(w, del, q, now);
    if c :| Wins(w, ps, q, now, c) && Essence(Evaluate(w, ps, q, now, false)) == Verdict(c, 0, 0) {
      WinnerRanksFirst(w, ps, q, now, c);
      if c == dead {
        assert Competes(w, ps, q, now, winner);
        assert RanksBefore(c, winner);
        if Precedes(c, winner) && Precedes(winner, c) {
          Antisymmetric(ps, c, winner);
        }
      }
      WinnerRanksFirst(w, del, q, now, c);
      WinnerIsReported(w, del, q, now, c);
    }
  }

  /** The policies that hold just these two rules. */
  function Duel(a: Candidate, b: Candidate): seq<Policy> {
    if a.policy == b.policy then [Policy(a.policy, [a.rule, b.rule])]
    else [Policy(a.policy, [a.rule]), Policy(b.policy, [b.rule])]
  }

  lemma DuelHolds(a: Candidate, b: Candidate)
    ensures forall c :: Belongs(Duel(a, b), c) <==> c == a || c == b
  {
    assert a.policy == b.policy ==> Duel(a, b)[0] in Duel(a, b);
    assert a.policy != b.policy ==> Duel(a, b)[0] in Duel(a, b) && Duel(a, b)[1] in Duel(a, b);
    forall c ensures Belongs(Duel(a, b), c) <==> c == a || c == b {
      if Belongs(Duel(a, b), c) {
        var p :| p in Duel(a, b) && p.header == c.policy && c.rule in p.rules;
      }
    }
  }

  /** Deleting `dead` changes no decision of any set of policies that holds both rules. */
  ghost predicate Harmless(w: Texts, now: Time, winner: Candidate, dead: Candidate) {
    forall ps, q | WellFormed(ps) && Belongs(ps, winner) && Belongs(ps, dead) && ValidRequest(q) ::
      Essence(Evaluate(w, Delete(ps, dead), q, now, false)) == Essence(Evaluate(w, ps, q, now, false))
  }

  /** A fully shadowed rule that is not misjudged can be deleted, whatever the parsers and rules are. */
  lemma DeadRuleIsHarmless(w: Texts, digest: Digest, ps: seq<Policy>, now: Time, f: Finding)
    requires WellFormed(ps) && f in Findings(w, digest, ps, now) && f.runtimeImpact && f.fullCoverage
    requires !Misjudged(f.winner, f.shadowed)
    ensures Harmless(w, now, f.winner, f.shadowed)
  {
    ReportedIsPair(w, digest, ps, now, f);
    PairsAreDistinct(w, digest, ps, now, f);
    PredictionExactly(ps, w, digest, f.first, f.second, now);
    forall rs, q | WellFormed(rs) && Belongs(rs, f.winner) && Belongs(rs, f.shadowed) && ValidRequest(q)
      ensures Essence(Evaluate(w, Delete(rs, f.shadowed), q, now, false)) == Essence(Evaluate(w, rs, q, now, false))
    {
      if RuleMatches(w, f.shadowed.rule, q) {
        SubsetIsSound(w, f.shadowed.rule, f.winner.rule, q);
      }
      BeatenRuleIsDead(w, rs, q, now, f.winner, f.shadowed);
    }
  }

  /**
    * Dead-rule elimination: deleting the rule that a runtime finding reports as fully
    * shadowed is harmless exactly when the finding is not misjudged.
    */
  lemma DeadRuleExactly(
    w: Texts, digest: Digest, actions: set<(string, string)>, ps: seq<Policy>, now: Time, f: Finding)
    requires w.Complete() && WellFormed(ps) && AllValidated(w, actions, ps)
    requires f in Findings(w, digest, ps, now) && f.runtimeImpact && f.fullCoverage
    ensures Harmless(w, now, f.winner, f.shadowed) <==> !Misjudged(f.winner, f.shadowed)
  {
    if !Misjudged(f.winner, f.shadowed) {
      DeadRuleIsHarmless(w, digest, ps, now, f);
    } else {
      MisjudgedDeletionShows(w, digest, actions, ps, now, f);
    }
  }

  lemma MisjudgedDeletionShows(
    w: Texts, digest: Digest, actions: set<(string, string)>, ps: seq<Policy>, now: Time, f: Finding)
    requires w.Complete() && WellFormed(ps) && AllValidated(w, actions, ps)
    requires f in Findings(w, digest, ps, now) && f.runtimeImpact && Misjudged(f.winner, f.shadowed)
    ensures !Harmless(w, now, f.winner, f.shadowed)
  {
    ReportedIsPair(w, digest, ps, now, f);
    PairsAreDistinct(w, digest, ps, now, f);
    PredictionExactly(ps, w, digest, f.first, f.second, now);
    OverlapIsExact(w, actions, f.first.rule, f.second.rule);
    var q :| MatchesBoth(w, f.first.rule, f.second.rule, q);
    DuelIsWellFormed(ps, f.winner, f.shadowed);
    DeletionShows(w, now, q, f.winner, f.shadowed);
  }

  lemma DuelIsWellFormed(ps: seq<Policy>, a: Candidate, b: Candidate)
    requires WellFormed(ps) && Belongs(ps, a) && Belongs(ps, b) && a != b
    ensures WellFormed(Duel(a, b))
    ensures a.policy.id == b.policy.id ==> a.rule.id != b.rule.id
  {
    if a.policy.id == b.policy.id {
      var p :| p in ps && p.header == a.policy && a.rule in p.rules;
      var r :| r in ps && r.header == b.policy && b.rule in r.rules;
      assert p == r;
      if a.rule.id == b.rule.id {
        SameIdsSameCandidate(ps, a, b);
      }
    }
  }

  lemma DeletionShows(w: Texts, now: Time, q: Request, expected: Candidate, actual: Candidate)
    requires WellFormed(Duel(expected, actual)) && expected != actual
    requires expected.policy.id == actual.policy.id ==> expected.rule.id != actual.rule.id
    requires Active(expected.policy, now) && Active(actual.policy, now) && ValidRequest(q)
    requires RuleMatches(w, expected.rule, q) && RuleMatches(w, actual.rule, q)
    requires RanksBefore(actual, expected)
    ensures !Harmless(w, now, expected, actual)
  {
    var duel := Duel(expected, actual);
    var del := Delete(duel, actual);
    DuelHolds(expected, actual);
    DeleteKeeps(duel, actual);
    KeyLeTotal(KeyOf(actual), KeyOf(actual));
    KeyLeTotal(KeyOf(expected), KeyOf(expected));
    WinnerRanksFirst(w, duel, q, now, actual);
    WinnerIsReported(w, duel, q, now, actual);
    WinnerRanksFirst(w, del, q, now, expected);
    WinnerIsReported(w, del, q, now, expected);
    assert Verdict(actual, 0, 0) != Verdict(expected, 0, 0);
  }

  const DENY_RULE := Rule("deny", "*", "*", 0.0, 100.0, None, Deny, true, 10, map[], Required, None, None)
  const ALLOW_RULE := Rule("allow", "*", "*", 0.0, 100.0, None, Allow, true, 100, map[], Required, None, None)
  const PREPARING := Header("preparing", "Preparing", "", ModePrepareOnly, true, 1, 100, None)
  const OPERATING := Header("operating", "Operating", "", ModeApprovalRequired, true, 1, 100, None)

  ghost predicate OverridesFully(f: Finding, deny: Candidate, allow: Candidate) {
    f.kind == DenyConflict && f.runtimeImpact && f.fullCoverage && f.winner == deny && f.shadowed == allow
  }

  /** A DENY rule in a prepare-only policy is reported as the winner that shadows an ALLOW rule ... */
  lemma PrepareOnlyDenyIsPredicted(w: Texts, digest: Digest, now: Time)
    ensures
      var deny, allow := Candidate(PREPARING, DENY_RULE), Candidate(OPERATING, ALLOW_RULE);
      exists f :: f in Findings(w, digest, Duel(deny, allow), now) && OverridesFully(f, deny, allow)
  {
    var deny, allow := Candidate(PREPARING, DENY_RULE), Candidate(OPERATING, ALLOW_RULE);
    DuelHolds(deny, allow);
    assert RulesOverlap(w, DENY_RULE, ALLOW_RULE);
    PairIsReported(w, digest, Duel(deny, allow), now, deny, allow);
    var f :| f in Findings(w, digest, Duel(deny, allow), now) && About(f, deny, allow);
    ReportedIsPair(w, digest, Duel(deny, allow), now, f);
    DenyOverrides(w, digest, now, f);
  }

  lemma DenyOverrides(w: Texts, digest: Digest, now: Time, f: Finding)
    requires
      var deny, allow := Candidate(PREPARING, DENY_RULE), Candidate(OPERATING, ALLOW_RULE);
      f == FindingOf(w, digest, deny, allow, now) || f == FindingOf(w, digest, allow, deny, now)
    ensures OverridesFully(f, Candidate(PREPARING, DENY_RULE), Candidate(OPERATING, ALLOW_RULE))
  {
    assert RuleMatchSubset(w, ALLOW_RULE, DENY_RULE);
  }

  /** ... yet evaluation follows the ALLOW rule. */
  lemma PrepareOnlyDenyIsIgnored(w: Texts, q: Request, now: Time)
    requires ValidRequest(q)
    ensures
      var deny, allow := Candidate(PREPARING, DENY_RULE), Candidate(OPERATING, ALLOW_RULE);
      Essence(Evaluate(w, Duel(deny, allow), q, now, false)) == Verdict(allow, 0, 0)
      && Misjudged(deny, allow)
  {
    var deny, allow := Candidate(PREPARING, DENY_RULE), Candidate(OPERATING, ALLOW_RULE);
    DuelHolds(deny, allow);
    KeyLeTotal(KeyOf(allow), KeyOf(allow));
    assert Competes(w, Duel(deny, allow), q, now, allow);
    WinnerRanksFirst(w, Duel(deny, allow), q, now, allow);
    WinnerIsReported(w, Duel(deny, allow), q, now, allow);
  }
}
