/** Who wins an evaluation, in terms of priorities, scopes and ids. */
module Precedence {
  import opened Wrappers
  import opened Ordering
  import opened Scopes
  import opened Policies
  import opened PolicyLaws

  // ----- Scores -----

  /** A dimension that a scope constrains. */
  predicate Limits(scope: Scope, d: Dim) { d in scope && scope[d] != [] }

  /**
    * The first scope constrains whatever the second does, with lists no longer, and either
    * constrains more or has a shorter list of fewer than ten entries.
    */
  ghost predicate Narrower(a: Scope, b: Scope) {
    && (forall d | Limits(b, d) :: Limits(a, d) && |a[d]| <= |b[d]|)
    && exists d :: Limits(a, d) && (Limits(b, d) ==> |a[d]| < |b[d]| && |a[d]| < 10)
  }

  lemma {:induction false} ScoresCompare(a: Scope, b: Scope, dims: seq<Dim>)
    requires forall d :: DimScore(a, d) >= DimScore(b, d)
    ensures ScoreOf(a, dims) >= ScoreOf(b, dims)
    ensures (exists d :: d in dims && DimScore(a, d) > DimScore(b, d)) ==> ScoreOf(a, dims) > ScoreOf(b, dims)
  {
    if dims != [] {
      ScoresCompare(a, b, dims[..|dims| - 1]);
      assert dims == dims[..|dims| - 1] + [dims[|dims| - 1]];
    }
  }

  lemma NarrowerScoresHigher(a: Scope, b: Scope)
    requires Narrower(a, b)
    ensures Specificity(a) > Specificity(b)
  {
    forall d ensures DimScore(a, d) >= DimScore(b, d) {
      assert Limits(b, d) ==> Limits(a, d);
    }
    var d :| Limits(a, d) && (Limits(b, d) ==> |a[d]| < |b[d]| && |a[d]| < 10);
    EveryDim();
    ScoresCompare(a, b, DIMS);
    assert d in DIMS && DimScore(a, d) > DimScore(b, d);
  }

  lemma DimScoreAfter(scope: Scope, d: Dim, entries: seq<string>, x: Dim)
    requires d !in scope
    ensures DimScore(scope[d := entries], x) == if x == d then DimScore(map[d := entries], d) else DimScore(scope, x)
    ensures DimScore(scope, d) == 0
  {
  }

  lemma LastIsNew(dims: seq<Dim>)
    requires dims != [] && forall i, k | 0 <= i < k < |dims| :: dims[i] != dims[k]
    ensures dims[|dims| - 1] !in dims[..|dims| - 1]
  {
  }

  lemma {:induction false} ScoreAddsUp(scope: Scope, d: Dim, entries: seq<string>, dims: seq<Dim>)
    requires d !in scope && forall i, k | 0 <= i < k < |dims| :: dims[i] != dims[k]
    ensures ScoreOf(scope[d := entries], dims) ==
      ScoreOf(scope, dims) + if d in dims then DimScore(map[d := entries], d) else 0
  {
    if dims != [] {
      var init, last := dims[..|dims| - 1], dims[|dims| - 1];
      ScoreAddsUp(scope, d, entries, init);
      DimScoreAfter(scope, d, entries, last);
      LastIsNew(dims);
      assert dims == init + [last];
    }
  }

  lemma DimsAreDistinct()
    ensures forall i, k | 0 <= i < k < |DIMS| :: DIMS[i] != DIMS[k]
  {
  }

  lemma {:induction false} EmptyScore(dims: seq<Dim>)
    ensures ScoreOf(map[], dims) == 0
  {
    if dims != [] {
      EmptyScore(dims[..|dims| - 1]);
    }
  }

  /** A list of `n` entries is worth 20 - n up to ten of them and ten beyond that, in every dimension. */
  lemma ScoreExactly(scope: Scope, d: Dim, entries: seq<string>)
    requires d !in scope
    ensures Specificity(map[]) == 0
    ensures Specificity(scope[d := entries]) == Specificity(scope) +
      if entries == [] then 0 else if |entries| < 10 then 20 - |entries| else 10
  {
    EmptyScore(DIMS);
    EveryDim();
    DimsAreDistinct();
    ScoreAddsUp(scope, d, entries, DIMS);
  }

  // ----- Rules against rules -----

  /** Rule priority first, then the narrower scope; at equal scopes policy priority, then the ids. */
  ghost predicate Outscores(c: Candidate, d: Candidate) {
    || c.rule.priority > d.rule.priority
    || (c.rule.priority == d.rule.priority && Narrower(c.rule.scope, d.rule.scope))
    || (c.rule.priority == d.rule.priority && c.rule.scope == d.rule.scope
        && (|| c.policy.priority > d.policy.priority
            || (c.policy.priority == d.policy.priority
                && (|| Smaller(c.policy.id, d.policy.id)
                    || (c.policy.id == d.policy.id && Smaller(c.rule.id, d.rule.id))))))
  }

  lemma SmallerIsStrict(a: string, b: string)
    requires Smaller(a, b)
    ensures a != b && StringLe(a, b) && !StringLe(b, a)
  {
    StringLeMeans(a, b);
    StringLeTotal(a, b);
  }

  lemma OutscoringComesFirst(c: Candidate, d: Candidate)
    requires Outscores(c, d)
    ensures Precedes(c, d) && !Precedes(d, c)
  {
    if c.rule.priority == d.rule.priority {
      if Narrower(c.rule.scope, d.rule.scope) {
        NarrowerScoresHigher(c.rule.scope, d.rule.scope);
      } else if c.policy.priority == d.policy.priority {
        if c.policy.id == d.policy.id {
          SmallerIsStrict(c.rule.id, d.rule.id);
        } else {
          SmallerIsStrict(c.policy.id, d.policy.id);
        }
      }
    }
  }

  /** A DENY rule of a policy that is not prepare-only. */
  predicate Denies(c: Candidate) { c.rule.decision == Deny && c.policy.mode != ModePrepareOnly }

  /** What an evaluation reports is this rule. */
  predicate Reports(e: Evaluation, c: Candidate) {
    e.policyId == Some(c.policy.id) && e.policyVersion == Some(c.policy.version) && e.ruleId == Some(c.rule.id)
  }

  /** A rule that is outscored by another one of its class which matches too is never reported. */
  lemma OutscoredIsNotReported(w: Texts, ps: seq<Policy>, q: Request, now: Time, c: Candidate, d: Candidate)
    requires WellFormed(ps) && Competes(w, ps, q, now, c) && Competes(w, ps, q, now, d)
    requires Denies(c) == Denies(d) && Outscores(c, d)
    ensures !Reports(Evaluate(w, ps, q, now, false), d)
  {
    var e := Evaluate(w, ps, q, now, false);
    EvaluateMeetsSpec(w, ps, q, now);
    if Reports(e, d) {
      var x :| Wins(w, ps, q, now, x) && Essence(e) == Verdict(x, 0, 0);
      SameIdsSameCandidate(ps, x, d);
      OutscoringComesFirst(c, d);
    }
  }

  /** Nor is anything else reported while a DENY rule matches. */
  lemma DenyIsReported(w: Texts, ps: seq<Policy>, q: Request, now: Time, c: Candidate, d: Candidate)
    requires WellFormed(ps) && Competes(w, ps, q, now, c) && Competes(w, ps, q, now, d)
    requires Denies(c) && !Denies(d)
    ensures !Reports(Evaluate(w, ps, q, now, false), d)
  {
    var e := Evaluate(w, ps, q, now, false);
    EvaluateMeetsSpec(w, ps, q, now);
    assert Blocks(c) && BlockedRequest(w, ps, q, now);
    if Reports(e, d) {
      var x :| Wins(w, ps, q, now, x) && Essence(e) == Verdict(x, 0, 0);
      SameIdsSameCandidate(ps, x, d);
    }
  }

  /** The matching rule that outscores all others of the deciding class, none other of which matches better. */
  ghost predicate Best(w: Texts, ps: seq<Policy>, q: Request, now: Time, c: Candidate) {
    && Competes(w, ps, q, now, c)
    && (forall d | Competes(w, ps, q, now, d) && Denies(d) :: Denies(c))
    && (forall d | Competes(w, ps, q, now, d) && Denies(d) == Denies(c) && d != c :: Outscores(c, d))
  }

  /** It is reported, with its own approval mode and score and the decision that it stands for. */
  lemma BestIsReported(w: Texts, ps: seq<Policy>, q: Request, now: Time, c: Candidate)
    requires WellFormed(ps) && Best(w, ps, q, now, c)
    ensures
      var e := Evaluate(w, ps, q, now, false);
      && Reports(e, c)
      && e.approvalMode == c.rule.approvalMode
      && e.scopeSpecificity == Specificity(c.rule.scope)
      && StandsFor(e.decision, c)
  {
    forall d | Competes(w, ps, q, now, d) && Blocks(d) == Blocks(c) ensures Precedes(c, d) {
      if d != c {
        OutscoringComesFirst(c, d);
      } else {
        PrecedesIsTotal();
        assert Precedes(c, c) || Precedes(c, c);
      }
    }
    assert Wins(w, ps, q, now, c);
    WinnerIsReported(w, ps, q, now, c);
    WinnerDecides(w, ps, q, now, c);
  }

  // ----- Decisions -----

  /** The decision that a winning rule stands for. */
  predicate StandsFor(decision: Decision, c: Candidate) {
    match decision
    case Deny => c.policy.mode == ModeApprovalRequired && c.rule.decision == Deny
    case Prepare => c.policy.mode == ModePrepareOnly || c.rule.decision == Prepare
    case RequireApproval =>
      && c.policy.mode == ModeApprovalRequired
      && (c.rule.decision == RequireApproval || (c.rule.decision == Allow && c.rule.requiresApproval))
    case Allow => c.policy.mode == ModeApprovalRequired && c.rule.decision == Allow && !c.rule.requiresApproval
  }

  /** An evaluation decides what its winner stands for, and only that. */
  lemma WinnerDecides(w: Texts, ps: seq<Policy>, q: Request, now: Time, c: Candidate)
    requires WellFormed(ps) && Wins(w, ps, q, now, c)
    ensures forall decision :: Evaluate(w, ps, q, now, false).decision == decision <==> StandsFor(decision, c)
    ensures
      var e := Evaluate(w, ps, q, now, false);
      e.wouldRequireApproval <==>
        c.policy.mode == ModeApprovalRequired || c.rule.requiresApproval || c.rule.approvalMode == Required
  {
    WinnerIsReported(w, ps, q, now, c);
  }

  // ----- What is counted -----

  /** The kill switch denies before anything is looked at, and counts every policy. */
  lemma KillSwitchDenies(w: Texts, ps: seq<Policy>, q: Request, now: Time)
    ensures Evaluate(w, ps, q, now, true) ==
      Evaluation(Deny, None, None, None, Required, true, false, |ps|, 0, 0)
  {
  }

  /** Without policies nothing is counted and approval is required. */
  lemma NothingRequiresApproval(w: Texts, q: Request, now: Time)
    ensures Evaluate(w, [], q, now, false) ==
      Evaluation(RequireApproval, None, None, None, Required, true, false, 0, 0, 0)
  {
  }

  lemma CountsExactly(w: Texts, ps: seq<Policy>, q: Request, now: Time)
    ensures Evaluate(w, ps, q, now, false).evaluatedPolicies == ActiveCount(ps, now)
    ensures Evaluate(w, ps, q, now, false).candidateRules == |Candidates(w, ps, q, now)|
  {
    var sorted := Candidates(w, Sort(ps, PolicyIdLe), q, now);
    SortedCandidates(w, ps, q, now);
    assert |multiset(sorted)| == |sorted|;
    assert |multiset(Candidates(w, ps, q, now))| == |Candidates(w, ps, q, now)|;
  }

  /** A further policy without rules counts when it is active. */
  lemma OneMorePolicy(w: Texts, ps: seq<Policy>, h: Header, q: Request, now: Time)
    ensures
      var before, after := Evaluate(w, ps, q, now, false), Evaluate(w, ps + [Policy(h, [])], q, now, false);
      && after.candidateRules == before.candidateRules
      && after.evaluatedPolicies == before.evaluatedPolicies +
        if h.enabled && h.mode != ModeDisabled && (h.expiresAt.Some? ==> now < h.expiresAt.value) then 1 else 0
  {
    var longer := ps + [Policy(h, [])];
    CountsExactly(w, ps, q, now);
    CountsExactly(w, longer, q, now);
    assert longer[..|longer| - 1] == ps;
  }

  /** A further rule of an active policy counts when it matches. */
  lemma OneMoreRule(w: Texts, ps: seq<Policy>, h: Header, rules: seq<Rule>, r: Rule, q: Request, now: Time)
    requires Active(h, now)
    ensures
      var before := Evaluate(w, ps + [Policy(h, rules)], q, now, false);
      var after := Evaluate(w, ps + [Policy(h, rules + [r])], q, now, false);
      && after.evaluatedPolicies == before.evaluatedPolicies
      && after.candidateRules == before.candidateRules + if RuleMatches(w, r, q) then 1 else 0
  {
    var shorter, longer := ps + [Policy(h, rules)], ps + [Policy(h, rules + [r])];
    CountsExactly(w, shorter, q, now);
    CountsExactly(w, longer, q, now);
    assert shorter[..|shorter| - 1] == ps && longer[..|longer| - 1] == ps;
    MatchesGrow(w, h, rules + [r], |rules|, q);
    assert (rules + [r])[..|rules| + 1] == rules + [r] && (rules + [r])[..|rules|] == rules;
  }
}
