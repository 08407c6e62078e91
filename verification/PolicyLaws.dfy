/** What evaluation promises, stated without its lists and its sorting. */
module PolicyLaws {
  import opened Ordering
  import opened Scopes
  import opened Policies

  /** Policy ids are unique in the store and rule ids are unique in a validated policy. */
  ghost predicate WellFormed(ps: seq<Policy>) {
    && (forall i, j | 0 <= i < j < |ps| :: ps[i].header.id != ps[j].header.id)
    && (forall p | p in ps :: DistinctRules(p))
  }

  /** `c` is a matching rule of an active policy. */
  ghost predicate Competes(w: Texts, ps: seq<Policy>, q: Request, now: Time, c: Candidate) {
    RuleMatches(w, c.rule, q) && Active(c.policy, now) && Belongs(ps, c)
  }

  ghost predicate Belongs(ps: seq<Policy>, c: Candidate) {
    exists p :: p in ps && p.header == c.policy && c.rule in p.rules
  }

  ghost predicate BlockedRequest(w: Texts, ps: seq<Policy>, q: Request, now: Time) {
    exists c :: Competes(w, ps, q, now, c) && Blocks(c)
  }

  /** The declarative winner: a blocker if there is one, least among its kind. */
  ghost predicate Wins(w: Texts, ps: seq<Policy>, q: Request, now: Time, c: Candidate) {
    && Competes(w, ps, q, now, c)
    && (Blocks(c) <==> BlockedRequest(w, ps, q, now))
    && forall d | Competes(w, ps, q, now, d) && Blocks(d) == Blocks(c) :: Precedes(c, d)
  }

  /** What a decision is about, apart from how many policies and rules were looked at. */
  function Essence(e: Evaluation): Evaluation {
    e.(evaluatedPolicies := 0, candidateRules := 0)
  }

  // ----- Candidates as a set and as a multiset -----

  lemma CandidateMembers(w: Texts, ps: seq<Policy>, q: Request, now: Time, c: Candidate)
    ensures c in Candidates(w, ps, q, now) <==> Competes(w, ps, q, now, c)
  {
    GatherMembers(ps, TurnOf(w, q, now), c);
    forall p: Policy ensures c in MatchesIn(w, p.header, p.rules, q) <==>
      c.policy == p.header && c.rule in p.rules && RuleMatches(w, c.rule, q) {
      GatherMembers(p.rules, MatchOf(w, p.header, q), c);
    }
  }

  lemma CandidatesPermute(w: Texts, a: seq<Policy>, b: seq<Policy>, q: Request, now: Time)
    requires multiset(a) == multiset(b)
    ensures multiset(Candidates(w, a, q, now)) == multiset(Candidates(w, b, q, now))
    ensures ActiveCount(a, now) == ActiveCount(b, now)
  {
    GatherPermutes(a, b, TurnOf(w, q, now));
    GatherPermutes(a, b, IfActive(now));
    var x, y := Gather(a, IfActive(now)), Gather(b, IfActive(now));
    assert |multiset(x)| == |x| && |multiset(y)| == |y|;
  }

  // ----- The specification and the winner -----

  /** The first contender of the candidates is a declarative winner. */
  lemma FirstContenderWins(w: Texts, ps: seq<Policy>, q: Request, now: Time, cs: seq<Candidate>)
    requires cs != [] && forall c :: c in cs <==> Competes(w, ps, q, now, c)
    ensures Contenders(cs) != [] && Wins(w, ps, q, now, First(Contenders(cs), Precedes))
  {
    ContendersExist(cs);
    PrecedesIsTotal();
    FirstIsLeast(Contenders(cs), Precedes);
    ClassSplits(cs);
    BlockersAreSeen(w, ps, q, now, cs);
    var c := First(Contenders(cs), Precedes);
    assert c in Contenders(cs) && (Blocks(c) <==> Class(cs, true) != []);
    forall d | Competes(w, ps, q, now, d) && Blocks(d) == Blocks(c) ensures Precedes(c, d) {
      assert d in Class(cs, Blocks(c)) && Class(cs, Blocks(c)) == Contenders(cs);
    }
  }

  lemma BlockersAreSeen(w: Texts, ps: seq<Policy>, q: Request, now: Time, cs: seq<Candidate>)
    requires forall c :: c in cs <==> Competes(w, ps, q, now, c)
    ensures BlockedRequest(w, ps, q, now) <==> Class(cs, true) != []
  {
    ClassSplits(cs);
    if BlockedRequest(w, ps, q, now) {
      var d :| Competes(w, ps, q, now, d) && Blocks(d);
      assert d in Class(cs, true);
    }
    if Class(cs, true) != [] {
      var d := Class(cs, true)[0];
      assert d in Class(cs, true);
      assert Competes(w, ps, q, now, d) && Blocks(d);
    }
  }

  /** Without a competitor approval is required; otherwise the declarative winner is reported. */
  lemma EvaluateMeetsSpec(w: Texts, ps: seq<Policy>, q: Request, now: Time)
    ensures
      var e := Evaluate(w, ps, q, now, false);
      || ((forall c :: !Competes(w, ps, q, now, c)) && Essence(e) == NoVerdict(RequireApproval, 0))
      || (exists c :: Wins(w, ps, q, now, c) && Essence(e) == Verdict(c, 0, 0))
  {
    var cs := Candidates(w, Sort(ps, PolicyIdLe), q, now);
    SortedCandidates(w, ps, q, now);
    if cs != [] {
      FirstContenderWins(w, ps, q, now, cs);
    } else {
      forall c ensures !Competes(w, ps, q, now, c) {
        assert c !in cs;
      }
    }
  }

  lemma SortedCandidates(w: Texts, ps: seq<Policy>, q: Request, now: Time)
    ensures multiset(Candidates(w, Sort(ps, PolicyIdLe), q, now)) == multiset(Candidates(w, ps, q, now))
    ensures ActiveCount(Sort(ps, PolicyIdLe), now) == ActiveCount(ps, now)
    ensures forall c :: c in Candidates(w, Sort(ps, PolicyIdLe), q, now) <==> Competes(w, ps, q, now, c)
  {
    var sorted := Sort(ps, PolicyIdLe);
    SortKeeps(ps, PolicyIdLe);
    CandidatesPermute(w, sorted, ps, q, now);
    SameMembers(Candidates(w, sorted, q, now), Candidates(w, ps, q, now));
    forall c ensures c in Candidates(w, sorted, q, now) <==> Competes(w, ps, q, now, c) {
      CandidateMembers(w, ps, q, now, c);
    }
  }

  /** With unique ids a candidate is determined by its two ids. */
  lemma SameIdsSameCandidate(ps: seq<Policy>, c: Candidate, d: Candidate)
    requires WellFormed(ps) && Belongs(ps, c) && Belongs(ps, d)
    requires c.policy.id == d.policy.id && c.rule.id == d.rule.id
    ensures c == d
  {
    var p :| p in ps && p.header == c.policy && c.rule in p.rules;
    var r :| r in ps && r.header == d.policy && d.rule in r.rules;
    var i :| 0 <= i < |ps| && ps[i] == p;
    var j :| 0 <= j < |ps| && ps[j] == r;
    assert i == j;
  }

  lemma Antisymmetric(ps: seq<Policy>, c: Candidate, d: Candidate)
    requires WellFormed(ps) && Belongs(ps, c) && Belongs(ps, d)
    requires Precedes(c, d) && Precedes(d, c)
    ensures c == d
  {
    KeyLeTotal(KeyOf(c), KeyOf(d));
    assert KeyOf(c) == KeyOf(d);
    SameIdsSameCandidate(ps, c, d);
  }

  /** The winner is unique, so the specification determines the evaluation. */
  lemma WinnerIsUnique(w: Texts, ps: seq<Policy>, q: Request, now: Time, c: Candidate, d: Candidate)
    requires WellFormed(ps) && Wins(w, ps, q, now, c) && Wins(w, ps, q, now, d)
    ensures c == d
  {
    Antisymmetric(ps, c, d);
  }

  /** Whoever wins by the specification is what evaluation reports. */
  lemma WinnerIsReported(w: Texts, ps: seq<Policy>, q: Request, now: Time, c: Candidate)
    requires WellFormed(ps) && Wins(w, ps, q, now, c)
    ensures Essence(Evaluate(w, ps, q, now, false)) == Verdict(c, 0, 0)
  {
    EvaluateMeetsSpec(w, ps, q, now);
    if d :| Wins(w, ps, q, now, d) && Essence(Evaluate(w, ps, q, now, false)) == Verdict(d, 0, 0) {
      WinnerIsUnique(w, ps, q, now, c, d);
    }
  }

  /** DENY exactly when a DENY rule of an active policy that is not prepare-only matches. */
  lemma DeniedExactly(w: Texts, ps: seq<Policy>, q: Request, now: Time)
    ensures Evaluate(w, ps, q, now, false).decision == Deny <==>
            exists p, r :: p in ps && r in p.rules && Active(p.header, now) && p.header.mode == ModeApprovalRequired
                           && r.decision == Deny && RuleMatches(w, r, q)
  {
    EvaluateMeetsSpec(w, ps, q, now);
    var e := Evaluate(w, ps, q, now, false);
    if e.decision == Deny {
      var c :| Wins(w, ps, q, now, c) && Essence(e) == Verdict(c, 0, 0);
      assert Blocks(c);
      var p :| p in ps && p.header == c.policy && c.rule in p.rules;
      assert p in ps && c.rule in p.rules && Active(p.header, now) && RuleMatches(w, c.rule, q);
    }
    if p, r :| p in ps && r in p.rules && Active(p.header, now) && p.header.mode == ModeApprovalRequired
               && r.decision == Deny && RuleMatches(w, r, q) {
      var d := Candidate(p.header, r);
      assert Belongs(ps, d);
      assert Competes(w, ps, q, now, d) && Blocks(d);
    }
  }

  /**
    * No evaluation lets anything run, ALLOW always asks for approval, and approval is
    * waived exactly for a winner of a prepare-only policy that opts out of it twice.
    */
  lemma ApprovalIsAlwaysAsked(w: Texts, ps: seq<Policy>, q: Request, now: Time, kill: bool)
    ensures
      var e := Evaluate(w, ps, q, now, kill);
      && !e.wouldExecute
      && (e.decision == Allow ==> e.wouldRequireApproval && e.policyId.Some?)
      && (kill ==> e.decision == Deny)
      && (!e.wouldRequireApproval ==> e.decision == Prepare)
  {
    if !kill {
      EvaluateMeetsSpec(w, ps, q, now);
    }
  }

  /** It is waived exactly when the winning rule waives it. */
  lemma ApprovalWaivedExactly(w: Texts, ps: seq<Policy>, q: Request, now: Time, kill: bool)
    requires WellFormed(ps)
    ensures !Evaluate(w, ps, q, now, kill).wouldRequireApproval <==>
      !kill && exists c :: Wins(w, ps, q, now, c) && Waives(c)
  {
    if !kill {
      EvaluateMeetsSpec(w, ps, q, now);
      if c :| Wins(w, ps, q, now, c) && Waives(c) {
        WinnerIsReported(w, ps, q, now, c);
      }
    }
  }

  predicate Waives(c: Candidate) {
    c.policy.mode == ModePrepareOnly && !c.rule.requiresApproval && c.rule.approvalMode == PreAuthorized
  }

  // ----- Order of the input -----

  lemma SameCandidatesSameEvaluation(w: Texts, a: seq<Policy>, b: seq<Policy>, q: Request, now: Time)
    requires WellFormed(a) && WellFormed(b)
    requires multiset(Candidates(w, a, q, now)) == multiset(Candidates(w, b, q, now))
    requires ActiveCount(a, now) == ActiveCount(b, now)
    ensures Evaluate(w, a, q, now, false) == Evaluate(w, b, q, now, false)
  {
    var ca, cb := Candidates(w, Sort(a, PolicyIdLe), q, now), Candidates(w, Sort(b, PolicyIdLe), q, now);
    SortedCandidates(w, a, q, now);
    SortedCandidates(w, b, q, now);
    assert |multiset(ca)| == |ca| && |multiset(cb)| == |cb|;
    forall c ensures Competes(w, a, q, now, c) <==> Competes(w, b, q, now, c) {
      SameMembers(ca, cb);
    }
    SameEssence(w, a, b, q, now);
  }

  lemma SameEssence(w: Texts, a: seq<Policy>, b: seq<Policy>, q: Request, now: Time)
    requires WellFormed(a) && WellFormed(b)
    requires forall c :: Competes(w, a, q, now, c) <==> Competes(w, b, q, now, c)
    ensures Essence(Evaluate(w, a, q, now, false)) == Essence(Evaluate(w, b, q, now, false))
  {
    EvaluateMeetsSpec(w, a, q, now);
    EvaluateMeetsSpec(w, b, q, now);
    if c :| Competes(w, a, q, now, c) {
      var x :| Wins(w, a, q, now, x) && Essence(Evaluate(w, a, q, now, false)) == Verdict(x, 0, 0);
      assert Wins(w, b, q, now, x);
      WinnerIsReported(w, b, q, now, x);
    }
  }

  /** The order of the policies is irrelevant. */
  lemma PolicyOrderIsIrrelevant(w: Texts, a: seq<Policy>, b: seq<Policy>, q: Request, now: Time, kill: bool)
    requires WellFormed(a) && multiset(a) == multiset(b)
    ensures Evaluate(w, a, q, now, kill) == Evaluate(w, b, q, now, kill)
  {
    assert |multiset(a)| == |a| && |multiset(b)| == |b|;
    RearrangedWellFormed(a, b);
    CandidatesPermute(w, a, b, q, now);
    SameCandidatesSameEvaluation(w, a, b, q, now);
  }

  lemma RearrangedWellFormed(a: seq<Policy>, b: seq<Policy>)
    requires WellFormed(a) && multiset(a) == multiset(b)
    ensures WellFormed(b)
  {
    var id := (p: Policy) => p.header.id;
    SameMembers(a, b);
    RearrangedStaysDistinct(a, b, id);
    assert forall i | 0 <= i < |b| :: id(b[i]) == b[i].header.id;
  }

  /** So is the order of the rules inside a policy. */
  lemma RuleOrderIsIrrelevant(w: Texts, a: seq<Policy>, b: seq<Policy>, q: Request, now: Time, kill: bool)
    requires WellFormed(a) && WellFormed(b) && |a| == |b|
    requires forall i | 0 <= i < |a| :: a[i].header == b[i].header && multiset(a[i].rules) == multiset(b[i].rules)
    ensures Evaluate(w, a, q, now, kill) == Evaluate(w, b, q, now, kill)
  {
    RulesPermute(w, a, b, q, now);
    SameCandidatesSameEvaluation(w, a, b, q, now);
  }

  lemma {:induction false} RulesPermute(w: Texts, a: seq<Policy>, b: seq<Policy>, q: Request, now: Time)
    requires |a| == |b|
    requires forall i | 0 <= i < |a| :: a[i].header == b[i].header && multiset(a[i].rules) == multiset(b[i].rules)
    ensures multiset(Candidates(w, a, q, now)) == multiset(Candidates(w, b, q, now))
    ensures ActiveCount(a, now) == ActiveCount(b, now)
  {
    if a != [] {
      var n := |a| - 1;
      RulesPermute(w, a[..n], b[..n], q, now);
      GatherPermutes(a[n].rules, b[n].rules, MatchOf(w, a[n].header, q));
    }
  }

  // ----- Ranking -----

  /** Evaluation's own ranking of two candidates. */
  predicate RanksBefore(c: Candidate, d: Candidate) {
    if Blocks(c) != Blocks(d) then Blocks(c) else Precedes(c, d)
  }

  /** The declarative winner is the candidate that ranks before all others. */
  lemma WinnerRanksFirst(w: Texts, ps: seq<Policy>, q: Request, now: Time, c: Candidate)
    requires WellFormed(ps) && Competes(w, ps, q, now, c)
    ensures Wins(w, ps, q, now, c) <==> forall d | Competes(w, ps, q, now, d) :: RanksBefore(c, d)
  {
    if forall d | Competes(w, ps, q, now, d) :: RanksBefore(c, d) {
    }
  }

  lemma RankingIsTransitive(c: Candidate, d: Candidate, e: Candidate)
    requires RanksBefore(c, d) && RanksBefore(d, e)
    ensures RanksBefore(c, e)
  {
    PrecedesIsTotal();
  }

  // ----- Evaluating one policy alone -----

  /** The rules of one policy that compete are those that compete among all policies. */
  lemma CompetesAlone(w: Texts, ps: seq<Policy>, p: Policy, q: Request, now: Time, c: Candidate)
    requires WellFormed(ps) && p in ps
    ensures Competes(w, [p], q, now, c) <==> Competes(w, ps, q, now, c) && c.policy == p.header
  {
    assert p in [p];
  }

  /** Whatever competes from another policy is outranked by some rule of this one. */
  ghost predicate Outranks(w: Texts, ps: seq<Policy>, p: Policy, q: Request, now: Time) {
    forall d | Competes(w, ps, q, now, d) && d.policy != p.header :: OutrankedBy(w, p, q, now, d)
  }

  ghost predicate OutrankedBy(w: Texts, p: Policy, q: Request, now: Time, d: Candidate) {
    exists c :: Competes(w, [p], q, now, c) && RanksBefore(c, d)
  }

  lemma AloneIsWellFormed(ps: seq<Policy>, p: Policy)
    requires WellFormed(ps) && p in ps
    ensures WellFormed([p])
  {
  }

  lemma OutrankingWinnerWins(w: Texts, ps: seq<Policy>, p: Policy, q: Request, now: Time, c: Candidate)
    requires WellFormed(ps) && p in ps && Outranks(w, ps, p, q, now) && Wins(w, [p], q, now, c)
    ensures Wins(w, ps, q, now, c)
  {
    AloneIsWellFormed(ps, p);
    CompetesAlone(w, ps, p, q, now, c);
    WinnerRanksFirst(w, [p], q, now, c);
    forall d | Competes(w, ps, q, now, d) ensures RanksBefore(c, d) {
      CompetesAlone(w, ps, p, q, now, d);
      if d.policy != p.header {
        assert OutrankedBy(w, p, q, now, d);
        var e :| Competes(w, [p], q, now, e) && RanksBefore(e, d);
        RankingIsTransitive(c, e, d);
      }
    }
    WinnerRanksFirst(w, ps, q, now, c);
  }

  /**
    * The envelope evaluates the named policy alone. That decides as all policies together
    * would, exactly when its rules outrank whatever competes from the others.
    */
  lemma NamedPolicyExactly(w: Texts, ps: seq<Policy>, p: Policy, q: Request, now: Time)
    requires WellFormed(ps) && p in ps
    ensures Essence(Evaluate(w, [p], q, now, false)) == Essence(Evaluate(w, ps, q, now, false)) <==>
      Outranks(w, ps, p, q, now)
  {
    AloneIsWellFormed(ps, p);
    EvaluateMeetsSpec(w, [p], q, now);
    EvaluateMeetsSpec(w, ps, q, now);
    if Outranks(w, ps, p, q, now) {
      OutrankingAgrees(w, ps, p, q, now);
    }
    if Essence(Evaluate(w, [p], q, now, false)) == Essence(Evaluate(w, ps, q, now, false)) {
      AgreementOutranks(w, ps, p, q, now);
    }
  }

  lemma OutrankingAgrees(w: Texts, ps: seq<Policy>, p: Policy, q: Request, now: Time)
    requires WellFormed(ps) && p in ps && Outranks(w, ps, p, q, now)
    ensures Essence(Evaluate(w, [p], q, now, false)) == Essence(Evaluate(w, ps, q, now, false))
  {
    AloneIsWellFormed(ps, p);
    EvaluateMeetsSpec(w, [p], q, now);
    if c :| Wins(w, [p], q, now, c) && Essence(Evaluate(w, [p], q, now, false)) == Verdict(c, 0, 0) {
      OutrankingWinnerWins(w, ps, p, q, now, c);
      WinnerIsReported(w, ps, q, now, c);
    } else {
      forall d ensures !Competes(w, ps, q, now, d) {
        CompetesAlone(w, ps, p, q, now, d);
        assert Competes(w, ps, q, now, d) && d.policy != p.header ==> OutrankedBy(w, p, q, now, d);
      }
      EvaluateMeetsSpec(w, ps, q, now);
    }
  }

  lemma AgreementOutranks(w: Texts, ps: seq<Policy>, p: Policy, q: Request, now: Time)
    requires WellFormed(ps) && p in ps
    requires Essence(Evaluate(w, [p], q, now, false)) == Essence(Evaluate(w, ps, q, now, false))
    ensures Outranks(w, ps, p, q, now)
  {
    EvaluateMeetsSpec(w, [p], q, now);
    EvaluateMeetsSpec(w, ps, q, now);
    if c :| Wins(w, ps, q, now, c) && Essence(Evaluate(w, ps, q, now, false)) == Verdict(c, 0, 0) {
      var b :| Wins(w, [p], q, now, b) && Essence(Evaluate(w, [p], q, now, false)) == Verdict(b, 0, 0);
      CompetesAlone(w, ps, p, q, now, b);
      SameIdsSameCandidate(ps, b, c);
      WinnerRanksFirst(w, ps, q, now, c);
      forall d | Competes(w, ps, q, now, d) && d.policy != p.header ensures OutrankedBy(w, p, q, now, d) {
        assert Competes(w, [p], q, now, c) && RanksBefore(c, d);
      }
    }
  }

  /** A request that all policies together deny passes alone exactly when only other policies deny it. */
  lemma DeniedElsewhereExactly(w: Texts, ps: seq<Policy>, p: Policy, q: Request, now: Time)
    requires WellFormed(ps) && p in ps
    ensures
      Evaluate(w, ps, q, now, false).decision == Deny && Evaluate(w, [p], q, now, false).decision != Deny <==>
      && (exists d :: Competes(w, ps, q, now, d) && Blocks(d) && d.policy != p.header)
      && (forall d | Competes(w, ps, q, now, d) && Blocks(d) :: d.policy != p.header)
  {
    DeniedByBlocker(w, ps, q, now);
    DeniedByBlocker(w, [p], q, now);
    forall d ensures Competes(w, [p], q, now, d) <==> Competes(w, ps, q, now, d) && d.policy == p.header {
      CompetesAlone(w, ps, p, q, now, d);
    }
  }

  lemma DeniedByBlocker(w: Texts, ps: seq<Policy>, q: Request, now: Time)
    ensures Evaluate(w, ps, q, now, false).decision == Deny <==> BlockedRequest(w, ps, q, now)
  {
    EvaluateMeetsSpec(w, ps, q, now);
  }
}
