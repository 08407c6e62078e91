/** How far overlapping calls get beyond their caps: runs that reach the bound. */
module Overshoots {
  import opened Wrappers
  import Approvals
  import opened Modes
  import opened PolicyLaws
  import opened GateLaws
  import opened Policies
  import opened Runs
  import opened Gates
  import opened Caps
  import opened Envelope
  import opened EnvelopeAuthority
  import opened CapRuns
  import opened Overlaps

  // ----- A policy of one capped rule -----

  function CapRule(m: int, cooldown: Option<int>): Rule {
    Rule(
      "once", WILDCARD, WILDCARD, 0.0, 100.0, None, RequireApproval, true, 100, map[], Required, Some(m), cooldown)
  }

  function CapPolicy(m: int, cooldown: Option<int>): Policy {
    Policy(Header("capped", "Capped", "", ModeApprovalRequired, true, 1, 100, None), [CapRule(m, cooldown)])
  }

  function CapRequest(action: (string, string), incident: int): EnvelopeRequest {
    EnvelopeRequest(
      "capped", 1, action.0, action.1, map[], "decision", "approval", 0.0, "low", Some(incident), [],
      "", None, None, MANUAL)
  }

  /** The policy, an approval, and the runs so far. */
  function CapWorld(action: (string, string), m: int, cooldown: Option<int>, runs: seq<Run>): World {
    EMPTY_WORLD.(
      policies := map["capped" := CapPolicy(m, cooldown)],
      runs := runs,
      approvals := Approvals.Ledger(
        map["approval" := Approvals.Approval("decision", action.0, map[], Approvals.Approved, 0)], []))
  }

  /** The action is registered and can be asked for. */
  predicate Askable(s: Setting, action: (string, string)) {
    && s.texts.lower(MANUAL) == MANUAL && action in s.actions
    && 1 <= |action.0| <= 64 && 1 <= |action.1| <= 64 && action.0 != WILDCARD && action.1 != WILDCARD
  }

  lemma CapRuleMatches(s: Setting, action: (string, string), incident: int, m: int, cooldown: Option<int>)
    ensures
      var p, q := CapPolicy(m, cooldown), CapRequest(action, incident);
      MatchedRule(p, Fresh(s, p, q, 0)) == Some(CapRule(m, cooldown)) && Fresh(s, p, q, 0).decision != Deny
  {
    var p, q := CapPolicy(m, cooldown), CapRequest(action, incident);
    MatchedRuleWon(s, p, q, 0);
    DenyGateExactly(s, p, q, 0);
    assert p in [p] && CapRule(m, cooldown) in p.rules;
    assert Competes(s.texts, [p], EvaluationOf(q), 0, Candidate(p.header, CapRule(m, cooldown)));
  }

  /** The caps let a request through in tables with these runs. */
  predicate CapsOpen(s: Setting, m: int, cooldown: Option<int>, runs: seq<Run>) {
    CapsClear(Some(CapRule(m, cooldown)), runs, "capped", s.targetHash(map[]), 0)
  }

  lemma CapGate(
    s: Setting, action: (string, string), incident: int, m: int, cooldown: Option<int>, runs: seq<Run>, i: nat)
    requires i < |GATE_ORDER| && Askable(s, action) && CapsOpen(s, m, cooldown, runs)
    ensures HoldsAt(s, seq(12, _ => CapWorld(action, m, cooldown, runs)), CapRequest(action, incident), i)
  {
    var world, p, q := CapWorld(action, m, cooldown, runs), CapPolicy(m, cooldown), CapRequest(action, incident);
    CapRuleMatches(s, action, incident, m, cooldown);
    assert Holds(s, GATE_ORDER[i], world, p, Fresh(s, p, q, 0), q);
  }

  lemma CapRequestAuthorised(
    s: Setting, action: (string, string), incident: int, m: int, cooldown: Option<int>, runs: seq<Run>)
    requires Askable(s, action) && CapsOpen(s, m, cooldown, runs)
    ensures Authorised(s, seq(12, _ => CapWorld(action, m, cooldown, runs)), CapRequest(action, incident))
  {
    var worlds: Moments := seq(12, _ => CapWorld(action, m, cooldown, runs));
    forall i | 0 <= i < |GATE_ORDER| ensures HoldsAt(s, worlds, CapRequest(action, incident), i) {
      CapGate(s, action, incident, m, cooldown, runs, i);
    }
  }

  // ----- Runs of such calls -----

  /** The calls of a plan: which action, under which caps, with which execution ids. */
  datatype Plan = Plan(s: Setting, action: (string, string), m: int, cooldown: Option<int>, execs: seq<ExecId>)

  predicate Sound(d: Plan) {
    Askable(d.s, d.action) && forall i, k | 0 <= i < k < |d.execs| :: d.execs[i] != d.execs[k]
  }

  /** Every row is stamped at the same moment. */
  function Noon(c: nat): Time { 0 }

  function Start0(d: Plan): World { CapWorld(d.action, d.m, d.cooldown, []) }

  /** What each of the calls leaves in the history, if its gates saw `sees` rows. */
  function EntrySeeing(d: Plan, sees: nat): Entry {
    Entry(
      Some(CapRule(d.m, d.cooldown)), Reading(0, sees), Reading(0, sees),
      Run("capped", d.s.targetHash(map[]), 0, false))
  }

  /** Entries of calls that saw as many rows as `sees` tells. */
  function History(d: Plan, sees: seq<nat>): (h: seq<Entry>)
    ensures |h| == |sees| && forall k | 0 <= k < |sees| :: h[k] == EntrySeeing(d, sees[k])
  {
    seq(|sees|, k requires 0 <= k < |sees| => EntrySeeing(d, sees[k]))
  }

  /** A run in which the first calls of the plan have executed, having seen so many rows each. */
  ghost predicate Progress(d: Plan, es: seq<Happening>, sees: seq<nat>) {
    var st := Played(d.s, Start0(d), es);
    && |sees| <= |d.execs|
    && Fed(d.s, Noon, Start0(d), es)
    && Log(d.s, Noon, Start0(d), es) == History(d, sees)
    && |st.effects| == |sees|
    && (forall c: nat | c in st.callers :: c < |sees|)
    && (forall i | |sees| <= i < |d.execs| :: RecordsOf(st.db, d.execs[i]) == NO_RECORDS)
  }

  /** The next `n` calls of the plan come in together. */
  function NextWave(d: Plan, es: seq<Happening>, sees: seq<nat>, n: nat): Wave
    requires |sees| + n <= |d.execs|
  {
    Wave(
      d.s, Noon, Start0(d), Played(d.s, Start0(d), es), History(d, sees), |sees|,
      d.execs[|sees|..|sees| + n], seq(n, i => CapRequest(d.action, |sees| + i)))
  }

  /** First the tables are brought up to date. */
  lemma Refresh(d: Plan, es: seq<Happening>, sees: seq<nat>) returns (es': seq<Happening>)
    requires Progress(d, es, sees)
    ensures Progress(d, es', sees)
    ensures Played(d.s, Start0(d), es').world == CapWorld(d.action, d.m, d.cooldown, RunsOf(History(d, sees)))
  {
    var e: Happening := Change(CapWorld(d.action, d.m, d.cooldown, RunsOf(History(d, sees))));
    es' := es + [e];
    OneMoreHappening(d.s, Noon, Start0(d), es, e);
    FedGrows(d.s, Noon, Start0(d), es, e);
  }

  lemma WaveIsDistinct(d: Plan, es: seq<Happening>, sees: seq<nat>, n: nat)
    requires Sound(d) && Progress(d, es, sees) && |sees| + n <= |d.execs|
    requires Played(d.s, Start0(d), es).world == CapWorld(d.action, d.m, d.cooldown, RunsOf(History(d, sees)))
    ensures Distinct(NextWave(d, es, sees, n)) && Reached(NextWave(d, es, sees, n), es)
  {
  }

  lemma WaveMeets(d: Plan, es: seq<Happening>, sees: seq<nat>, n: nat)
    requires |sees| + n <= |d.execs|
    requires Played(d.s, Start0(d), es).world == CapWorld(d.action, d.m, d.cooldown, RunsOf(History(d, sees)))
    ensures Met(NextWave(d, es, sees, n)) == seq(12, _ => CapWorld(d.action, d.m, d.cooldown, RunsOf(History(d, sees))))
  {
  }

  lemma WaveCallAuthorised(d: Plan, es: seq<Happening>, sees: seq<nat>, n: nat, i: nat)
    requires Sound(d) && |sees| + n <= |d.execs| && i < n
    requires CapsOpen(d.s, d.m, d.cooldown, RunsOf(History(d, sees)))
    requires Played(d.s, Start0(d), es).world == CapWorld(d.action, d.m, d.cooldown, RunsOf(History(d, sees)))
    ensures
      var f := NextWave(d, es, sees, n);
      Authorised(f.s, Met(f), f.qs[i])
  {
    var f, q, runs := NextWave(d, es, sees, n), CapRequest(d.action, |sees| + i), RunsOf(History(d, sees));
    WaveMeets(d, es, sees, n);
    assert f.qs[i] == q;
    MeetsOpenCaps(d, runs, Met(f), q, |sees| + i);
  }

  lemma MeetsOpenCaps(d: Plan, runs: seq<Run>, worlds: seq<World>, q: EnvelopeRequest, incident: int)
    requires Sound(d) && CapsOpen(d.s, d.m, d.cooldown, runs) && q == CapRequest(d.action, incident)
    requires worlds == seq(12, _ => CapWorld(d.action, d.m, d.cooldown, runs))
    ensures Authorised(d.s, worlds, q)
  {
    CapRequestAuthorised(d.s, d.action, incident, d.m, d.cooldown, runs);
  }

  lemma WaveIsAuthorised(d: Plan, es: seq<Happening>, sees: seq<nat>, n: nat)
    requires Sound(d) && Progress(d, es, sees) && |sees| + n <= |d.execs|
    requires CapsOpen(d.s, d.m, d.cooldown, RunsOf(History(d, sees)))
    requires Played(d.s, Start0(d), es).world == CapWorld(d.action, d.m, d.cooldown, RunsOf(History(d, sees)))
    ensures AllAuthorised(NextWave(d, es, sees, n)) && Reached(NextWave(d, es, sees, n), es)
  {
    var f := NextWave(d, es, sees, n);
    WaveIsDistinct(d, es, sees, n);
    forall i | 0 <= i < |f.qs| ensures Authorised(f.s, Met(f), f.qs[i]) {
      WaveCallAuthorised(d, es, sees, n, i);
    }
  }

  /** A call whose gates met these tables, about to commit. */
  function Ready(d: Plan, runs: seq<Run>, exec: ExecId, incident: int): Call {
    var worlds := seq(12, _ => CapWorld(d.action, d.m, d.cooldown, runs));
    Caller(exec, CapRequest(d.action, incident), false, worlds, false, Preparing(Committing))
  }

  lemma ReadyEntry(d: Plan, runs: seq<Run>, exec: ExecId, incident: int, c: nat)
    ensures EntryFor(d.s, Noon, c, Ready(d, runs, exec, incident), false) == EntrySeeing(d, |runs|)
  {
    CapRuleMatches(d.s, d.action, incident, d.m, d.cooldown);
  }

  lemma WaveEntry(d: Plan, es: seq<Happening>, sees: seq<nat>, n: nat, i: nat)
    requires |sees| + n <= |d.execs| && i < n
    requires Played(d.s, Start0(d), es).world == CapWorld(d.action, d.m, d.cooldown, RunsOf(History(d, sees)))
    ensures EntryOfCall(NextWave(d, es, sees, n), i) == EntrySeeing(d, |sees|)
  {
    var f, runs := NextWave(d, es, sees, n), RunsOf(History(d, sees));
    WaveMeets(d, es, sees, n);
    assert Waiting(f, i) == Ready(d, runs, f.execs[i], |sees| + i);
    ReadyEntry(d, runs, f.execs[i], |sees| + i, f.base + i);
  }

  lemma WaveEntries(d: Plan, es: seq<Happening>, sees: seq<nat>, n: nat)
    requires Sound(d) && |sees| + n <= |d.execs|
    requires Played(d.s, Start0(d), es).world == CapWorld(d.action, d.m, d.cooldown, RunsOf(History(d, sees)))
    ensures History(d, sees) + Entries(NextWave(d, es, sees, n), n) == History(d, sees + seq(n, _ => |sees|))
  {
    var f := NextWave(d, es, sees, n);
    var after := History(d, sees + seq(n, _ => |sees|));
    forall i | 0 <= i < n ensures Entries(f, n)[i] == after[|sees| + i] {
      WaveEntry(d, es, sees, n, i);
      assert Entries(f, n)[i] == EntryOfCall(f, i);
    }
    assert History(d, sees) == after[..|sees|] && Entries(f, n) == after[|sees|..];
  }

  /** Whenever the caps are open, any number of further calls execute together. */
  lemma MoreExecute(d: Plan, es: seq<Happening>, sees: seq<nat>, n: nat) returns (es': seq<Happening>)
    requires Sound(d) && Progress(d, es, sees) && |sees| + n <= |d.execs|
    requires CapsOpen(d.s, d.m, d.cooldown, RunsOf(History(d, sees)))
    ensures Progress(d, es', sees + seq(n, _ => |sees|))
  {
    var first := Refresh(d, es, sees);
    WaveIsAuthorised(d, first, sees, n);
    WaveEntries(d, first, sees, n);
    var f := NextWave(d, first, sees, n);
    es' := OverlappingCallsAllExecute(f, first);
    forall i | |sees| + n <= i < |d.execs|
      ensures RecordsOf(Played(d.s, Start0(d), es').db, d.execs[i]) == NO_RECORDS
    {
      assert d.execs[i] !in f.execs;
    }
  }

  // ----- The bound is reached -----

  lemma {:induction false} CountedAtMost(runs: seq<Run>, policyId: string, target: Option<string>, cutoff: Time)
    ensures Recent(runs, policyId, target, cutoff) <= |runs|
  {
    if runs != [] {
      CountedAtMost(runs[..|runs| - 1], policyId, target, cutoff);
    }
  }

  /** Without a cooldown the caps are open while there are fewer runs than the hourly cap. */
  lemma OpenBelowCap(d: Plan, sees: seq<nat>)
    requires |sees| < d.m && d.cooldown.None?
    ensures CapsOpen(d.s, d.m, d.cooldown, RunsOf(History(d, sees)))
  {
    CountedAtMost(RunsOf(History(d, sees)), "capped", Some(d.s.targetHash(map[])), 0 - HOUR);
  }

  /** One call after the other: each sees all rows before its own. */
  function InOrder(n: nat): seq<nat> { seq(n, k => k) }

  lemma NothingYet(d: Plan)
    ensures Progress(d, [], [])
  {
  }

  lemma {:induction false} OneByOne(d: Plan, n: nat) returns (es: seq<Happening>)
    requires Sound(d) && d.cooldown.None? && n < d.m && n <= |d.execs|
    ensures Progress(d, es, InOrder(n))
  {
    if n == 0 {
      es := [];
      NothingYet(d);
      assert InOrder(0) == [];
    } else {
      var shorter := OneByOne(d, n - 1);
      OpenBelowCap(d, InOrder(n - 1));
      es := MoreExecute(d, shorter, InOrder(n - 1), 1);
      assert InOrder(n) == InOrder(n - 1) + seq(1, _ => |InOrder(n - 1)|);
    }
  }

  /** All but one of the allowed runs, and then `u` calls more than the one that is left. */
  function Crowd(m: nat, u: nat): seq<nat>
    requires m >= 1
  {
    InOrder((m - 1) as nat) + seq(u + 1, _ => m - 1)
  }

  lemma SameKeyWindow(d: Plan, sees: seq<nat>, from: nat, to: nat)
    requires from <= to <= |sees|
    ensures
      InWindow(RunsOf(History(d, sees))[from..to], "capped", Some(d.s.targetHash(map[])), 0 - HOUR, 0) == to - from
  {
    AllCounted(RunsOf(History(d, sees))[from..to], "capped", Some(d.s.targetHash(map[])), 0 - HOUR, 0);
  }

  /** What such a history is like: everything the bound on overshoot asks for. */
  lemma CrowdIsWithinBound(d: Plan, u: nat)
    requires d.m >= 1
    ensures
      var h := History(d, Crowd(d.m, u));
      && Timely(h) && Ordered(RunsOf(h)) && CappedBy(h, "capped", d.s.targetHash(map[]), d.m)
      && forall k | 0 <= k < |h| :: h[k].cap.sees <= k && UnseenByCap(h, k) <= u
  {
    var sees := Crowd(d.m, u);
    var h := History(d, sees);
    forall k | 0 <= k < |h| ensures h[k].cap.sees <= k && UnseenByCap(h, k) <= u {
      SameKeyWindow(d, sees, sees[k], k);
    }
  }

  lemma CrowdFillsHour(d: Plan, u: nat)
    requires d.m >= 1
    ensures
      var runs := RunsOf(History(d, Crowd(d.m, u)));
      InHourFrom(runs, "capped", Some(d.s.targetHash(map[])), 0 - HOUR) == d.m + u
  {
    var sees := Crowd(d.m, u);
    SameKeyWindow(d, sees, 0, |sees|);
    assert RunsOf(History(d, sees))[0..|sees|] == RunsOf(History(d, sees));
  }

  /**
    * The bound on overshoot is sharp: for every cap and every number `u` there is a run in
    * which no check misses more than `u` runs and one hour holds `u` executions too many.
    */
  lemma OvershootIsReached(d: Plan, u: nat) returns (es: seq<Happening>)
    requires Sound(d) && d.cooldown.None? && d.m >= 1 && |d.execs| == d.m + u
    ensures Fed(d.s, Noon, Start0(d), es) && |Played(d.s, Start0(d), es).effects| == d.m + u
    ensures
      var h := Log(d.s, Noon, Start0(d), es);
      && Timely(h) && Ordered(RunsOf(h)) && CappedBy(h, "capped", d.s.targetHash(map[]), d.m)
      && (forall k | 0 <= k < |h| :: h[k].cap.sees <= k && UnseenByCap(h, k) <= u)
      && InHourFrom(RunsOf(h), "capped", Some(d.s.targetHash(map[])), 0 - HOUR) == d.m + u
  {
    var first := OneByOne(d, d.m - 1);
    OpenBelowCap(d, InOrder(d.m - 1));
    es := MoreExecute(d, first, InOrder(d.m - 1), u + 1);
    assert InOrder(d.m - 1) + seq(u + 1, _ => |InOrder(d.m - 1)|) == Crowd(d.m, u);
    assert Log(d.s, Noon, Start0(d), es) == History(d, Crowd(d.m, u));
    CrowdIsWithinBound(d, u);
    CrowdFillsHour(d, u);
  }

  // ----- Two calls -----

  /** Nothing stops the first calls, whatever the cooldown. */
  lemma OpenAtFirst(d: Plan)
    requires d.m >= 1
    ensures CapsOpen(d.s, d.m, d.cooldown, RunsOf(History(d, [])))
  {
    assert RunsOf(History(d, [])) == [];
  }

  /**
    * Whatever is registered, two calls both execute at once under a rule that allows one
    * execution an hour and one in a given time: its cooldown and its hourly cap are both broken.
    */
  lemma TwoCallsBreakTheirCaps(d: Plan) returns (es: seq<Happening>)
    requires Sound(d) && d.m == 1 && d.cooldown.Some? && d.cooldown.value > 0 && |d.execs| == 2
    ensures Fed(d.s, Noon, Start0(d), es) && |Played(d.s, Start0(d), es).effects| == 2
    ensures
      var h := Log(d.s, Noon, Start0(d), es);
      && |h| == 2
      && h[0].rule == h[1].rule == Some(CapRule(1, d.cooldown))
      && TooClose(h, 0, 1)
      && !CapHolds(RunsOf(h), "capped", Some(d.s.targetHash(map[])), 1)
  {
    NothingYet(d);
    OpenAtFirst(d);
    es := MoreExecute(d, [], [], 2);
    var sees := [] + seq(2, _ => 0);
    SameKeyWindow(d, sees, 0, 2);
    assert RunsOf(History(d, sees))[0..2] == RunsOf(History(d, sees));
    assert InHourFrom(RunsOf(History(d, sees)), "capped", Some(d.s.targetHash(map[])), 0 - HOUR) == 2;
  }
}
