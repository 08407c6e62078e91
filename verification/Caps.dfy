/** Frequency caps over whole histories of runs: exactly when check-then-insert keeps them. */
module Caps {
  import opened Wrappers
  import opened Ordering
  import opened Scopes
  import opened Policies
  import opened Runs
  import opened Grants
  import opened Gates
  import opened Modes

  /** When a gate looked at the history, and how many of its rows were committed by then. */
  datatype Reading = Reading(at: Time, sees: nat)

  /**
    * One committed row, as far as caps are concerned: the rule that its call's evaluation
    * matched, what the rule's caps and the grant's cap were checked against, and the run.
    */
  datatype Entry = Entry(rule: Option<Rule>, cap: Reading, grant: Reading, run: Run)

  /** A history lists its entries in the order of their commits. */
  function RunsOf(h: seq<Entry>): seq<Run> { seq(|h|, i requires 0 <= i < |h| => h[i].run) }

  predicate CapGateHeld(h: seq<Entry>, e: Entry)
    requires e.cap.sees <= |h|
  {
    CapsClear(e.rule, RunsOf(h)[..e.cap.sees], e.run.policyId, e.run.targetHash, e.cap.at)
  }

  /** Every entry that is not blocked has passed its caps against the rows committed by then. */
  ghost predicate Honest(h: seq<Entry>) {
    forall k | 0 <= k < |h| :: h[k].cap.sees <= k && (!h[k].run.blocked ==> CapGateHeld(h, h[k]))
  }

  /** The gate reads the clock before the row is stamped. */
  predicate Timely(h: seq<Entry>) { forall i | 0 <= i < |h| :: h[i].cap.at <= h[i].run.createdAt }

  /** Rows are committed in the order of their stamps. */
  predicate Ordered(runs: seq<Run>) { forall i, k | 0 <= i < k < |runs| :: runs[i].createdAt <= runs[k].createdAt }

  predicate SameKey(a: Run, b: Run) { a.policyId == b.policyId && a.targetHash == b.targetHash }

  /** The caps of every run were checked when all earlier runs of its policy and target were committed. */
  predicate CapsInTurn(h: seq<Entry>) {
    forall i, k | 0 <= i < k < |h| && !h[i].run.blocked && !h[k].run.blocked && SameKey(h[i].run, h[k].run) ::
      i < h[k].cap.sees
  }

  /** And its grant's cap when all earlier runs of its policy were. */
  predicate GrantsInTurn(h: seq<Entry>) {
    forall i, k | 0 <= i < k < |h| && !h[i].run.blocked && !h[k].run.blocked
                  && h[i].run.policyId == h[k].run.policyId ::
      i < h[k].grant.sees
  }

  // ----- Counting -----

  /** Runs of one policy, or one policy and target, created in the closed window. */
  function IfWithin(policyId: string, target: Option<string>, from: Time, to: Time): Run -> seq<Run> {
    (r: Run) => if Counts(r, policyId, target) && from <= r.createdAt <= to then [r] else []
  }

  function InWindow(runs: seq<Run>, policyId: string, target: Option<string>, from: Time, to: Time): nat {
    |Gather(runs, IfWithin(policyId, target, from, to))|
  }

  lemma {:induction false} WindowIsRecent(
    runs: seq<Run>, policyId: string, target: Option<string>, from: Time, to: Time, cutoff: Time)
    requires cutoff <= from
    ensures InWindow(runs, policyId, target, from, to) <= Recent(runs, policyId, target, cutoff)
  {
    if runs != [] {
      WindowIsRecent(runs[..|runs| - 1], policyId, target, from, to, cutoff);
    }
  }

  /** A run that counts shows up in the count. */
  lemma RecentCounts(runs: seq<Run>, policyId: string, target: Option<string>, cutoff: Time, i: nat)
    requires i < |runs| && Counts(runs[i], policyId, target) && runs[i].createdAt >= cutoff
    ensures Recent(runs, policyId, target, cutoff) > 0
  {
    GatherMembers(runs, IfSince(policyId, target, cutoff), runs[i]);
    assert runs[i] in IfSince(policyId, target, cutoff)(runs[i]);
  }

  lemma WindowSplits(a: seq<Run>, b: seq<Run>, policyId: string, target: Option<string>, from: Time, to: Time)
    ensures InWindow(a + b, policyId, target, from, to) ==
      InWindow(a, policyId, target, from, to) + InWindow(b, policyId, target, from, to)
  {
    GatherConcat(a, b, IfWithin(policyId, target, from, to));
  }

  lemma OneMoreRun(runs: seq<Run>, r: Run, policyId: string, target: Option<string>, from: Time, to: Time)
    ensures InWindow(runs + [r], policyId, target, from, to) ==
      InWindow(runs, policyId, target, from, to) +
        (if Counts(r, policyId, target) && from <= r.createdAt <= to then 1 else 0)
  {
    assert (runs + [r])[..|runs|] == runs;
  }

  /** A window that reaches further back holds no less, as long as no run lies after its end. */
  lemma {:induction false} WiderWindow(
    runs: seq<Run>, policyId: string, target: Option<string>, from: Time, to: Time, from': Time, to': Time)
    requires from' <= from && forall i | 0 <= i < |runs| :: runs[i].createdAt <= to'
    ensures InWindow(runs, policyId, target, from, to) <= InWindow(runs, policyId, target, from', to')
  {
    if runs != [] {
      WiderWindow(runs[..|runs| - 1], policyId, target, from, to, from', to');
    }
  }

  /** A measure that no single element can push above `m` is at most `m` for every prefix. */
  lemma {:induction false} PrefixesStayBelow<T>(s: seq<T>, n: nat, measure: seq<T> -> int, m: int)
    requires n <= |s| && measure([]) <= m
    requires forall k | 0 <= k < |s| && measure(s[..k]) <= m :: measure(s[..k] + [s[k]]) <= m
    ensures measure(s[..n]) <= m
  {
    if n > 0 {
      PrefixesStayBelow(s, n - 1, measure, m);
      assert s[..n] == s[..n - 1] + [s[n - 1]];
    } else {
      assert s[..0] == [];
    }
  }

  // ----- Cooldown -----

  predicate HasCooldown(rule: Option<Rule>) {
    rule.Some? && rule.value.cooldownSeconds.Some? && rule.value.cooldownSeconds.value != 0
  }

  /** Run k was stamped no later than its cooldown after run i. */
  predicate TooClose(h: seq<Entry>, i: nat, k: nat)
    requires i < |h| && k < |h| && HasCooldown(h[k].rule)
  {
    && !h[i].run.blocked
    && SameKey(h[i].run, h[k].run)
    && h[k].run.createdAt - h[i].run.createdAt <= h[k].rule.value.cooldownSeconds.value * SECOND
  }

  /** The gate rules out what it sees. */
  lemma SeenRunsAreNotTooClose(h: seq<Entry>, i: nat, k: nat)
    requires Honest(h) && Timely(h) && k < |h| && !h[k].run.blocked && HasCooldown(h[k].rule) && i < h[k].cap.sees
    ensures !TooClose(h, i, k)
  {
    var seen := RunsOf(h)[..h[k].cap.sees];
    var run := h[k].run;
    assert CapGateHeld(h, h[k]) && seen[i] == h[i].run;
    if TooClose(h, i, k) {
      RecentCounts(seen, run.policyId, Some(run.targetHash),
        h[k].cap.at - h[k].rule.value.cooldownSeconds.value * SECOND, i);
    }
  }

  /**
    * A run keeps its cooldown after all earlier ones exactly when it keeps it after those that
    * were committed between the moment its caps were checked and its own commit.
    */
  lemma CooldownKeptExactly(h: seq<Entry>, k: nat)
    requires Honest(h) && Timely(h) && k < |h| && !h[k].run.blocked && HasCooldown(h[k].rule)
    ensures (forall i | 0 <= i < k :: !TooClose(h, i, k)) <==> (forall i | h[k].cap.sees <= i < k :: !TooClose(h, i, k))
  {
    forall i | 0 <= i < h[k].cap.sees ensures !TooClose(h, i, k) {
      SeenRunsAreNotTooClose(h, i, k);
    }
  }

  /** So it comes strictly later than its cooldown after each of them when calls take turns. */
  lemma CooldownIsKept(h: seq<Entry>, i: nat, k: nat)
    requires Honest(h) && Timely(h) && CapsInTurn(h) && i < k < |h|
    requires !h[i].run.blocked && !h[k].run.blocked && SameKey(h[i].run, h[k].run) && HasCooldown(h[k].rule)
    ensures h[k].run.createdAt - h[i].run.createdAt > h[k].rule.value.cooldownSeconds.value * SECOND
  {
    SeenRunsAreNotTooClose(h, i, k);
  }

  // ----- One hour -----

  /** The closed hour that ends with run k holds at most `m` of the runs up to and with it. */
  predicate HourHolds(runs: seq<Run>, k: nat, policyId: string, target: Option<string>, m: int)
    requires k < |runs|
  {
    InWindow(runs[..k], policyId, target, runs[k].createdAt - HOUR, runs[k].createdAt) < m
  }

  /** The runs of that hour that were committed unseen, between a check and run k. */
  function Unseen(runs: seq<Run>, k: nat, sees: nat, policyId: string, target: Option<string>): nat
    requires sees <= k < |runs|
  {
    InWindow(runs[sees..k], policyId, target, runs[k].createdAt - HOUR, runs[k].createdAt)
  }

  lemma SplitsAt(runs: seq<Run>, i: nat, k: nat)
    requires i <= k <= |runs|
    ensures runs[..k] == runs[..i] + runs[i..k]
  {
  }

  /** Behind a check below the cap, the hour exceeds the cap by no more than what the check did not see. */
  lemma UnseenBoundsHour(runs: seq<Run>, k: nat, check: Reading, policyId: string, target: Option<string>, m: int)
    requires check.sees <= k < |runs| && check.at <= runs[k].createdAt
    requires Recent(runs[..check.sees], policyId, target, check.at - HOUR) < m
    ensures HourHolds(runs, k, policyId, target, m + Unseen(runs, k, check.sees, policyId, target))
  {
    var from, to := runs[k].createdAt - HOUR, runs[k].createdAt;
    WindowIsRecent(runs[..check.sees], policyId, target, from, to, check.at - HOUR);
    SplitsAt(runs, check.sees, k);
    WindowSplits(runs[..check.sees], runs[check.sees..k], policyId, target, from, to);
  }

  /** Nothing is unseen when no counted run was committed since the check. */
  lemma {:induction false} NothingUnseen(runs: seq<Run>, policyId: string, target: Option<string>, from: Time, to: Time)
    requires forall i | 0 <= i < |runs| :: !Counts(runs[i], policyId, target)
    ensures InWindow(runs, policyId, target, from, to) == 0
  {
    if runs != [] {
      NothingUnseen(runs[..|runs| - 1], policyId, target, from, to);
    }
  }

  lemma HourEndsWithRun(runs: seq<Run>, k: nat, policyId: string, target: Option<string>, m: int)
    requires k < |runs| && Counts(runs[k], policyId, target)
    requires InWindow(runs, policyId, target, runs[k].createdAt - HOUR, runs[k].createdAt) <= m
    ensures HourHolds(runs, k, policyId, target, m)
  {
    var from, to := runs[k].createdAt - HOUR, runs[k].createdAt;
    assert runs == runs[..k + 1] + runs[k + 1..] && runs[..k + 1] == runs[..k] + [runs[k]];
    WindowSplits(runs[..k + 1], runs[k + 1..], policyId, target, from, to);
    OneMoreRun(runs[..k], runs[k], policyId, target, from, to);
  }

  /** One more run whose own hour holds keeps every other hour holding too. */
  lemma HourStep(runs: seq<Run>, r: Run, policyId: string, target: Option<string>, m: nat, from: Time, span: int)
    requires forall i | 0 <= i < |runs| :: runs[i].createdAt <= r.createdAt
    requires Counts(r, policyId, target) ==>
      InWindow(runs, policyId, target, r.createdAt - span, r.createdAt) < m
    requires InWindow(runs, policyId, target, from, from + span) <= m
    ensures InWindow(runs + [r], policyId, target, from, from + span) <= m
  {
    OneMoreRun(runs, r, policyId, target, from, from + span);
    if Counts(r, policyId, target) && from <= r.createdAt <= from + span {
      WiderWindow(runs, policyId, target, from, from + span, r.createdAt - span, r.createdAt);
    }
  }

  lemma HoursHold(runs: seq<Run>, policyId: string, target: Option<string>, m: nat, from: Time)
    requires Ordered(runs)
    requires forall k | 0 <= k < |runs| && Counts(runs[k], policyId, target) :: HourHolds(runs, k, policyId, target, m)
    ensures InWindow(runs, policyId, target, from, from + HOUR) <= m
  {
    var measure := (rs: seq<Run>) => InWindow(rs, policyId, target, from, from + HOUR);
    forall k | 0 <= k < |runs| && measure(runs[..k]) <= m ensures measure(runs[..k] + [runs[k]]) <= m {
      assert Counts(runs[k], policyId, target) ==> HourHolds(runs, k, policyId, target, m);
      HourStep(runs[..k], runs[k], policyId, target, m, from, HOUR);
    }
    PrefixesStayBelow(runs, |runs|, measure, m);
    assert runs[..|runs|] == runs;
  }

  function InHourFrom(runs: seq<Run>, policyId: string, target: Option<string>, from: Time): nat {
    InWindow(runs, policyId, target, from, from + HOUR)
  }

  /** No closed hour, wherever it lies, holds more than `m` of the counted runs. */
  ghost predicate CapHolds(runs: seq<Run>, policyId: string, target: Option<string>, m: nat) {
    forall from :: InHourFrom(runs, policyId, target, from) <= m
  }

  /** Only the hours that end with a counted run matter. */
  lemma CapHoldsExactly(runs: seq<Run>, policyId: string, target: Option<string>, m: nat)
    requires Ordered(runs)
    ensures CapHolds(runs, policyId, target, m) <==>
      forall k | 0 <= k < |runs| && Counts(runs[k], policyId, target) :: HourHolds(runs, k, policyId, target, m)
  {
    if CapHolds(runs, policyId, target, m) {
      forall k | 0 <= k < |runs| && Counts(runs[k], policyId, target) ensures HourHolds(runs, k, policyId, target, m) {
        assert InHourFrom(runs, policyId, target, runs[k].createdAt - HOUR) <= m;
        HourEndsWithRun(runs, k, policyId, target, m);
      }
    }
    if forall k | 0 <= k < |runs| && Counts(runs[k], policyId, target) :: HourHolds(runs, k, policyId, target, m) {
      forall from ensures InHourFrom(runs, policyId, target, from) <= m {
        HoursHold(runs, policyId, target, m, from);
      }
    }
  }

  // ----- The rule's hourly cap -----

  function HourlyCap(rule: Option<Rule>): Option<int> { if rule.Some? then rule.value.maxPerHour else None }

  predicate CapIs(rule: Option<Rule>, m: nat) { HourlyCap(rule).Some? && 0 < HourlyCap(rule).value <= m }

  /** Every counted run of this key was admitted by a rule with a cap of at most `m`. */
  predicate CappedBy(h: seq<Entry>, policyId: string, targetHash: string, m: nat) {
    forall k | 0 <= k < |h| && Counts(h[k].run, policyId, Some(targetHash)) :: CapIs(h[k].rule, m)
  }

  /** How many runs of its own key and hour the cap gate of run k could not see. */
  function UnseenByCap(h: seq<Entry>, k: nat): nat
    requires k < |h| && h[k].cap.sees <= k
  {
    Unseen(RunsOf(h), k, h[k].cap.sees, h[k].run.policyId, Some(h[k].run.targetHash))
  }

  /** What the cap gate promises about the hour of run k. */
  lemma CheckedHour(h: seq<Entry>, k: nat, m: nat)
    requires Honest(h) && Timely(h) && k < |h| && !h[k].run.blocked && CapIs(h[k].rule, m)
    ensures h[k].cap.sees <= k
    ensures HourHolds(RunsOf(h), k, h[k].run.policyId, Some(h[k].run.targetHash), m + UnseenByCap(h, k))
  {
    assert CapGateHeld(h, h[k]);
    UnseenBoundsHour(RunsOf(h), k, h[k].cap, h[k].run.policyId, Some(h[k].run.targetHash), m);
  }

  /**
    * The caps bound what overlapping calls can do: where no check missed more than `u` runs of
    * its key and hour, no hour holds more than `u` runs beyond the highest cap.
    */
  lemma HourlyCapOvershoot(h: seq<Entry>, policyId: string, targetHash: string, m: nat, u: nat)
    requires Honest(h) && Timely(h) && Ordered(RunsOf(h)) && CappedBy(h, policyId, targetHash, m)
    requires forall k | 0 <= k < |h| && Counts(h[k].run, policyId, Some(targetHash)) ::
      h[k].cap.sees <= k && UnseenByCap(h, k) <= u
    ensures CapHolds(RunsOf(h), policyId, Some(targetHash), m + u)
  {
    CapHoldsExactly(RunsOf(h), policyId, Some(targetHash), m + u);
    forall k | 0 <= k < |h| && Counts(RunsOf(h)[k], policyId, Some(targetHash))
      ensures HourHolds(RunsOf(h), k, policyId, Some(targetHash), m + u)
    {
      CheckedHour(h, k, m);
    }
  }

  /** The cap holds exactly when it holds in the hours of those runs whose check missed something. */
  lemma HourlyCapExactly(h: seq<Entry>, policyId: string, targetHash: string, m: nat)
    requires Honest(h) && Timely(h) && Ordered(RunsOf(h)) && CappedBy(h, policyId, targetHash, m)
    ensures CapHolds(RunsOf(h), policyId, Some(targetHash), m) <==>
      forall k | 0 <= k < |h| && Counts(h[k].run, policyId, Some(targetHash)) && UnseenByCap(h, k) > 0 ::
        HourHolds(RunsOf(h), k, policyId, Some(targetHash), m)
  {
    CapHoldsExactly(RunsOf(h), policyId, Some(targetHash), m);
    forall k | 0 <= k < |h| && Counts(h[k].run, policyId, Some(targetHash)) && UnseenByCap(h, k) == 0
      ensures HourHolds(RunsOf(h), k, policyId, Some(targetHash), m)
    {
      CheckedHour(h, k, m);
    }
  }

  lemma NoneMissed(h: seq<Entry>, k: nat)
    requires CapsInTurn(h) && k < |h| && h[k].cap.sees <= k && !h[k].run.blocked
    ensures UnseenByCap(h, k) == 0
  {
    var run := h[k].run;
    NothingUnseen(RunsOf(h)[h[k].cap.sees..k], run.policyId, Some(run.targetHash), run.createdAt - HOUR, run.createdAt);
  }

  /** So no hour holds more runs than the highest of their caps when calls take turns. */
  lemma HourlyCapIsKept(h: seq<Entry>, policyId: string, targetHash: string, m: nat)
    requires Honest(h) && Timely(h) && CapsInTurn(h) && Ordered(RunsOf(h)) && CappedBy(h, policyId, targetHash, m)
    ensures CapHolds(RunsOf(h), policyId, Some(targetHash), m)
  {
    forall k | 0 <= k < |h| && Counts(h[k].run, policyId, Some(targetHash))
      ensures h[k].cap.sees <= k && UnseenByCap(h, k) <= 0
    {
      NoneMissed(h, k);
    }
    HourlyCapOvershoot(h, policyId, targetHash, m, 0);
  }

  // ----- The grant's cap -----

  lemma AuthorizedBelowCap(w: Texts, g: Grant, p: Header, version: int, u: Use, runs: seq<Run>, now: Time)
    requires Authorizes(w, g, p, version, u, runs, now)
    ensures Recent(runs, p.id, None, now - HOUR) < g.bounds.maxPerHour
  {
  }

  /** The grant authorised run k against the rows that were committed when its gate asked. */
  ghost predicate GrantedAt(w: Texts, g: Grant, p: Header, h: seq<Entry>, e: Entry)
    requires e.grant.sees <= |h|
  {
    exists version, u :: Authorizes(w, g, p, version, u, RunsOf(h)[..e.grant.sees], e.grant.at)
  }

  /** Each run of the policy went through this one grant. */
  ghost predicate GrantedThroughout(w: Texts, g: Grant, p: Header, h: seq<Entry>) {
    forall k | 0 <= k < |h| && Counts(h[k].run, p.id, None) ::
      h[k].grant.sees <= k && h[k].grant.at <= h[k].run.createdAt && GrantedAt(w, g, p, h, h[k])
  }

  lemma GrantCounts(w: Texts, g: Grant, p: Header, h: seq<Entry>, e: Entry)
    requires e.grant.sees <= |h| && GrantedAt(w, g, p, h, e)
    ensures Recent(RunsOf(h)[..e.grant.sees], p.id, None, e.grant.at - HOUR) < g.bounds.maxPerHour
  {
    var version, u :| Authorizes(w, g, p, version, u, RunsOf(h)[..e.grant.sees], e.grant.at);
    AuthorizedBelowCap(w, g, p, version, u, RunsOf(h)[..e.grant.sees], e.grant.at);
  }

  /** How many runs of its policy and hour the grant's check of run k could not see. */
  function UnseenByGrant(h: seq<Entry>, k: nat): nat
    requires k < |h| && h[k].grant.sees <= k
  {
    Unseen(RunsOf(h), k, h[k].grant.sees, h[k].run.policyId, None)
  }

  lemma GrantedHour(w: Texts, g: Grant, p: Header, h: seq<Entry>, k: nat)
    requires GrantedThroughout(w, g, p, h) && k < |h| && Counts(h[k].run, p.id, None)
    ensures h[k].grant.sees <= k
    ensures HourHolds(RunsOf(h), k, p.id, None, g.bounds.maxPerHour + UnseenByGrant(h, k))
  {
    GrantCounts(w, g, p, h, h[k]);
    UnseenBoundsHour(RunsOf(h), k, h[k].grant, p.id, None, g.bounds.maxPerHour);
  }

  /** While all runs of a policy go through one grant, its cap is exceeded by no more than what a check missed. */
  lemma GrantCapOvershoot(w: Texts, g: Grant, p: Header, h: seq<Entry>, u: nat)
    requires GrantedThroughout(w, g, p, h) && Ordered(RunsOf(h)) && g.bounds.maxPerHour >= 0
    requires forall k | 0 <= k < |h| && Counts(h[k].run, p.id, None) ::
      h[k].grant.sees <= k && UnseenByGrant(h, k) <= u
    ensures CapHolds(RunsOf(h), p.id, None, g.bounds.maxPerHour + u)
  {
    var m := g.bounds.maxPerHour;
    CapHoldsExactly(RunsOf(h), p.id, None, m + u);
    forall k | 0 <= k < |h| && Counts(RunsOf(h)[k], p.id, None) ensures HourHolds(RunsOf(h), k, p.id, None, m + u) {
      GrantedHour(w, g, p, h, k);
    }
  }

  /** And it holds exactly when it holds in the hours of those runs whose check missed something. */
  lemma GrantCapExactly(w: Texts, g: Grant, p: Header, h: seq<Entry>)
    requires GrantedThroughout(w, g, p, h) && Ordered(RunsOf(h)) && g.bounds.maxPerHour >= 0
    ensures CapHolds(RunsOf(h), p.id, None, g.bounds.maxPerHour) <==>
      forall k | 0 <= k < |h| && Counts(h[k].run, p.id, None) && UnseenByGrant(h, k) > 0 ::
        HourHolds(RunsOf(h), k, p.id, None, g.bounds.maxPerHour)
  {
    CapHoldsExactly(RunsOf(h), p.id, None, g.bounds.maxPerHour);
    forall k | 0 <= k < |h| && Counts(h[k].run, p.id, None) && UnseenByGrant(h, k) == 0
      ensures HourHolds(RunsOf(h), k, p.id, None, g.bounds.maxPerHour)
    {
      GrantedHour(w, g, p, h, k);
    }
  }

  /** So it holds when calls take turns. */
  lemma GrantCapIsKept(w: Texts, g: Grant, p: Header, h: seq<Entry>)
    requires GrantedThroughout(w, g, p, h) && GrantsInTurn(h) && Ordered(RunsOf(h)) && g.bounds.maxPerHour >= 0
    ensures CapHolds(RunsOf(h), p.id, None, g.bounds.maxPerHour)
  {
    forall k | 0 <= k < |h| && Counts(h[k].run, p.id, None)
      ensures h[k].grant.sees <= k && UnseenByGrant(h, k) <= 0
    {
      NothingUnseen(
        RunsOf(h)[h[k].grant.sees..k], p.id, None, h[k].run.createdAt - HOUR, h[k].run.createdAt);
    }
    GrantCapOvershoot(w, g, p, h, 0);
  }

  // ----- What a call adds -----

  /** The entry of a call whose gates met these worlds; `stamp` is when its row was created. */
  function EntryOf(s: Setting, seen: Moments, q: EnvelopeRequest, stamp: Time): Entry
    requires q.policyId in seen[0].policies
  {
    var p := seen[0].policies[q.policyId];
    Entry(
      MatchedRule(p, Fresh(s, p, q, seen[1].now)),
      Reading(seen[7].now, |seen[7].runs|),
      Reading(seen[10].now, |seen[10].runs|),
      Run(q.policyId, s.targetHash(q.target), stamp, false))
  }

  /** Policies are stored under their own id. */
  predicate FiledUnderOwnId(world: World) { forall id | id in world.policies :: world.policies[id].header.id == id }

  lemma HonestGrows(h: seq<Entry>, e: Entry)
    requires Honest(h) && e.cap.sees <= |h| && (!e.run.blocked ==> CapGateHeld(h, e))
    ensures Honest(h + [e])
  {
    var longer := h + [e];
    assert RunsOf(longer) == RunsOf(h) + [e.run];
    forall k | 0 <= k < |longer|
      ensures longer[k].cap.sees <= k && (!longer[k].run.blocked ==> CapGateHeld(longer, longer[k]))
    {
      assert RunsOf(longer)[..longer[k].cap.sees] == RunsOf(h)[..longer[k].cap.sees];
    }
  }

  lemma CooldownGateHeld(s: Setting, seen: Moments, q: EnvelopeRequest, p: Policy)
    requires q.policyId in seen[0].policies && p == seen[0].policies[q.policyId] && AllHold(s, seen, q)
    ensures CapsClear(
      MatchedRule(p, Fresh(s, p, q, seen[1].now)), seen[7].runs, p.header.id, s.targetHash(q.target), seen[7].now)
  {
    assert HoldsAt(s, seen, q, 7);
  }

  /**
    * A call whose gates all held, each in its own moment, and whose cap gate saw the rows
    * committed by then, leaves an honest history.
    */
  lemma CallKeepsHonest(s: Setting, seen: Moments, q: EnvelopeRequest, h: seq<Entry>, stamp: Time)
    requires Honest(h) && AllHold(s, seen, q)
    requires q.policyId in seen[0].policies && seen[0].policies[q.policyId].header.id == q.policyId
    requires seen[7].runs <= RunsOf(h)
    ensures Honest(h + [EntryOf(s, seen, q, stamp)])
  {
    CooldownGateHeld(s, seen, q, seen[0].policies[q.policyId]);
    var e := EntryOf(s, seen, q, stamp);
    assert RunsOf(h)[..e.cap.sees] == seen[7].runs;
    HonestGrows(h, e);
  }

  lemma GrantGateHeld(s: Setting, seen: Moments, q: EnvelopeRequest, p: Policy)
    requires q.policyId in seen[0].policies && p == seen[0].policies[q.policyId]
    requires AllHold(s, seen, q) && ModeOf(s, q) == PREAUTHORIZED
    ensures p.header.id in seen[10].grants
    ensures Authorizes(
      s.texts, seen[10].grants[p.header.id], p.header, q.expectedVersion, UseOf(q), seen[10].runs, seen[10].now)
  {
    assert HoldsAt(s, seen, q, 10);
  }

  /** And on the pre-authorized path, one in which its grant authorised it. */
  lemma GrantedCallKeepsGranted(s: Setting, seen: Moments, q: EnvelopeRequest, h: seq<Entry>, stamp: Time)
    requires AllHold(s, seen, q) && ModeOf(s, q) == PREAUTHORIZED && seen[10].now <= stamp
    requires q.policyId in seen[0].policies && seen[0].policies[q.policyId].header.id == q.policyId
    requires seen[10].runs <= RunsOf(h)
    ensures q.policyId in seen[10].grants
    ensures
      var p, g := seen[0].policies[q.policyId].header, seen[10].grants[q.policyId];
      GrantedThroughout(s.texts, g, p, h) ==> GrantedThroughout(s.texts, g, p, h + [EntryOf(s, seen, q, stamp)])
  {
    var p := seen[0].policies[q.policyId];
    GrantGateHeld(s, seen, q, p);
    var e := EntryOf(s, seen, q, stamp);
    assert RunsOf(h)[..e.grant.sees] == seen[10].runs;
    GrantedGrows(s.texts, seen[10].grants[q.policyId], p.header, h, e);
  }

  lemma GrantedGrows(w: Texts, g: Grant, p: Header, h: seq<Entry>, e: Entry)
    requires e.grant.sees <= |h| && e.grant.at <= e.run.createdAt && GrantedAt(w, g, p, h, e)
    ensures GrantedThroughout(w, g, p, h) ==> GrantedThroughout(w, g, p, h + [e])
  {
    var longer := h + [e];
    assert RunsOf(longer) == RunsOf(h) + [e.run];
    if GrantedThroughout(w, g, p, h) {
      forall k | 0 <= k < |longer| && Counts(longer[k].run, p.id, None)
        ensures longer[k].grant.sees <= k && longer[k].grant.at <= longer[k].run.createdAt &&
          GrantedAt(w, g, p, longer, longer[k])
      {
        assert k < |h| ==> Counts(h[k].run, p.id, None);
        assert RunsOf(longer)[..longer[k].grant.sees] == RunsOf(h)[..longer[k].grant.sees];
        assert GrantedAt(w, g, p, h, longer[k]);
      }
    }
  }
}
