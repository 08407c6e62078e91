/** Runs whose calls take turns between check and commit: there the caps hold of what is executed. */
module Turns {
  import opened Wrappers
  import opened Policies
  import opened Runs
  import opened Grants
  import opened Gates
  import opened Caps
  import opened Modes
  import opened Envelope
  import opened EnvelopeLaws
  import opened EnvelopeSafety
  import opened EnvelopeAuthority
  import opened CapRuns

  /** A run of the envelope from some world, its rows stamped as given. */
  datatype Story = Story(s: Setting, stamps: Stamps, start: World, es: seq<Happening>)

  /** The machine before event `n`. */
  function Before(y: Story, n: nat): Machine
    requires n <= |y.es|
  {
    Played(y.s, y.start, y.es[..n])
  }

  /** The rows committed before event `n`. */
  function Rows(y: Story, n: nat): seq<Entry>
    requires n <= |y.es|
  {
    Log(y.s, y.stamps, y.start, y.es[..n])
  }

  predicate CommitsAt(y: Story, n: nat) { n < |y.es| && CommitsRow(y.s, Before(y, n), y.es[n]) }

  /** Event `n` commits the row of a call whose action will run. */
  predicate RunsAt(y: Story, n: nat) { n < |y.es| && CommitsRun(y.s, Before(y, n), y.es[n]) }

  /** The call that commits a row with event `n`. */
  function CallAt(y: Story, n: nat): Call
    requires CommitsAt(y, n)
  {
    Before(y, n).callers[y.es[n].caller]
  }

  /** At event `i` the call has not been asked about its caps yet. */
  predicate Unchecked(y: Story, i: nat, c: nat)
    requires i <= |y.es|
  {
    c in Before(y, i).callers ==> |Before(y, i).callers[c].seen| <= 7
  }

  /** No call commits a run while another one of the same policy is between its cap gate and its own commit. */
  predicate TakesTurns(y: Story) {
    forall i, n | 0 <= i < n < |y.es| && RunsAt(y, i) && RunsAt(y, n)
                  && CallAt(y, i).request.policyId == CallAt(y, n).request.policyId ::
      Unchecked(y, i, y.es[n].caller)
  }

  /** Rows are stamped after the gates of their call read the clock, and in the order of their commits. */
  predicate Stamped(y: Story) {
    && (forall n | 0 <= n < |y.es| && CommitsAt(y, n) :: StampedAfter(CallAt(y, n), y.stamps(y.es[n].caller)))
    && (forall i, n | 0 <= i < n < |y.es| && CommitsAt(y, i) && CommitsAt(y, n) ::
      y.stamps(y.es[i].caller) <= y.stamps(y.es[n].caller))
  }

  predicate StampedAfter(caller: Call, stamp: Time) { forall w | w in caller.seen :: w.now <= stamp }

  // ----- Events in order -----

  lemma OneStep(y: Story, n: nat)
    requires n < |y.es|
    ensures Before(y, n + 1) == Next(GateJudge(y.s), Before(y, n), y.es[n])
    ensures Rows(y, n + 1) ==
      if CommitsAt(y, n) then
        Rows(y, n) + [EntryFor(y.s, y.stamps, y.es[n].caller, CallAt(y, n), !RunsAt(y, n))]
      else Rows(y, n)
  {
    assert y.es[..n + 1] == y.es[..n] + [y.es[n]];
    OneMoreHappening(y.s, y.stamps, y.start, y.es[..n], y.es[n]);
  }

  lemma RowsGrowOnce(y: Story, n: nat)
    requires n < |y.es|
    ensures Rows(y, n) <= Rows(y, n + 1)
  {
    OneStep(y, n);
  }

  lemma PrefixOfPrefix<T>(a: seq<T>, b: seq<T>, c: seq<T>)
    requires a <= b && b <= c
    ensures a <= c
  {
  }

  lemma RowsGrowFurther(y: Story, rows: seq<Entry>, n: nat)
    requires n < |y.es| && rows <= Rows(y, n)
    ensures rows <= Rows(y, n + 1)
  {
    RowsGrowOnce(y, n);
    PrefixOfPrefix(rows, Rows(y, n), Rows(y, n + 1));
  }

  lemma {:induction false} RowsGrow(y: Story, a: nat, b: nat)
    requires a <= b <= |y.es|
    ensures Rows(y, a) <= Rows(y, b)
  {
    if a < b {
      RowsGrow(y, a, b - 1);
      RowsGrowFurther(y, Rows(y, a), b - 1);
    }
  }

  lemma {:induction false} SeenGrows(y: Story, a: nat, b: nat, c: nat)
    requires a <= b <= |y.es| && c in Before(y, a).callers
    ensures c in Before(y, b).callers && Before(y, a).callers[c].seen <= Before(y, b).callers[c].seen
  {
    if a < b {
      SeenGrows(y, a, b - 1, c);
      SeenGrowsOnce(y, b - 1, c);
      PrefixOfPrefix(Before(y, a).callers[c].seen, Before(y, b - 1).callers[c].seen, Before(y, b).callers[c].seen);
    }
  }

  lemma SeenGrowsOnce(y: Story, n: nat, c: nat)
    requires n < |y.es| && c in Before(y, n).callers
    ensures c in Before(y, n + 1).callers && Before(y, n).callers[c].seen <= Before(y, n + 1).callers[c].seen
  {
    OneStep(y, n);
    InvAlways(GateJudge(y.s), y.start, y.es[..n]);
    StepKeepsCaller(y.s, Before(y, n), y.es[n], c);
    StepSees(y.s, Before(y, n), y.es[n], c);
  }

  lemma StepKeepsCaller(s: Setting, st: Machine, e: Happening, c: nat)
    requires c in st.callers
    ensures c in Next(GateJudge(s), st, e).callers
  {
  }

  /** Event `n` commits this row, as number `j`. */
  ghost predicate CommitsThis(y: Story, n: nat, j: nat, row: Entry) {
    && CommitsAt(y, n)
    && |Rows(y, n)| == j
    && row == EntryFor(y.s, y.stamps, y.es[n].caller, CallAt(y, n), !RunsAt(y, n))
  }

  lemma LastRow(y: Story, n: nat, j: nat)
    requires n < |y.es| && |Rows(y, n)| <= j < |Rows(y, n + 1)|
    ensures CommitsThis(y, n, j, Rows(y, n + 1)[j])
  {
    OneStep(y, n);
  }

  lemma RowStays(y: Story, n: nat, j: nat)
    requires n < |y.es| && j < |Rows(y, n)|
    ensures j < |Rows(y, n + 1)| && Rows(y, n + 1)[j] == Rows(y, n)[j]
  {
    RowsGrowOnce(y, n);
  }

  lemma CallsNeedEvents(y: Story, b: nat, c: nat)
    requires b <= |y.es| && c in Before(y, b).callers
    ensures b > 0
  {
  }

  lemma RowsNeedEvents(y: Story, b: nat)
    requires b <= |y.es| && Rows(y, b) != []
    ensures b > 0
  {
  }

  /** Every row was committed by some event. */
  lemma {:induction false} CommitOf(y: Story, b: nat, j: nat) returns (n: nat)
    requires b <= |y.es| && j < |Rows(y, b)|
    ensures n < b && CommitsThis(y, n, j, Rows(y, b)[j])
  {
    RowsNeedEvents(y, b);
    if j < |Rows(y, b - 1)| {
      n := CommitOf(y, b - 1, j);
      RowStays(y, b - 1, j);
    } else {
      n := b - 1;
      LastRow(y, n, j);
    }
  }

  /** Every world that a call has seen was there when that gate was asked. */
  lemma {:induction false} GateTime(y: Story, b: nat, c: nat, i: nat) returns (g: nat)
    requires b <= |y.es| && c in Before(y, b).callers && i < |Before(y, b).callers[c].seen|
    ensures g < b && c in Before(y, g).callers && |Before(y, g).callers[c].seen| == i
    ensures GateAsked(Before(y, g), y.es[g]) == Some(i) && Before(y, g).world == Before(y, b).callers[c].seen[i]
    ensures c in Before(y, g + 1).callers && |Before(y, g + 1).callers[c].seen| == i + 1
  {
    CallsNeedEvents(y, b, c);
    OneStep(y, b - 1);
    InvAlways(GateJudge(y.s), y.start, y.es[..b - 1]);
    StepSees(y.s, Before(y, b - 1), y.es[b - 1], c);
    if i < |Before(y, b - 1).callers[c].seen| {
      g := GateTime(y, b - 1, c, i);
    } else {
      g := b - 1;
    }
  }

  lemma GateCommitsNothing(s: Setting, st: Machine, e: Happening)
    requires GateAsked(st, e).Some?
    ensures !CommitsRow(s, st, e)
  {
  }

  // ----- Turns -----

  /** Whoever had not checked its caps at event `i` sees, at its seventh or tenth gate, the row that `i` committed. */
  lemma SeesEarlierCommit(y: Story, i: nat, n: nat, gate: nat)
    requires Fed(y.s, y.stamps, y.start, y.es) && i < n && CommitsAt(y, i) && CommitsAt(y, n)
    requires (gate == 7 || gate == 10) && |CallAt(y, n).seen| > gate && Unchecked(y, i, y.es[n].caller)
    ensures |Rows(y, i)| < |CallAt(y, n).seen[gate].runs|
  {
    var g := GateTime(y, n, y.es[n].caller, gate);
    assert FedAt(y.s, y.stamps, y.start, y.es, g);
    GateComesLater(y, i, y.es[n].caller, gate, g);
    RowsGrow(y, i + 1, g);
    OneStep(y, i);
  }

  lemma GateComesLater(y: Story, i: nat, c: nat, gate: nat, g: nat)
    requires CommitsAt(y, i) && Unchecked(y, i, c) && gate >= 7 && g < |y.es|
    requires GateAsked(Before(y, g), y.es[g]).Some?
    requires c in Before(y, g + 1).callers && |Before(y, g + 1).callers[c].seen| == gate + 1
    ensures i < g
  {
    GateCommitsNothing(y.s, Before(y, g), y.es[g]);
    if g < i {
      SeenGrows(y, g + 1, i, c);
    }
  }

  lemma CommittedRun(y: Story, n: nat)
    requires RunsAt(y, n)
    ensures Authorised(y.s, CallAt(y, n).seen, CallAt(y, n).request)
    ensures
      var e := EntryFor(y.s, y.stamps, y.es[n].caller, CallAt(y, n), false);
      && |CallAt(y, n).seen| == 12
      && e.cap.sees == |CallAt(y, n).seen[7].runs| && e.grant.sees == |CallAt(y, n).seen[10].runs|
  {
    InvAlways(GateJudge(y.s), y.start, y.es[..n]);
    CommitNeedsGates(y.s, Before(y, n), y.es[n]);
    AuthorisedLoadsPolicy(y.s, CallAt(y, n).seen, CallAt(y, n).request);
  }

  lemma EarlierIsSeen(y: Story, j: nat, k: nat)
    requires Fed(y.s, y.stamps, y.start, y.es) && TakesTurns(y) && j < k < |Rows(y, |y.es|)|
    requires
      var h := Rows(y, |y.es|);
      !h[j].run.blocked && !h[k].run.blocked && h[j].run.policyId == h[k].run.policyId
    ensures j < Rows(y, |y.es|)[k].cap.sees && j < Rows(y, |y.es|)[k].grant.sees
  {
    var i := CommitOf(y, |y.es|, j);
    var n := CommitOf(y, |y.es|, k);
    RunOfEntry(y.s, y.stamps, y.es[i].caller, CallAt(y, i), !RunsAt(y, i));
    RunOfEntry(y.s, y.stamps, y.es[n].caller, CallAt(y, n), !RunsAt(y, n));
    CommitsInOrder(y, i, n);
    CommittedRun(y, n);
    SeesEarlierCommit(y, i, n, 7);
    SeesEarlierCommit(y, i, n, 10);
  }

  lemma CommitsInOrder(y: Story, i: nat, n: nat)
    requires CommitsAt(y, i) && CommitsAt(y, n) && |Rows(y, i)| < |Rows(y, n)|
    ensures i < n
  {
    if n <= i {
      RowsGrow(y, n, i);
    }
  }

  /** When calls of one policy take turns, every check has seen all earlier runs. */
  lemma TurnsAreKept(y: Story)
    requires Fed(y.s, y.stamps, y.start, y.es) && TakesTurns(y)
    ensures CapsInTurn(Rows(y, |y.es|)) && GrantsInTurn(Rows(y, |y.es|))
  {
    var h := Rows(y, |y.es|);
    forall i, k | 0 <= i < k < |h| && !h[i].run.blocked && !h[k].run.blocked && h[i].run.policyId == h[k].run.policyId
      ensures i < h[k].cap.sees && i < h[k].grant.sees
    {
      EarlierIsSeen(y, i, k);
    }
  }

  lemma EntryIsTimely(s: Setting, stamps: Stamps, c: nat, caller: Call, blocked: bool)
    requires StampedAfter(caller, stamps(c))
    ensures
      var e := EntryFor(s, stamps, c, caller, blocked);
      e.cap.at <= e.run.createdAt && e.run.createdAt == stamps(c)
  {
  }

  lemma StampsAreOrdered(y: Story)
    requires Stamped(y)
    ensures Timely(Rows(y, |y.es|)) && Ordered(RunsOf(Rows(y, |y.es|)))
  {
    var h := Rows(y, |y.es|);
    forall j | 0 <= j < |h| ensures h[j].cap.at <= h[j].run.createdAt {
      var i := CommitOf(y, |y.es|, j);
      EntryIsTimely(y.s, y.stamps, y.es[i].caller, CallAt(y, i), !RunsAt(y, i));
    }
    forall j, k | 0 <= j < k < |h| ensures h[j].run.createdAt <= h[k].run.createdAt {
      RowsStampedInOrder(y, j, k);
    }
  }

  lemma RowsStampedInOrder(y: Story, j: nat, k: nat)
    requires Stamped(y) && j < k < |Rows(y, |y.es|)|
    ensures Rows(y, |y.es|)[j].run.createdAt <= Rows(y, |y.es|)[k].run.createdAt
  {
    var i := CommitOf(y, |y.es|, j);
    var n := CommitOf(y, |y.es|, k);
    CommitsInOrder(y, i, n);
    EntryIsTimely(y.s, y.stamps, y.es[i].caller, CallAt(y, i), !RunsAt(y, i));
    EntryIsTimely(y.s, y.stamps, y.es[n].caller, CallAt(y, n), !RunsAt(y, n));
  }

  // ----- From rows to executions -----

  /** The call that ran action `i`. */
  function Executor(y: Story, i: nat): nat
    requires i < |Before(y, |y.es|).effects|
  {
    Before(y, |y.es|).effects[i].caller
  }

  /** The request that action `i` was run for. */
  function Executed(y: Story, i: nat): EnvelopeRequest
    requires i < |Before(y, |y.es|).effects| && Executor(y, i) in Before(y, |y.es|).callers
  {
    Before(y, |y.es|).callers[Executor(y, i)].request
  }

  /** Call `c` has a row that runs, of this policy and target, stamped within the hour. */
  ghost predicate RanWithin(y: Story, b: nat, c: nat, policyId: string, target: Option<string>, from: Time)
    requires b <= |y.es|
  {
    && c in Before(y, b).callers
    && HasRunIn(Before(y, b), c)
    && Counts(RunFor(y, b, c), policyId, target)
    && from <= y.stamps(c) <= from + HOUR
  }

  function RunFor(y: Story, b: nat, c: nat): Run
    requires b <= |y.es| && c in Before(y, b).callers
  {
    var q := Before(y, b).callers[c].request;
    Run(q.policyId, y.s.targetHash(q.target), y.stamps(c), false)
  }

  ghost function RanInHour(y: Story, b: nat, policyId: string, target: Option<string>, from: Time): set<nat>
    requires b <= |y.es|
  {
    set c | c in Before(y, b).callers && RanWithin(y, b, c, policyId, target, from)
  }

  /** One step adds at most the call that commits its row with it. */
  lemma RanGrows(y: Story, n: nat, policyId: string, target: Option<string>, from: Time, c: nat)
    requires n < |y.es| && RanWithin(y, n + 1, c, policyId, target, from)
    ensures RanWithin(y, n, c, policyId, target, from) ||
      (RunsAt(y, n) && c == y.es[n].caller && RunFor(y, n, c) == RunFor(y, n + 1, c))
  {
    OneStep(y, n);
    InvAlways(GateJudge(y.s), y.start, y.es[..n]);
    StepLogs(y.s, Before(y, n), y.es[n], c);
  }

  lemma NobodyRan(y: Story, policyId: string, target: Option<string>, from: Time)
    ensures RanInHour(y, 0, policyId, target, from) == {}
  {
    assert y.es[..0] == [];
  }

  lemma RanStep(y: Story, n: nat, policyId: string, target: Option<string>, from: Time)
    requires n < |y.es|
    requires |RanInHour(y, n, policyId, target, from)| <= InHourFrom(RunsOf(Rows(y, n)), policyId, target, from)
    ensures
      |RanInHour(y, n + 1, policyId, target, from)| <= InHourFrom(RunsOf(Rows(y, n + 1)), policyId, target, from)
  {
    RowsCountOneMore(y, n, policyId, target, from);
    RanOneMore(y, n, policyId, target, from);
  }

  /** Calls whose rows run within an hour are no more than the rows of that hour. */
  lemma {:induction false} RanAreCounted(y: Story, b: nat, policyId: string, target: Option<string>, from: Time)
    requires b <= |y.es|
    ensures |RanInHour(y, b, policyId, target, from)| <= InHourFrom(RunsOf(Rows(y, b)), policyId, target, from)
  {
    if b == 0 {
      NobodyRan(y, policyId, target, from);
    } else {
      RanAreCounted(y, b - 1, policyId, target, from);
      RanStep(y, b - 1, policyId, target, from);
    }
  }

  /** Whether event `n` commits a run that counts in this hour. */
  ghost predicate CountsAt(y: Story, n: nat, policyId: string, target: Option<string>, from: Time) {
    && RunsAt(y, n)
    && Counts(RunFor(y, n, y.es[n].caller), policyId, target)
    && from <= y.stamps(y.es[n].caller) <= from + HOUR
  }

  lemma RowsCountOneMore(y: Story, n: nat, policyId: string, target: Option<string>, from: Time)
    requires n < |y.es|
    ensures InHourFrom(RunsOf(Rows(y, n + 1)), policyId, target, from) >=
      InHourFrom(RunsOf(Rows(y, n)), policyId, target, from) + if CountsAt(y, n, policyId, target, from) then 1 else 0
  {
    OneStep(y, n);
    if CommitsAt(y, n) {
      RunOfEntry(y.s, y.stamps, y.es[n].caller, CallAt(y, n), !RunsAt(y, n));
      OneMoreCounted(Rows(y, n), EntryFor(y.s, y.stamps, y.es[n].caller, CallAt(y, n), !RunsAt(y, n)),
        policyId, target, from);
    }
  }

  lemma OneMoreCounted(h: seq<Entry>, e: Entry, policyId: string, target: Option<string>, from: Time)
    ensures InHourFrom(RunsOf(h + [e]), policyId, target, from) ==
      InHourFrom(RunsOf(h), policyId, target, from)
      + if Counts(e.run, policyId, target) && from <= e.run.createdAt <= from + HOUR then 1 else 0
  {
    assert RunsOf(h + [e]) == RunsOf(h) + [e.run];
    OneMoreRun(RunsOf(h), e.run, policyId, target, from, from + HOUR);
  }

  lemma RanOneMore(y: Story, n: nat, policyId: string, target: Option<string>, from: Time)
    requires n < |y.es|
    ensures |RanInHour(y, n + 1, policyId, target, from)| <=
      |RanInHour(y, n, policyId, target, from)| + if CountsAt(y, n, policyId, target, from) then 1 else 0
  {
    var ran, after := RanInHour(y, n, policyId, target, from), RanInHour(y, n + 1, policyId, target, from);
    forall c | c in after && !(CountsAt(y, n, policyId, target, from) && c == y.es[n].caller) ensures c in ran {
      RanGrows(y, n, policyId, target, from, c);
    }
    if CountsAt(y, n, policyId, target, from) {
      SubsetIsSmaller(after, ran + {y.es[n].caller});
    } else {
      SubsetIsSmaller(after, ran);
    }
  }

  lemma {:induction false} SubsetIsSmaller(a: set<nat>, b: set<nat>)
    requires a <= b
    ensures |a| <= |b|
  {
    if a != {} {
      var x :| x in a;
      SubsetIsSmaller(a - {x}, b - {x});
    }
  }

  /** Different executions are by different calls, each with a row that runs. */
  lemma ExecutorsRan(y: Story, i: nat)
    requires i < |Before(y, |y.es|).effects|
    ensures Executor(y, i) in Before(y, |y.es|).callers && HasRunIn(Before(y, |y.es|), Executor(y, i))
    ensures forall k | 0 <= k < |Before(y, |y.es|).effects| && k != i :: Executor(y, k) != Executor(y, i)
  {
    assert y.es[..|y.es|] == y.es;
    ExecutesAtMostOnce(GateJudge(y.s), y.start, y.es);
  }

  /** Executions of this policy and target whose rows are stamped within the hour. */
  ghost predicate ExecutedWithin(y: Story, which: set<nat>, policyId: string, target: Option<string>, from: Time) {
    forall i | i in which ::
      && i < |Before(y, |y.es|).effects|
      && RanWithin(y, |y.es|, Executor(y, i), policyId, target, from)
  }

  lemma {:induction false} ExecutionsAreCalls(y: Story, which: set<nat>, calls: set<nat>)
    requires forall i | i in which :: i < |Before(y, |y.es|).effects| && Executor(y, i) in calls
    ensures |which| <= |calls|
  {
    if which != {} {
      var i :| i in which;
      forall k | k in which && k != i ensures Executor(y, k) != Executor(y, i) {
        ExecutorsRan(y, i);
      }
      ExecutionsAreCalls(y, which - {i}, calls - {Executor(y, i)});
    }
  }

  /** So whatever bounds the rows bounds the executions. */
  lemma ExecutionsAreCounted(
    y: Story, which: set<nat>, policyId: string, target: Option<string>, from: Time, m: nat)
    requires CapHolds(RunsOf(Rows(y, |y.es|)), policyId, target, m)
    requires ExecutedWithin(y, which, policyId, target, from)
    ensures |which| <= m
  {
    RanAreCounted(y, |y.es|, policyId, target, from);
    ExecutionsAreCalls(y, which, RanInHour(y, |y.es|, policyId, target, from));
  }

  // ----- The caps of executions -----

  lemma WholeStory(y: Story)
    requires Fed(y.s, y.stamps, y.start, y.es)
    ensures Honest(Rows(y, |y.es|))
  {
    assert y.es[..|y.es|] == y.es;
    FedRunsAreHonest(y.s, y.stamps, y.start, y.es);
  }

  /**
    * However calls overlap: where no cap gate missed more than `u` runs of its key and hour, no
    * more than `m + u` actions of that key are executed within any hour.
    */
  lemma ExecutionsOvershoot(
    y: Story, which: set<nat>, policyId: string, targetHash: string, from: Time, m: nat, u: nat)
    requires Fed(y.s, y.stamps, y.start, y.es) && Stamped(y)
    requires
      var h := Rows(y, |y.es|);
      && CappedBy(h, policyId, targetHash, m)
      && forall k | 0 <= k < |h| && Counts(h[k].run, policyId, Some(targetHash)) ::
        h[k].cap.sees <= k && UnseenByCap(h, k) <= u
    requires ExecutedWithin(y, which, policyId, Some(targetHash), from)
    ensures |which| <= m + u
  {
    WholeStory(y);
    StampsAreOrdered(y);
    HourlyCapOvershoot(Rows(y, |y.es|), policyId, targetHash, m, u);
    ExecutionsAreCounted(y, which, policyId, Some(targetHash), from, m + u);
  }

  /** When calls take turns, at most `m` actions of one policy and target are executed within any hour. */
  lemma TurnsKeepHourlyCap(y: Story, which: set<nat>, policyId: string, targetHash: string, from: Time, m: nat)
    requires Fed(y.s, y.stamps, y.start, y.es) && TakesTurns(y) && Stamped(y)
    requires CappedBy(Rows(y, |y.es|), policyId, targetHash, m)
    requires ExecutedWithin(y, which, policyId, Some(targetHash), from)
    ensures |which| <= m
  {
    WholeStory(y);
    TurnsAreKept(y);
    StampsAreOrdered(y);
    HourlyCapIsKept(Rows(y, |y.es|), policyId, targetHash, m);
    ExecutionsAreCounted(y, which, policyId, Some(targetHash), from, m);
  }

  /** Every run of the policy was asked for on the grant's path, and its gates found policy and grant so. */
  predicate ThroughGrant(y: Story, g: Grant, p: Header) {
    forall n | 0 <= n < |y.es| && RunsAt(y, n) && CallAt(y, n).request.policyId == p.id ::
      FoundGrant(y.s, CallAt(y, n), g, p)
  }

  predicate FoundGrant(s: Setting, caller: Call, g: Grant, p: Header) {
    && |caller.seen| == 12
    && ModeOf(s, caller.request) == PREAUTHORIZED
    && p.id in caller.seen[0].policies && caller.seen[0].policies[p.id].header == p
    && p.id in caller.seen[10].grants && caller.seen[10].grants[p.id] == g
  }

  lemma HoldsGrant(s: Setting, caller: Call, g: Grant, p: Header)
    requires FoundGrant(s, caller, g, p) && caller.request.policyId == p.id
    requires Authorised(s, caller.seen, caller.request)
    ensures Authorizes(
      s.texts, g, p, caller.request.expectedVersion, UseOf(caller.request), caller.seen[10].runs, caller.seen[10].now)
  {
    GrantGateHeld(s, caller.seen, caller.request, caller.seen[0].policies[p.id]);
  }

  lemma GrantedRow(y: Story, g: Grant, p: Header, k: nat)
    requires Fed(y.s, y.stamps, y.start, y.es) && Stamped(y) && ThroughGrant(y, g, p)
    requires k < |Rows(y, |y.es|)| && Counts(Rows(y, |y.es|)[k].run, p.id, None)
    ensures
      var h := Rows(y, |y.es|);
      h[k].grant.sees <= k && h[k].grant.at <= h[k].run.createdAt && GrantedAt(y.s.texts, g, p, h, h[k])
  {
    var h := Rows(y, |y.es|);
    var n := CommitOf(y, |y.es|, k);
    var caller := CallAt(y, n);
    RunOfEntry(y.s, y.stamps, y.es[n].caller, caller, !RunsAt(y, n));
    CommittedRun(y, n);
    HoldsGrant(y.s, caller, g, p);
    ReadRows(y, n, y.es[n].caller);
    RowsGrow(y, n, |y.es|);
    FirstRuns(h, Rows(y, n), caller.seen[10].runs);
  }

  /** Runs that were read from earlier rows are the first runs of all later ones. */
  lemma FirstRuns(h: seq<Entry>, rows: seq<Entry>, runs: seq<Run>)
    requires rows <= h && runs <= RunsOf(rows)
    ensures |runs| <= |h| && RunsOf(h)[..|runs|] == runs
  {
    assert forall i | 0 <= i < |rows| :: h[i] == rows[i];
  }

  lemma ReadRows(y: Story, n: nat, c: nat)
    requires Fed(y.s, y.stamps, y.start, y.es) && n <= |y.es| && c in Before(y, n).callers
    ensures ReadFrom(Rows(y, n), Before(y, n).callers[c].seen)
  {
    forall m | 0 <= m < n ensures FedAt(y.s, y.stamps, y.start, y.es[..n], m) {
      assert FedAt(y.s, y.stamps, y.start, y.es, m);
      assert y.es[..n][..m] == y.es[..m];
    }
    ReadsStay(y.s, y.stamps, y.start, y.es[..n]);
  }

  lemma GrantedRuns(y: Story, g: Grant, p: Header)
    requires Fed(y.s, y.stamps, y.start, y.es) && Stamped(y) && ThroughGrant(y, g, p)
    ensures GrantedThroughout(y.s.texts, g, p, Rows(y, |y.es|))
  {
    var h := Rows(y, |y.es|);
    forall k | 0 <= k < |h| && Counts(h[k].run, p.id, None)
      ensures h[k].grant.sees <= k && h[k].grant.at <= h[k].run.createdAt && GrantedAt(y.s.texts, g, p, h, h[k])
    {
      GrantedRow(y, g, p, k);
    }
  }

  /** And at most as many of one policy as its grant allows, while all of them go through that grant. */
  lemma TurnsKeepGrantCap(y: Story, which: set<nat>, g: Grant, p: Header, from: Time)
    requires Fed(y.s, y.stamps, y.start, y.es) && TakesTurns(y) && Stamped(y)
    requires ThroughGrant(y, g, p) && g.bounds.maxPerHour >= 0
    requires ExecutedWithin(y, which, p.id, None, from)
    ensures |which| <= g.bounds.maxPerHour
  {
    GrantedRuns(y, g, p);
    TurnsAreKept(y);
    StampsAreOrdered(y);
    GrantCapIsKept(y.s.texts, g, p, Rows(y, |y.es|));
    ExecutionsAreCounted(y, which, p.id, None, from, g.bounds.maxPerHour);
  }

  /** The event with which a call committed its row. */
  lemma {:induction false} CommitBy(y: Story, b: nat, c: nat) returns (n: nat)
    requires b <= |y.es| && c in Before(y, b).callers && HasRunIn(Before(y, b), c)
    ensures n < b && RunsAt(y, n) && y.es[n].caller == c
    ensures CallAt(y, n).request == Before(y, b).callers[c].request && CallAt(y, n).seen == Before(y, b).callers[c].seen
  {
    CallsNeedEvents(y, b, c);
    OneStep(y, b - 1);
    InvAlways(GateJudge(y.s), y.start, y.es[..b - 1]);
    StepLogs(y.s, Before(y, b - 1), y.es[b - 1], c);
    if HasRunIn(Before(y, b - 1), c) {
      n := CommitBy(y, b - 1, c);
    } else {
      n := b - 1;
    }
  }

  /** The row of an execution, by its place in the history. */
  lemma RowOfExecution(y: Story, i: nat) returns (n: nat)
    requires i < |Before(y, |y.es|).effects|
    ensures Executor(y, i) in Before(y, |y.es|).callers
    ensures RunsAt(y, n) && y.es[n].caller == Executor(y, i) && |Rows(y, n)| < |Rows(y, |y.es|)|
    ensures
      var caller := Before(y, |y.es|).callers[Executor(y, i)];
      Rows(y, |y.es|)[|Rows(y, n)|] == EntryFor(y.s, y.stamps, Executor(y, i), caller, false)
  {
    ExecutorsRan(y, i);
    n := CommitBy(y, |y.es|, Executor(y, i));
    OneStep(y, n);
    RowsGrow(y, n + 1, |y.es|);
    SameEntry(y.s, y.stamps, Executor(y, i), CallAt(y, n), Before(y, |y.es|).callers[Executor(y, i)]);
  }

  /** The rule that the cap gate of an execution looked at. */
  function RuleOf(y: Story, i: nat): Option<Rule>
    requires i < |Before(y, |y.es|).effects| && Executor(y, i) in Before(y, |y.es|).callers
  {
    EntryFor(y.s, y.stamps, Executor(y, i), Before(y, |y.es|).callers[Executor(y, i)], false).rule
  }

  predicate CooldownAtLeast(rule: Option<Rule>, d: int) { HasCooldown(rule) && rule.value.cooldownSeconds.value >= d }

  /** Two executions of one policy and target never come within the shorter cooldown of their rules. */
  lemma TurnsKeepCooldown(y: Story, i: nat, k: nat, d: nat)
    requires Fed(y.s, y.stamps, y.start, y.es) && TakesTurns(y) && Stamped(y)
    requires i < |Before(y, |y.es|).effects| && k < |Before(y, |y.es|).effects| && i != k
    requires Executor(y, i) in Before(y, |y.es|).callers && Executor(y, k) in Before(y, |y.es|).callers
    requires SameKey(RunFor(y, |y.es|, Executor(y, i)), RunFor(y, |y.es|, Executor(y, k)))
    requires CooldownAtLeast(RuleOf(y, i), d) && CooldownAtLeast(RuleOf(y, k), d)
    ensures
      var gap := y.stamps(Executor(y, k)) - y.stamps(Executor(y, i));
      gap > d * SECOND || -gap > d * SECOND
  {
    var a := RowOfExecution(y, i);
    var b := RowOfExecution(y, k);
    ExecutorsRan(y, i);
    WholeStory(y);
    TurnsAreKept(y);
    StampsAreOrdered(y);
    if a < b {
      DistinctRows(y, a, b);
      RowsKeepCooldown(y, |Rows(y, a)|, |Rows(y, b)|, i, k, d);
    } else {
      DistinctRows(y, b, a);
      RowsKeepCooldown(y, |Rows(y, b)|, |Rows(y, a)|, k, i, d);
    }
  }

  lemma DistinctRows(y: Story, a: nat, b: nat)
    requires CommitsAt(y, a) && a < b <= |y.es|
    ensures |Rows(y, a)| < |Rows(y, b)|
  {
    OneStep(y, a);
    RowsGrow(y, a + 1, b);
  }

  ghost predicate RowIs(y: Story, j: nat, i: nat)
    requires i < |Before(y, |y.es|).effects| && Executor(y, i) in Before(y, |y.es|).callers
  {
    && j < |Rows(y, |y.es|)|
    && Rows(y, |y.es|)[j] ==
       EntryFor(y.s, y.stamps, Executor(y, i), Before(y, |y.es|).callers[Executor(y, i)], false)
  }

  lemma RowsKeepCooldown(y: Story, j: nat, l: nat, i: nat, k: nat, d: nat)
    requires
      var h := Rows(y, |y.es|);
      Honest(h) && Timely(h) && CapsInTurn(h)
    requires i < |Before(y, |y.es|).effects| && k < |Before(y, |y.es|).effects|
    requires Executor(y, i) in Before(y, |y.es|).callers && Executor(y, k) in Before(y, |y.es|).callers
    requires RowIs(y, j, i) && RowIs(y, l, k) && j < l
    requires SameKey(RunFor(y, |y.es|, Executor(y, i)), RunFor(y, |y.es|, Executor(y, k)))
    requires CooldownAtLeast(RuleOf(y, k), d)
    ensures y.stamps(Executor(y, k)) - y.stamps(Executor(y, i)) > d * SECOND
  {
    var st := Before(y, |y.es|);
    RunOfEntry(y.s, y.stamps, Executor(y, i), st.callers[Executor(y, i)], false);
    RunOfEntry(y.s, y.stamps, Executor(y, k), st.callers[Executor(y, k)], false);
    CooldownIsKept(Rows(y, |y.es|), j, l);
  }
}
