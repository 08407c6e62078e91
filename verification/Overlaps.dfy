/** Calls that overlap: all are checked before any of their rows is there, and all execute. */
module Overlaps {
  import opened Wrappers
  import opened Policies
  import opened Runs
  import opened Gates
  import opened Caps
  import opened Envelope
  import opened EnvelopeLaws
  import opened EnvelopeAuthority
  import opened CapRuns

  /**
    * Overlapping calls, numbered from `base` on, with execution ids and requests of their own.
    * They come in where a run from `start` has led to the state `before` and the rows `log`.
    */
  datatype Wave = Wave(
    s: Setting,
    stamps: Stamps,
    start: World,
    before: Machine,
    log: seq<Entry>,
    base: nat,
    execs: seq<ExecId>,
    qs: seq<EnvelopeRequest>)

  /** Numbers and execution ids are new, and the tables show the rows that are there. */
  ghost predicate Distinct(f: Wave) {
    && |f.execs| == |f.qs|
    && (forall i, k | 0 <= i < k < |f.execs| :: f.execs[i] != f.execs[k])
    && (forall i | 0 <= i < |f.execs| :: RecordsOf(f.before.db, f.execs[i]) == NO_RECORDS)
    && (forall c: nat | c in f.before.callers :: c < f.base)
    && f.before.world.runs == RunsOf(f.log)
    && FiledUnderOwnId(f.before.world)
  }

  /** Each of the requests is authorised by itself, without the others' rows. */
  ghost predicate AllAuthorised(f: Wave) {
    Distinct(f) && forall i | 0 <= i < |f.qs| :: Authorised(f.s, Met(f), f.qs[i])
  }

  type CallJudge = Judge<EnvelopeRequest, World>

  /** The worlds that all gates of these calls meet. */
  function Met(f: Wave): Moments { seq(12, _ => f.before.world) }

  /** Call i once its gates have passed and its row is flushed. */
  function Waiting(f: Wave, i: nat): Call
    requires i < |f.execs| == |f.qs|
  {
    Caller(f.execs[i], f.qs[i], false, Met(f), false, Preparing(Committing))
  }

  /** Where the wave begins. */
  ghost predicate Reached(f: Wave, es: seq<Happening>) {
    Quiet(f, es) && Played(f.s, f.start, es) == f.before
  }

  /** A fed run in which no row of the wave is committed yet. */
  ghost predicate Quiet(f: Wave, es: seq<Happening>) {
    Fed(f.s, f.stamps, f.start, es) && Log(f.s, f.stamps, f.start, es) == f.log
  }

  /** Rows of other calls are as they were. */
  ghost predicate OthersStay(f: Wave, st: Machine) {
    forall exec | exec !in f.execs :: RecordsOf(st.db, exec) == RecordsOf(f.before.db, exec)
  }

  /** The calls of the wave from `from` up to `to` wait, and none after `present` has come in. */
  ghost predicate AllWait(f: Wave, st: Machine, from: nat, to: nat, present: nat)
    requires to <= |f.execs| == |f.qs|
  {
    && (forall c: nat | c in st.callers :: c < f.base + present)
    && (forall c: nat | f.base + from <= c < f.base + to ::
      c in st.callers && st.callers[c] == Waiting(f, c - f.base))
    && (forall i: nat | from <= i < |f.execs| :: RecordsOf(st.db, f.execs[i]) == NO_RECORDS)
    && OthersStay(f, st)
    && st.world == f.before.world
  }

  // ----- Everybody passes the gates -----

  /** The first `k` calls wait for their commit; no row of the wave is there yet. */
  ghost predicate Gathered(f: Wave, st: Machine, k: nat)
    requires k <= |f.execs| == |f.qs|
  {
    AllWait(f, st, 0, k, k) && st.effects == f.before.effects
  }

  /** And one more call is on its way through the gates. */
  ghost predicate Joining(f: Wave, st: Machine, k: nat, caller: Call)
    requires k < |f.execs| == |f.qs|
  {
    && AllWait(f, st, 0, k, k + 1)
    && f.base + k in st.callers && st.callers[f.base + k] == caller && caller.exec == f.execs[k]
    && st.effects == f.before.effects
  }

  lemma JoinMoves(f: Wave, j: CallJudge, st: Machine, k: nat, caller: Call, choice: Choice, next: Call)
    requires |f.execs| == |f.qs| && k < |f.execs| && Joining(f, st, k, caller) && next.exec == f.execs[k]
    requires Act(j, f.before.world, f.base + k, caller, NO_RECORDS, choice) == Outcome(next, NO_RECORDS, false)
    ensures Joining(f, Next(j, st, Move(f.base + k, choice)), k, next)
  {
    var after := Next(j, st, Move(f.base + k, choice));
    forall exec ensures RecordsOf(after.db, exec) == RecordsOf(st.db, exec) {
    }
  }

  /** The tables show every gate the rows that are there. */
  lemma TruthfulTables(f: Wave, gate: Option<nat>)
    requires Distinct(f)
    ensures ShowsTables(f.before.world, f.log, gate)
  {
  }

  lemma QuietStep(f: Wave, es: seq<Happening>, e: Happening)
    requires Distinct(f) && Quiet(f, es) && Played(f.s, f.start, es).world == f.before.world
    requires !CommitsRow(f.s, Played(f.s, f.start, es), e)
    ensures Quiet(f, es + [e])
  {
    TruthfulTables(f, GateAsked(Played(f.s, f.start, es), e));
    OneMoreHappening(f.s, f.stamps, f.start, es, e);
    FedGrows(f.s, f.stamps, f.start, es, e);
  }

  lemma JoinStep(f: Wave, es: seq<Happening>, k: nat, caller: Call, choice: Choice, next: Call)
    returns (es': seq<Happening>)
    requires Distinct(f) && k < |f.execs| && Quiet(f, es) && Joining(f, Played(f.s, f.start, es), k, caller)
    requires next.exec == f.execs[k]
    requires Act(GateJudge(f.s), f.before.world, f.base + k, caller, NO_RECORDS, choice) ==
      Outcome(next, NO_RECORDS, false)
    ensures Quiet(f, es') && Joining(f, Played(f.s, f.start, es'), k, next)
  {
    var e: Happening := Move(f.base + k, choice);
    es' := es + [e];
    JoinMoves(f, GateJudge(f.s), Played(f.s, f.start, es), k, caller, choice, next);
    OneMoreHappening(f.s, f.stamps, f.start, es, e);
    QuietStep(f, es, e);
  }

  /** A call that has just come in. */
  function Incoming(f: Wave, k: nat): Call
    requires k < |f.execs| == |f.qs|
  {
    Caller(f.execs[k], f.qs[k], false, [], false, Preparing(Arrived))
  }

  lemma ComesIn(f: Wave, j: CallJudge, st: Machine, k: nat)
    requires |f.execs| == |f.qs| && k < |f.execs| && Gathered(f, st, k)
    ensures Joining(f, Next(j, st, Arrive(f.base + k, f.execs[k], f.qs[k], false)), k, Incoming(f, k))
  {
    assert f.base + k !in st.callers;
  }

  lemma Arrival(f: Wave, es: seq<Happening>, k: nat) returns (es': seq<Happening>)
    requires Distinct(f) && k < |f.execs| && Quiet(f, es) && Gathered(f, Played(f.s, f.start, es), k)
    ensures Quiet(f, es') && Joining(f, Played(f.s, f.start, es'), k, Incoming(f, k))
  {
    var e: Happening := Arrive(f.base + k, f.execs[k], f.qs[k], false);
    es' := es + [e];
    ComesIn(f, GateJudge(f.s), Played(f.s, f.start, es), k);
    OneMoreHappening(f.s, f.stamps, f.start, es, e);
    QuietStep(f, es, e);
  }

  /** The call between gates n - 1 and n. */
  function AtGate(f: Wave, k: nat, n: nat): Call
    requires k < |f.execs| == |f.qs| && n <= 12
  {
    Caller(f.execs[k], f.qs[k], false, Met(f)[..n], false, Preparing(if n == 12 then Inserting else Gating))
  }

  lemma AsksGate(f: Wave, k: nat, n: nat)
    requires AllAuthorised(f) && k < |f.execs| && n < 12
    ensures Act(GateJudge(f.s), f.before.world, f.base + k, AtGate(f, k, n), NO_RECORDS, Choice(true, false)) ==
      Outcome(AtGate(f, k, n + 1), NO_RECORDS, false)
  {
    HasPassedExactly(f.s, Met(f), f.qs[k]);
    assert GateHeld(GateJudge(f.s), f.qs[k], Met(f), n);
    assert Met(f)[..n] + [f.before.world] == Met(f)[..n + 1];
  }

  lemma {:induction false} PassesGates(f: Wave, es: seq<Happening>, k: nat, n: nat) returns (es': seq<Happening>)
    requires AllAuthorised(f) && k < |f.execs| && n <= 12
    requires Quiet(f, es) && Joining(f, Played(f.s, f.start, es), k, AtGate(f, k, 0))
    ensures Quiet(f, es') && Joining(f, Played(f.s, f.start, es'), k, AtGate(f, k, n))
  {
    if n == 0 {
      es' := es;
    } else {
      es' := PassesGates(f, es, k, n - 1);
      AsksGate(f, k, n - 1);
      es' := JoinStep(f, es', k, AtGate(f, k, n - 1), Choice(true, false), AtGate(f, k, n));
    }
  }

  lemma NobodyYet(f: Wave, first: seq<Happening>)
    requires Distinct(f) && Reached(f, first)
    ensures Quiet(f, first) && Gathered(f, Played(f.s, f.start, first), 0)
  {
  }

  lemma {:induction false} Gathers(f: Wave, first: seq<Happening>, k: nat) returns (es: seq<Happening>)
    requires AllAuthorised(f) && Reached(f, first) && k <= |f.execs|
    ensures Quiet(f, es) && Gathered(f, Played(f.s, f.start, es), k)
  {
    if k == 0 {
      es := first;
      NobodyYet(f, first);
    } else {
      var shorter := Gathers(f, first, k - 1);
      es := Joins(f, shorter, k - 1);
    }
  }

  /** One more call comes in, passes its gates and flushes its row. */
  lemma Joins(f: Wave, es: seq<Happening>, k: nat) returns (es': seq<Happening>)
    requires AllAuthorised(f) && k < |f.execs| && Quiet(f, es) && Gathered(f, Played(f.s, f.start, es), k)
    ensures Quiet(f, es') && Gathered(f, Played(f.s, f.start, es'), k + 1)
  {
    es' := Arrival(f, es, k);
    EntersGates(f, k);
    es' := JoinStep(f, es', k, Incoming(f, k), Choice(true, false), AtGate(f, k, 0));
    es' := PassesGates(f, es', k, 12);
    LeavesGates(f, k);
    es' := JoinStep(f, es', k, AtGate(f, k, 12), Choice(true, false), Waiting(f, k));
    JoinedIsGathered(f, Played(f.s, f.start, es'), k);
  }

  lemma EntersGates(f: Wave, k: nat)
    requires AllAuthorised(f) && k < |f.execs|
    ensures Act(GateJudge(f.s), f.before.world, f.base + k, Incoming(f, k), NO_RECORDS, Choice(true, false)) ==
      Outcome(AtGate(f, k, 0), NO_RECORDS, false)
  {
    assert Authorised(f.s, Met(f), f.qs[k]);
  }

  lemma LeavesGates(f: Wave, k: nat)
    requires |f.execs| == |f.qs| && k < |f.execs|
    ensures Act(GateJudge(f.s), f.before.world, f.base + k, AtGate(f, k, 12), NO_RECORDS, Choice(true, false)) ==
      Outcome(Waiting(f, k), NO_RECORDS, false)
  {
    assert Met(f)[..12] == Met(f);
  }

  lemma JoinedIsGathered(f: Wave, st: Machine, k: nat)
    requires |f.execs| == |f.qs| && k < |f.execs| && Joining(f, st, k, Waiting(f, k))
    ensures Gathered(f, st, k + 1)
  {
  }

  // ----- Everybody executes -----

  function Entries(f: Wave, k: nat): (es: seq<Entry>)
    requires k <= |f.execs| == |f.qs|
    ensures |es| == k && forall i | 0 <= i < k :: es[i] == EntryOfCall(f, i)
  {
    seq(k, i requires 0 <= i < k => EntryOfCall(f, i))
  }

  function EntryOfCall(f: Wave, i: nat): Entry
    requires i < |f.execs| == |f.qs|
  {
    EntryFor(f.s, f.stamps, f.base + i, Waiting(f, i), false)
  }

  function Effects(f: Wave, k: nat): seq<Effect>
    requires k <= |f.execs|
  {
    seq(k, i requires 0 <= i < k => Effect(f.execs[i], f.base + i))
  }

  /** The first `k` calls have run their actions, the others wait. */
  ghost predicate Running(f: Wave, st: Machine, k: nat)
    requires k <= |f.execs| == |f.qs|
  {
    AllWait(f, st, k, |f.execs|, |f.execs|) && st.effects == f.before.effects + Effects(f, k)
  }

  /** In between: call k owns its row, the later ones wait. */
  ghost predicate InFlight(f: Wave, st: Machine, k: nat, stage: Stage)
    requires k < |f.execs| == |f.qs|
  {
    && AllWait(f, st, k + 1, |f.execs|, |f.execs|)
    && f.base + k in st.callers
    && st.callers[f.base + k] == Waiting(f, k).(pc := Owning(stage))
    && RecordsOf(st.db, f.execs[k]).row.Some?
    && st.effects == f.before.effects + Effects(f, k)
  }

  /** What a step of call k changes, and that it leaves the waiting calls alone. */
  lemma OwnStep(f: Wave, j: CallJudge, st: Machine, k: nat, from: nat, choice: Choice)
    requires Distinct(f) && k < |f.execs| && k <= from <= k + 1 && AllWait(f, st, from, |f.execs|, |f.execs|)
    requires f.base + k in st.callers && st.callers[f.base + k].exec == f.execs[k]
    ensures
      var o := Act(j, st.world, f.base + k, st.callers[f.base + k], RecordsOf(st.db, f.execs[k]), choice);
      var next := Next(j, st, Move(f.base + k, choice));
      && AllWait(f, next, k + 1, |f.execs|, |f.execs|)
      && f.base + k in next.callers && next.callers[f.base + k] == o.caller
      && RecordsOf(next.db, f.execs[k]) == o.records
      && next.effects == (if o.acts then st.effects + [Effect(f.execs[k], f.base + k)] else st.effects)
  {
  }

  lemma RowGoesIn(f: Wave, j: CallJudge, st: Machine, k: nat)
    requires Distinct(f) && k < |f.execs| && Running(f, st, k)
    ensures
      var next := Next(j, st, Move(f.base + k, Choice(true, false)));
      && InFlight(f, next, k, Snapshotting)
      && RecordsOf(next.db, f.execs[k]).row.value.status == Executing
  {
    assert st.callers[f.base + k] == Waiting(f, k);
    OwnStep(f, j, st, k, k, Choice(true, false));
  }

  lemma SnapshotSkipped(f: Wave, j: CallJudge, st: Machine, k: nat)
    requires Distinct(f) && k < |f.execs| && InFlight(f, st, k, Snapshotting)
    ensures InFlight(f, Next(j, st, Move(f.base + k, Choice(true, false))), k, Stage.Ready)
  {
    OwnStep(f, j, st, k, k + 1, Choice(true, false));
  }

  lemma ActionRuns(f: Wave, j: CallJudge, st: Machine, k: nat)
    requires Distinct(f) && k < |f.execs| && InFlight(f, st, k, Stage.Ready)
    ensures Running(f, Next(j, st, Move(f.base + k, Choice(true, true))), k + 1)
  {
    OwnStep(f, j, st, k, k + 1, Choice(true, true));
    OneMoreEffect(f, k);
  }

  lemma OneMoreEffect(f: Wave, k: nat)
    requires k < |f.execs|
    ensures f.before.effects + Effects(f, k) + [Effect(f.execs[k], f.base + k)] ==
      f.before.effects + Effects(f, k + 1)
  {
  }

  /** A call in flight neither asks a gate nor commits a new row. */
  lemma FlightIsQuiet(f: Wave, st: Machine, k: nat, stage: Stage, choice: Choice)
    requires k < |f.execs| == |f.qs| && InFlight(f, st, k, stage)
    ensures GateAsked(st, Move(f.base + k, choice)).None? && !CommitsRow(f.s, st, Move(f.base + k, choice))
  {
  }

  /** A fed run with the entries of the first `k` calls. */
  ghost predicate Logged(f: Wave, es: seq<Happening>, k: nat)
    requires k <= |f.execs| == |f.qs|
  {
    Fed(f.s, f.stamps, f.start, es) && Log(f.s, f.stamps, f.start, es) == f.log + Entries(f, k)
  }

  lemma CommitIsLogged(f: Wave, es: seq<Happening>, k: nat) returns (es': seq<Happening>)
    requires Distinct(f) && k < |f.execs| && Logged(f, es, k) && Running(f, Played(f.s, f.start, es), k)
    ensures Logged(f, es', k + 1) && InFlight(f, Played(f.s, f.start, es'), k, Snapshotting)
  {
    var e: Happening := Move(f.base + k, Choice(true, false));
    es' := es + [e];
    RowGoesIn(f, GateJudge(f.s), Played(f.s, f.start, es), k);
    LogGains(f, es, e, k);
    OneMoreHappening(f.s, f.stamps, f.start, es, e);
  }

  lemma LogGains(f: Wave, es: seq<Happening>, e: Happening, k: nat)
    requires |f.execs| == |f.qs| && k < |f.execs| && Logged(f, es, k)
    requires CommitsRun(f.s, Played(f.s, f.start, es), e) && e.caller == f.base + k
    requires Played(f.s, f.start, es).callers[e.caller] == Waiting(f, k)
    ensures Logged(f, es + [e], k + 1)
  {
    var caller, log := Waiting(f, k), Log(f.s, f.stamps, f.start, es);
    assert caller.pc == Preparing(Committing);
    CommitAppends(f.s, f.stamps, f.start, es, e, caller);
    LongerLog(f, log, k, e.caller);
  }

  /** A commit that is not a block appends the entry of its call. */
  lemma CommitAppends(s: Setting, stamps: Stamps, start: World, es: seq<Happening>, e: Happening, caller: Call)
    requires Fed(s, stamps, start, es) && caller.pc != Preparing(Gating)
    requires CommitsRun(s, Played(s, start, es), e) && Played(s, start, es).callers[e.caller] == caller
    ensures Fed(s, stamps, start, es + [e])
    ensures Log(s, stamps, start, es + [e]) ==
      Log(s, stamps, start, es) + [EntryFor(s, stamps, e.caller, caller, false)]
  {
    OneMoreHappening(s, stamps, start, es, e);
    FedGrows(s, stamps, start, es, e);
  }

  lemma LongerLog(f: Wave, log: seq<Entry>, k: nat, c: nat)
    requires |f.execs| == |f.qs| && k < |f.execs| && log == f.log + Entries(f, k) && c == f.base + k
    ensures log + [EntryFor(f.s, f.stamps, c, Waiting(f, k), false)] == f.log + Entries(f, k + 1)
  {
    OneMoreEntry(f, k);
    Regroup(f.log, Entries(f, k), [EntryOfCall(f, k)]);
  }

  lemma Regroup(a: seq<Entry>, b: seq<Entry>, c: seq<Entry>)
    ensures a + b + c == a + (b + c)
  {
  }

  lemma OneMoreEntry(f: Wave, k: nat)
    requires |f.execs| == |f.qs| && k < |f.execs|
    ensures Entries(f, k + 1) == Entries(f, k) + [EntryOfCall(f, k)]
  {
    LongerByOne(Entries(f, k + 1), Entries(f, k), EntryOfCall(f, k));
  }

  lemma LongerByOne(longer: seq<Entry>, shorter: seq<Entry>, last: Entry)
    requires |longer| == |shorter| + 1 && longer[|shorter|] == last
    requires forall i | 0 <= i < |shorter| :: longer[i] == shorter[i]
    ensures longer == shorter + [last]
  {
  }

  lemma FedWithoutGate(f: Wave, es: seq<Happening>, e: Happening)
    requires Fed(f.s, f.stamps, f.start, es) && GateAsked(Played(f.s, f.start, es), e).None?
    ensures Fed(f.s, f.stamps, f.start, es + [e])
  {
    FedGrows(f.s, f.stamps, f.start, es, e);
  }

  /** A step that is neither a gate nor the commit of a row. */
  lemma LogStays(f: Wave, es: seq<Happening>, e: Happening, k: nat)
    requires k <= |f.execs| == |f.qs| && Logged(f, es, k)
    requires GateAsked(Played(f.s, f.start, es), e).None? && !CommitsRow(f.s, Played(f.s, f.start, es), e)
    ensures Logged(f, es + [e], k)
  {
    OneMoreHappening(f.s, f.stamps, f.start, es, e);
    FedWithoutGate(f, es, e);
  }

  lemma CallRuns(f: Wave, es: seq<Happening>, k: nat) returns (es': seq<Happening>)
    requires Distinct(f) && k < |f.execs| && Logged(f, es, k) && Running(f, Played(f.s, f.start, es), k)
    ensures Logged(f, es', k + 1) && Running(f, Played(f.s, f.start, es'), k + 1)
  {
    es' := CommitIsLogged(f, es, k);
    es' := SnapshotIsSkipped(f, es', k);
    es' := ActionIsRun(f, es', k);
  }

  lemma ActionIsRun(f: Wave, es: seq<Happening>, k: nat) returns (es': seq<Happening>)
    requires Distinct(f) && k < |f.execs| && Logged(f, es, k + 1)
    requires InFlight(f, Played(f.s, f.start, es), k, Stage.Ready)
    ensures Logged(f, es', k + 1) && Running(f, Played(f.s, f.start, es'), k + 1)
  {
    var act: Happening := Move(f.base + k, Choice(true, true));
    ActionRuns(f, GateJudge(f.s), Played(f.s, f.start, es), k);
    FlightIsQuiet(f, Played(f.s, f.start, es), k, Stage.Ready, act.choice);
    LogStays(f, es, act, k + 1);
    OneMoreHappening(f.s, f.stamps, f.start, es, act);
    es' := es + [act];
  }

  lemma SnapshotIsSkipped(f: Wave, es: seq<Happening>, k: nat) returns (es': seq<Happening>)
    requires Distinct(f) && k < |f.execs| && Logged(f, es, k + 1)
    requires InFlight(f, Played(f.s, f.start, es), k, Snapshotting)
    ensures Logged(f, es', k + 1) && InFlight(f, Played(f.s, f.start, es'), k, Stage.Ready)
  {
    var skip: Happening := Move(f.base + k, Choice(true, false));
    SnapshotSkipped(f, GateJudge(f.s), Played(f.s, f.start, es), k);
    FlightIsQuiet(f, Played(f.s, f.start, es), k, Snapshotting, skip.choice);
    LogStays(f, es, skip, k + 1);
    OneMoreHappening(f.s, f.stamps, f.start, es, skip);
    es' := es + [skip];
  }

  lemma {:induction false} AllRun(f: Wave, first: seq<Happening>, k: nat) returns (es: seq<Happening>)
    requires AllAuthorised(f) && Reached(f, first) && k <= |f.execs|
    ensures Logged(f, es, k) && Running(f, Played(f.s, f.start, es), k)
  {
    if k == 0 {
      es := Gathers(f, first, |f.execs|);
      assert Entries(f, 0) == [] && Effects(f, 0) == [];
      assert f.log + Entries(f, 0) == f.log && f.before.effects + Effects(f, 0) == f.before.effects;
    } else {
      es := AllRun(f, first, k - 1);
      es := CallRuns(f, es, k - 1);
    }
  }

  /**
    * Wherever a fed run has led, any number of requests, each authorised by itself, can all
    * be executed after it while the gates read the tables that the run writes: each of them
    * sees the rows that were there before, and none sees another's.
    */
  lemma OverlappingCallsAllExecute(f: Wave, first: seq<Happening>) returns (es: seq<Happening>)
    requires AllAuthorised(f) && Reached(f, first)
    ensures Fed(f.s, f.stamps, f.start, es)
    ensures Played(f.s, f.start, es).effects == f.before.effects + Effects(f, |f.execs|)
    ensures Log(f.s, f.stamps, f.start, es) == f.log + Entries(f, |f.execs|)
    ensures forall k | 0 <= k < |f.execs| :: Entries(f, |f.execs|)[k].cap.sees == |f.log|
    ensures AllWait(f, Played(f.s, f.start, es), |f.execs|, |f.execs|, |f.execs|)
  {
    es := AllRun(f, first, |f.execs|);
    forall k | 0 <= k < |f.execs| ensures Entries(f, |f.execs|)[k].cap.sees == |f.log| {
      AuthorisedLoadsPolicy(f.s, Met(f), f.qs[k]);
    }
  }

  // ----- And the caps break -----

  /** All requests are about one policy and target. */
  ghost predicate OneKey(f: Wave, policyId: string, targetHash: string)
    requires |f.execs| == |f.qs|
  {
    forall i | 0 <= i < |f.qs| :: f.qs[i].policyId == policyId && f.s.targetHash(f.qs[i].target) == targetHash
  }

  /** The calls' rows are stamped within one hour. */
  predicate StampedWithin(f: Wave, from: Time) {
    forall c: nat | f.base <= c < f.base + |f.execs| :: from <= f.stamps(c) <= from + HOUR
  }

  lemma OneKeyEntries(f: Wave, policyId: string, targetHash: string, k: nat)
    requires |f.execs| == |f.qs| && OneKey(f, policyId, targetHash) && k < |f.execs|
    ensures Entries(f, |f.execs|)[k].run == Run(policyId, targetHash, f.stamps(f.base + k), false)
  {
    RunOfEntry(f.s, f.stamps, f.base + k, Waiting(f, k), false);
    assert Entries(f, |f.execs|)[k] == EntryOfCall(f, k);
  }

  lemma SecondIsTooClose(f: Wave, policyId: string, targetHash: string)
    requires |f.execs| == |f.qs| == 2 && OneKey(f, policyId, targetHash)
    requires
      var rule := Entries(f, 2)[1].rule;
      HasCooldown(rule) && f.stamps(f.base + 1) - f.stamps(f.base) <= rule.value.cooldownSeconds.value * SECOND
    ensures TooClose(f.log + Entries(f, 2), |f.log|, |f.log| + 1)
  {
    OneKeyEntries(f, policyId, targetHash, 0);
    OneKeyEntries(f, policyId, targetHash, 1);
    LastTwoTooClose(f.log, Entries(f, 2));
  }

  lemma LastTwoTooClose(log: seq<Entry>, entries: seq<Entry>)
    requires |entries| == 2 && HasCooldown(entries[1].rule) && TooClose(entries, 0, 1)
    ensures TooClose(log + entries, |log|, |log| + 1)
  {
    assert (log + entries)[|log|] == entries[0] && (log + entries)[|log| + 1] == entries[1];
  }

  /** Two calls of one key both execute within the cooldown of the second one's rule, whatever it is. */
  lemma OverlapBreaksCooldown(f: Wave, first: seq<Happening>, policyId: string, targetHash: string)
    returns (es: seq<Happening>)
    requires AllAuthorised(f) && Reached(f, first) && |f.execs| == 2 && OneKey(f, policyId, targetHash)
    requires
      var rule := Entries(f, 2)[1].rule;
      HasCooldown(rule) && f.stamps(f.base + 1) - f.stamps(f.base) <= rule.value.cooldownSeconds.value * SECOND
    ensures Fed(f.s, f.stamps, f.start, es)
    ensures |Played(f.s, f.start, es).effects| == |f.before.effects| + 2
    ensures Log(f.s, f.stamps, f.start, es) == f.log + Entries(f, 2)
    ensures TooClose(f.log + Entries(f, 2), |f.log|, |f.log| + 1)
  {
    es := OverlappingCallsAllExecute(f, first);
    SecondIsTooClose(f, policyId, targetHash);
  }

  /** Where every run counts, the count is their number. */
  lemma {:induction false} AllCounted(runs: seq<Run>, policyId: string, target: Option<string>, from: Time, to: Time)
    requires forall i | 0 <= i < |runs| :: Counts(runs[i], policyId, target) && from <= runs[i].createdAt <= to
    ensures InWindow(runs, policyId, target, from, to) == |runs|
  {
    if runs != [] {
      AllCounted(runs[..|runs| - 1], policyId, target, from, to);
    }
  }

  /** Runs that all count fill the hour beside whatever was there before. */
  lemma MoreInHour(log: seq<Entry>, entries: seq<Entry>, policyId: string, targetHash: string, from: Time)
    requires forall k | 0 <= k < |entries| ::
      Counts(entries[k].run, policyId, Some(targetHash)) && from <= entries[k].run.createdAt <= from + HOUR
    ensures InHourFrom(RunsOf(log + entries), policyId, Some(targetHash), from) >= |entries|
  {
    AllCounted(RunsOf(entries), policyId, Some(targetHash), from, from + HOUR);
    assert RunsOf(log + entries) == RunsOf(log) + RunsOf(entries);
    WindowSplits(RunsOf(log), RunsOf(entries), policyId, Some(targetHash), from, from + HOUR);
  }

  lemma EntriesFillHour(f: Wave, policyId: string, targetHash: string, from: Time)
    requires |f.execs| == |f.qs| && OneKey(f, policyId, targetHash) && StampedWithin(f, from)
    ensures InHourFrom(RunsOf(f.log + Entries(f, |f.execs|)), policyId, Some(targetHash), from) >= |f.execs|
  {
    var entries := Entries(f, |f.execs|);
    forall k | 0 <= k < |entries|
      ensures entries[k].run == Run(policyId, targetHash, f.stamps(f.base + k), false)
      ensures from <= f.stamps(f.base + k) <= from + HOUR
    {
      OneKeyEntries(f, policyId, targetHash, k);
    }
    MoreInHour(f.log, entries, policyId, targetHash, from);
  }

  /** And whatever the hourly cap, one more call than it allows breaks it. */
  lemma OverlapBreaksHourlyCap(
    f: Wave, first: seq<Happening>, policyId: string, targetHash: string, from: Time, m: nat)
    returns (es: seq<Happening>)
    requires AllAuthorised(f) && Reached(f, first) && |f.execs| == m + 1 && OneKey(f, policyId, targetHash)
    requires StampedWithin(f, from)
    ensures Fed(f.s, f.stamps, f.start, es)
    ensures |Played(f.s, f.start, es).effects| == |f.before.effects| + m + 1
    ensures !CapHolds(RunsOf(Log(f.s, f.stamps, f.start, es)), policyId, Some(targetHash), m)
  {
    es := OverlappingCallsAllExecute(f, first);
    EntriesFillHour(f, policyId, targetHash, from);
  }
}
