/** What the invariant of the envelope means for every run of any number of callers. */
module EnvelopeSafety {
  import opened Wrappers
  import opened Envelope
  import opened EnvelopeLaws

  /** The records of one execution id after a run. */
  function Seen<Q, W>(j: Judge<Q, W>, world: W, es: seq<Event<Q, W>>, exec: ExecId): Records {
    RecordsOf(After(j, world, es).db, exec)
  }

  lemma AfterOneMore<Q, W>(j: Judge<Q, W>, world: W, es: seq<Event<Q, W>>, e: Event<Q, W>)
    ensures After(j, world, es + [e]) == Next(j, After(j, world, es), e)
  {
    assert (es + [e])[..|es|] == es;
  }

  // ----- At most once -----

  /**
    * However many calls share an execution id, and wherever they crash, the action runs at
    * most once; it is run by the call whose own commit created the row as executing, after
    * every gate had held in the world it was asked in.
    */
  lemma ExecutesAtMostOnce<Q, W>(j: Judge<Q, W>, world: W, es: seq<Event<Q, W>>)
    ensures
      var st := After(j, world, es);
      && AtMostOnce(st.effects)
      && forall i | 0 <= i < |st.effects| ::
           var f := st.effects[i];
           && f.caller in st.callers && st.callers[f.caller].exec == f.exec
           && OwnedBy(Seen(j, world, es, f.exec), f.caller)
           && Seen(j, world, es, f.exec).row.value.status != Blocked
           && HasPassed(j, st.callers[f.caller].request, st.callers[f.caller].seen)
  {
    var st := After(j, world, es);
    InvAlways(j, world, es);
    forall i | 0 <= i < |st.effects|
      ensures
        var f := st.effects[i];
        EffectOk(st, f) && HasPassed(j, st.callers[f.caller].request, st.callers[f.caller].seen)
    {
      var f := st.effects[i];
      assert EffectOk(st, f);
      assert CallerOk(j, f.caller, st.callers[f.caller], RecordsOf(st.db, st.callers[f.caller].exec));
    }
  }

  /** A row that never ran the action says so: a blocked execution has no effect. */
  lemma BlockedNeverRan<Q, W>(j: Judge<Q, W>, world: W, es: seq<Event<Q, W>>, exec: ExecId)
    requires Seen(j, world, es, exec).row.Some? && Seen(j, world, es, exec).row.value.status == Blocked
    ensures forall i | 0 <= i < |After(j, world, es).effects| :: After(j, world, es).effects[i].exec != exec
  {
    InvAlways(j, world, es);
    var st := After(j, world, es);
    forall i | 0 <= i < |st.effects| ensures st.effects[i].exec != exec {
      assert EffectOk(st, st.effects[i]);
    }
  }

  /** It tells why: the gate at which its call stopped, or that all gates had held and a commit failed. */
  lemma BlockedTellsGates<Q, W>(j: Judge<Q, W>, world: W, es: seq<Event<Q, W>>, exec: ExecId)
    requires Seen(j, world, es, exec).row.Some? && Seen(j, world, es, exec).row.value.status == Blocked
    ensures
      var row, st := Seen(j, world, es, exec).row.value, After(j, world, es);
      && row.creator in st.callers
      && var caller := st.callers[row.creator];
      && row.passed <= |caller.seen| && row.passed <= j.gates
      && (forall n | 0 <= n < row.passed :: GateHeld(j, caller.request, caller.seen, n))
      && (row.passed < j.gates ==>
            |caller.seen| == row.passed + 1 && !GateHeld(j, caller.request, caller.seen, row.passed))
  {
    InvAlways(j, world, es);
    var st := After(j, world, es);
    assert RowOk(j, st, exec);
    var c := Seen(j, world, es, exec).row.value.creator;
    assert CallerOk(j, c, st.callers[c], RecordsOf(st.db, st.callers[c].exec));
  }

  /** The transition tables, edge by edge. */
  lemma EdgesExactly(a: Status, b: Status)
    ensures b in Successors(a) <==> (a, b) in {
      (SafetyCheck, Executing), (SafetyCheck, Blocked),
      (Executing, Verifying), (Executing, ExecutionFailed), (Executing, Blocked),
      (Verifying, Succeeded), (Verifying, VerificationFailed), (Verifying, ExecutionFailed),
      (VerificationFailed, RollbackAvailable), (VerificationFailed, RollbackFailed),
      (ExecutionFailed, RollbackAvailable), (ExecutionFailed, RollbackFailed),
      (RollbackAvailable, RollbackRequested), (RollbackAvailable, Blocked),
      (RollbackRequested, RollingBack), (RollingBack, RolledBack), (RollingBack, RollbackFailed)}
  {
    match a
    case SafetyCheck =>
    case Executing =>
    case Verifying =>
    case _ =>
  }

  lemma AttemptEdgesExactly(a: AttemptStatus, b: AttemptStatus)
    ensures b in AttemptSuccessors(a) <==> (a, b) in {
      (Planned, AwaitingApproval), (Planned, BlockedAttempt),
      (AwaitingApproval, ApprovedAttempt), (AwaitingApproval, RejectedAttempt), (AwaitingApproval, ExpiredAttempt),
      (ApprovedAttempt, AttemptExecuting), (ApprovedAttempt, StaleAttempt), (ApprovedAttempt, ExpiredAttempt),
      (AttemptExecuting, AttemptVerifying), (AttemptExecuting, AttemptExecutionFailed),
      (AttemptVerifying, AttemptSucceeded), (AttemptVerifying, AttemptVerificationFailed),
      (AttemptExecutionFailed, AttemptRollbackAvailable), (AttemptExecutionFailed, AttemptRollbackFailed),
      (AttemptVerificationFailed, AttemptRollbackAvailable), (AttemptVerificationFailed, AttemptRollbackFailed),
      (AttemptRollbackAvailable, AttemptRollbackRequested), (AttemptRollbackAvailable, BlockedAttempt),
      (AttemptRollbackRequested, AttemptRollingBack),
      (AttemptRollingBack, AttemptRolledBack), (AttemptRollingBack, AttemptRollbackFailed)}
  {
    match a
    case Planned =>
    case AwaitingApproval =>
    case ApprovedAttempt =>
    case _ =>
  }

  /** Somebody is still working on such a row. */
  predicate OnItsWay(s: Status) { s in {SafetyCheck, Executing, Verifying, RollbackRequested, RollingBack} }

  /** The settled statuses are the others. */
  lemma SettledExactly(s: Status)
    ensures s in SETTLED <==> !OnItsWay(s)
    ensures s in SETTLED <==> s in {Succeeded, VerificationFailed, ExecutionFailed, RollbackAvailable, RolledBack,
      RollbackFailed, Blocked}
  {
    match s
    case SafetyCheck =>
    case Executing =>
    case Verifying =>
    case RollbackRequested =>
    case RollingBack =>
    case _ =>
  }

  /** A waiting call answers a row that nobody works on at once, any other only when its time is over. */
  lemma ReplyComesExactly<Q, W>(
    j: Judge<Q, W>, world: W, c: nat, caller: Caller<Q, W>, r: Records, choice: Choice)
    requires caller.pc == Preparing(Resolving) && r.row.Some?
    ensures
      var next := Act(j, world, c, caller, r, choice).caller;
      next.pc ==
        if choice.outcome || r.row.value.status in {Succeeded, VerificationFailed, ExecutionFailed, RollbackAvailable,
          RolledBack, RollbackFailed, Blocked}
        then Over(Returned(r.row.value.status, true)) else caller.pc
    ensures
      var next := Act(j, world, c, caller, r, choice).caller;
      next.pc == caller.pc <==> OnItsWay(r.row.value.status) && !choice.outcome
  {
    SettledExactly(r.row.value.status);
  }

  /**
    * A call that did not create the row touches nothing. Its next step leaves it preparing,
    * raises, or returns the row's present status as an existing one; it returns a status
    * that is still in flight only when its waiting time is over.
    */
  lemma LosersOnlyWatch<Q, W>(j: Judge<Q, W>, world: W, es: seq<Event<Q, W>>, c: nat, choice: Choice)
    requires
      var st := After(j, world, es);
      && c in st.callers
      && RecordsOf(st.db, st.callers[c].exec).row.Some?
      && RecordsOf(st.db, st.callers[c].exec).row.value.creator != c
    ensures
      var st := After(j, world, es);
      var next := Next(j, st, Move(c, choice));
      var row := RecordsOf(st.db, st.callers[c].exec).row.value;
      && next.db == st.db
      && next.effects == st.effects
      && c in next.callers
      && !next.callers[c].pc.Owning?
      && (st.callers[c].pc.Preparing? && next.callers[c].pc.Over? ==>
            || next.callers[c].pc == Over(Raised)
            || (next.callers[c].pc == Over(Returned(row.status, true)) && (!OnItsWay(row.status) || choice.outcome)))
  {
    var st := After(j, world, es);
    InvAlways(j, world, es);
    var caller := st.callers[c];
    var r := RecordsOf(st.db, caller.exec);
    assert CallerOk(j, c, caller, r) && RowOk(j, st, caller.exec);
    StepIsOk(j, st.world, c, caller, r, choice);
  }

  // ----- The lifecycle -----

  /** The distance of a status from the end of every lifecycle. */
  function Rank(s: Status): nat {
    match s
    case SafetyCheck => 8
    case Executing => 7
    case Verifying => 6
    case Succeeded => 5
    case ExecutionFailed => 4
    case VerificationFailed => 4
    case RollbackAvailable => 3
    case RollbackRequested => 2
    case RollingBack => 1
    case _ => 0
  }

  /** The table together with the downgrade edge has no cycles. */
  lemma MovesDescend(a: Status, b: Status)
    requires StatusMoves(a, b) && a != b
    ensures Rank(b) < Rank(a)
  {
  }

  ghost predicate RecordsMove(r: Records, s: Records) {
    && Grows(r, s)
    && (r.row.Some? ==> StatusMoves(r.row.value.status, s.row.value.status) && AttemptMoves(r.attempt, s.attempt))
    && (r.row.None? && s.row.Some? ==> s.row.value.status == Executing || s.row.value.status == Blocked)
  }

  /**
    * No committed step ever leaves the tables: rows and attempts move along an edge or stay,
    * apart from the downgrade of a success whose audit failed. So the guards that would
    * raise on a forbidden transition never do.
    */
  lemma StepsFollowTheTables<Q, W>(j: Judge<Q, W>, world: W, es: seq<Event<Q, W>>, e: Event<Q, W>, exec: ExecId)
    ensures RecordsMove(Seen(j, world, es, exec), RecordsOf(Next(j, After(j, world, es), e).db, exec))
  {
    var st := After(j, world, es);
    InvAlways(j, world, es);
    if e.Move? && e.caller in st.callers && st.callers[e.caller].exec == exec {
      MoverFollowsTheTables(j, st, e.caller, e.choice);
    }
  }

  lemma MoverFollowsTheTables<Q, W>(j: Judge<Q, W>, st: State<Q, W>, c: nat, choice: Choice)
    requires Inv(j, st) && c in st.callers
    ensures
      var r := RecordsOf(st.db, st.callers[c].exec);
      RecordsMove(r, Act(j, st.world, c, st.callers[c], r, choice).records)
  {
    var caller := st.callers[c];
    var r := RecordsOf(st.db, caller.exec);
    assert CallerOk(j, c, caller, r) && RowOk(j, st, caller.exec);
    match caller.pc
    case Preparing(p) => CandidateSteps(j, st.world, c, caller, p, r, choice);
    case Owning(stage) =>
      OwnerSteps(c, caller, stage, r, choice);
      OwnerMoves(c, caller, stage, r, choice);
    case Over(_) =>
  }

  /** The statuses a row has had, in order, one for each change. */
  function History<Q, W>(j: Judge<Q, W>, world: W, es: seq<Event<Q, W>>, exec: ExecId): seq<Status> {
    if es == [] then []
    else WithRow(History(j, world, es[..|es| - 1], exec), Seen(j, world, es, exec).row)
  }

  function WithRow(h: seq<Status>, row: Option<Row>): seq<Status> {
    if row.Some? && (h == [] || h[|h| - 1] != row.value.status) then h + [row.value.status] else h
  }

  /** A path of the transition table with the downgrade as its only other edge. */
  ghost predicate LifecyclePath(h: seq<Status>) {
    && (h != [] ==> h[0] == Executing || h[0] == Blocked)
    && (forall i | 0 <= i < |h| - 1 :: h[i] != h[i + 1] && StatusMoves(h[i], h[i + 1]))
  }

  /** The path so far ends in the row's present status. */
  ghost predicate EndsIn(h: seq<Status>, row: Option<Row>) {
    LifecyclePath(h) && (if row.None? then h == [] else h != [] && h[|h| - 1] == row.value.status)
  }

  lemma MovesExtendPath(h: seq<Status>, r: Records, s: Records)
    requires EndsIn(h, r.row) && RecordsMove(r, s)
    ensures EndsIn(WithRow(h, s.row), s.row)
  {
  }

  /** In every run the committed statuses of a row form such a path, which ends in the present status. */
  lemma {:induction false} LifecycleIsAPath<Q, W>(j: Judge<Q, W>, world: W, es: seq<Event<Q, W>>, exec: ExecId)
    ensures EndsIn(History(j, world, es, exec), Seen(j, world, es, exec).row)
  {
    if es != [] {
      LifecycleIsAPath(j, world, es[..|es| - 1], exec);
      StepsFollowTheTables(j, world, es[..|es| - 1], es[|es| - 1], exec);
      MovesExtendPath(History(j, world, es[..|es| - 1], exec), Seen(j, world, es[..|es| - 1], exec),
        Seen(j, world, es, exec));
    }
  }

  /** Ranks fall along a path, so no status ever comes back. */
  lemma {:induction false} PathsDescend(h: seq<Status>, i: nat, k: nat)
    requires LifecyclePath(h) && i < k < |h|
    ensures Rank(h[k]) < Rank(h[i])
  {
    MovesDescend(h[k - 1], h[k]);
    if i < k - 1 {
      PathsDescend(h, i, k - 1);
    }
  }

  lemma StatusesNeverReturn<Q, W>(j: Judge<Q, W>, world: W, es: seq<Event<Q, W>>, exec: ExecId, i: nat, k: nat)
    requires i < k < |History(j, world, es, exec)|
    ensures Rank(History(j, world, es, exec)[k]) < Rank(History(j, world, es, exec)[i])
    ensures History(j, world, es, exec)[k] != History(j, world, es, exec)[i]
  {
    LifecycleIsAPath(j, world, es, exec);
    PathsDescend(History(j, world, es, exec), i, k);
  }

  /**
    * After every commit row, attempt and verification agree. A rollback is staged only for
    * a failed verification of an execution whose snapshot was stored, and the row says so.
    */
  lemma RecordsAgree<Q, W>(j: Judge<Q, W>, world: W, es: seq<Event<Q, W>>, exec: ExecId)
    requires Seen(j, world, es, exec).row.Some?
    ensures
      var r := Seen(j, world, es, exec);
      && Corresponds(r.row.value.status, r.attempt, r.verification)
      && (r.rollback <==> r.row.value.status == RollbackAvailable)
      && (r.rollback ==> r.verification == Some(false) && r.snapshot)
  {
    InvAlways(j, world, es);
    assert RowOk(j, After(j, world, es), exec);
  }

  // ----- What callers are told -----

  /**
    * The call that ran the action reports the committed status. Its success is audited
    * exactly when the downgrade commit did not fail.
    */
  lemma OwnReplyIsCommitted<Q, W>(j: Judge<Q, W>, world: W, es: seq<Event<Q, W>>, c: nat, status: Status)
    requires c in After(j, world, es).callers
    requires After(j, world, es).callers[c].pc == Over(Returned(status, false))
    ensures
      var r := Seen(j, world, es, After(j, world, es).callers[c].exec);
      && OwnedBy(r, c)
      && r.row.value.status == status
      && (status == Succeeded ==> (r.audited <==> !r.downgradeFailed))
  {
    InvAlways(j, world, es);
    var st := After(j, world, es);
    assert CallerOk(j, c, st.callers[c], RecordsOf(st.db, st.callers[c].exec));
    assert RowOk(j, st, st.callers[c].exec);
  }

  /** Between the commit of a success and the end of its audit, or crashed there. */
  predicate AtAudit(pc: Pc) {
    pc in {Owning(Auditing), Owning(Downgrading), Over(Crashed(Some(Auditing))), Over(Crashed(Some(Downgrading)))}
  }

  /**
    * Success is committed before its audit. A succeeded row has no audit exactly while its
    * owner is between the two commits, when the owner crashed there, or when both the audit
    * commit and the commit of the downgrade failed.
    */
  lemma UnauditedSuccessExactly<Q, W>(j: Judge<Q, W>, world: W, es: seq<Event<Q, W>>, exec: ExecId)
    requires Seen(j, world, es, exec).row.Some? && Seen(j, world, es, exec).row.value.status == Succeeded
    ensures
      var st := After(j, world, es);
      var r := Seen(j, world, es, exec);
      && r.row.value.creator in st.callers
      && (!r.audited <==> AtAudit(st.callers[r.row.value.creator].pc) || r.downgradeFailed)
  {
    InvAlways(j, world, es);
    var st := After(j, world, es);
    var r := RecordsOf(st.db, exec);
    assert RowOk(j, st, exec);
    var owner := r.row.value.creator;
    assert CallerOk(j, owner, st.callers[owner], RecordsOf(st.db, st.callers[owner].exec));
    OwnerAtAudit(st.callers[owner].pc, st.callers[owner].hasSnapshot, r);
  }

  lemma OwnerAtAudit(pc: Pc, hasSnapshot: bool, r: Records)
    requires r.row.Some? && r.row.value.status == Succeeded && OwnerOk(pc, hasSnapshot, r)
    ensures !AuditSettled(r) <==> AtAudit(pc)
  {
  }

  /** Once the owner's call is over, however it ended, nothing changes its records any more. */
  lemma {:induction false} EndedOwnersFreeze<Q, W>(
    j: Judge<Q, W>, world: W, es: seq<Event<Q, W>>, more: seq<Event<Q, W>>, exec: ExecId)
    requires
      var r := Seen(j, world, es, exec);
      && r.row.Some?
      && r.row.value.creator in After(j, world, es).callers
      && After(j, world, es).callers[r.row.value.creator].pc.Over?
    ensures Seen(j, world, es + more, exec) == Seen(j, world, es, exec)
    ensures
      var c := Seen(j, world, es, exec).row.value.creator;
      c in After(j, world, es + more).callers && After(j, world, es + more).callers[c] == After(j, world, es).callers[c]
  {
    if more == [] {
      assert es + more == es;
    } else {
      var init, last := more[..|more| - 1], more[|more| - 1];
      EndedOwnersFreeze(j, world, es, init, exec);
      assert es + more == (es + init) + [last];
      AfterOneMore(j, world, es + init, last);
      OneStepFreezes(j, world, es + init, last, exec);
    }
  }

  lemma OneStepFreezes<Q, W>(j: Judge<Q, W>, world: W, es: seq<Event<Q, W>>, e: Event<Q, W>, exec: ExecId)
    requires
      var r := Seen(j, world, es, exec);
      && r.row.Some?
      && r.row.value.creator in After(j, world, es).callers
      && After(j, world, es).callers[r.row.value.creator].pc.Over?
    ensures
      var st := After(j, world, es);
      var c := Seen(j, world, es, exec).row.value.creator;
      && RecordsOf(Next(j, st, e).db, exec) == RecordsOf(st.db, exec)
      && c in Next(j, st, e).callers && Next(j, st, e).callers[c] == st.callers[c]
  {
    var st := After(j, world, es);
    var owner := Seen(j, world, es, exec).row.value.creator;
    if e.Move? && e.caller in st.callers && st.callers[e.caller].exec == exec && e.caller != owner {
      LosersOnlyWatch(j, world, es, e.caller, e.choice);
    }
  }

  // ----- Progress -----

  /** How far a stage is from the end of the call. */
  function StagesLeft(stage: Stage): nat {
    match stage
    case Finishing => 1
    case Downgrading => 2
    case Auditing => 3
    case Staging => 4
    case Checked(_) => 5
    case AwaitingVerification => 6
    case Acted(_) => 7
    case Ready => 8
    case Snapshotting => 9
  }

  /** How far a call can still go when `asked` of its gates have been asked. */
  function Left(gates: nat, pc: Pc, asked: nat): nat {
    match pc
    case Over(_) => 0
    case Owning(stage) => StagesLeft(stage)
    case Preparing(p) =>
      match p
      case Resolving => 1
      case Salvaging => 2
      case Committing => 10
      case Inserting => 11
      case Refusing => 12
      case Gating => 13 + (if asked <= gates then gates - asked else 0)
      case Arrived => 14 + gates
  }

  lemma OwnersAdvance<Q, W>(caller: Caller<Q, W>, stage: Stage, r: Records, choice: Choice)
    requires r.row.Some? && caller.pc == Owning(stage)
    ensures
      var pc := FromAction(caller, stage, r, choice).caller.pc;
      pc.Over? || (pc.Owning? && StagesLeft(pc.stage) < StagesLeft(stage))
  {
  }

  lemma CandidatesAdvance<Q, W>(j: Judge<Q, W>, world: W, c: nat, caller: Caller<Q, W>, p: Preparation, r: Records,
                                  choice: Choice)
    requires j.gates > 0 && caller.pc == Preparing(p) && CandidateOk(j, caller)
    ensures
      var o := BeforeAction(j, world, c, caller, p, r, choice);
      || Left(j.gates, o.caller.pc, |o.caller.seen|) < Left(j.gates, caller.pc, |caller.seen|)
      || (p.Resolving? && o.caller == caller)
  {
  }

  /**
    * Every step of a call brings it closer to its end, whatever the database and the action
    * do; only waiting for another call's row may repeat.
    */
  lemma CallsEnd<Q, W>(j: Judge<Q, W>, world: W, es: seq<Event<Q, W>>, c: nat, choice: Choice)
    requires j.gates > 0
    requires c in After(j, world, es).callers && !After(j, world, es).callers[c].pc.Over?
    ensures
      var caller := After(j, world, es).callers[c];
      var next := Next(j, After(j, world, es), Move(c, choice)).callers[c];
      || Left(j.gates, next.pc, |next.seen|) < Left(j.gates, caller.pc, |caller.seen|)
      || (caller.pc == Preparing(Resolving) && next == caller)
  {
    InvAlways(j, world, es);
    var st := After(j, world, es);
    var caller := st.callers[c];
    var r := RecordsOf(st.db, caller.exec);
    assert CallerOk(j, c, caller, r);
    match caller.pc
    case Preparing(p) => CandidatesAdvance(j, st.world, c, caller, p, r, choice);
    case Owning(stage) => OwnersAdvance(caller, stage, r, choice);
    case Over(_) =>
  }

  // ----- Which calls can execute -----

  /** One call on one execution id, with nobody else around. */
  function Alone<Q, W>(exec: ExecId, q: Q, seen: seq<W>, world: W, pc: Pc, r: Records, acted: bool): State<Q, W> {
    State(
      map[exec := r],
      map[0 := Caller(exec, q, false, seen, false, pc)],
      world,
      if acted then [Effect(exec, 0)] else [])
  }

  /** The world in which gate n - 1 was asked; before the first gate, the world of the start. */
  function WorldAt<W>(start: W, worlds: seq<W>, n: nat): W
    requires n <= |worlds|
  {
    if n == 0 then start else worlds[n - 1]
  }

  lemma {:induction false} ReachesGate<Q, W>(j: Judge<Q, W>, start: W, exec: ExecId, q: Q, worlds: seq<W>, n: nat)
    returns (es: seq<Event<Q, W>>)
    requires j.gates > 0 && HasPassed(j, q, worlds) && n <= j.gates
    ensures After(j, start, es) ==
      Alone(exec, q, worlds[..n], WorldAt(start, worlds, n),
            Preparing(if n == j.gates then Inserting else Gating), NO_RECORDS, false)
  {
    if n == 0 {
      es := [Arrive(0, exec, q, false)];
      AfterOneMore(j, start, [], es[0]);
      assert [] + es == es;
      AfterOneMore(j, start, es, Move(0, Choice(true, false)));
      es := es + [Move(0, Choice(true, false))];
    } else {
      es := ReachesGate(j, start, exec, q, worlds, n - 1);
      AfterOneMore(j, start, es, Change(worlds[n - 1]));
      es := es + [Change(worlds[n - 1])];
      AfterOneMore(j, start, es, Move(0, Choice(true, false)));
      assert worlds[..n - 1] + [worlds[n - 1]] == worlds[..n];
      assert GateHeld(j, q, worlds, n - 1);
      es := es + [Move(0, Choice(true, false))];
    }
  }

  /** One more step of the lone call, which has asked all its gates. */
  lemma LoneStep<Q, W>(
    j: Judge<Q, W>, start: W, es: seq<Event<Q, W>>, exec: ExecId, q: Q, seen: seq<W>, world: W, choice: Choice,
    pc: Pc, r: Records, acted: bool, pc': Pc, r': Records, acted': bool)
    returns (es': seq<Event<Q, W>>)
    requires After(j, start, es) == Alone(exec, q, seen, world, pc, r, acted)
    requires
      var caller := Caller(exec, q, false, seen, false, pc);
      Act(j, world, 0, caller, r, choice) == Outcome(caller.(pc := pc'), r', acted != acted') && (acted ==> acted')
    ensures After(j, start, es') == Alone(exec, q, seen, world, pc', r', acted')
  {
    AfterOneMore(j, start, es, Move(0, choice));
    es' := es + [Move(0, choice)];
  }

  const RUNNING: Option<AttemptStatus> := Some(AttemptExecuting)
  const RAN: Option<AttemptStatus> := Some(AttemptVerifying)
  const DONE: Option<AttemptStatus> := Some(AttemptSucceeded)

  function RecordsAt(status: Status, gates: nat, attempt: Option<AttemptStatus>, verification: Option<bool>): Records {
    Records(Some(Row(status, 0, gates)), attempt, false, verification, false, false, false)
  }

  /** A call whose gates hold one after the other, in whatever worlds, can run its action. */
  lemma ReachesAction<Q, W>(j: Judge<Q, W>, start: W, exec: ExecId, q: Q, worlds: seq<W>) returns (es: seq<Event<Q, W>>)
    requires j.gates > 0 && HasPassed(j, q, worlds)
    ensures After(j, start, es) ==
      Alone(exec, q, worlds, worlds[j.gates - 1], Owning(Acted(true)), RecordsAt(Executing, j.gates, RUNNING, None),
        true)
  {
    var no, yes := Choice(true, false), Choice(true, true);
    var r := RecordsAt(Executing, j.gates, RUNNING, None);
    var last := worlds[j.gates - 1];
    es := ReachesGate(j, start, exec, q, worlds, j.gates);
    assert worlds[..j.gates] == worlds;
    es := LoneStep(j, start, es, exec, q, worlds, last, no,
      Preparing(Inserting), NO_RECORDS, false, Preparing(Committing), NO_RECORDS, false);
    es := LoneStep(j, start, es, exec, q, worlds, last, no,
      Preparing(Committing), NO_RECORDS, false, Owning(Snapshotting), r, false);
    es := LoneStep(j, start, es, exec, q, worlds, last, no, Owning(Snapshotting), r, false, Owning(Ready), r, false);
    es := LoneStep(j, start, es, exec, q, worlds, last, yes, Owning(Ready), r, false, Owning(Acted(true)), r, true);
  }

  /** Effect i of a run was made for this request, whose gates were asked in these worlds. */
  ghost predicate ExecutedBy<Q, W>(st: State<Q, W>, i: nat, q: Q, worlds: seq<W>) {
    && i < |st.effects|
    && st.effects[i].caller in st.callers
    && st.callers[st.effects[i].caller].request == q
    && st.callers[st.effects[i].caller].seen == worlds
  }

  ghost predicate CanExecute<Q(!new), W(!new)>(j: Judge<Q, W>, start: W, q: Q, worlds: seq<W>) {
    exists es: seq<Event<Q, W>>, i: nat :: ExecutedBy(After(j, start, es), i, q, worlds)
  }

  /**
    * A request can be executed with its gates asked in given worlds exactly when it is well
    * formed, its evaluation does not raise and every gate holds in the world it is asked in.
    */
  lemma ExecutesExactly<Q(!new), W(!new)>(j: Judge<Q, W>, start: W, q: Q, worlds: seq<W>)
    requires j.gates > 0
    ensures CanExecute(j, start, q, worlds) <==> HasPassed(j, q, worlds)
  {
    if HasPassed(j, q, worlds) {
      var es := ReachesAction(j, start, [], q, worlds);
      assert ExecutedBy(After(j, start, es), 0, q, worlds);
    }
    if CanExecute(j, start, q, worlds) {
      var es, i: nat :| ExecutedBy(After(j, start, es), i, q, worlds);
      ExecutesAtMostOnce(j, start, es);
    }
  }

  // ----- The window between a success and its audit -----

  /** A request whose gates hold in some worlds can reach a success that is not audited yet. */
  lemma ReachesAudit<Q, W>(j: Judge<Q, W>, start: W, exec: ExecId, q: Q, worlds: seq<W>) returns (es: seq<Event<Q, W>>)
    requires j.gates > 0 && HasPassed(j, q, worlds)
    ensures After(j, start, es) ==
      Alone(exec, q, worlds, worlds[j.gates - 1], Owning(Auditing), RecordsAt(Succeeded, j.gates, DONE, Some(true)),
        true)
  {
    var no, yes := Choice(true, false), Choice(true, true);
    var r0 := RecordsAt(Executing, j.gates, RUNNING, None);
    var r1 := RecordsAt(Verifying, j.gates, RAN, None);
    var r2 := RecordsAt(Succeeded, j.gates, DONE, Some(true));
    var last := worlds[j.gates - 1];
    es := ReachesAction(j, start, exec, q, worlds);
    es := LoneStep(j, start, es, exec, q, worlds, last, no, Owning(Acted(true)), r0, true, Owning(AwaitingVerification),
      r1, true);
    es := LoneStep(j, start, es, exec, q, worlds, last, yes, Owning(AwaitingVerification), r1, true,
      Owning(Checked(true)), r1, true);
    es := LoneStep(j, start, es, exec, q, worlds, last, no, Owning(Checked(true)), r1, true, Owning(Auditing), r2,
      true);
  }

  /** A crash there leaves a row that says succeeded and has no audit. */
  lemma CrashBeforeAudit<Q, W>(j: Judge<Q, W>, start: W, exec: ExecId, q: Q, worlds: seq<W>)
    returns (es: seq<Event<Q, W>>)
    requires j.gates > 0 && HasPassed(j, q, worlds)
    ensures Seen(j, start, es, exec).row == Some(Row(Succeeded, 0, j.gates))
    ensures !Seen(j, start, es, exec).audited
    ensures 0 in After(j, start, es).callers && After(j, start, es).callers[0].pc == Over(Crashed(Some(Auditing)))
  {
    es := ReachesAudit(j, start, exec, q, worlds);
    AfterOneMore(j, start, es, Crash(0));
    es := es + [Crash(0)];
  }

  /**
    * So do a failed audit commit and a failed downgrade commit, and there the call that ran
    * the action itself returns success.
    */
  lemma DowngradeFails<Q, W>(j: Judge<Q, W>, start: W, exec: ExecId, q: Q, worlds: seq<W>)
    returns (es: seq<Event<Q, W>>)
    requires j.gates > 0 && HasPassed(j, q, worlds)
    ensures Seen(j, start, es, exec).row == Some(Row(Succeeded, 0, j.gates))
    ensures !Seen(j, start, es, exec).audited && Seen(j, start, es, exec).downgradeFailed
    ensures 0 in After(j, start, es).callers && After(j, start, es).callers[0].pc == Over(Returned(Succeeded, false))
  {
    var fails := Choice(false, false);
    var r := RecordsAt(Succeeded, j.gates, DONE, Some(true));
    var last := worlds[j.gates - 1];
    es := ReachesAudit(j, start, exec, q, worlds);
    es := LoneStep(j, start, es, exec, q, worlds, last, fails, Owning(Auditing), r, true, Owning(Downgrading), r, true);
    es := LoneStep(j, start, es, exec, q, worlds, last, fails,
      Owning(Downgrading), r, true, Owning(Finishing), r.(downgradeFailed := true), true);
    es := LoneStep(j, start, es, exec, q, worlds, last, fails,
      Owning(Finishing), r.(downgradeFailed := true), true, Over(Returned(Succeeded, false)),
      r.(downgradeFailed := true), true);
  }

  /**
    * For every request that can pass its gates there is a run in which a replay is told
    * "succeeded" while there is no audit yet.
    */
  lemma ReplayBeforeAudit<Q, W>(j: Judge<Q, W>, start: W, exec: ExecId, q: Q, worlds: seq<W>)
    returns (es: seq<Event<Q, W>>)
    requires j.gates > 0 && HasPassed(j, q, worlds)
    ensures 1 in After(j, start, es).callers
    ensures After(j, start, es).callers[1].exec == exec
    ensures After(j, start, es).callers[1].pc == Over(Returned(Succeeded, true))
    ensures !Seen(j, start, es, exec).audited
  {
    es := ReachesAudit(j, start, exec, q, worlds);
    AfterOneMore(j, start, es, Arrive(1, exec, q, false));
    es := es + [Arrive(1, exec, q, false)];
    AfterOneMore(j, start, es, Move(1, Choice(true, false)));
    es := es + [Move(1, Choice(true, false))];
    AfterOneMore(j, start, es, Move(1, Choice(true, false)));
    es := es + [Move(1, Choice(true, false))];
  }
}
