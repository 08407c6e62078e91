/**
  * One call of the envelope as the code runs it, in the middle of all others. Each of its
  * commits is a step of the machine; between two of them the other calls, crashes and the
  * world around may do anything.
  */
module EnvelopeRuns {
  import opened Wrappers
  import opened Envelope
  import opened EnvelopeLaws
  import opened EnvelopeSafety

  /** What database, action and verifier answer when the call reaches them. */
  datatype Answers = Answers(
    blockedCommits: bool,
    insertClashes: bool,
    insertFlushes: bool,
    commitClashes: bool,
    commitSucceeds: bool,
    salvageCommits: bool,
    snapshotStored: bool,
    executed: bool,
    resultCommits: bool,
    verified: bool,
    verdictCommits: bool,
    rollbackCommits: bool,
    auditCommits: bool,
    downgradeCommits: bool,
    polls: nat)

  /** The points of a call at which others get their turn. */
  datatype Point =
    | AtReplay | AtGate(n: nat) | AtBlocked | AtInsert | AtCommit | AtSalvage | AtPoll(n: nat)
    | AtSnapshot | AtAction | AtResult | AtVerifier | AtVerdict | AtRollback | AtFinalize | AtDowngrade | AtReply

  /** What happens elsewhere at each point. */
  type Meantime<!Q, !W> = Point -> seq<Event<Q, W>>

  /** Something that is not a step, a crash or the arrival of call `c`. */
  predicate Foreign<Q, W>(c: nat, e: Event<Q, W>) {
    match e
    case Arrive(d, _, _, _) => d != c
    case Change(_) => true
    case Crash(d) => d != c
    case Move(d, _) => d != c
  }

  ghost predicate Elsewhere<Q(!new), W(!new)>(c: nat, env: Meantime<Q, W>) {
    forall p, i | 0 <= i < |env(p)| :: Foreign(c, env(p)[i])
  }

  // ----- What a call leaves behind -----

  function Advanced(r: Records, status: Status, attempt: AttemptStatus): Records
    requires r.row.Some?
  {
    r.(row := Some(r.row.value.(status := status)), attempt := Some(attempt))
  }

  /** The records once the verification has been committed. */
  function Judged(r: Records, passed: bool): Records
    requires r.row.Some?
  {
    var status, attempt :=
      if passed then Succeeded else VerificationFailed,
      if passed then AttemptSucceeded else AttemptVerificationFailed;
    Advanced(r, status, attempt).(verification := Some(passed))
  }

  function Settled(r: Records, executed: bool, verified: bool): Records
    requires r.row.Some?
  {
    if executed then Judged(r, verified) else Advanced(r, ExecutionFailed, AttemptExecutionFailed)
  }

  /** The records of a call whose row is committed as executing. */
  function Created(c: nat, gates: nat): Records {
    NO_RECORDS.(row := Some(Row(Executing, c, gates)), attempt := Some(AttemptExecuting))
  }

  function BlockedRecords(c: nat, passed: nat): Records { NO_RECORDS.(row := Some(Row(Blocked, c, passed))) }

  function Finalized(r: Records, a: Answers): Records
    requires r.row.Some?
  {
    if a.auditCommits then r.(audited := true)
    else if r.row.value.status != Succeeded then r
    else if a.downgradeCommits then r.(row := Some(r.row.value.(status := ExecutionFailed)))
    else r.(downgradeFailed := true)
  }

  predicate RowGoesIn(a: Answers) { !a.insertClashes && a.insertFlushes && !a.commitClashes && a.commitSucceeds }

  /** What a call replies from the commit of its row on. */
  function ReplyOnceCreated(rollbackSupported: bool, a: Answers): End {
    if !a.resultCommits then Raised
    else if !a.executed then Returned(ExecutionFailed, false)
    else if !a.verdictCommits then Raised
    else if a.verified then
      Returned(if a.auditCommits || !a.downgradeCommits then Succeeded else ExecutionFailed, false)
    else if !(rollbackSupported && a.snapshotStored) then Returned(VerificationFailed, false)
    else if a.rollbackCommits then Returned(RollbackAvailable, false)
    else Raised
  }

  /** What a call that passed its gates replies unless another call gets its row. */
  function Reply(rollbackSupported: bool, a: Answers): End {
    if a.insertClashes || !a.insertFlushes then Raised
    else if a.commitClashes then (if a.salvageCommits then Returned(Blocked, false) else Raised)
    else if !a.commitSucceeds then Raised
    else ReplyOnceCreated(rollbackSupported, a)
  }

  /** The records of such a call once it is over. */
  function LeftBehind(c: nat, gates: nat, rollbackSupported: bool, a: Answers): Records {
    FromResult(Created(c, gates).(snapshot := a.snapshotStored), rollbackSupported, a)
  }

  /** What becomes of the records after the action. */
  function FromResult(r: Records, rollbackSupported: bool, a: Answers): Records
    requires r.row.Some?
  {
    if !a.resultCommits then r
    else if a.executed && !a.verdictCommits then Advanced(r, Verifying, AttemptVerifying)
    else Concluded(Settled(r, a.executed, a.verified), rollbackSupported && a.snapshotStored, a)
  }

  /** A failed verification may be offered a rollback before the audit. */
  function Concluded(r: Records, offers: bool, a: Answers): Records
    requires r.row.Some?
  {
    if r.row.value.status != VerificationFailed || !offers then Finalized(r, a)
    else if a.rollbackCommits
    then Finalized(Advanced(r, RollbackAvailable, AttemptRollbackAvailable).(rollback := true), a)
    else r
  }

  /** A replay that is told a status which is not final yet. */
  predicate EndsOnItsWay(end: End) { end.Returned? && end.existing && OnItsWay(end.status) }

  /** A reply tells the committed status, as the caller's own or as somebody else's. */
  predicate Tells(end: End, r: Records, c: nat) {
    match end
    case Returned(status, existing) => r.row.Some? && r.row.value.status == status && (existing <==> !OwnedBy(r, c))
    case Raised => true
    case Crashed(_) => false
  }

  // ----- The guards -----

  /** Returns the target, or raises when the table has no such edge. */
  method TransitionEnvelopeStatus(current: Status, target: Status) returns (r: Result<Status>)
    ensures r == if target in Successors(current) then Ok(target) else Invalid
  {
    return if target in Successors(current) then Ok(target) else Invalid;
  }

  method SetAttempt(current: AttemptStatus, target: AttemptStatus) returns (r: Result<AttemptStatus>)
    ensures r == if target in AttemptSuccessors(current) then Ok(target) else Invalid
  {
    return if target in AttemptSuccessors(current) then Ok(target) else Invalid;
  }

  lemma ResultEdges(executed: bool)
    ensures (if executed then Verifying else ExecutionFailed) in Successors(Executing)
    ensures (if executed then AttemptVerifying else AttemptExecutionFailed) in AttemptSuccessors(AttemptExecuting)
  {
  }

  lemma VerdictEdges(verified: bool)
    ensures (if verified then Succeeded else VerificationFailed) in Successors(Verifying)
    ensures (if verified then AttemptSucceeded else AttemptVerificationFailed) in AttemptSuccessors(AttemptVerifying)
  {
  }

  lemma VerdictOutcome<Q, W>(caller: Caller<Q, W>, r: Records, verified: bool, commits: bool)
    requires r.row.Some? && caller.pc == Owning(Checked(verified))
    ensures FromAction(caller, caller.pc.stage, r, Choice(commits, false)) ==
      if commits then Outcome(caller.(pc := Owning(if verified then Auditing else Staging)), Judged(r, verified), false)
      else Outcome(caller.(pc := Over(Raised)), r, false)
  {
  }

  lemma ResultOutcome<Q, W>(caller: Caller<Q, W>, r: Records, executed: bool, commits: bool)
    requires r.row.Some? && caller.pc == Owning(Stage.Acted(executed))
    ensures FromAction(caller, caller.pc.stage, r, Choice(commits, false)) ==
      if commits then
        Outcome(
          caller.(pc := Owning(if executed then AwaitingVerification else Auditing)),
          Advanced(
            r,
            if executed then Verifying else ExecutionFailed,
            if executed then AttemptVerifying else AttemptExecutionFailed),
          false)
      else Outcome(caller.(pc := Over(Raised)), r, false)
  {
  }

  /** A new row leaves safety_check, a new attempt is led to executing; no guard raises. */
  method EnterExecuting() returns (r: Result<(Status, AttemptStatus)>)
    ensures r == Ok((Executing, AttemptExecuting))
  {
    CreationFollowsTheTables();
    var attempt := CREATION[0];
    for i := 1 to |CREATION|
      invariant attempt == CREATION[i - 1]
    {
      var moved := SetAttempt(attempt, CREATION[i]);
      if moved.Invalid? {
        return Invalid;
      }
      attempt := moved.value;
    }
    var status := TransitionEnvelopeStatus(SafetyCheck, Executing);
    if status.Invalid? {
      return Invalid;
    }
    return Ok((status.value, attempt));
  }

  // ----- What others cannot change -----

  /** A foreign event leaves the call alone, keeps rows, and cannot touch records that the call owns. */
  lemma ForeignStep<Q, W>(j: Judge<Q, W>, st: State<Q, W>, e: Event<Q, W>, c: nat, exec: ExecId)
    requires Inv(j, st) && Foreign(c, e)
    ensures c in Next(j, st, e).callers <==> c in st.callers
    ensures c in st.callers ==> Next(j, st, e).callers[c] == st.callers[c]
    ensures Grows(RecordsOf(st.db, exec), RecordsOf(Next(j, st, e).db, exec))
    ensures OwnedBy(RecordsOf(st.db, exec), c) ==> RecordsOf(Next(j, st, e).db, exec) == RecordsOf(st.db, exec)
    ensures !OwnedBy(RecordsOf(st.db, exec), c) ==> !OwnedBy(RecordsOf(Next(j, st, e).db, exec), c)
    ensures forall f | f in Next(j, st, e).effects && f.caller == c :: f in st.effects
    ensures forall f | f in st.effects :: f in Next(j, st, e).effects
  {
    if e.Move? && e.caller in st.callers {
      var caller := st.callers[e.caller];
      var r := RecordsOf(st.db, caller.exec);
      assert CallerOk(j, e.caller, caller, r) && RowOk(j, st, caller.exec);
      StepIsOk(j, st.world, e.caller, caller, r, e.choice);
    }
  }

  /** What the answer of one more gate says about all that were asked. */
  lemma GateAnswers<Q, W>(j: Judge<Q, W>, q: Q, seen: seq<W>, world: W)
    requires HeldSoFar(j, q, seen) && |seen| < j.gates
    ensures
      var asked, held := seen + [world], j.holds(seen + [world], q, |seen|);
      && (HasFailed(j, q, asked) <==> !held)
      && (HeldSoFar(j, q, asked) <==> held && !(|seen| == 1 && j.raises(q)))
  {
    var asked := seen + [world];
    assert asked[..|seen| + 1] == asked;
    if !j.holds(asked, q, |seen|) {
      AskedGateFails(j, q, seen, world);
      assert !GateHeld(j, q, asked, |seen|);
    } else {
      assert GateHeld(j, q, asked, |seen|);
      if !(|seen| == 1 && j.raises(q)) {
        AskedGatesHeld(j, q, seen, world);
      }
    }
  }

  lemma GateOutcome<Q, W>(j: Judge<Q, W>, world: W, c: nat, caller: Caller<Q, W>, r: Records, pc: Pc)
    requires caller.pc == Preparing(Gating) && |caller.seen| < j.gates
    requires
      var n, asked := |caller.seen|, caller.seen + [world];
      pc ==
        if !j.holds(asked, caller.request, n) then Preparing(Refusing)
        else if n == 1 && j.raises(caller.request) then Over(Raised)
        else Preparing(if n + 1 == j.gates then Inserting else Gating)
    ensures Act(j, world, c, caller, r, Choice(true, false)) ==
      Outcome(caller.(seen := caller.seen + [world], pc := pc), r, false)
  {
  }

  class SafetyEnvelope<Q(!new), W(!new)> {
    const judge: Judge<Q, W>
    ghost const start: W
    /** The tables, the world around them, and where each call stands. */
    var system: State<Q, W>
    /** The run of the machine that led here. */
    ghost var events: seq<Event<Q, W>>

    constructor (judge: Judge<Q, W>, world: W)
      ensures Valid() && this.judge == judge && system == Start(world)
    {
      this.judge, start := judge, world;
      system, events := Start(world), [];
    }

    ghost predicate Valid()
      reads this
    {
      system == After(judge, start, events)
    }

    /** Call `c` stands as `caller` says. */
    ghost predicate At(c: nat, caller: Caller<Q, W>)
      reads this
    {
      c in system.callers && system.callers[c] == caller
    }

    function Stored(exec: ExecId): Records
      reads this
    {
      RecordsOf(system.db, exec)
    }

    ghost predicate Acted(c: nat)
      reads this
    {
      exists f :: f in system.effects && f.caller == c
    }

    /** The others get their turn. */
    method Meanwhile(ghost c: nat, ghost exec: ExecId, others: seq<Event<Q, W>>)
      requires Valid() && forall i | 0 <= i < |others| :: Foreign(c, others[i])
      modifies this
      ensures Valid()
      ensures c in system.callers <==> c in old(system.callers)
      ensures c in system.callers ==> system.callers[c] == old(system.callers[c])
      ensures Grows(old(Stored(exec)), Stored(exec))
      ensures old(OwnedBy(Stored(exec), c)) ==> Stored(exec) == old(Stored(exec))
      ensures !old(OwnedBy(Stored(exec), c)) ==> !OwnedBy(Stored(exec), c)
      ensures Acted(c) <==> old(Acted(c))
    {
      for i := 0 to |others|
        invariant Valid()
        invariant c in system.callers <==> c in old(system.callers)
        invariant c in system.callers ==> system.callers[c] == old(system.callers[c])
        invariant Grows(old(Stored(exec)), Stored(exec))
        invariant old(OwnedBy(Stored(exec), c)) ==> Stored(exec) == old(Stored(exec))
        invariant !old(OwnedBy(Stored(exec), c)) ==> !OwnedBy(Stored(exec), c)
        invariant Acted(c) <==> old(Acted(c))
      {
        InvAlways(judge, start, events);
        ForeignStep(judge, system, others[i], c, exec);
        AfterOneMore(judge, start, events, others[i]);
        system := Next(judge, system, others[i]);
        events := events + [others[i]];
      }
    }

    /** One step of the call: its records, its place and whether it runs the action. */
    method Step(c: nat, ghost choice: Choice, r: Records, next: Caller<Q, W>, acts: bool)
      requires Valid() && c in system.callers
      requires
        var caller := system.callers[c];
        Act(judge, system.world, c, caller, Stored(caller.exec), choice) == Outcome(next, r, acts)
      modifies this
      ensures Valid() && At(c, next)
      ensures Stored(old(system.callers[c].exec)) == r
      ensures Acted(c) <==> old(Acted(c)) || acts
    {
      ghost var before := system.effects;
      var exec := system.callers[c].exec;
      AfterOneMore(judge, start, events, Move(c, choice));
      system := State(
        system.db[exec := r],
        system.callers[c := next],
        system.world,
        if acts then system.effects + [Effect(exec, c)] else system.effects);
      events := events + [Move(c, choice)];
      if acts {
        assert Effect(exec, c) in system.effects;
      }
      assert forall f | f in before :: f in system.effects;
    }

    /** The others get their turn, then the owner of a row takes the next step of its stage. */
    method Proceed(
      c: nat, caller: Caller<Q, W>, r: Records, others: seq<Event<Q, W>>, ghost choice: Choice,
      after: Records, next: Caller<Q, W>, acts: bool)
      requires Valid() && At(c, caller) && OwnedBy(r, c) && Stored(caller.exec) == r
      requires forall i | 0 <= i < |others| :: Foreign(c, others[i])
      requires caller.pc.Owning? && FromAction(caller, caller.pc.stage, r, choice) == Outcome(next, after, acts)
      modifies this
      ensures Valid() && At(c, next) && Stored(caller.exec) == after
      ensures Acted(c) <==> old(Acted(c)) || acts
    {
      Meanwhile(c, caller.exec, others);
      Step(c, choice, after, next, acts);
    }

    lemma NoRowNoRecords(exec: ExecId)
      requires Valid() && Stored(exec).row.None?
      ensures Stored(exec) == NO_RECORDS
    {
      InvAlways(judge, start, events);
      assert RowOk(judge, system, exec);
    }

    /** Polls until the row settles or the waiting time is over; `looks` counts how often it looked. */
    method ResolveExisting(c: nat, caller: Caller<Q, W>, polls: nat, env: Meantime<Q, W>)
      returns (end: End, ghost looks: nat)
      requires Valid() && At(c, caller) && caller.pc == Preparing(Resolving) && Elsewhere(c, env)
      requires !OwnedBy(Stored(caller.exec), c)
      modifies this
      ensures Valid() && At(c, caller.(pc := Over(end)))
      ensures Grows(old(Stored(caller.exec)), Stored(caller.exec)) && !OwnedBy(Stored(caller.exec), c)
      ensures end == if Stored(caller.exec).row.Some? then Returned(Stored(caller.exec).row.value.status, true)
        else Raised
      ensures 1 <= looks <= polls + 1 && (EndsOnItsWay(end) ==> looks == polls + 1)
      ensures Acted(c) <==> old(Acted(c))
    {
      var left := polls;
      looks := 0;
      while true
        invariant Valid() && At(c, caller) && looks + left == polls
        invariant Grows(old(Stored(caller.exec)), Stored(caller.exec)) && !OwnedBy(Stored(caller.exec), c)
        invariant Acted(c) <==> old(Acted(c))
        decreases left
      {
        var seen := Poll(c, caller, left, env);
        looks := looks + 1;
        if seen.Some? {
          return seen.value, looks;
        }
        left := left - 1;
      }
    }

    /** Reads the row once; there is no answer yet while it is on its way and time is left. */
    method Poll(c: nat, caller: Caller<Q, W>, left: nat, env: Meantime<Q, W>) returns (end: Option<End>)
      requires Valid() && At(c, caller) && caller.pc == Preparing(Resolving) && Elsewhere(c, env)
      requires !OwnedBy(Stored(caller.exec), c)
      modifies this
      ensures Valid() && At(c, if end.Some? then caller.(pc := Over(end.value)) else caller)
      ensures Grows(old(Stored(caller.exec)), Stored(caller.exec)) && !OwnedBy(Stored(caller.exec), c)
      ensures
        var row := Stored(caller.exec).row;
        && (end.None? <==> row.Some? && OnItsWay(row.value.status) && left > 0)
        && (end.Some? ==> end.value == if row.Some? then Returned(row.value.status, true) else Raised)
      ensures Acted(c) <==> old(Acted(c))
    {
      Meanwhile(c, caller.exec, env(AtPoll(left)));
      var r := Stored(caller.exec);
      if r.row.Some? {
        SettledExactly(r.row.value.status);
      }
      if r.row.None? {
        end := Some(Raised);
        Step(c, Choice(true, false), r, caller.(pc := Over(Raised)), false);
      } else if r.row.value.status in SETTLED || left == 0 {
        var reply := Returned(r.row.value.status, true);
        end := Some(reply);
        Step(c, Choice(true, true), r, caller.(pc := Over(reply)), false);
      } else {
        end := None;
        Step(c, Choice(true, false), r, caller, false);
      }
    }

    /** Asks the gates in order, each in the world it finds, until one does not hold. */
    method AskGates(c: nat, caller: Caller<Q, W>, env: Meantime<Q, W>) returns (asked: Caller<Q, W>)
      requires Valid() && At(c, caller) && caller.pc == Preparing(Gating) && Elsewhere(c, env)
      requires caller.seen == [] && judge.gates > 0 && judge.valid(caller.request)
      requires !OwnedBy(Stored(caller.exec), c)
      modifies this
      ensures Valid() && At(c, asked) && asked == caller.(seen := asked.seen, pc := asked.pc)
      ensures asked.pc in {Preparing(Inserting), Preparing(Refusing), Over(Raised)}
      ensures asked.pc == Preparing(Inserting) <==> HasPassed(judge, caller.request, asked.seen)
      ensures asked.pc == Preparing(Refusing) <==> HasFailed(judge, caller.request, asked.seen)
      ensures asked.seen != []
      ensures Grows(old(Stored(caller.exec)), Stored(caller.exec)) && !OwnedBy(Stored(caller.exec), c)
      ensures Acted(c) <==> old(Acted(c))
    {
      asked := caller;
      while asked.pc == Preparing(Gating)
        invariant Valid() && At(c, asked) && asked == caller.(seen := asked.seen, pc := asked.pc)
        invariant asked.pc in {Preparing(Gating), Preparing(Inserting), Preparing(Refusing), Over(Raised)}
        invariant asked.pc == Preparing(Gating) ==>
          |asked.seen| < judge.gates && HeldSoFar(judge, caller.request, asked.seen)
        invariant asked.pc == Preparing(Inserting) ==> HasPassed(judge, caller.request, asked.seen)
        invariant asked.pc in {Preparing(Refusing), Over(Raised)} ==> !HasPassed(judge, caller.request, asked.seen)
        invariant asked.pc == Preparing(Refusing) <==> HasFailed(judge, caller.request, asked.seen)
        invariant asked.pc == Preparing(Gating) || asked.seen != []
        invariant Grows(old(Stored(caller.exec)), Stored(caller.exec)) && !OwnedBy(Stored(caller.exec), c)
        invariant Acted(c) <==> old(Acted(c))
        decreases judge.gates - |asked.seen|, asked.pc == Preparing(Gating)
      {
        asked := AskGate(c, asked, env);
      }
    }

    /** One gate. */
    method AskGate(c: nat, caller: Caller<Q, W>, env: Meantime<Q, W>) returns (asked: Caller<Q, W>)
      requires Valid() && At(c, caller) && caller.pc == Preparing(Gating) && Elsewhere(c, env)
      requires |caller.seen| < judge.gates && HeldSoFar(judge, caller.request, caller.seen)
      requires !OwnedBy(Stored(caller.exec), c)
      modifies this
      ensures Valid() && At(c, asked) && asked == caller.(seen := asked.seen, pc := asked.pc)
      ensures |asked.seen| == |caller.seen| + 1
      ensures asked.pc in {Preparing(Gating), Preparing(Inserting), Preparing(Refusing), Over(Raised)}
      ensures asked.pc == Preparing(Gating) ==>
        |asked.seen| < judge.gates && HeldSoFar(judge, caller.request, asked.seen)
      ensures asked.pc == Preparing(Inserting) ==> HasPassed(judge, caller.request, asked.seen)
      ensures asked.pc in {Preparing(Refusing), Over(Raised)} ==> !HasPassed(judge, caller.request, asked.seen)
      ensures asked.pc == Preparing(Refusing) <==> HasFailed(judge, caller.request, asked.seen)
      ensures Grows(old(Stored(caller.exec)), Stored(caller.exec)) && !OwnedBy(Stored(caller.exec), c)
      ensures Acted(c) <==> old(Acted(c))
    {
      var n := |caller.seen|;
      Meanwhile(c, caller.exec, env(AtGate(n)));
      var seen := caller.seen + [system.world];
      var pc;
      if !judge.holds(seen, caller.request, n) {
        pc := Preparing(Refusing);
      } else if n == 1 && judge.raises(caller.request) {
        pc := Over(Raised);
      } else {
        pc := Preparing(if n + 1 == judge.gates then Inserting else Gating);
      }
      GateAnswers(judge, caller.request, caller.seen, system.world);
      GateOutcome(judge, system.world, c, caller, Stored(caller.exec), pc);
      asked := caller.(seen := seen, pc := pc);
      Step(c, Choice(true, false), Stored(caller.exec), asked, false);
    }

    /** Inserts the blocked row of a refused request, unless another row is there already. */
    method PersistBlocked(c: nat, caller: Caller<Q, W>, a: Answers, env: Meantime<Q, W>)
      returns (end: End, ghost looks: nat)
      requires Valid() && At(c, caller) && caller.pc == Preparing(Refusing) && Elsewhere(c, env)
      requires !OwnedBy(Stored(caller.exec), c)
      modifies this
      ensures Valid() && At(c, caller.(pc := Over(end)))
      ensures Grows(old(Stored(caller.exec)), Stored(caller.exec)) && Tells(end, Stored(caller.exec), c)
      ensures Stored(caller.exec).row.None? || OwnedBy(Stored(caller.exec), c) ==>
        && end == (if a.blockedCommits then Returned(Blocked, false) else Raised)
        && Stored(caller.exec) == if a.blockedCommits then BlockedRecords(c, LastGate(caller)) else NO_RECORDS
      ensures looks <= a.polls + 1 && (EndsOnItsWay(end) ==> looks == a.polls + 1)
      ensures Acted(c) <==> old(Acted(c))
    {
      looks := 0;
      Meanwhile(c, caller.exec, env(AtBlocked));
      var r := Stored(caller.exec);
      if r.row.Some? {
        Step(c, Choice(true, false), r, caller.(pc := Preparing(Resolving)), false);
        end, looks := ResolveExisting(c, caller.(pc := Preparing(Resolving)), a.polls, env);
        return;
      }
      NoRowNoRecords(caller.exec);
      if a.blockedCommits {
        end := Returned(Blocked, false);
        Step(c, Choice(true, false), BlockedRecords(c, LastGate(caller)), caller.(pc := Over(end)), false);
      } else {
        end := Raised;
        Step(c, Choice(false, false), r, caller.(pc := Over(end)), false);
      }
    }

    /** After a failed commit: the row is tried again, as blocked. */
    method Salvage(c: nat, caller: Caller<Q, W>, a: Answers, env: Meantime<Q, W>) returns (end: End)
      requires Valid() && At(c, caller) && caller.pc == Preparing(Salvaging) && Elsewhere(c, env)
      requires !OwnedBy(Stored(caller.exec), c)
      modifies this
      ensures Valid() && At(c, caller.(pc := Over(end)))
      ensures Grows(old(Stored(caller.exec)), Stored(caller.exec)) && Tells(end, Stored(caller.exec), c)
      ensures OwnedBy(Stored(caller.exec), c) ==> Stored(caller.exec) == BlockedRecords(c, judge.gates)
      ensures Stored(caller.exec).row.None? || OwnedBy(Stored(caller.exec), c) ==>
        end == if a.salvageCommits then Returned(Blocked, false) else Raised
      ensures !EndsOnItsWay(end)
      ensures Acted(c) <==> old(Acted(c))
    {
      Meanwhile(c, caller.exec, env(AtSalvage));
      var r := Stored(caller.exec);
      if r.row.Some? || !a.salvageCommits {
        end := Raised;
        Step(c, Choice(a.salvageCommits, false), r, caller.(pc := Over(end)), false);
      } else {
        NoRowNoRecords(caller.exec);
        end := Returned(Blocked, false);
        Step(c, Choice(true, false), BlockedRecords(c, judge.gates), caller.(pc := Over(end)), false);
      }
    }

    /** The unique key clashed: the answer is the other call's row. */
    method YieldToExisting(c: nat, caller: Caller<Q, W>, a: Answers, env: Meantime<Q, W>)
      returns (end: End, ghost looks: nat)
      requires Valid() && At(c, caller) && caller.pc == Preparing(Inserting) && Elsewhere(c, env)
      requires !OwnedBy(Stored(caller.exec), c) && (Stored(caller.exec).row.Some? || a.insertClashes)
      modifies this
      ensures Valid() && At(c, caller.(pc := Over(end)))
      ensures Grows(old(Stored(caller.exec)), Stored(caller.exec)) && !OwnedBy(Stored(caller.exec), c)
      ensures end == if Stored(caller.exec).row.Some? then Returned(Stored(caller.exec).row.value.status, true)
        else Raised
      ensures looks <= a.polls + 1 && (EndsOnItsWay(end) ==> looks == a.polls + 1)
      ensures Acted(c) <==> old(Acted(c))
    {
      var resolving := caller.(pc := Preparing(Resolving));
      Step(c, Choice(true, true), Stored(caller.exec), resolving, false);
      end, looks := ResolveExisting(c, resolving, a.polls, env);
    }

    /** Flushes row and attempt and commits them as executing; a failed commit leaves a blocked row. */
    method CreateRecords(c: nat, caller: Caller<Q, W>, a: Answers, env: Meantime<Q, W>)
      returns (pc: Pc, ghost looks: nat)
      requires Valid() && At(c, caller) && caller.pc == Preparing(Inserting) && Elsewhere(c, env)
      requires !OwnedBy(Stored(caller.exec), c)
      modifies this
      ensures Valid() && At(c, caller.(pc := pc))
      ensures Grows(old(Stored(caller.exec)), Stored(caller.exec))
      ensures pc == Owning(Snapshotting) || pc.Over?
      ensures pc == Owning(Snapshotting) ==> RowGoesIn(a) && Stored(caller.exec) == Created(c, judge.gates)
      ensures pc.Over? ==> Tells(pc.end, Stored(caller.exec), c)
      ensures pc.Over? && OwnedBy(Stored(caller.exec), c) ==> Stored(caller.exec) == BlockedRecords(c, judge.gates)
      ensures pc.Over? && (Stored(caller.exec).row.None? || OwnedBy(Stored(caller.exec), c)) ==>
        !RowGoesIn(a) && pc.end == Reply(caller.rollbackSupported, a)
      ensures looks <= a.polls + 1 && (pc.Over? && EndsOnItsWay(pc.end) ==> looks == a.polls + 1)
      ensures Acted(c) <==> old(Acted(c))
    {
      looks := 0;
      Meanwhile(c, caller.exec, env(AtInsert));
      if Stored(caller.exec).row.Some? || a.insertClashes {
        var end;
        end, looks := YieldToExisting(c, caller, a, env);
        return Over(end), looks;
      }
      if !a.insertFlushes {
        Step(c, Choice(false, false), Stored(caller.exec), caller.(pc := Over(Raised)), false);
        return Over(Raised), 0;
      }
      Step(c, Choice(true, false), Stored(caller.exec), caller.(pc := Preparing(Committing)), false);
      pc := CommitCreation(c, caller.(pc := Preparing(Committing)), a, env);
    }

    method CommitCreation(c: nat, caller: Caller<Q, W>, a: Answers, env: Meantime<Q, W>) returns (pc: Pc)
      requires Valid() && At(c, caller) && caller.pc == Preparing(Committing) && Elsewhere(c, env)
      requires !OwnedBy(Stored(caller.exec), c) && !a.insertClashes && a.insertFlushes
      modifies this
      ensures Valid() && At(c, caller.(pc := pc))
      ensures Grows(old(Stored(caller.exec)), Stored(caller.exec))
      ensures pc == Owning(Snapshotting) || pc.Over?
      ensures pc == Owning(Snapshotting) ==> RowGoesIn(a) && Stored(caller.exec) == Created(c, judge.gates)
      ensures pc.Over? ==> Tells(pc.end, Stored(caller.exec), c)
      ensures pc.Over? && OwnedBy(Stored(caller.exec), c) ==> Stored(caller.exec) == BlockedRecords(c, judge.gates)
      ensures pc.Over? && (Stored(caller.exec).row.None? || OwnedBy(Stored(caller.exec), c)) ==>
        !RowGoesIn(a) && pc.end == Reply(caller.rollbackSupported, a)
      ensures pc.Over? ==> !EndsOnItsWay(pc.end)
      ensures Acted(c) <==> old(Acted(c))
    {
      Meanwhile(c, caller.exec, env(AtCommit));
      var entered := EnterExecuting();
      if Stored(caller.exec).row.Some? || a.commitClashes || entered.Invalid? {
        Step(c, Choice(true, true), Stored(caller.exec), caller.(pc := Preparing(Salvaging)), false);
        var end := Salvage(c, caller.(pc := Preparing(Salvaging)), a, env);
        return Over(end);
      }
      if !a.commitSucceeds {
        Step(c, Choice(false, false), Stored(caller.exec), caller.(pc := Over(Raised)), false);
        return Over(Raised);
      }
      NoRowNoRecords(caller.exec);
      var (status, attempt) := entered.value;
      var r := NO_RECORDS.(row := Some(Row(status, c, judge.gates)), attempt := Some(attempt));
      Step(c, Choice(true, false), r, caller.(pc := Owning(Snapshotting)), false);
      return Owning(Snapshotting);
    }

    /** Stores a snapshot when it can, then runs the action: no transaction is open across the call. */
    method Execute(c: nat, caller: Caller<Q, W>, r: Records, a: Answers, env: Meantime<Q, W>)
      returns (acting: Caller<Q, W>)
      requires Valid() && At(c, caller) && caller.pc == Owning(Snapshotting) && !caller.hasSnapshot && Elsewhere(c, env)
      requires OwnedBy(r, c) && Stored(caller.exec) == r && !r.snapshot
      modifies this
      ensures Valid() && At(c, acting)
      ensures acting == caller.(hasSnapshot := a.snapshotStored, pc := Owning(Stage.Acted(a.executed)))
      ensures Stored(caller.exec) == r.(snapshot := a.snapshotStored)
      ensures Acted(c)
    {
      var ready := caller.(hasSnapshot := a.snapshotStored, pc := Owning(Ready));
      var prepared := r.(snapshot := a.snapshotStored);
      Proceed(c, caller, r, env(AtSnapshot), Choice(true, a.snapshotStored), prepared, ready, false);
      acting := ready.(pc := Owning(Stage.Acted(a.executed)));
      Proceed(c, ready, prepared, env(AtAction), Choice(true, a.executed), prepared, acting, true);
    }

    /** Commits what the action reported and, after a success, what its verification found. */
    method CommitResult(c: nat, caller: Caller<Q, W>, r: Records, a: Answers, env: Meantime<Q, W>) returns (pc: Pc)
      requires Valid() && At(c, caller) && caller.pc == Owning(Stage.Acted(a.executed)) && Elsewhere(c, env)
      requires OwnedBy(r, c) && Stored(caller.exec) == r
      requires r.row.value.status == Executing && r.attempt == Some(AttemptExecuting)
      modifies this
      ensures Valid() && At(c, caller.(pc := pc))
      ensures pc ==
        if !a.resultCommits || (a.executed && !a.verdictCommits) then Over(Raised)
        else if a.executed && !a.verified then Owning(Staging) else Owning(Auditing)
      ensures Stored(caller.exec) ==
        if !a.resultCommits then r
        else if a.executed && !a.verdictCommits then Advanced(r, Verifying, AttemptVerifying)
        else Settled(r, a.executed, a.verified)
      ensures old(Acted(c)) ==> Acted(c)
    {
      ResultEdges(a.executed);
      ResultOutcome(caller, r, a.executed, a.resultCommits);
      var status := TransitionEnvelopeStatus(r.row.value.status, if a.executed then Verifying else ExecutionFailed);
      var attempt := SetAttempt(r.attempt.value, if a.executed then AttemptVerifying else AttemptExecutionFailed);
      if status.Invalid? || attempt.Invalid? || !a.resultCommits {
        pc := Over(Raised);
        Proceed(c, caller, r, env(AtResult), Choice(false, false), r, caller.(pc := pc), false);
        return;
      }
      var committed := Advanced(r, status.value, attempt.value);
      pc := Owning(if a.executed then AwaitingVerification else Auditing);
      var verifying := caller.(pc := pc);
      Proceed(c, caller, r, env(AtResult), Choice(true, false), committed, verifying, false);
      if !a.executed {
        return;
      }
      pc := Verify(c, verifying, committed, a, env);
    }

    method Verify(c: nat, caller: Caller<Q, W>, r: Records, a: Answers, env: Meantime<Q, W>) returns (pc: Pc)
      requires Valid() && At(c, caller) && caller.pc == Owning(AwaitingVerification) && Elsewhere(c, env)
      requires OwnedBy(r, c) && Stored(caller.exec) == r
      requires r.row.value.status == Verifying && r.attempt == Some(AttemptVerifying)
      modifies this
      ensures Valid() && At(c, caller.(pc := pc))
      ensures pc == if !a.verdictCommits then Over(Raised) else if a.verified then Owning(Auditing) else Owning(Staging)
      ensures Stored(caller.exec) == if a.verdictCommits then Judged(r, a.verified) else r
      ensures old(Acted(c)) ==> Acted(c)
    {
      var checked := caller.(pc := Owning(Checked(a.verified)));
      Proceed(c, caller, r, env(AtVerifier), Choice(true, a.verified), r, checked, false);
      pc := CommitVerdict(c, checked, r, a, env);
    }

    method CommitVerdict(c: nat, caller: Caller<Q, W>, r: Records, a: Answers, env: Meantime<Q, W>) returns (pc: Pc)
      requires Valid() && At(c, caller) && caller.pc == Owning(Checked(a.verified)) && Elsewhere(c, env)
      requires OwnedBy(r, c) && Stored(caller.exec) == r
      requires r.row.value.status == Verifying && r.attempt == Some(AttemptVerifying)
      modifies this
      ensures Valid() && At(c, caller.(pc := pc))
      ensures pc == if !a.verdictCommits then Over(Raised) else if a.verified then Owning(Auditing) else Owning(Staging)
      ensures Stored(caller.exec) == if a.verdictCommits then Judged(r, a.verified) else r
      ensures old(Acted(c)) ==> Acted(c)
    {
      VerdictEdges(a.verified);
      VerdictOutcome(caller, r, a.verified, a.verdictCommits);
      var status := TransitionEnvelopeStatus(r.row.value.status, if a.verified then Succeeded else VerificationFailed);
      var attempt := SetAttempt(r.attempt.value, if a.verified then AttemptSucceeded else AttemptVerificationFailed);
      if status.Invalid? || attempt.Invalid? || !a.verdictCommits {
        pc := Over(Raised);
        Proceed(c, caller, r, env(AtVerdict), Choice(false, false), r, caller.(pc := pc), false);
      } else {
        pc := Owning(if a.verified then Auditing else Staging);
        var committed := Advanced(r, status.value, attempt.value).(verification := Some(a.verified));
        Proceed(c, caller, r, env(AtVerdict), Choice(true, false), committed, caller.(pc := pc), false);
      }
    }

    /** Offers a rollback of a failed verification when there is something to roll back to. */
    method StageRollback(c: nat, caller: Caller<Q, W>, r: Records, a: Answers, env: Meantime<Q, W>) returns (pc: Pc)
      requires Valid() && At(c, caller) && caller.pc == Owning(Staging) && Elsewhere(c, env)
      requires OwnedBy(r, c) && Stored(caller.exec) == r
      requires r.row.value.status == VerificationFailed && r.attempt == Some(AttemptVerificationFailed)
      modifies this
      ensures Valid() && At(c, caller.(pc := pc))
      ensures pc == if caller.rollbackSupported && caller.hasSnapshot && !a.rollbackCommits then Over(Raised)
        else Owning(Auditing)
      ensures Stored(caller.exec) ==
        if caller.rollbackSupported && caller.hasSnapshot && a.rollbackCommits
        then Advanced(r, RollbackAvailable, AttemptRollbackAvailable).(rollback := true) else r
      ensures old(Acted(c)) ==> Acted(c)
    {
      pc := Owning(Auditing);
      if !(caller.rollbackSupported && caller.hasSnapshot) {
        Proceed(c, caller, r, env(AtRollback), Choice(true, false), r, caller.(pc := pc), false);
        return;
      }
      var status := TransitionEnvelopeStatus(r.row.value.status, RollbackAvailable);
      if status.Invalid? || !a.rollbackCommits {
        pc := Over(Raised);
        Proceed(c, caller, r, env(AtRollback), Choice(false, false), r, caller.(pc := pc), false);
      } else {
        var committed := Advanced(r, status.value, AttemptRollbackAvailable).(rollback := true);
        Proceed(c, caller, r, env(AtRollback), Choice(true, false), committed, caller.(pc := pc), false);
      }
    }

    /** The audit commit failed: a success may not stay one. */
    method DowngradeSuccess(c: nat, caller: Caller<Q, W>, r: Records, a: Answers, env: Meantime<Q, W>)
      requires Valid() && At(c, caller) && caller.pc == Owning(Downgrading) && Elsewhere(c, env)
      requires OwnedBy(r, c) && Stored(caller.exec) == r && !a.auditCommits
      modifies this
      ensures Valid() && At(c, caller.(pc := Owning(Finishing)))
      ensures Stored(caller.exec) == Finalized(r, a)
      ensures old(Acted(c)) ==> Acted(c)
    {
      var finishing := caller.(pc := Owning(Finishing));
      if r.row.value.status != Succeeded {
        Proceed(c, caller, r, env(AtDowngrade), Choice(true, false), r, finishing, false);
      } else if a.downgradeCommits {
        var downgraded := r.(row := Some(r.row.value.(status := ExecutionFailed)));
        Proceed(c, caller, r, env(AtDowngrade), Choice(true, false), downgraded, finishing, false);
      } else {
        Proceed(c, caller, r, env(AtDowngrade), Choice(false, false), r.(downgradeFailed := true), finishing, false);
      }
    }

    /** Commits the audit; a success whose audit fails is downgraded in a commit of its own. */
    method FinalizeAudit(c: nat, caller: Caller<Q, W>, r: Records, a: Answers, env: Meantime<Q, W>) returns (end: End)
      requires Valid() && At(c, caller) && caller.pc == Owning(Auditing) && Elsewhere(c, env)
      requires OwnedBy(r, c) && Stored(caller.exec) == r
      modifies this
      ensures Valid() && At(c, caller.(pc := Over(end)))
      ensures Stored(caller.exec) == Finalized(r, a)
      ensures end == Returned(Finalized(r, a).row.value.status, false)
      ensures old(Acted(c)) ==> Acted(c)
    {
      var finishing := caller.(pc := Owning(Finishing));
      if a.auditCommits {
        Proceed(c, caller, r, env(AtFinalize), Choice(true, false), r.(audited := true), finishing, false);
      } else {
        var downgrading := caller.(pc := Owning(Downgrading));
        Proceed(c, caller, r, env(AtFinalize), Choice(false, false), r, downgrading, false);
        DowngradeSuccess(c, downgrading, r, a, env);
      }
      end := ReportStatus(c, finishing, Finalized(r, a), env);
    }

    /** Reads the row again and returns its status. */
    method ReportStatus(c: nat, caller: Caller<Q, W>, ghost r: Records, env: Meantime<Q, W>) returns (end: End)
      requires Valid() && At(c, caller) && caller.pc == Owning(Finishing) && Elsewhere(c, env)
      requires OwnedBy(r, c) && Stored(caller.exec) == r
      modifies this
      ensures Valid() && At(c, caller.(pc := Over(end))) && Stored(caller.exec) == r
      ensures end == Returned(r.row.value.status, false)
      ensures old(Acted(c)) ==> Acted(c)
    {
      Meanwhile(c, caller.exec, env(AtReply));
      var row := Stored(caller.exec);
      end := Returned(row.row.value.status, false);
      Step(c, Choice(true, false), row, caller.(pc := Over(end)), false);
    }

    /** From the commit of the row as executing to the reply: nobody else can change the outcome. */
    method RunAction(c: nat, caller: Caller<Q, W>, a: Answers, env: Meantime<Q, W>) returns (end: End)
      requires Valid() && At(c, caller) && caller.pc == Owning(Snapshotting) && !caller.hasSnapshot && Elsewhere(c, env)
      requires Stored(caller.exec) == Created(c, judge.gates)
      modifies this
      ensures Valid() && c in system.callers && system.callers[c].pc == Over(end)
      ensures system.callers[c].exec == caller.exec && system.callers[c].request == caller.request
      ensures system.callers[c].seen == caller.seen
      ensures end == ReplyOnceCreated(caller.rollbackSupported, a)
      ensures Stored(caller.exec) == LeftBehind(c, judge.gates, caller.rollbackSupported, a)
      ensures Acted(c)
    {
      var acting := Execute(c, caller, Created(c, judge.gates), a, env);
      end := RunOn(c, acting, Stored(caller.exec), a, env);
    }

    /** Everything after the action. */
    method RunOn(c: nat, caller: Caller<Q, W>, r: Records, a: Answers, env: Meantime<Q, W>) returns (end: End)
      requires Valid() && At(c, caller) && caller.pc == Owning(Stage.Acted(a.executed)) && Elsewhere(c, env)
      requires OwnedBy(r, c) && Stored(caller.exec) == r && caller.hasSnapshot == a.snapshotStored
      requires r.row.value.status == Executing && r.attempt == Some(AttemptExecuting)
      modifies this
      ensures Valid() && At(c, caller.(pc := Over(end)))
      ensures end == ReplyOnceCreated(caller.rollbackSupported, a)
      ensures Stored(caller.exec) == FromResult(r, caller.rollbackSupported, a)
      ensures old(Acted(c)) ==> Acted(c)
    {
      var pc := CommitResult(c, caller, r, a, env);
      if pc.Over? {
        return pc.end;
      }
      end := Conclude(c, caller.(pc := pc), Stored(caller.exec), a, env);
    }

    /** Once result and verdict are in: the offer of a rollback, the audit and the reply. */
    method Conclude(c: nat, caller: Caller<Q, W>, r: Records, a: Answers, env: Meantime<Q, W>) returns (end: End)
      requires Valid() && At(c, caller) && Elsewhere(c, env) && OwnedBy(r, c) && Stored(caller.exec) == r
      requires caller.pc == Owning(if r.row.value.status == VerificationFailed then Staging else Auditing)
      requires r.row.value.status == VerificationFailed ==> r.attempt == Some(AttemptVerificationFailed)
      modifies this
      ensures Valid() && At(c, caller.(pc := Over(end)))
      ensures
        var offers := caller.rollbackSupported && caller.hasSnapshot;
        && Stored(caller.exec) == Concluded(r, offers, a)
        && end ==
           if r.row.value.status == VerificationFailed && offers && !a.rollbackCommits then Raised
           else Returned(Concluded(r, offers, a).row.value.status, false)
      ensures old(Acted(c)) ==> Acted(c)
    {
      var pc := caller.pc;
      if pc == Owning(Staging) {
        pc := StageRollback(c, caller, r, a, env);
      }
      if pc.Over? {
        return pc.end;
      }
      end := FinalizeAudit(c, caller.(pc := pc), Stored(caller.exec), a, env);
    }

    /** How things stand once a call is over. */
    ghost predicate RunIsOver(
      c: nat, exec: ExecId, seen: seq<W>, q: Q, rollbackSupported: bool, a: Answers, end: End)
      reads this
    {
      && Tells(end, Stored(exec), c)
      && (Acted(c) <==> OwnedBy(Stored(exec), c) && Stored(exec).row.value.status != Blocked)
      && (Acted(c) ==>
            && HasPassed(judge, q, seen)
            && end == ReplyOnceCreated(rollbackSupported, a)
            && Stored(exec) == LeftBehind(c, judge.gates, rollbackSupported, a))
      && (HasPassed(judge, q, seen) && (Stored(exec).row.None? || OwnedBy(Stored(exec), c)) ==>
            end == Reply(rollbackSupported, a) && (Acted(c) <==> RowGoesIn(a)))
      && (HasFailed(judge, q, seen) && (Stored(exec).row.None? || OwnedBy(Stored(exec), c)) ==>
            && end == (if a.blockedCommits then Returned(Blocked, false) else Raised)
            && Stored(exec) == if a.blockedCommits then BlockedRecords(c, |seen| - 1) else NO_RECORDS)
      && (seen != [] && !HasPassed(judge, q, seen) && !HasFailed(judge, q, seen) ==> end == Raised)
    }

    /**
      * A whole call among all others. It replies with a status that is committed, of its own
      * row or of somebody else's; it runs the action exactly when the row became its own as
      * executing, which takes that all gates held; from then on reply and records depend on
      * database, action and verifier alone. If a row was there before, the call is a replay.
      */
    method Run(c: nat, exec: ExecId, q: Q, rollbackSupported: bool, a: Answers, env: Meantime<Q, W>)
      returns (end: End, ghost looks: nat)
      requires Valid() && c !in system.callers && judge.gates > 0 && Elsewhere(c, env)
      modifies this
      ensures Valid() && c in system.callers && system.callers[c].pc == Over(end)
      ensures system.callers[c].exec == exec && system.callers[c].request == q
      ensures !judge.valid(q) ==> end == Raised
      ensures judge.valid(q) && old(Stored(exec)).row.Some? ==> end.Returned? && end.existing
      ensures RunIsOver(c, exec, system.callers[c].seen, q, rollbackSupported, a, end)
      ensures looks <= a.polls + 1
      ensures end.Returned? && end.status in {SafetyCheck, Executing, Verifying, RollbackRequested, RollingBack} ==>
        end.existing && looks == a.polls + 1
    {
      looks := 0;
      NewCallOwnsNothing(c, exec);
      var caller := Arrives(c, exec, q, rollbackSupported);
      Meanwhile(c, exec, env(AtReplay));
      if !judge.valid(q) {
        Step(c, Choice(true, false), Stored(exec), caller.(pc := Over(Raised)), false);
        return Raised, 0;
      }
      if Stored(exec).row.Some? {
        end, looks := Replay(c, caller, a, env);
        return;
      }
      Step(c, Choice(true, false), Stored(exec), caller.(pc := Preparing(Gating)), false);
      end, looks := RunGated(c, caller.(pc := Preparing(Gating)), a, env);
    }

    /** A row is there already: the call only waits for it. */
    method Replay(c: nat, caller: Caller<Q, W>, a: Answers, env: Meantime<Q, W>) returns (end: End, ghost looks: nat)
      requires Valid() && At(c, caller) && caller.pc == Preparing(Arrived) && caller.seen == []
      requires judge.gates > 0 && judge.valid(caller.request) && Elsewhere(c, env)
      requires Stored(caller.exec).row.Some? && !OwnedBy(Stored(caller.exec), c) && !Acted(c)
      modifies this
      ensures Valid() && At(c, caller.(pc := Over(end))) && end.Returned? && end.existing
      ensures RunIsOver(c, caller.exec, caller.seen, caller.request, caller.rollbackSupported, a, end)
      ensures looks <= a.polls + 1 && (OnItsWay(end.status) ==> looks == a.polls + 1)
    {
      Step(c, Choice(true, false), Stored(caller.exec), caller.(pc := Preparing(Resolving)), false);
      end, looks := ResolveExisting(c, caller.(pc := Preparing(Resolving)), a.polls, env);
    }

    /** From the first gate on. */
    method RunGated(c: nat, caller: Caller<Q, W>, a: Answers, env: Meantime<Q, W>)
      returns (end: End, ghost looks: nat)
      requires Valid() && At(c, caller) && caller.pc == Preparing(Gating) && caller.seen == [] && !caller.hasSnapshot
      requires judge.gates > 0 && judge.valid(caller.request) && Elsewhere(c, env)
      requires !OwnedBy(Stored(caller.exec), c) && !Acted(c)
      modifies this
      ensures Valid() && c in system.callers && system.callers[c].pc == Over(end)
      ensures system.callers[c].exec == caller.exec && system.callers[c].request == caller.request
      ensures RunIsOver(c, caller.exec, system.callers[c].seen, caller.request, caller.rollbackSupported, a, end)
      ensures looks <= a.polls + 1
      ensures end.Returned? && OnItsWay(end.status) ==> end.existing && looks == a.polls + 1
    {
      var asked := AskGates(c, caller, env);
      if asked.pc.Over? {
        return Raised, 0;
      }
      if asked.pc == Preparing(Refusing) {
        end, looks := PersistBlocked(c, asked, a, env);
        return;
      }
      var pc;
      pc, looks := CreateRecords(c, asked, a, env);
      if pc.Over? {
        return pc.end, looks;
      }
      end := RunAction(c, asked.(pc := pc), a, env);
      OwnRowRan(asked.rollbackSupported, a, c);
    }

    /** The row of a call that ran its action is its own, and not blocked. */
    lemma OwnRowRan(rollbackSupported: bool, a: Answers, c: nat)
      ensures
        var r := LeftBehind(c, judge.gates, rollbackSupported, a);
        OwnedBy(r, c) && r.row.value.status != Blocked && Tells(ReplyOnceCreated(rollbackSupported, a), r, c)
      ensures
        var end := ReplyOnceCreated(rollbackSupported, a);
        end.Returned? ==> !OnItsWay(end.status)
    {
    }

    /** The call comes in. */
    method Arrives(c: nat, exec: ExecId, q: Q, rollbackSupported: bool) returns (caller: Caller<Q, W>)
      requires Valid() && c !in system.callers
      modifies this
      ensures Valid() && At(c, caller) && caller == Caller(exec, q, rollbackSupported, [], false, Preparing(Arrived))
      ensures system.db == old(system.db) && system.effects == old(system.effects)
    {
      caller := Caller(exec, q, rollbackSupported, [], false, Preparing(Arrived));
      AfterOneMore(judge, start, events, Arrive(c, exec, q, rollbackSupported));
      system := system.(callers := system.callers[c := caller]);
      events := events + [Arrive(c, exec, q, rollbackSupported)];
    }

    /** A call that has not come in yet owns no row and has run nothing. */
    lemma NewCallOwnsNothing(c: nat, exec: ExecId)
      requires Valid() && c !in system.callers
      ensures !OwnedBy(Stored(exec), c) && !Acted(c)
    {
      InvAlways(judge, start, events);
      assert RowOk(judge, system, exec);
      forall f | f in system.effects ensures f.caller != c {
        var i :| 0 <= i < |system.effects| && system.effects[i] == f;
        assert EffectOk(system, system.effects[i]);
      }
    }
  }
}
