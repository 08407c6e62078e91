/** Safety of the envelope over every interleaving, with crashes and database errors anywhere. */
module EnvelopeLaws {
  import opened Wrappers
  import opened Envelope

  // ----- The invariant -----

  /** Gate n held in the world it was asked in, the last of seen[..n + 1]. */
  predicate GateHeld<Q, W>(j: Judge<Q, W>, q: Q, seen: seq<W>, n: nat)
    requires n < |seen|
  {
    j.holds(seen[..n + 1], q, n)
  }

  /** The request was well formed, evaluating it did not raise, and every gate asked so far held. */
  ghost predicate HeldSoFar<Q, W>(j: Judge<Q, W>, q: Q, seen: seq<W>) {
    && |seen| <= j.gates
    && j.valid(q)
    && (|seen| > 1 ==> !j.raises(q))
    && forall n | 0 <= n < |seen| :: GateHeld(j, q, seen, n)
  }

  ghost predicate HasPassed<Q, W>(j: Judge<Q, W>, q: Q, seen: seq<W>) {
    |seen| == j.gates && HeldSoFar(j, q, seen)
  }

  /** The last gate that was asked is the first that did not hold. */
  ghost predicate HasFailed<Q, W>(j: Judge<Q, W>, q: Q, seen: seq<W>) {
    && 0 < |seen| <= j.gates
    && (forall n | 0 <= n < |seen| - 1 :: GateHeld(j, q, seen, n))
    && !GateHeld(j, q, seen, |seen| - 1)
  }

  /** A blocked row tells how many gates had passed: all before the one that failed, or all there are. */
  ghost predicate TellsGates<Q, W>(j: Judge<Q, W>, caller: Caller<Q, W>, passed: nat) {
    if passed == j.gates then HasPassed(j, caller.request, caller.seen)
    else HasFailed(j, caller.request, caller.seen) && passed == |caller.seen| - 1
  }

  /** The committed status that goes with each stage of the owning call. */
  predicate Fits(stage: Stage, status: Status) {
    match stage
    case Snapshotting => status == Executing
    case Ready => status == Executing
    case Acted(_) => status == Executing
    case AwaitingVerification => status == Verifying
    case Checked(_) => status == Verifying
    case Staging => status == VerificationFailed
    case _ =>
      || status == Succeeded
      || status == ExecutionFailed
      || status == VerificationFailed
      || status == RollbackAvailable
  }

  predicate OwnedBy(r: Records, c: nat) { r.row.Some? && r.row.value.creator == c }

  /** A succeeded row is through with its audit: it has one, or even the downgrade failed. */
  predicate AuditSettled(r: Records) { r.audited || r.downgradeFailed }

  /** The records fit the stage, and no audit is there before its own commit. */
  predicate StageOk(stage: Stage, r: Records)
    requires r.row.Some?
  {
    && Fits(stage, r.row.value.status)
    && (if stage.Finishing? then r.row.value.status == Succeeded ==> AuditSettled(r) else !AuditSettled(r))
  }

  /** The call that created the row is where the committed records say it is. */
  predicate OwnerOk(pc: Pc, hasSnapshot: bool, r: Records)
    requires r.row.Some?
  {
    var status := r.row.value.status;
    && (hasSnapshot ==> r.snapshot)
    && match pc
       case Preparing(_) => false
       case Owning(stage) => StageOk(stage, r)
       case Over(Returned(s, existing)) => !existing && s == status && (status == Succeeded ==> AuditSettled(r))
       case Over(Raised) => status == Executing || status == Verifying || status == VerificationFailed
       case Over(Crashed(at)) => at.Some? && StageOk(at.value, r)
  }

  /** Any other call has neither changed nor claimed anything. */
  ghost predicate CandidateOk<Q, W>(j: Judge<Q, W>, caller: Caller<Q, W>) {
    match caller.pc
    case Preparing(p) =>
      && !caller.hasSnapshot
      && (p.Arrived? ==> caller.seen == [])
      && (p.Gating? ==> HeldSoFar(j, caller.request, caller.seen) && (j.gates > 0 ==> |caller.seen| < j.gates))
      && (p.Refusing? ==> HasFailed(j, caller.request, caller.seen))
      && (p.Inserting? || p.Committing? || p.Salvaging? ==> HasPassed(j, caller.request, caller.seen))
    case Owning(_) => false
    case Over(Returned(_, existing)) => existing
    case Over(_) => true
  }

  ghost predicate CallerOk<Q, W>(j: Judge<Q, W>, c: nat, caller: Caller<Q, W>, r: Records) {
    if OwnedBy(r, c) then
      && OwnerOk(caller.pc, caller.hasSnapshot, r)
      && (r.row.value.status != Blocked ==> HasPassed(j, caller.request, caller.seen))
      && (r.row.value.status == Blocked ==> TellsGates(j, caller, r.row.value.passed))
    else CandidateOk(j, caller)
  }

  /** Row, attempt and verification tell the same story, except after the downgrade. */
  predicate Corresponds(status: Status, attempt: Option<AttemptStatus>, verification: Option<bool>) {
    match status
    case Blocked => attempt.None? && verification.None?
    case Executing => attempt == Some(AttemptExecuting) && verification.None?
    case Verifying => attempt == Some(AttemptVerifying) && verification.None?
    case Succeeded => attempt == Some(AttemptSucceeded) && verification == Some(true)
    case ExecutionFailed =>
      || (attempt == Some(AttemptExecutionFailed) && verification.None?)
      || (attempt == Some(AttemptSucceeded) && verification == Some(true))
    case VerificationFailed => attempt == Some(AttemptVerificationFailed) && verification == Some(false)
    case RollbackAvailable => attempt == Some(AttemptRollbackAvailable) && verification == Some(false)
    case _ => false
  }

  /** What the records of one execution say together. */
  predicate RecordsOk(r: Records) {
    if r.row.None? then r == NO_RECORDS
    else
      && Corresponds(r.row.value.status, r.attempt, r.verification)
      && (r.rollback <==> r.row.value.status == RollbackAvailable)
      && (r.rollback ==> r.snapshot)
      && !(r.audited && r.downgradeFailed)
  }

  ghost predicate RowOk<Q, W>(j: Judge<Q, W>, st: State<Q, W>, exec: ExecId) {
    var r := RecordsOf(st.db, exec);
    && RecordsOk(r)
    && (r.row.Some? ==>
          && r.row.value.creator in st.callers
          && st.callers[r.row.value.creator].exec == exec
          && (r.row.value.status != Blocked ==> r.row.value.passed == j.gates))
  }

  /** Which calls may already have run their action. */
  predicate MayHaveActed(pc: Pc) {
    match pc
    case Preparing(_) => false
    case Owning(stage) => !stage.Snapshotting? && !stage.Ready?
    case Over(_) => true
  }

  ghost predicate EffectOk<Q, W>(st: State<Q, W>, f: Effect) {
    && f.caller in st.callers
    && st.callers[f.caller].exec == f.exec
    && MayHaveActed(st.callers[f.caller].pc)
    && OwnedBy(RecordsOf(st.db, f.exec), f.caller)
    && RecordsOf(st.db, f.exec).row.value.status != Blocked
  }

  ghost predicate AtMostOnce(effects: seq<Effect>) {
    forall i, k | 0 <= i < k < |effects| :: effects[i].exec != effects[k].exec
  }

  ghost predicate CallersOk<Q, W>(j: Judge<Q, W>, st: State<Q, W>) {
    forall c | c in st.callers :: CallerOk(j, c, st.callers[c], RecordsOf(st.db, st.callers[c].exec))
  }

  ghost predicate RowsOk<Q, W>(j: Judge<Q, W>, st: State<Q, W>) { forall exec :: RowOk(j, st, exec) }

  ghost predicate EffectsOk<Q, W>(st: State<Q, W>) {
    && (forall i | 0 <= i < |st.effects| :: EffectOk(st, st.effects[i]))
    && AtMostOnce(st.effects)
  }

  ghost predicate Inv<Q, W>(j: Judge<Q, W>, st: State<Q, W>) {
    CallersOk(j, st) && RowsOk(j, st) && EffectsOk(st)
  }

  // ----- What one step of the owner does -----

  /** The owner's step along the row's lifecycle: nothing, an edge of the table, or the downgrade. */
  predicate StatusMoves(a: Status, b: Status) {
    a == b || b in Successors(a) || (a == Succeeded && b == ExecutionFailed)
  }

  predicate AttemptMoves(a: Option<AttemptStatus>, b: Option<AttemptStatus>) {
    a == b || (a.Some? && b.Some? && b.value in AttemptSuccessors(a.value))
  }

  /** What no step takes away from an execution's records. */
  predicate Grows(r: Records, s: Records) {
    && (r.row.Some? ==>
      s.row.Some? && s.row.value.creator == r.row.value.creator && s.row.value.passed == r.row.value.passed)
    && (r.snapshot ==> s.snapshot)
    && (r.verification.Some? ==> s.verification == r.verification)
    && (r.rollback ==> s.rollback)
    && (r.audited ==> s.audited)
    && (r.downgradeFailed ==> s.downgradeFailed)
  }

  ghost predicate OwnerStep<Q, W>(c: nat, caller: Caller<Q, W>, r: Records, o: Outcome<Q, W>)
    requires r.row.Some?
  {
    && o.caller.exec == caller.exec && o.caller.request == caller.request && o.caller.seen == caller.seen
    && OwnedBy(o.records, c)
    && OwnerOk(o.caller.pc, o.caller.hasSnapshot, o.records)
    && RecordsOk(o.records)
    && OwnerEffect(c, caller, r, o)
  }

  ghost predicate OwnerEffect<Q, W>(c: nat, caller: Caller<Q, W>, r: Records, o: Outcome<Q, W>)
    requires r.row.Some? && o.records.row.Some?
  {
    && Grows(r, o.records)
    && (r.row.value.status == Blocked <==> o.records.row.value.status == Blocked)
    && (MayHaveActed(caller.pc) ==> MayHaveActed(o.caller.pc))
    && (o.acts ==> !MayHaveActed(caller.pc) && MayHaveActed(o.caller.pc))
  }

  lemma OwnerSteps<Q, W>(c: nat, caller: Caller<Q, W>, stage: Stage, r: Records, choice: Choice)
    requires OwnedBy(r, c) && RecordsOk(r) && caller.pc == Owning(stage)
    requires OwnerOk(caller.pc, caller.hasSnapshot, r)
    ensures OwnerStep(c, caller, r, FromAction(caller, stage, r, choice))
  {
    match stage
    case Snapshotting => OwnerActs(c, caller, stage, r, choice);
    case Ready => OwnerActs(c, caller, stage, r, choice);
    case Acted(_) => OwnerActs(c, caller, stage, r, choice);
    case AwaitingVerification => OwnerVerifies(c, caller, stage, r, choice);
    case Checked(_) => OwnerVerifies(c, caller, stage, r, choice);
    case Staging => OwnerVerifies(c, caller, stage, r, choice);
    case _ => OwnerAudits(c, caller, stage, r, choice);
  }

  lemma OwnerActs<Q, W>(c: nat, caller: Caller<Q, W>, stage: Stage, r: Records, choice: Choice)
    requires OwnedBy(r, c) && RecordsOk(r) && caller.pc == Owning(stage)
    requires OwnerOk(caller.pc, caller.hasSnapshot, r)
    requires stage.Snapshotting? || stage.Ready? || stage.Acted?
    ensures OwnerStep(c, caller, r, FromAction(caller, stage, r, choice))
  {
    OwnerEffects(c, caller, stage, r, choice);
  }

  lemma OwnerVerifies<Q, W>(c: nat, caller: Caller<Q, W>, stage: Stage, r: Records, choice: Choice)
    requires OwnedBy(r, c) && RecordsOk(r) && caller.pc == Owning(stage)
    requires OwnerOk(caller.pc, caller.hasSnapshot, r)
    requires stage.AwaitingVerification? || stage.Checked? || stage.Staging?
    ensures OwnerStep(c, caller, r, FromAction(caller, stage, r, choice))
  {
    OwnerEffects(c, caller, stage, r, choice);
  }

  lemma OwnerAudits<Q, W>(c: nat, caller: Caller<Q, W>, stage: Stage, r: Records, choice: Choice)
    requires OwnedBy(r, c) && RecordsOk(r) && caller.pc == Owning(stage)
    requires OwnerOk(caller.pc, caller.hasSnapshot, r)
    requires stage.Auditing? || stage.Downgrading? || stage.Finishing?
    ensures OwnerStep(c, caller, r, FromAction(caller, stage, r, choice))
  {
    OwnerEffects(c, caller, stage, r, choice);
  }

  lemma OwnerEffects<Q, W>(c: nat, caller: Caller<Q, W>, stage: Stage, r: Records, choice: Choice)
    requires OwnedBy(r, c) && RecordsOk(r) && caller.pc == Owning(stage)
    requires OwnerOk(caller.pc, caller.hasSnapshot, r)
    ensures FromAction(caller, stage, r, choice).records.row.Some?
    ensures OwnerEffect(c, caller, r, FromAction(caller, stage, r, choice))
  {
  }

  /** Before the first commit a row leaves safety_check and an attempt is led to executing, edge by edge. */
  lemma CreationFollowsTheTables()
    ensures Executing in Successors(SafetyCheck) && Blocked in Successors(SafetyCheck)
    ensures forall i | 0 <= i < |CREATION| - 1 :: CREATION[i + 1] in AttemptSuccessors(CREATION[i])
  {
    forall i | 0 <= i < |CREATION| - 1 ensures CREATION[i + 1] in AttemptSuccessors(CREATION[i]) {
      assert i == 0 || i == 1 || i == 2;
    }
  }

  lemma OwnerMoves<Q, W>(c: nat, caller: Caller<Q, W>, stage: Stage, r: Records, choice: Choice)
    requires OwnedBy(r, c) && RecordsOk(r) && caller.pc == Owning(stage)
    requires OwnerOk(caller.pc, caller.hasSnapshot, r)
    ensures StatusMoves(r.row.value.status, FromAction(caller, stage, r, choice).records.row.value.status)
    ensures AttemptMoves(r.attempt, FromAction(caller, stage, r, choice).records.attempt)
  {
  }

  // ----- What one step of any other call does -----

  /** The commit that makes a caller the owner, already executing or already blocked. */
  ghost predicate Creates<Q, W>(j: Judge<Q, W>, c: nat, caller: Caller<Q, W>, r: Records, o: Outcome<Q, W>) {
    && r.row.None?
    && o.caller.seen == caller.seen
    && ( || (&& o.records == r.(row := Some(Row(Executing, c, j.gates)), attempt := Some(AttemptExecuting))
             && o.caller.pc == Owning(Snapshotting)
             && HasPassed(j, caller.request, caller.seen))
         || (&& o.records.row.Some?
             && o.records == r.(row := Some(Row(Blocked, c, o.records.row.value.passed)), attempt := None)
             && TellsGates(j, caller, o.records.row.value.passed)
             && o.caller.pc == Over(Returned(Blocked, false))))
  }

  lemma AskedGatesHeld<Q, W>(j: Judge<Q, W>, q: Q, seen: seq<W>, world: W)
    requires HeldSoFar(j, q, seen) && |seen| < j.gates && j.holds(seen + [world], q, |seen|)
    requires |seen| == 1 ==> !j.raises(q)
    ensures HeldSoFar(j, q, seen + [world])
  {
    var asked := seen + [world];
    forall n | 0 <= n < |asked| ensures GateHeld(j, q, asked, n) {
      if n < |seen| {
        assert GateHeld(j, q, seen, n);
        assert asked[..n + 1] == seen[..n + 1];
      } else {
        assert asked[..n + 1] == asked;
      }
    }
  }

  lemma AskedGateFails<Q, W>(j: Judge<Q, W>, q: Q, seen: seq<W>, world: W)
    requires HeldSoFar(j, q, seen) && |seen| < j.gates && !j.holds(seen + [world], q, |seen|)
    ensures HasFailed(j, q, seen + [world])
  {
    var asked := seen + [world];
    forall n | 0 <= n < |seen| ensures GateHeld(j, q, asked, n) {
      assert GateHeld(j, q, seen, n);
      assert asked[..n + 1] == seen[..n + 1];
    }
    assert asked[..|seen| + 1] == asked;
  }

  lemma CandidateSteps<Q, W>(j: Judge<Q, W>, world: W, c: nat, caller: Caller<Q, W>, p: Preparation, r: Records,
                               choice: Choice)
    requires CandidateOk(j, caller) && caller.pc == Preparing(p)
    ensures var o := BeforeAction(j, world, c, caller, p, r, choice);
            && o.caller.exec == caller.exec && o.caller.request == caller.request &&
              o.caller.hasSnapshot == caller.hasSnapshot
            && !o.acts
            && ((o.records == r && CandidateOk(j, o.caller)) || Creates(j, c, caller, r, o))
  {
    if p.Gating? && |caller.seen| < j.gates && !j.holds(caller.seen + [world], caller.request, |caller.seen|) {
      AskedGateFails(j, caller.request, caller.seen, world);
    }
    if p.Gating? && |caller.seen| < j.gates && j.holds(caller.seen + [world], caller.request, |caller.seen|)
       && !(|caller.seen| == 1 && j.raises(caller.request)) {
      AskedGatesHeld(j, caller.request, caller.seen, world);
    }
  }

  // ----- Every run keeps the invariant -----

  /** What a step means for the records of the mover's execution, whoever the mover is. */
  ghost predicate StepOk<Q, W>(j: Judge<Q, W>, c: nat, caller: Caller<Q, W>, r: Records, o: Outcome<Q, W>) {
    && o.caller.exec == caller.exec
    && o.caller.request == caller.request
    && (o.acts ==> OwnedBy(r, c) && r.row.value.status == Executing && !MayHaveActed(caller.pc))
    && CallerOk(j, c, o.caller, o.records)
    && RecordsOk(o.records)
    && Grows(r, o.records)
    && (o.records != r ==> OwnedBy(o.records, c))
    && (o.acts || (OwnedBy(r, c) && MayHaveActed(caller.pc)) ==> OwnedBy(o.records, c) && MayHaveActed(o.caller.pc))
    && (r.row.None? && o.records.row.Some? && o.records.row.value.status != Blocked ==>
      o.records.row.value.passed == j.gates)
    && (r.row.Some? ==> (r.row.value.status == Blocked <==> o.records.row.value.status == Blocked))
  }

  lemma StepIsOk<Q, W>(j: Judge<Q, W>, world: W, c: nat, caller: Caller<Q, W>, r: Records, choice: Choice)
    requires CallerOk(j, c, caller, r) && RecordsOk(r)
    ensures StepOk(j, c, caller, r, Act(j, world, c, caller, r, choice))
  {
    match caller.pc
    case Preparing(p) => CandidateSteps(j, world, c, caller, p, r, choice);
    case Owning(stage) => OwnerSteps(c, caller, stage, r, choice);
    case Over(_) =>
  }

  lemma MoveKeepsCallers<Q, W>(j: Judge<Q, W>, st: State<Q, W>, c: nat, choice: Choice)
    requires CallersOk(j, st) && RowsOk(j, st) && c in st.callers
    ensures CallersOk(j, Next(j, st, Move(c, choice)))
  {
    var caller := st.callers[c];
    var r := RecordsOf(st.db, caller.exec);
    var after := Next(j, st, Move(c, choice));
    assert RowOk(j, st, caller.exec);
    StepIsOk(j, st.world, c, caller, r, choice);
    forall d | d in after.callers ensures CallerOk(j, d, after.callers[d], RecordsOf(after.db, after.callers[d].exec)) {
      if d != c {
        assert CallerOk(j, d, st.callers[d], RecordsOf(st.db, st.callers[d].exec));
      }
    }
  }

  lemma MoveKeepsRows<Q, W>(j: Judge<Q, W>, st: State<Q, W>, c: nat, choice: Choice)
    requires CallersOk(j, st) && RowsOk(j, st) && c in st.callers
    ensures RowsOk(j, Next(j, st, Move(c, choice)))
  {
    var caller := st.callers[c];
    var r := RecordsOf(st.db, caller.exec);
    var after := Next(j, st, Move(c, choice));
    assert RowOk(j, st, caller.exec);
    StepIsOk(j, st.world, c, caller, r, choice);
    forall exec ensures RowOk(j, after, exec) {
      assert RowOk(j, st, exec);
    }
  }

  lemma MoveKeepsEffects<Q, W>(j: Judge<Q, W>, st: State<Q, W>, c: nat, choice: Choice)
    requires CallersOk(j, st) && RowsOk(j, st) && EffectsOk(st) && c in st.callers
    ensures EffectsOk(Next(j, st, Move(c, choice)))
  {
    var caller := st.callers[c];
    var r := RecordsOf(st.db, caller.exec);
    var after := Next(j, st, Move(c, choice));
    assert RowOk(j, st, caller.exec);
    StepIsOk(j, st.world, c, caller, r, choice);
    forall i | 0 <= i < |after.effects| ensures EffectOk(after, after.effects[i]) {
      if i < |st.effects| { assert EffectOk(st, st.effects[i]); }
    }
    forall i, k | 0 <= i < k < |after.effects| ensures after.effects[i].exec != after.effects[k].exec {
      assert EffectOk(st, st.effects[i]);
    }
  }

  lemma StepKeepsInv<Q, W>(j: Judge<Q, W>, st: State<Q, W>, e: Event<Q, W>)
    requires Inv(j, st)
    ensures Inv(j, Next(j, st, e))
  {
    var after := Next(j, st, e);
    match e
    case Move(c, choice) =>
      if c in st.callers {
        MoveKeepsCallers(j, st, c, choice);
        MoveKeepsRows(j, st, c, choice);
        MoveKeepsEffects(j, st, c, choice);
      }
    case Change(world) => CallersMayChange(j, st, after);
    case Arrive(c, exec, q, rollback) => CallersMayChange(j, st, after);
    case Crash(c) => CallersMayChange(j, st, after);
  }

  /** Arrivals, crashes and a changing world touch neither tables nor effects. */
  lemma CallersMayChange<Q, W>(j: Judge<Q, W>, st: State<Q, W>, after: State<Q, W>)
    requires Inv(j, st) && after.db == st.db && after.effects == st.effects
    requires forall c | c in st.callers :: c in after.callers &&
               (after.callers[c] == st.callers[c]
                || (!st.callers[c].pc.Over? &&
                  after.callers[c] == st.callers[c].(pc := Over(Crashed(StageOf(st.callers[c].pc))))))
    requires forall c | c in after.callers && c !in st.callers ::
               after.callers[c].pc == Preparing(Arrived) && after.callers[c].seen == [] && !after.callers[c].hasSnapshot
    ensures Inv(j, after)
  {
    forall c | c in after.callers ensures CallerOk(j, c, after.callers[c], RecordsOf(after.db, after.callers[c].exec)) {
      assert RowOk(j, st, after.callers[c].exec);
      if c in st.callers { assert CallerOk(j, c, st.callers[c], RecordsOf(st.db, st.callers[c].exec)); }
    }
    forall exec ensures RowOk(j, after, exec) {
      assert RowOk(j, st, exec);
    }
    forall i | 0 <= i < |after.effects| ensures EffectOk(after, after.effects[i]) {
      assert EffectOk(st, st.effects[i]);
    }
  }

  lemma {:induction false} InvAlways<Q, W>(j: Judge<Q, W>, world: W, es: seq<Event<Q, W>>)
    ensures Inv(j, After(j, world, es))
  {
    if es != [] {
      InvAlways(j, world, es[..|es| - 1]);
      StepKeepsInv(j, After(j, world, es[..|es| - 1]), es[|es| - 1]);
    }
  }
}
