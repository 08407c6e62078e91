/**
  * The safety envelope as callers that interleave over shared tables. One step is
  * everything between two points where another caller, a crash or a database error
  * may come in between; a commit is one step.
  */
module Envelope {
  import opened Wrappers

  // ----- Lifecycles -----

  datatype Status =
    | SafetyCheck | Executing | Verifying | Succeeded | VerificationFailed | ExecutionFailed
    | RollbackAvailable | RollbackRequested | RollingBack | RolledBack | RollbackFailed | Blocked

  /** The envelope's transition table. */
  function Successors(s: Status): set<Status> {
    match s
    case SafetyCheck => {Executing, Blocked}
    case Executing => {Verifying, ExecutionFailed, Blocked}
    case Verifying => {Succeeded, VerificationFailed, ExecutionFailed}
    case VerificationFailed => {RollbackAvailable, RollbackFailed}
    case ExecutionFailed => {RollbackAvailable, RollbackFailed}
    case RollbackAvailable => {RollbackRequested, Blocked}
    case RollbackRequested => {RollingBack}
    case RollingBack => {RolledBack, RollbackFailed}
    case _ => {}
  }

  /** States that a replay returns at once instead of waiting. */
  const SETTLED :=
    {Succeeded, RolledBack, RollbackFailed, Blocked, ExecutionFailed, VerificationFailed, RollbackAvailable}

  /** The statuses that a new attempt is led through before its first commit. */
  const CREATION := [Planned, AwaitingApproval, ApprovedAttempt, AttemptExecuting]

  datatype AttemptStatus =
    | Planned | AwaitingApproval | ApprovedAttempt | AttemptExecuting | AttemptVerifying | AttemptSucceeded
    | AttemptExecutionFailed | AttemptVerificationFailed | AttemptRollbackAvailable | AttemptRollbackRequested
    | AttemptRollingBack | AttemptRolledBack | AttemptRollbackFailed | RejectedAttempt
    | ExpiredAttempt | StaleAttempt | BlockedAttempt

  /** The transition table of action attempts. */
  function AttemptSuccessors(a: AttemptStatus): set<AttemptStatus> {
    match a
    case Planned => {AwaitingApproval, BlockedAttempt}
    case AwaitingApproval => {ApprovedAttempt, RejectedAttempt, ExpiredAttempt}
    case ApprovedAttempt => {AttemptExecuting, StaleAttempt, ExpiredAttempt}
    case AttemptExecuting => {AttemptVerifying, AttemptExecutionFailed}
    case AttemptVerifying => {AttemptSucceeded, AttemptVerificationFailed}
    case AttemptExecutionFailed => {AttemptRollbackAvailable, AttemptRollbackFailed}
    case AttemptVerificationFailed => {AttemptRollbackAvailable, AttemptRollbackFailed}
    case AttemptRollbackAvailable => {AttemptRollbackRequested, BlockedAttempt}
    case AttemptRollbackRequested => {AttemptRollingBack}
    case AttemptRollingBack => {AttemptRolledBack, AttemptRollbackFailed}
    case _ => {}
  }

  // ----- Shared tables -----

  /** The code points of an execution id. */
  type ExecId = seq<int>

  /** `creator` is the call whose commit inserted the row; `passed` of its gates had passed. */
  datatype Row = Row(status: Status, creator: nat, passed: nat)

  /**
    * What the tables hold about one execution id: its unique row, the attempt, snapshot,
    * verification, rollback and audit records whose ids derive from it, and whether a
    * needed downgrade of the row failed to commit.
    */
  datatype Records = Records(
    row: Option<Row>,
    attempt: Option<AttemptStatus>,
    snapshot: bool,
    verification: Option<bool>,
    rollback: bool,
    audited: bool,
    downgradeFailed: bool)

  const NO_RECORDS := Records(None, None, false, None, false, false, false)

  // ----- Callers -----

  /** Before the commit that makes the row the caller's own. */
  datatype Preparation =
    | Arrived        // before the replay look-up
    | Gating         // asking the next gate
    | Refusing       // a gate failed; the blocked row is not committed yet
    | Inserting      // all gates passed; row and attempt not flushed yet
    | Committing     // flushed in state safety_check, not committed
    | Salvaging      // that commit failed; the row is tried again as blocked
    | Resolving      // waiting for somebody else's row

  /** After that commit: the row is there, created by this caller. */
  datatype Stage =
    | Snapshotting           // committed as executing
    | Ready                  // about to run the action
    | Acted(success: bool)   // the action ran; its result is not committed
    | AwaitingVerification
    | Checked(passed: bool)  // verified; the outcome is not committed
    | Staging                // verification failed; a rollback may be offered
    | Auditing
    | Downgrading            // the audit commit failed
    | Finishing

  /** A crash is remembered together with the stage it hit, which nothing reads. */
  datatype End = Returned(status: Status, existing: bool) | Raised | Crashed(stage: Option<Stage>)

  datatype Pc = Preparing(preparation: Preparation) | Owning(stage: Stage) | Over(end: End)

  /** A call, its request of type Q and the worlds of type W that its gates were asked in. */
  datatype Caller<Q, W> = Caller(
    exec: ExecId,
    request: Q,
    rollbackSupported: bool,
    seen: seq<W>,
    hasSnapshot: bool,
    pc: Pc)

  /** `action.execute` was called for this execution by this caller. */
  datatype Effect = Effect(exec: ExecId, caller: nat)

  datatype State<Q, W> = State(
    db: map<ExecId, Records>,
    callers: map<nat, Caller<Q, W>>,
    world: W,
    effects: seq<Effect>)

  /** `commits` tells whether the database accepts the step, `outcome` what else may go either way. */
  datatype Choice = Choice(commits: bool, outcome: bool)

  datatype Event<Q, W> =
    | Arrive(caller: nat, exec: ExecId, request: Q, rollbackSupported: bool)
    | Change(world: W)
    | Crash(caller: nat)
    | Move(caller: nat, choice: Choice)

  function RecordsOf(db: map<ExecId, Records>, exec: ExecId): Records {
    if exec in db then db[exec] else NO_RECORDS
  }

  /** A step of one call: what becomes of it and of its execution's records, and whether it runs the action. */
  datatype Outcome<Q, W> = Outcome(caller: Caller<Q, W>, records: Records, acts: bool)

  function Stay<Q, W>(caller: Caller<Q, W>, r: Records, pc: Pc): Outcome<Q, W> { Outcome(caller.(pc := pc), r, false) }

  function Commit<Q, W>(caller: Caller<Q, W>, r: Records, status: Status, attempt: AttemptStatus, pc: Pc): Outcome<Q, W>
    requires r.row.Some?
  {
    Outcome(caller.(pc := pc), r.(row := Some(r.row.value.(status := status)), attempt := Some(attempt)), false)
  }

  function CommitNew<Q, W>(caller: Caller<Q, W>, r: Records, row: Row, attempt: Option<AttemptStatus>,
                             pc: Pc): Outcome<Q, W>
  {
    Outcome(caller.(pc := pc), r.(row := Some(row), attempt := attempt), false)
  }

  // ----- Before the action -----

  /**
    * What the protocol needs to know of the gates: how many there are, whether a request
    * is well formed, whether gate i holds in the worlds seen so far, the last of them
    * being its own, and whether evaluating the request raises.
    */
  datatype Judge<!Q, !W> = Judge(
    gates: nat,
    valid: Q -> bool,
    holds: (seq<W>, Q, nat) -> bool,
    raises: Q -> bool)

  /** The next gate, asked in the present world. */
  function AskGate<Q, W>(j: Judge<Q, W>, world: W, caller: Caller<Q, W>, r: Records): Outcome<Q, W> {
    var n := |caller.seen|;
    var asked := caller.(seen := caller.seen + [world]);
    if n >= j.gates then Stay(caller, r, caller.pc)
    else if !j.holds(asked.seen, caller.request, n) then Stay(asked, r, Preparing(Refusing))
    else if n == 1 && j.raises(caller.request) then Stay(asked, r, Over(Raised))
    else if n + 1 == j.gates then Stay(asked, r, Preparing(Inserting))
    else Stay(asked, r, Preparing(Gating))
  }

  /** The last gate that was asked. */
  function LastGate<Q, W>(caller: Caller<Q, W>): nat { if caller.seen == [] then 0 else |caller.seen| - 1 }

  function BeforeAction<Q, W>(j: Judge<Q, W>, world: W, c: nat, caller: Caller<Q, W>, p: Preparation, r: Records,
                                choice: Choice): Outcome<Q, W>
  {
    match p
    case Arrived =>
      if !j.valid(caller.request) then Stay(caller, r, Over(Raised))
      else if r.row.Some? then Stay(caller, r, Preparing(Resolving))
      else Stay(caller, r, Preparing(Gating))
    case Gating => AskGate(j, world, caller, r)
    case Refusing =>
      if r.row.Some? then Stay(caller, r, Preparing(Resolving))
      else if !choice.commits then Stay(caller, r, Over(Raised))
      else CommitNew(caller, r, Row(Blocked, c, LastGate(caller)), None, Over(Returned(Blocked, false)))
    case Inserting =>
      // the unique key may also clash with a row that is not committed yet
      if r.row.Some? || choice.outcome then Stay(caller, r, Preparing(Resolving))
      else if !choice.commits then Stay(caller, r, Over(Raised))
      else Stay(caller, r, Preparing(Committing))
    case Committing =>
      if r.row.Some? || choice.outcome then Stay(caller, r, Preparing(Salvaging))
      else if !choice.commits then Stay(caller, r, Over(Raised))
      else CommitNew(caller, r, Row(Executing, c, j.gates), Some(AttemptExecuting), Owning(Snapshotting))
    case Salvaging =>
      if r.row.Some? || !choice.commits then Stay(caller, r, Over(Raised))
      else CommitNew(caller, r, Row(Blocked, c, j.gates), None, Over(Returned(Blocked, false)))
    case Resolving =>
      if r.row.None? then Stay(caller, r, Over(Raised))
      else if r.row.value.status in SETTLED || choice.outcome then
        Stay(caller, r, Over(Returned(r.row.value.status, true)))
      else Stay(caller, r, Preparing(Resolving))
  }

  // ----- The action and after -----

  function Downgrade<Q, W>(caller: Caller<Q, W>, r: Records, choice: Choice): Outcome<Q, W>
    requires r.row.Some?
  {
    if r.row.value.status != Succeeded then Stay(caller, r, Owning(Finishing))
    else if choice.commits then
      // straight to execution_failed, outside the transition table; the attempt keeps its status
      Outcome(caller.(pc := Owning(Finishing)), r.(row := Some(r.row.value.(status := ExecutionFailed))), false)
    else Outcome(caller.(pc := Owning(Finishing)), r.(downgradeFailed := true), false)
  }

  function FromAction<Q, W>(caller: Caller<Q, W>, stage: Stage, r: Records, choice: Choice): Outcome<Q, W>
    requires r.row.Some?
  {
    match stage
    case Snapshotting =>
      if choice.outcome then Stay(caller.(hasSnapshot := true), r.(snapshot := true), Owning(Ready))
      else Stay(caller, r, Owning(Ready))
    case Ready => Stay(caller, r, Owning(Acted(choice.outcome))).(acts := true)
    case Acted(success) =>
      if !choice.commits then Stay(caller, r, Over(Raised))
      else if success then Commit(caller, r, Verifying, AttemptVerifying, Owning(AwaitingVerification))
      else Commit(caller, r, ExecutionFailed, AttemptExecutionFailed, Owning(Auditing))
    case AwaitingVerification => Stay(caller, r, Owning(Checked(choice.outcome)))
    case Checked(passed) =>
      if !choice.commits then Stay(caller, r, Over(Raised))
      else if passed then Commit(caller, r.(verification := Some(true)), Succeeded, AttemptSucceeded, Owning(Auditing))
      else Commit(caller, r.(verification := Some(false)), VerificationFailed, AttemptVerificationFailed,
        Owning(Staging))
    case Staging =>
      if !(caller.rollbackSupported && caller.hasSnapshot) then Stay(caller, r, Owning(Auditing))
      else if !choice.commits then Stay(caller, r, Over(Raised))
      else Commit(caller, r.(rollback := true), RollbackAvailable, AttemptRollbackAvailable, Owning(Auditing))
    case Auditing =>
      if choice.commits then Stay(caller, r.(audited := true), Owning(Finishing))
      else Stay(caller, r, Owning(Downgrading))
    case Downgrading => Downgrade(caller, r, choice)
    case Finishing => Stay(caller, r, Over(Returned(r.row.value.status, false)))
  }

  function Act<Q, W>(j: Judge<Q, W>, world: W, c: nat, caller: Caller<Q, W>, r: Records, choice: Choice): Outcome<Q, W>
  {
    match caller.pc
    case Preparing(p) => BeforeAction(j, world, c, caller, p, r, choice)
    case Owning(stage) => if r.row.Some? then FromAction(caller, stage, r, choice) else Stay(caller, r, caller.pc)
    case Over(_) => Stay(caller, r, caller.pc)
  }

  function StageOf(pc: Pc): Option<Stage> { if pc.Owning? then Some(pc.stage) else None }

  function Next<Q, W>(j: Judge<Q, W>, st: State<Q, W>, e: Event<Q, W>): State<Q, W> {
    match e
    case Arrive(c, exec, q, rollback) =>
      if c in st.callers then st
      else st.(callers := st.callers[c := Caller(exec, q, rollback, [], false, Preparing(Arrived))])
    case Change(world) => st.(world := world)
    case Crash(c) =>
      if c in st.callers && !st.callers[c].pc.Over? then
        st.(callers := st.callers[c := st.callers[c].(pc := Over(Crashed(StageOf(st.callers[c].pc))))])
      else st
    case Move(c, choice) =>
      if c !in st.callers then st
      else
        var exec := st.callers[c].exec;
        var o := Act(j, st.world, c, st.callers[c], RecordsOf(st.db, exec), choice);
        State(
          st.db[exec := o.records],
          st.callers[c := o.caller],
          st.world,
          if o.acts then st.effects + [Effect(exec, c)] else st.effects)
  }

  function Start<Q, W>(world: W): State<Q, W> { State(map[], map[], world, []) }

  /** The state after a run of any number of callers, in any interleaving. */
  function After<Q, W>(j: Judge<Q, W>, world: W, es: seq<Event<Q, W>>): State<Q, W> {
    if es == [] then Start(world) else Next(j, After(j, world, es[..|es| - 1]), es[|es| - 1])
  }
}
