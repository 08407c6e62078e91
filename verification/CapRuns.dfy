/** The caps in runs of the envelope, whose gates read the rows that the envelope itself commits. */
module CapRuns {
  import opened Wrappers
  import opened Policies
  import opened Runs
  import opened Gates
  import opened Caps
  import opened Envelope
  import opened EnvelopeLaws
  import opened EnvelopeSafety
  import opened EnvelopeAuthority

  type Call = Caller<EnvelopeRequest, World>
  type Happening = Event<EnvelopeRequest, World>
  type Machine = State<EnvelopeRequest, World>

  /** When the row of each call is stamped. */
  type Stamps = nat -> Time

  function Played(s: Setting, start: World, es: seq<Happening>): Machine { After(GateJudge(s), start, es) }

  /** The entry of a row that call `c` commits. */
  function EntryFor(s: Setting, stamps: Stamps, c: nat, caller: Call, blocked: bool): Entry {
    if !blocked && |caller.seen| == 12 && caller.request.policyId in caller.seen[0].policies then
      EntryOf(s, caller.seen, caller.request, stamps(c))
    else
      var q := caller.request;
      Entry(None, Reading(stamps(c), 0), Reading(stamps(c), 0),
        Run(q.policyId, s.targetHash(q.target), stamps(c), blocked))
  }

  lemma RunOfEntry(s: Setting, stamps: Stamps, c: nat, caller: Call, blocked: bool)
    ensures EntryFor(s, stamps, c, caller, blocked).run ==
      Run(caller.request.policyId, s.targetHash(caller.request.target), stamps(c), blocked)
  {
  }

  /** A step that commits a new row. */
  predicate CommitsRow(s: Setting, st: Machine, e: Happening) {
    && e.Move?
    && e.caller in st.callers
    && RecordsOf(st.db, st.callers[e.caller].exec).row.None?
    && RecordsOf(Next(GateJudge(s), st, e).db, st.callers[e.caller].exec).row.Some?
  }

  /** And one that is not blocked: its action will run. */
  predicate CommitsRun(s: Setting, st: Machine, e: Happening) {
    && CommitsRow(s, st, e)
    && RecordsOf(Next(GateJudge(s), st, e).db, st.callers[e.caller].exec).row.value.status != Blocked
  }

  /** The rows of a run, in the order of their commits. */
  function Log(s: Setting, stamps: Stamps, start: World, es: seq<Happening>): seq<Entry> {
    if es == [] then []
    else
      var log, st, e := Log(s, stamps, start, es[..|es| - 1]), Played(s, start, es[..|es| - 1]), es[|es| - 1];
      if CommitsRow(s, st, e) then
        log + [EntryFor(s, stamps, e.caller, st.callers[e.caller], !CommitsRun(s, st, e))]
      else log
  }

  /** The gate that a step asks, if it asks one. */
  function GateAsked(st: Machine, e: Happening): Option<nat> {
    if e.Move? && e.caller in st.callers && st.callers[e.caller].pc == Preparing(Gating)
    then Some(|st.callers[e.caller].seen|) else None
  }

  /** What the tables show to a gate: policies under their own id, and to the caps exactly the committed rows. */
  predicate ShowsTables(world: World, log: seq<Entry>, gate: Option<nat>) {
    && (gate == Some(0) ==> FiledUnderOwnId(world))
    && (gate == Some(7) || gate == Some(10) ==> world.runs == RunsOf(log))
  }

  /** A run in which the gates read the tables that the run itself writes. */
  ghost predicate Fed(s: Setting, stamps: Stamps, start: World, es: seq<Happening>) {
    forall n | 0 <= n < |es| :: FedAt(s, stamps, start, es, n)
  }

  predicate FedAt(s: Setting, stamps: Stamps, start: World, es: seq<Happening>, n: nat)
    requires n < |es|
  {
    var st := Played(s, start, es[..n]);
    ShowsTables(st.world, Log(s, stamps, start, es[..n]), GateAsked(st, es[n]))
  }

  lemma OneMoreHappening(s: Setting, stamps: Stamps, start: World, es: seq<Happening>, e: Happening)
    ensures Played(s, start, es + [e]) == Next(GateJudge(s), Played(s, start, es), e)
    ensures CommitsRow(s, Played(s, start, es), e) ==>
      var st := Played(s, start, es);
      var entry := EntryFor(s, stamps, e.caller, st.callers[e.caller], !CommitsRun(s, st, e));
      Log(s, stamps, start, es + [e]) == Log(s, stamps, start, es) + [entry]
    ensures !CommitsRow(s, Played(s, start, es), e) ==> Log(s, stamps, start, es + [e]) == Log(s, stamps, start, es)
  {
    assert (es + [e])[..|es|] == es;
  }

  lemma FedPrefix(s: Setting, stamps: Stamps, start: World, es: seq<Happening>)
    requires es != [] && Fed(s, stamps, start, es)
    ensures Fed(s, stamps, start, es[..|es| - 1]) && FedAt(s, stamps, start, es, |es| - 1)
  {
    var init := es[..|es| - 1];
    forall n | 0 <= n < |init| ensures FedAt(s, stamps, start, init, n) {
      assert FedAt(s, stamps, start, es, n);
      assert init[..n] == es[..n];
    }
  }

  lemma FedGrows(s: Setting, stamps: Stamps, start: World, es: seq<Happening>, e: Happening)
    requires Fed(s, stamps, start, es)
    requires ShowsTables(Played(s, start, es).world, Log(s, stamps, start, es), GateAsked(Played(s, start, es), e))
    ensures Fed(s, stamps, start, es + [e])
  {
    var longer := es + [e];
    forall n | 0 <= n < |longer| ensures FedAt(s, stamps, start, longer, n) {
      if n < |es| {
        assert FedAt(s, stamps, start, es, n);
        assert longer[..n] == es[..n];
      } else {
        assert longer[..n] == es;
      }
    }
  }

  // ----- Every fed run has an honest history -----

  /** What a call has read so far was in the tables, and has stayed there. */
  predicate ReadFrom(log: seq<Entry>, seen: seq<World>) {
    && (|seen| > 0 ==> FiledUnderOwnId(seen[0]))
    && (|seen| > 7 ==> seen[7].runs <= RunsOf(log))
    && (|seen| > 10 ==> seen[10].runs <= RunsOf(log))
  }

  ghost predicate AllReadFrom(log: seq<Entry>, st: Machine) {
    forall c | c in st.callers :: ReadFrom(log, st.callers[c].seen)
  }

  lemma ReadingStays(log: seq<Entry>, e: Entry, seen: seq<World>)
    requires ReadFrom(log, seen)
    ensures ReadFrom(log + [e], seen)
  {
    assert RunsOf(log + [e]) == RunsOf(log) + [e.run];
  }

  lemma ReadingGrows(log: seq<Entry>, seen: seq<World>, world: World)
    requires ReadFrom(log, seen) && ShowsTables(world, log, Some(|seen|))
    ensures ReadFrom(log, seen + [world])
  {
  }

  /** A step adds at most the present world to what its call has seen, and that only at a gate. */
  lemma StepSees(s: Setting, st: Machine, e: Happening, c: nat)
    requires Inv(GateJudge(s), st) && c in Next(GateJudge(s), st, e).callers
    ensures c !in st.callers ==> Next(GateJudge(s), st, e).callers[c].seen == []
    ensures c in st.callers ==>
      var seen, after := st.callers[c].seen, Next(GateJudge(s), st, e).callers[c].seen;
      after == seen || (after == seen + [st.world] && GateAsked(st, e) == Some(|seen|))
  {
    if e.Move? && e.caller == c && c in st.callers {
      SeesAtGates(GateJudge(s), st.world, c, st.callers[c], RecordsOf(st.db, st.callers[c].exec), e.choice);
    }
  }

  lemma SeesAtGates<Q, W>(j: Judge<Q, W>, world: W, c: nat, caller: Caller<Q, W>, r: Records, choice: Choice)
    ensures
      var seen := Act(j, world, c, caller, r, choice).caller.seen;
      seen == caller.seen || (seen == caller.seen + [world] && caller.pc == Preparing(Gating))
  {
  }

  lemma {:induction false} ReadsStay(s: Setting, stamps: Stamps, start: World, es: seq<Happening>)
    requires Fed(s, stamps, start, es)
    ensures AllReadFrom(Log(s, stamps, start, es), Played(s, start, es))
  {
    if es != [] {
      var init, e := es[..|es| - 1], es[|es| - 1];
      FedPrefix(s, stamps, start, es);
      ReadsStay(s, stamps, start, init);
      InvAlways(GateJudge(s), start, init);
      ReadsStayOnce(s, stamps, start, init, e);
      assert init + [e] == es;
    }
  }

  lemma ReadsStayOnce(s: Setting, stamps: Stamps, start: World, es: seq<Happening>, e: Happening)
    requires AllReadFrom(Log(s, stamps, start, es), Played(s, start, es)) && Inv(GateJudge(s), Played(s, start, es))
    requires ShowsTables(Played(s, start, es).world, Log(s, stamps, start, es), GateAsked(Played(s, start, es), e))
    ensures AllReadFrom(Log(s, stamps, start, es + [e]), Played(s, start, es + [e]))
  {
    var log, st := Log(s, stamps, start, es), Played(s, start, es);
    OneMoreHappening(s, stamps, start, es, e);
    forall c | c in Played(s, start, es + [e]).callers
      ensures ReadFrom(Log(s, stamps, start, es + [e]), Played(s, start, es + [e]).callers[c].seen)
    {
      StepSees(s, st, e, c);
      if c in st.callers {
        ReadingGrowsAtGate(log, st.callers[c].seen, st.world, GateAsked(st, e),
          Played(s, start, es + [e]).callers[c].seen);
      }
      if CommitsRow(s, st, e) {
        ReadingStays(log, Log(s, stamps, start, es + [e])[|log|], Played(s, start, es + [e]).callers[c].seen);
      }
    }
  }

  lemma ReadingGrowsAtGate(log: seq<Entry>, seen: seq<World>, world: World, gate: Option<nat>, after: seq<World>)
    requires ReadFrom(log, seen) && ShowsTables(world, log, gate)
    requires after == seen || (after == seen + [world] && gate == Some(|seen|))
    ensures ReadFrom(log, after)
  {
    if after != seen {
      ReadingGrows(log, seen, world);
    }
  }

  /** A row that is committed as executing belongs to a call all of whose gates held. */
  lemma CommitNeedsGates(s: Setting, st: Machine, e: Happening)
    requires Inv(GateJudge(s), st) && CommitsRun(s, st, e)
    ensures Authorised(s, st.callers[e.caller].seen, st.callers[e.caller].request)
  {
    var caller := st.callers[e.caller];
    var r := RecordsOf(st.db, caller.exec);
    assert CallerOk(GateJudge(s), e.caller, caller, r) && RowOk(GateJudge(s), st, caller.exec);
    if caller.pc.Preparing? {
      CandidateSteps(GateJudge(s), st.world, e.caller, caller, caller.pc.preparation, r, e.choice);
      HasPassedExactly(s, caller.seen, caller.request);
    }
  }

  lemma CommitInRunNeedsGates(s: Setting, start: World, es: seq<Happening>, e: Happening)
    requires CommitsRun(s, Played(s, start, es), e)
    ensures
      var caller := Played(s, start, es).callers[e.caller];
      Authorised(s, caller.seen, caller.request)
  {
    InvAlways(GateJudge(s), start, es);
    CommitNeedsGates(s, Played(s, start, es), e);
  }

  lemma FedStepKeepsHonest(s: Setting, stamps: Stamps, start: World, es: seq<Happening>, e: Happening)
    requires Fed(s, stamps, start, es) && Honest(Log(s, stamps, start, es))
    ensures Honest(Log(s, stamps, start, es + [e]))
  {
    ReadsStay(s, stamps, start, es);
    CommitKeepsHonest(s, stamps, start, es, e);
  }

  /** In every fed run the committed rows make an honest history. */
  lemma {:induction false} FedRunsAreHonest(s: Setting, stamps: Stamps, start: World, es: seq<Happening>)
    requires Fed(s, stamps, start, es)
    ensures Honest(Log(s, stamps, start, es))
  {
    if es != [] {
      var init, e := es[..|es| - 1], es[|es| - 1];
      FedPrefix(s, stamps, start, es);
      FedRunsAreHonest(s, stamps, start, init);
      FedStepKeepsHonest(s, stamps, start, init, e);
      assert init + [e] == es;
    }
  }

  lemma CommitKeepsHonest(s: Setting, stamps: Stamps, start: World, es: seq<Happening>, e: Happening)
    requires Honest(Log(s, stamps, start, es))
    requires AllReadFrom(Log(s, stamps, start, es), Played(s, start, es))
    ensures Honest(Log(s, stamps, start, es + [e]))
  {
    var log, st := Log(s, stamps, start, es), Played(s, start, es);
    OneMoreHappening(s, stamps, start, es, e);
    if CommitsRow(s, st, e) {
      var caller := st.callers[e.caller];
      if !CommitsRun(s, st, e) {
        HonestGrows(log, EntryFor(s, stamps, e.caller, caller, true));
      } else {
        CommitInRunNeedsGates(s, start, es, e);
        AuthorisedLoadsPolicy(s, caller.seen, caller.request);
        assert ReadFrom(log, caller.seen);
        CallKeepsHonest(s, caller.seen, caller.request, log, stamps(e.caller));
      }
    }
  }

  // ----- Every execution is in the history -----

  ghost predicate HasRun(r: Records, c: nat) { OwnedBy(r, c) && r.row.value.status != Blocked }

  ghost predicate HasRunIn(st: Machine, c: nat)
    requires c in st.callers
  {
    HasRun(RecordsOf(st.db, st.callers[c].exec), c)
  }

  ghost predicate AllLogged(s: Setting, stamps: Stamps, log: seq<Entry>, st: Machine) {
    forall c | c in st.callers && HasRunIn(st, c) :: EntryFor(s, stamps, c, st.callers[c], false) in log
  }

  /** Nobody but the call itself gives it a row that runs. */
  lemma BystanderLogs(s: Setting, st: Machine, e: Happening, c: nat)
    requires Inv(GateJudge(s), st) && c in Next(GateJudge(s), st, e).callers && !(e.Move? && e.caller == c)
    requires HasRunIn(Next(GateJudge(s), st, e), c)
    ensures c in st.callers && HasRunIn(st, c)
    ensures
      var next := Next(GateJudge(s), st, e);
      next.callers[c].seen == st.callers[c].seen && next.callers[c].request == st.callers[c].request
  {
    assert RowOk(GateJudge(s), st, Next(GateJudge(s), st, e).callers[c].exec);
    if e.Move? && e.caller in st.callers {
      var caller := st.callers[e.caller];
      var r := RecordsOf(st.db, caller.exec);
      assert CallerOk(GateJudge(s), e.caller, caller, r) && RowOk(GateJudge(s), st, caller.exec);
      MoverLogs(GateJudge(s), st.world, e.caller, caller, r, e.choice);
    }
  }

  /** A call whose row runs had it before its step, or commits it with this step. */
  lemma MoverHasLogged(s: Setting, st: Machine, c: nat, choice: Choice)
    requires Inv(GateJudge(s), st) && c in st.callers && HasRunIn(Next(GateJudge(s), st, Move(c, choice)), c)
    ensures
      var next := Next(GateJudge(s), st, Move(c, choice));
      next.callers[c].seen == st.callers[c].seen && next.callers[c].request == st.callers[c].request
    ensures HasRunIn(st, c) || CommitsRun(s, st, Move(c, choice))
  {
    var caller := st.callers[c];
    var r := RecordsOf(st.db, caller.exec);
    assert CallerOk(GateJudge(s), c, caller, r) && RowOk(GateJudge(s), st, caller.exec);
    MoverLogs(GateJudge(s), st.world, c, caller, r, choice);
  }

  /** A row that runs after a step was there before it or is committed by it. */
  lemma StepLogs(s: Setting, st: Machine, e: Happening, c: nat)
    requires Inv(GateJudge(s), st) && c in Next(GateJudge(s), st, e).callers
    requires
      var next := Next(GateJudge(s), st, e);
      HasRunIn(next, c)
    ensures c in st.callers
    ensures
      var next := Next(GateJudge(s), st, e);
      next.callers[c].seen == st.callers[c].seen && next.callers[c].request == st.callers[c].request
    ensures HasRunIn(st, c) || (CommitsRun(s, st, e) && e.caller == c)
  {
    if e.Move? && e.caller == c {
      if c in st.callers {
        MoverHasLogged(s, st, c, e.choice);
      }
    } else {
      BystanderLogs(s, st, e, c);
    }
  }

  lemma MoverLogs<Q, W>(j: Judge<Q, W>, world: W, c: nat, caller: Caller<Q, W>, r: Records, choice: Choice)
    requires CallerOk(j, c, caller, r) && RecordsOk(r)
    ensures
      var o := Act(j, world, c, caller, r, choice);
      && o.caller.exec == caller.exec && o.caller.request == caller.request
      && (o.records != r ==> OwnedBy(o.records, c))
      && (r.row.Some? ==>
        Grows(r, o.records) && (r.row.value.status == Blocked <==> o.records.row.value.status == Blocked))
      && (OwnedBy(o.records, c) ==> o.caller.seen == caller.seen)
  {
    StepIsOk(j, world, c, caller, r, choice);
    match caller.pc
    case Preparing(p) => CandidateSteps(j, world, c, caller, p, r, choice);
    case Owning(stage) => OwnerSteps(c, caller, stage, r, choice);
    case Over(_) =>
  }

  lemma {:induction false} RunningRowsAreLogged(s: Setting, stamps: Stamps, start: World, es: seq<Happening>)
    ensures AllLogged(s, stamps, Log(s, stamps, start, es), Played(s, start, es))
  {
    if es != [] {
      var init, e := es[..|es| - 1], es[|es| - 1];
      RunningRowsAreLogged(s, stamps, start, init);
      InvAlways(GateJudge(s), start, init);
      assert init + [e] == es;
      forall c | c in Played(s, start, es).callers && HasRunIn(Played(s, start, es), c)
        ensures EntryFor(s, stamps, c, Played(s, start, es).callers[c], false) in Log(s, stamps, start, es)
      {
        RowStaysLogged(s, stamps, start, init, e, c);
      }
    }
  }

  lemma RowStaysLogged(s: Setting, stamps: Stamps, start: World, es: seq<Happening>, e: Happening, c: nat)
    requires AllLogged(s, stamps, Log(s, stamps, start, es), Played(s, start, es)) &&
      Inv(GateJudge(s), Played(s, start, es))
    requires
      var next := Next(GateJudge(s), Played(s, start, es), e);
      c in next.callers && HasRunIn(next, c)
    ensures
      var next := Next(GateJudge(s), Played(s, start, es), e);
      EntryFor(s, stamps, c, next.callers[c], false) in Log(s, stamps, start, es + [e])
  {
    var st := Played(s, start, es);
    StepLogs(s, st, e, c);
    OneMoreHappening(s, stamps, start, es, e);
    SameEntry(s, stamps, c, st.callers[c], Next(GateJudge(s), st, e).callers[c]);
    if CommitsRun(s, st, e) && e.caller == c {
      assert EntryFor(s, stamps, c, st.callers[c], false) in Log(s, stamps, start, es + [e]);
    } else {
      assert HasRunIn(st, c);
    }
  }

  /** An entry depends on what its call asked for and saw. */
  lemma SameEntry(s: Setting, stamps: Stamps, c: nat, a: Call, b: Call)
    requires a.request == b.request && a.seen == b.seen
    ensures EntryFor(s, stamps, c, a, false) == EntryFor(s, stamps, c, b, false)
  {
  }

  /** So the caps speak about executions: whatever ran is in the history, not blocked. */
  lemma ExecutionsAreLogged(s: Setting, stamps: Stamps, start: World, es: seq<Happening>, i: nat)
    requires i < |Played(s, start, es).effects|
    ensures
      var st := Played(s, start, es);
      var c := st.effects[i].caller;
      c in st.callers && EntryFor(s, stamps, c, st.callers[c], false) in Log(s, stamps, start, es)
  {
    ExecutesAtMostOnce(GateJudge(s), start, es);
    RunningRowsAreLogged(s, stamps, start, es);
  }
}
