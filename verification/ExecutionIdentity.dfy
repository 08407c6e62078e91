/** Execution ids as the envelope computes them: one authorised request is executed once. */
module ExecutionIdentity {
  import opened Json
  import opened Envelope
  import opened EnvelopeLaws
  import opened EnvelopeSafety
  import opened Identities

  /** Every call arrives under the execution id of its request's identity. */
  ghost predicate ArriveByIdentity<Q, W>(digest: string -> Text, identityOf: Q -> Identity, es: seq<Event<Q, W>>) {
    forall i | 0 <= i < |es| && es[i].Arrive? :: Identified(digest, identityOf, es[i].request, es[i].exec)
  }

  ghost predicate Identified<Q>(digest: string -> Text, identityOf: Q -> Identity, q: Q, exec: ExecId) {
    && Proper(identityOf(q))
    && EncodableDigest(digest, identityOf(q))
    && exec == ExecutionId(digest, identityOf(q))
  }

  ghost predicate AllIdentified<Q, W>(digest: string -> Text, identityOf: Q -> Identity, st: State<Q, W>) {
    forall c | c in st.callers :: Identified(digest, identityOf, st.callers[c].request, st.callers[c].exec)
  }

  /** A call keeps the request and the id it came with. */
  lemma StepKeepsArrivals<Q, W>(j: Judge<Q, W>, st: State<Q, W>, e: Event<Q, W>)
    requires Inv(j, st)
    ensures forall c | c in st.callers ::
      && c in Next(j, st, e).callers
      && Next(j, st, e).callers[c].request == st.callers[c].request
      && Next(j, st, e).callers[c].exec == st.callers[c].exec
    ensures forall c | c in Next(j, st, e).callers && c !in st.callers ::
      e.Arrive? && Next(j, st, e).callers[c].request == e.request && Next(j, st, e).callers[c].exec == e.exec
  {
    if e.Move? && e.caller in st.callers {
      var caller := st.callers[e.caller];
      assert CallerOk(j, e.caller, caller, RecordsOf(st.db, caller.exec)) && RowOk(j, st, caller.exec);
      StepIsOk(j, st.world, e.caller, caller, RecordsOf(st.db, caller.exec), e.choice);
    }
  }

  lemma {:induction false} CallersAreIdentified<Q, W>(
    j: Judge<Q, W>, start: W, digest: string -> Text, identityOf: Q -> Identity, es: seq<Event<Q, W>>)
    requires ArriveByIdentity(digest, identityOf, es)
    ensures AllIdentified(digest, identityOf, After(j, start, es))
  {
    if es != [] {
      var init, last := es[..|es| - 1], es[|es| - 1];
      assert ArriveByIdentity(digest, identityOf, init) by {
        assert forall i | 0 <= i < |init| :: init[i] == es[i];
      }
      CallersAreIdentified(j, start, digest, identityOf, init);
      InvAlways(j, start, init);
      StepKeepsArrivals(j, After(j, start, init), last);
    }
  }

  /**
    * However often requests of one identity are submitted, retried or raced against each
    * other, the action behind it runs at most once: two executions differ in policy, version,
    * evaluation, action, target, incident, decision, authorisation or agent.
    */
  lemma OneIdentityExecutesOnce<Q, W>(
    j: Judge<Q, W>, start: W, digest: string -> Text, identityOf: Q -> Identity, es: seq<Event<Q, W>>, i: nat, k: nat)
    requires ArriveByIdentity(digest, identityOf, es)
    requires i < k < |After(j, start, es).effects|
    ensures
      var st := After(j, start, es);
      && st.effects[i].caller in st.callers
      && st.effects[k].caller in st.callers
      && !SameIdentity(identityOf(st.callers[st.effects[i].caller].request),
        identityOf(st.callers[st.effects[k].caller].request))
  {
    var st := After(j, start, es);
    ExecutesAtMostOnce(j, start, es);
    CallersAreIdentified(j, start, digest, identityOf, es);
    var a, b := st.callers[st.effects[i].caller], st.callers[st.effects[k].caller];
    assert a.exec != b.exec;
    if SameIdentity(identityOf(a.request), identityOf(b.request)) {
      SameIdentitySameExecution(digest, identityOf(a.request), identityOf(b.request));
    }
  }
}
