/** The history of envelope runs that frequency caps are counted against. */
module Runs {
  import opened Wrappers
  import opened Ordering
  import opened Policies

  /** Microseconds. */
  const SECOND := 1_000_000
  const HOUR := 3600 * SECOND

  datatype Run = Run(policyId: string, targetHash: string, createdAt: Time, blocked: bool)

  /** A cap counts the runs of one policy, or of one policy and target. */
  predicate Counts(r: Run, policyId: string, target: Option<string>) {
    !r.blocked && r.policyId == policyId && (target.Some? ==> r.targetHash == target.value)
  }

  function IfSince(policyId: string, target: Option<string>, cutoff: Time): Run -> seq<Run> {
    (r: Run) => if Counts(r, policyId, target) && r.createdAt >= cutoff then [r] else []
  }

  /** `SELECT count(*)` of the runs that were not blocked and are no older than the cutoff. */
  function Recent(runs: seq<Run>, policyId: string, target: Option<string>, cutoff: Time): nat {
    |Gather(runs, IfSince(policyId, target, cutoff))|
  }

  /** A further run counts once when it has the policy and target, was not blocked and is recent enough. */
  lemma RecentExactly(runs: seq<Run>, r: Run, policyId: string, target: Option<string>, cutoff: Time)
    ensures Recent([], policyId, target, cutoff) == 0
    ensures Recent(runs + [r], policyId, target, cutoff) == Recent(runs, policyId, target, cutoff) +
      if r.policyId == policyId && target in {None, Some(r.targetHash)} && !r.blocked && r.createdAt >= cutoff then 1
      else 0
  {
    assert (runs + [r])[..|runs|] == runs;
  }
}
