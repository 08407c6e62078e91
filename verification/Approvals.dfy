/** Approval requests: creation, decision, expiry and the check before execution. */
module Approvals {
  import opened Ordering
  import opened Scopes
  import opened Policies

  datatype ApprovalStatus = Pending | Approved | Rejected | Expired | Cancelled

  datatype Approval = Approval(
    decisionId: string,
    actionType: string,
    target: Target,
    status: ApprovalStatus,
    expiresAt: Time)

  /** A human decision, kept beside the request it decides. */
  datatype Record = Record(approvalId: string, approver: string, approved: bool)

  datatype Ledger = Ledger(requests: map<string, Approval>, records: seq<Record>)

  const MINUTE := 60_000_000

  datatype Op =
    | Create(id: string, request: Approval)
    | Approve(id: string, approver: string)
    | Reject(id: string, approver: string)
    | Expire(id: string)

  predicate Overdue(l: Ledger, id: string, now: Time)
    requires id in l.requests
  {
    l.requests[id].expiresAt < now
  }

  function WithStatus(l: Ledger, id: string, status: ApprovalStatus): Ledger
    requires id in l.requests
  {
    l.(requests := l.requests[id := l.requests[id].(status := status)])
  }

  /** The ledger after an operation; one that is refused changes nothing but an overdue status. */
  function After(l: Ledger, op: Op, now: Time): Ledger {
    match op
    case Create(id, request) =>
      if id in l.requests then l else l.(requests := l.requests[id := request.(status := Pending)])
    case Approve(id, approver) =>
      if id !in l.requests || l.requests[id].status != Pending then l
      else if Overdue(l, id, now) then WithStatus(l, id, Expired)
      else WithStatus(l, id, Approved).(records := l.records + [Record(id, approver, true)])
    case Reject(id, approver) =>
      if id !in l.requests || l.requests[id].status != Pending then l
      else WithStatus(l, id, Rejected).(records := l.records + [Record(id, approver, false)])
    case Expire(id) =>
      if id in l.requests && l.requests[id].status == Pending && Overdue(l, id, now) then WithStatus(l, id, Expired)
      else l
  }

  /** An execution check meets an approved request that is overdue: it becomes expired. */
  function AfterCheck(l: Ledger, id: string, now: Time): Ledger {
    if id in l.requests && l.requests[id].status == Approved && Overdue(l, id, now) then WithStatus(l, id, Expired)
    else l
  }

  /** The approval that an execution may rely on. */
  predicate Usable(l: Ledger, id: string, decisionId: string, target: Target, actionType: string, now: Time) {
    && id in l.requests
    && l.requests[id].status == Approved
    && now <= l.requests[id].expiresAt
    && l.requests[id].decisionId == decisionId
    && l.requests[id].target == target
    && l.requests[id].actionType == actionType
  }

  class ApprovalManager {
    var ledger: Ledger

    /** `ids` derives the request id from action type, target and decision. */
    const ids: (string, Target, string) -> string

    constructor (ids: (string, Target, string) -> string)
      ensures ledger == Ledger(map[], []) && this.ids == ids
    {
      this.ids := ids;
      ledger := Ledger(map[], []);
    }

    method CreateApprovalRequest(decisionId: string, actionType: string, target: Target, ttlMinutes: int, now: Time)
      returns (id: string, existing: bool)
      modifies this`ledger
      ensures id == ids(actionType, target, decisionId)
      ensures existing <==> id in old(ledger).requests
      ensures !existing ==>
        && id in ledger.requests
        && ledger.requests[id] == Approval(decisionId, actionType, target, Pending, now + ttlMinutes * 60_000_000)
      ensures ledger == After(old(ledger),
        Create(id, Approval(decisionId, actionType, target, Pending, now + ttlMinutes * MINUTE)), now)
    {
      id := ids(actionType, target, decisionId);
      existing := id in ledger.requests;
      if !existing {
        var request := Approval(decisionId, actionType, target, Pending, now + ttlMinutes * MINUTE);
        ledger := ledger.(requests := ledger.requests[id := request]);
      }
    }

    method ApproveRequest(id: string, approver: string, now: Time) returns (ok: bool)
      modifies this`ledger
      ensures ok <==>
        && id in old(ledger).requests
        && old(ledger).requests[id].status == Pending
        && now <= old(ledger).requests[id].expiresAt
      ensures ledger == After(old(ledger), Approve(id, approver), now)
    {
      if id !in ledger.requests || ledger.requests[id].status != Pending {
        return false;
      }
      if ledger.requests[id].expiresAt < now {
        ledger := WithStatus(ledger, id, Expired);
        return false;
      }
      ledger := ledger.(records := ledger.records + [Record(id, approver, true)]);
      ledger := WithStatus(ledger, id, Approved);
      return true;
    }

    method RejectRequest(id: string, approver: string, now: Time) returns (ok: bool)
      modifies this`ledger
      ensures ok <==> id in old(ledger).requests && old(ledger).requests[id].status == Pending
      ensures ledger == After(old(ledger), Reject(id, approver), now)
    {
      if id !in ledger.requests || ledger.requests[id].status != Pending {
        return false;
      }
      ledger := ledger.(records := ledger.records + [Record(id, approver, false)]);
      ledger := WithStatus(ledger, id, Rejected);
      return true;
    }

    method CheckExpiry(id: string, now: Time) returns (valid: bool)
      modifies this`ledger
      ensures ledger == After(old(ledger), Expire(id), now)
      ensures valid <==> id in ledger.requests && ledger.requests[id].status in {Approved, Pending}
    {
      if id !in ledger.requests {
        return false;
      }
      if ledger.requests[id].status == Pending && ledger.requests[id].expiresAt < now {
        ledger := WithStatus(ledger, id, Expired);
        return false;
      }
      return ledger.requests[id].status in {Approved, Pending};
    }

    method ValidateForExecution(id: string, decisionId: string, target: Target, actionType: string, now: Time)
      returns (valid: bool)
      modifies this`ledger
      ensures valid <==> Usable(old(ledger), id, decisionId, target, actionType, now)
      ensures valid <==>
        && id in old(ledger).requests
        && var r := old(ledger).requests[id];
        r == Approval(decisionId, actionType, target, Approved, r.expiresAt) && now <= r.expiresAt
      ensures ledger == AfterCheck(old(ledger), id, now)
      ensures valid ==> ledger == old(ledger)
    {
      if id !in ledger.requests || ledger.requests[id].status != Approved {
        return false;
      }
      var request := ledger.requests[id];
      if request.expiresAt < now {
        ledger := WithStatus(ledger, id, Expired);
        return false;
      }
      return request.decisionId == decisionId && request.target == target && request.actionType == actionType;
    }
  }

  // ----- The lifecycle over every history -----

  datatype Event = Do(op: Op, at: Time) | Check(id: string, at: Time)

  function Step(l: Ledger, e: Event): Ledger {
    match e
    case Do(op, at) => After(l, op, at)
    case Check(id, at) => AfterCheck(l, id, at)
  }

  function LedgerAfter(es: seq<Event>): Ledger {
    if es == [] then Ledger(map[], []) else Step(LedgerAfter(es[..|es| - 1]), es[|es| - 1])
  }

  function IfAbout(id: string): Record -> seq<Record> {
    (r: Record) => if r.approvalId == id then [r] else []
  }

  function RecordsOf(l: Ledger, id: string): seq<Record> { Gather(l.records, IfAbout(id)) }

  /** Status and decision records tell the same story. */
  ghost predicate Consistent(l: Ledger, id: string) {
    var rs := RecordsOf(l, id);
    if id !in l.requests then rs == []
    else match l.requests[id].status
      case Pending => rs == []
      case Approved => |rs| == 1 && rs[0].approved
      case Rejected => |rs| == 1 && !rs[0].approved
      case Expired => |rs| <= 1 && forall r | r in rs :: r.approved
      case Cancelled => false
  }

  /** In every history a request has at most one decision, the one its status names. */
  lemma {:induction false} DecisionsMatchStatus(es: seq<Event>, id: string)
    ensures Consistent(LedgerAfter(es), id)
  {
    if es != [] {
      var before := LedgerAfter(es[..|es| - 1]);
      DecisionsMatchStatus(es[..|es| - 1], id);
      StepKeepsConsistent(before, es[|es| - 1], id);
    }
  }

  lemma OneMoreRecord(l: Ledger, l': Ledger, r: Record, id: string)
    requires l'.records == l.records + [r]
    ensures RecordsOf(l', id) == if r.approvalId == id then RecordsOf(l, id) + [r] else RecordsOf(l, id)
  {
    assert l'.records[..|l'.records| - 1] == l.records;
  }

  /** A decision is recorded only together with the status that names it. */
  lemma DecisionKeepsConsistent(l: Ledger, l': Ledger, decided: string, r: Record, id: string)
    requires Consistent(l, id) && decided in l.requests && l.requests[decided].status == Pending
    requires r.approvalId == decided
    requires l' == WithStatus(l, decided, if r.approved then Approved else Rejected).(records := l.records + [r])
    ensures Consistent(l', id)
  {
    OneMoreRecord(l, l', r, id);
  }

  lemma StepKeepsConsistent(l: Ledger, e: Event, id: string)
    requires Consistent(l, id)
    ensures Consistent(Step(l, e), id)
  {
    match e
    case Do(op, at) => OperationKeepsConsistent(l, op, at, id);
    case Check(checked, at) => QuietKeepsConsistent(l, AfterCheck(l, checked, at), id);
  }

  lemma OperationKeepsConsistent(l: Ledger, op: Op, at: Time, id: string)
    requires Consistent(l, id)
    ensures Consistent(After(l, op, at), id)
  {
    var l' := After(l, op, at);
    match op
    case Create(_, _) => QuietKeepsConsistent(l, l', id);
    case Expire(_) => QuietKeepsConsistent(l, l', id);
    case Approve(decided, approver) =>
      if |l'.records| == |l.records| {
        QuietKeepsConsistent(l, l', id);
      } else {
        DecisionKeepsConsistent(l, l', decided, Record(decided, approver, true), id);
      }
    case Reject(decided, approver) =>
      if |l'.records| == |l.records| {
        QuietKeepsConsistent(l, l', id);
      } else {
        DecisionKeepsConsistent(l, l', decided, Record(decided, approver, false), id);
      }
  }

  predicate StaysOrExpires(a: ApprovalStatus, b: ApprovalStatus) {
    a == b || (b == Expired && (a == Pending || a == Approved))
  }

  /** Without a decision a request may only appear as pending or expire. */
  lemma QuietKeepsConsistent(l: Ledger, l': Ledger, id: string)
    requires Consistent(l, id) && l'.records == l.records
    requires id in l.requests ==> id in l'.requests && StaysOrExpires(l.requests[id].status, l'.requests[id].status)
    requires id !in l.requests && id in l'.requests ==> l'.requests[id].status == Pending
    ensures Consistent(l', id)
  {
    assert RecordsOf(l', id) == RecordsOf(l, id);
  }

  predicate MayBecome(a: ApprovalStatus, b: ApprovalStatus) {
    a == b || (a == Pending && b in {Approved, Rejected, Expired}) || (a == Approved && b == Expired)
  }

  /** What was asked never changes, and the status only moves forward: never back to pending. */
  predicate Evolves(l: Ledger, l': Ledger, id: string) {
    id in l.requests ==>
      && id in l'.requests
      && l'.requests[id] == l.requests[id].(status := l'.requests[id].status)
      && MayBecome(l.requests[id].status, l'.requests[id].status)
  }

  lemma {:induction false} StatusOnlyMovesForward(es: seq<Event>, n: nat, id: string)
    requires n <= |es|
    ensures Evolves(LedgerAfter(es[..n]), LedgerAfter(es), id)
    decreases |es|
  {
    if |es| == n {
      assert es[..n] == es;
    } else {
      StatusOnlyMovesForward(es[..|es| - 1], n, id);
      assert es[..|es| - 1][..n] == es[..n];
      assert Evolves(LedgerAfter(es[..|es| - 1]), LedgerAfter(es), id);
    }
  }

  /** Whatever may be executed was approved by exactly one recorded decision, and is not overdue. */
  lemma UsableWasApproved(es: seq<Event>, id: string, decisionId: string, target: Target, actionType: string, now: Time)
    requires Usable(LedgerAfter(es), id, decisionId, target, actionType, now)
    ensures exists r :: RecordsOf(LedgerAfter(es), id) == [r] && r.approved && r in LedgerAfter(es).records
    ensures now <= LedgerAfter(es).requests[id].expiresAt
  {
    DecisionsMatchStatus(es, id);
    var r := RecordsOf(LedgerAfter(es), id)[0];
    GatherMembers(LedgerAfter(es).records, IfAbout(id), r);
    assert RecordsOf(LedgerAfter(es), id) == [r];
  }
}
