/** The reference edge table of fact statuses (internal/facts/statemachine.go). The service never consults it. */
module Lifecycle {
  import opened Basics
  import opened Schema

  datatype Transition =
    | DoSubmit | DoWithdraw | DoApprove | DoReject | DoRequestChanges | DoSupersede | DoRevoke | DoExpire

  function Allowed(t: Transition): (Status, Status) {
    match t
    case DoSubmit => (Proposed, InReview)
    case DoWithdraw => (Proposed, Rejected)
    case DoApprove => (InReview, Active)
    case DoReject => (InReview, Rejected)
    case DoRequestChanges => (InReview, Proposed)
    case DoSupersede => (Active, Superseded)
    case DoRevoke => (Active, Revoked)
    case DoExpire => (Active, Expired)
  }

  function CanTransition(current: Status, t: Transition): Option<Status> {
    if Allowed(t).0 == current then Some(Allowed(t).1) else None
  }

  predicate IsTerminal(s: Status) {
    s == Superseded || s == Revoked || s == Expired || s == Rejected
  }

  /** An edge of the table. */
  ghost predicate TableEdge(from: Status, to: Status) {
    exists t :: CanTransition(from, t) == Some(to)
  }

  /** The edges the code takes beyond the table. */
  predicate ExtraEdge(from: Status, to: Status) {
    || (from == Proposed && to == Active)
    || ((from == Revoked || from == Expired) && to == Superseded)
  }

  lemma TableEdges(from: Status, to: Status)
    ensures TableEdge(from, to) <==>
              || (from == Proposed && (to == InReview || to == Rejected))
              || (from == InReview && (to == Active || to == Rejected || to == Proposed))
              || (from == Active && (to == Superseded || to == Revoked || to == Expired))
    ensures IsTerminal(from) ==> !TableEdge(from, to)
  {
    assert CanTransition(Proposed, DoSubmit) == Some(InReview);
    assert CanTransition(Proposed, DoWithdraw) == Some(Rejected);
    assert CanTransition(InReview, DoApprove) == Some(Active);
    assert CanTransition(InReview, DoReject) == Some(Rejected);
    assert CanTransition(InReview, DoRequestChanges) == Some(Proposed);
    assert CanTransition(Active, DoSupersede) == Some(Superseded);
    assert CanTransition(Active, DoRevoke) == Some(Revoked);
    assert CanTransition(Active, DoExpire) == Some(Expired);
  }
}
