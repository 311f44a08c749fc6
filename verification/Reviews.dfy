/** Counting distinct approvals (internal/promotions/promotion.go and the loop of activate in service.go). */
module Reviews {
  import opened Schema

  /** The reviewers who approved, the proposer never among them. */
  function ApproverSet(reviews: seq<Review>, proposer: string): set<string> {
    set r | r in reviews && r.decision == Approve && r.reviewer != proposer :: r.reviewer
  }

  function ApprovalCount(p: Promotion): nat {
    |ApproverSet(p.reviews, p.proposer)|
  }

  predicate Enough(p: Promotion) {
    ApprovalCount(p) >= p.required
  }

  predicate AlreadyApprovedBy(p: Promotion, reviewer: string) {
    exists r :: r in p.reviews && r.reviewer == reviewer && r.decision == Approve
  }

  /** The reviews after an approval: one that is already there is not repeated. */
  function WithApproval(p: Promotion, reviewer: string): seq<Review> {
    if AlreadyApprovedBy(p, reviewer) then p.reviews else p.reviews + [Review(reviewer, Approve)]
  }

  predicate Counts(r: Review, proposer: string) {
    r.decision == Approve && r.reviewer != proposer
  }

  /** One more review adds its reviewer, if it counts. */
  lemma OneMoreReview(reviews: seq<Review>, r: Review, proposer: string)
    ensures var before, after := ApproverSet(reviews, proposer), ApproverSet(reviews + [r], proposer);
            if Counts(r, proposer) && r.reviewer !in before
            then after == before + {r.reviewer} && |after| == |before| + 1
            else after == before
  {
    var before, after := ApproverSet(reviews, proposer), ApproverSet(reviews + [r], proposer);
    assert after == before + if Counts(r, proposer) then {r.reviewer} else {};
  }

  /** The approvers in order of their first approval. */
  function ApproverList(reviews: seq<Review>, proposer: string): (names: seq<string>)
    ensures forall n :: n in names <==> n in ApproverSet(reviews, proposer)
    ensures forall i, j | 0 <= i < j < |names| :: names[i] != names[j]
    ensures |names| == |ApproverSet(reviews, proposer)|
  {
    if reviews == [] then []
    else
      var before, last := reviews[..|reviews|-1], reviews[|reviews|-1];
      var names := ApproverList(before, proposer);
      OneMoreReview(before, last, proposer);
      assert reviews == before + [last];
      if Counts(last, proposer) && last.reviewer !in names then names + [last.reviewer] else names
  }

  lemma ApproverListSnoc(reviews: seq<Review>, r: Review, proposer: string)
    ensures ApproverList(reviews + [r], proposer)
              == var names := ApproverList(reviews, proposer);
                 if Counts(r, proposer) && r.reviewer !in names then names + [r.reviewer] else names
  {
    assert (reviews + [r])[..|reviews + [r]| - 1] == reviews;
  }

  /** distinctApprovers: fills the set in a loop over the reviews. */
  method DistinctApprovers(p: Promotion) returns (out: set<string>)
    ensures out == ApproverSet(p.reviews, p.proposer)
  {
    out := {};
    for i := 0 to |p.reviews|
      invariant out == ApproverSet(p.reviews[..i], p.proposer)
    {
      var r := p.reviews[i];
      assert p.reviews[..i + 1] == p.reviews[..i] + [r];
      if r.decision == Approve && r.reviewer != p.proposer {
        out := out + {r.reviewer};
      }
    }
    assert p.reviews[..|p.reviews|] == p.reviews;
  }

  /** The approver list activate collects with its `seen` set. */
  method CollectApprovers(p: Promotion) returns (approvers: seq<string>)
    ensures approvers == ApproverList(p.reviews, p.proposer)
  {
    approvers := [];
    var seen: set<string> := {};
    for i := 0 to |p.reviews|
      invariant approvers == ApproverList(p.reviews[..i], p.proposer)
      invariant forall n :: n in seen <==> n in approvers
    {
      var r := p.reviews[i];
      ApproverListSnoc(p.reviews[..i], r, p.proposer);
      assert p.reviews[..i + 1] == p.reviews[..i] + [r];
      if r.decision == Approve && r.reviewer != p.proposer {
        if r.reviewer !in seen {
          seen := seen + {r.reviewer};
          approvers := approvers + [r.reviewer];
        }
      }
    }
    assert p.reviews[..|p.reviews|] == p.reviews;
  }

  /** One approval moves the count by at most one, and by exactly one when it is new. */
  lemma ApprovalCounts(p: Promotion, reviewer: string)
    requires reviewer != p.proposer
    ensures ApproverSet(WithApproval(p, reviewer), p.proposer) == ApproverSet(p.reviews, p.proposer) + {reviewer}
    ensures |ApproverSet(WithApproval(p, reviewer), p.proposer)|
              == ApprovalCount(p) + if AlreadyApprovedBy(p, reviewer) then 0 else 1
  {
  }

  /** Any other verdict leaves the count alone. */
  lemma OtherVerdicts(p: Promotion, reviewer: string, d: Decision)
    requires d != Approve
    ensures ApproverSet(p.reviews + [Review(reviewer, d)], p.proposer) == ApproverSet(p.reviews, p.proposer)
  {
  }
}
