/** Approval counting over runs: the threshold is met exactly, and only by people other than the proposer. */
module Approvals {
  import opened Basics
  import opened Autopromote
  import opened Schema
  import opened Reviews
  import opened Workflow
  import opened Invariants

  ghost predicate Logged(log: seq<Event>, action: Action, subject: Id) {
    exists e :: e in log && e.action == action && e.subject == subject
  }

  /** Reviewers activated the fact of this promotion. */
  ghost predicate ByReviewers(t: Tables, p: Promotion) {
    Logged(t.log, FactActivated, p.factId)
  }

  /** An engine activated the fact of this promotion. */
  ghost predicate ByEngine(t: Tables, p: Promotion) {
    Logged(t.log, FactAutoPromoted, p.factId)
  }

  ghost predicate Counted(t: Tables, p: Promotion) {
    && p.factId in t.facts && p.required >= 1
    && (ByReviewers(t, p) ==>
          && p.state == Approved && !ByEngine(t, p) && ApprovalCount(p) == p.required
          && t.facts[p.factId].approvedBy == ApproverList(p.reviews, p.proposer))
    && (ByEngine(t, p) ==>
          && p.state == Approved && p.reviews == []
          && t.facts[p.factId].approvedBy == [] && "auto:true" in t.facts[p.factId].tags)
    && (!ByReviewers(t, p) && !ByEngine(t, p) ==>
          p.state != Approved && ApprovalCount(p) < p.required && t.facts[p.factId].approvedBy == [])
  }

  ghost predicate Thresholds(t: Tables) {
    forall p {:trigger Counted(t, t.promos[p])} | p in t.promos :: Counted(t, t.promos[p])
  }

  predicate Activates(e: Event, f: Id) {
    (e.action == FactActivated || e.action == FactAutoPromoted) && e.subject == f
  }

  /** A promotion that a step does not approve keeps its bookkeeping. */
  lemma CountedFrame(t: Tables, u: Tables, p: Promotion, q: Promotion, events: seq<Event>)
    requires Counted(t, p) && u.log == t.log + events
    requires q.factId == p.factId && q.required == p.required && q.factId in u.facts
    requires q == p || (p.state != Approved && q.state != Approved && ApprovalCount(q) < q.required)
    requires u.facts[p.factId].approvedBy == t.facts[p.factId].approvedBy
    requires u.facts[p.factId].tags == t.facts[p.factId].tags
    requires forall e | e in events :: !Activates(e, p.factId)
    ensures Counted(u, q)
  {
  }

  lemma AddThresholds(t: Tables, input: ProposeInput, key: string, required: int, conflict: Option<Id>)
    requires Core(t) && Thresholds(t)
    requires forall e | e in t.log :: e.subject < t.next
    ensures Thresholds(AddProposal(t, input, key, required, conflict))
  {
    var u := AddProposal(t, input, key, required, conflict);
    forall p | p in u.promos ensures Counted(u, u.promos[p]) {
      if p in t.promos {
        assert Counted(t, t.promos[p]);
        CountedFrame(t, u, t.promos[p], u.promos[p], [u.log[|t.log|]]);
      } else {
        assert ApproverSet([], input.proposer) == {};
        assert !ByReviewers(u, u.promos[p]) && !ByEngine(u, u.promos[p]);
      }
    }
  }

  lemma MoveThresholds(t: Tables, p: Id, to: State, reviews: seq<Review>, factTo: Status, principal: string,
                       action: Action)
    requires Core(t) && Thresholds(t) && p in t.promos
    requires t.promos[p].state != Approved && to != Approved
    requires ApproverSet(reviews, t.promos[p].proposer) == ApproverSet(t.promos[p].reviews, t.promos[p].proposer)
    requires action != FactActivated && action != FactAutoPromoted
    ensures Thresholds(Move(t, p, to, reviews, factTo, principal, action))
  {
    var u := Move(t, p, to, reviews, factTo, principal, action);
    forall q | q in u.promos ensures Counted(u, u.promos[q]) {
      assert Counted(t, t.promos[q]);
      CountedFrame(t, u, t.promos[q], u.promos[q], [u.log[|t.log|]]);
    }
  }

  lemma RecordThresholds(t: Tables, p: Id, reviewer: string)
    requires Core(t) && Thresholds(t) && p in t.promos && Open(t.promos[p].state)
    requires reviewer != t.promos[p].proposer && !Reaches(t, p, reviewer)
    ensures Thresholds(RecordApproval(t, p, WithApproval(t.promos[p], reviewer), reviewer))
  {
    var u := RecordApproval(t, p, WithApproval(t.promos[p], reviewer), reviewer);
    forall q | q in u.promos ensures Counted(u, u.promos[q]) {
      assert Counted(t, t.promos[q]);
      CountedFrame(t, u, t.promos[q], u.promos[q], [u.log[|t.log|]]);
    }
  }

  lemma LeaveThresholds(t: Tables, f: Id, to: Status, principal: string, action: Action)
    requires Core(t) && Thresholds(t) && f in t.facts && (action == FactRevoked || action == FactExpired)
    ensures Thresholds(Leave(t, f, to, principal, action))
  {
    var u := Leave(t, f, to, principal, action);
    forall q | q in u.promos ensures Counted(u, u.promos[q]) {
      assert Counted(t, t.promos[q]);
      CountedFrame(t, u, t.promos[q], u.promos[q], [u.log[|t.log|]]);
    }
  }

  /** The promotions a step activates are not the others. */
  lemma OthersCounted(t: Tables, p: Id, a: Actor, now: int, embedOk: bool, q: Id)
    requires Paired(t) && Thresholds(t) && PromoRefs(t, p) && q in t.promos && q != p
    ensures Counted(Activate(t, p, a, now, embedOk), Activate(t, p, a, now, embedOk).promos[q])
  {
    var u := Activate(t, p, a, now, embedOk);
    ActivateRows(t, p, a, now, embedOk);
    OneToOne(t, p, q);
    assert Counted(t, t.promos[q]);
    CountedFrame(t, u, t.promos[q], u.promos[q], ActivationEvents(p, t.promos[p], a));
  }

  /** A reviewed activation logs no engine event. */
  lemma ReviewedNotByEngine(t: Tables, p: Id, reviews: seq<Review>, reviewer: string, now: int, embedOk: bool)
    requires PromoRefs(t, p) && !ByEngine(t, t.promos[p])
    ensures var u := Activate(t, p, Reviewed(reviews, reviewer), now, embedOk);
            ByReviewers(u, u.promos[p]) && !ByEngine(u, u.promos[p])
  {
  }

  lemma ReviewedCounted(t: Tables, p: Id, reviewer: string, now: int, embedOk: bool)
    requires Thresholds(t) && PromoRefs(t, p) && Reaches(t, p, reviewer)
    ensures var u := Activate(t, p, Reviewed(WithApproval(t.promos[p], reviewer), reviewer), now, embedOk);
            Counted(u, u.promos[p])
  {
    assert Counted(t, t.promos[p]);
    ApprovalCounts(t.promos[p], reviewer);
    ReviewedNotByEngine(t, p, WithApproval(t.promos[p], reviewer), reviewer, now, embedOk);
  }

  lemma ReviewedThresholds(t: Tables, p: Id, reviewer: string, now: int, embedOk: bool)
    requires Paired(t) && Thresholds(t) && PromoRefs(t, p) && Reaches(t, p, reviewer)
    ensures Thresholds(Activate(t, p, Reviewed(WithApproval(t.promos[p], reviewer), reviewer), now, embedOk))
  {
    var a := Reviewed(WithApproval(t.promos[p], reviewer), reviewer);
    var u := Activate(t, p, a, now, embedOk);
    forall q | q in u.promos ensures Counted(u, u.promos[q]) {
      if q == p {
        ReviewedCounted(t, p, reviewer, now, embedOk);
      } else {
        OthersCounted(t, p, a, now, embedOk, q);
      }
    }
  }

  lemma AutomaticThresholds(t: Tables, p: Id, engine: string, rule: Option<Rule>, now: int, embedOk: bool)
    requires Paired(t) && Thresholds(t) && PromoRefs(t, p) && t.promos[p].state == Pending && t.promos[p].reviews == []
    ensures Thresholds(Activate(t, p, Automatic(engine, rule), now, embedOk))
  {
    var a := Automatic(engine, rule);
    var u := Activate(t, p, a, now, embedOk);
    assert Counted(t, t.promos[p]);
    assert ActivatedEvents(p, t.promos[p], a)[0] in u.log;
    assert !ByReviewers(u, u.promos[p]) by {
      assert !ByReviewers(t, t.promos[p]);
      forall e | e in ActivationEvents(p, t.promos[p], a) ensures e.action != FactActivated {
      }
    }
    ActivateRows(t, p, a, now, embedOk);
    assert Counted(u, u.promos[p]);
    forall q | q in u.promos ensures Counted(u, u.promos[q]) {
      if q != p {
        OthersCounted(t, p, a, now, embedOk, q);
      }
    }
  }

  lemma CosmeticThresholds(t: Tables, u: Tables)
    requires Core(t) && Thresholds(t) && Cosmetic(t, u)
    ensures Thresholds(u)
  {
    assert u.log == t.log + [];
    forall q | q in u.promos ensures Counted(u, u.promos[q]) {
      assert Counted(t, t.promos[q]);
      CountedFrame(t, u, t.promos[q], u.promos[q], []);
    }
  }

  /**
   * The exact threshold: enough approvals mean reviewers activated the fact, the count then equals
   * the requirement, and approved_by lists those distinct reviewers, never the proposer.
   */
  lemma ExactThreshold(t: Tables, p: Id)
    requires Thresholds(t) && p in t.promos
    ensures t.promos[p].factId in t.facts
    ensures Enough(t.promos[p]) <==> ByReviewers(t, t.promos[p])
    ensures var promo := t.promos[p];
            var names := t.facts[promo.factId].approvedBy;
            ByReviewers(t, promo) ==>
              && ApprovalCount(promo) == promo.required == |names|
              && (forall i, j | 0 <= i < j < |names| :: names[i] != names[j])
              && (forall n :: n in names <==> n in ApproverSet(promo.reviews, promo.proposer))
              && promo.proposer !in names
    ensures t.promos[p].state == Approved <==> ByReviewers(t, t.promos[p]) || ByEngine(t, t.promos[p])
    ensures !(ByReviewers(t, t.promos[p]) && ByEngine(t, t.promos[p]))
  {
    assert Counted(t, t.promos[p]);
    assert ApproverSet([], t.promos[p].proposer) == {};
  }
}
