/**
 * Roles and the workflow together: the handlers (internal/server/handlers_promotions.go and
 * handlers_facts.go) let a principal act only where they hold the role, at the time they act.
 */
module Authority {
  import opened Basics
  import opened Subjects
  import opened Autopromote
  import opened Schema
  import opened Workflow
  import opened Invariants
  import opened Approvals
  import opened Runs
  import opened History
  import opened Entitlement

  /** authorize, for the given platform admins. */
  ghost predicate Allowed(t: Tables, admins: set<string>, who: string, ns: Id, a: Entitlement.Action) {
    who in admins || MayDo(t, who, ns, a)
  }

  predicate IsReview(s: Step) {
    s.ApproveBy? || s.RejectBy? || s.RequestChangesBy?
  }

  /** The handlers let the step through. Submitting and withdrawing need no role but being the proposer. */
  ghost predicate Authorised(t: Tables, admins: set<string>, s: Step) {
    && (IsReview(s) && s.p in t.promos ==> Allowed(t, admins, s.principal, t.promos[s.p].ns, ApproveReject))
    && (s.Propose? ==> Allowed(t, admins, s.input.proposer, s.input.target, ProposePromotion))
    && (s.RevokeFact? && s.f in t.facts ==> Allowed(t, admins, s.principal, t.facts[s.f].ns, RevokeFacts))
  }

  ghost predicate AuthorisedRun(engines: Option<Registry>, t: Tables, admins: set<string>, steps: seq<Step>)
    requires Sound(t)
  {
    steps != [] ==>
      && AuthorisedRun(engines, t, admins, steps[..|steps|-1])
      && Authorised(RunFrom(engines, t, steps[..|steps|-1]), admins, steps[|steps|-1])
  }

  /** The step records the review on the promotion. */
  predicate Records(s: Step, p: Id, r: Review) {
    && IsReview(s) && s.p == p && s.principal == r.reviewer
    && r.decision == if s.ApproveBy? then Approve else if s.RejectBy? then Reject else RequestChanges
  }

  /** Some step of the run recorded the review, and its reviewer was then allowed to review in the namespace. */
  ghost predicate ReviewedInRole(engines: Option<Registry>, t: Tables, admins: set<string>, steps: seq<Step>,
                                 p: Id, r: Review, ns: Id)
    requires Sound(t)
  {
    && steps != []
    && (|| ReviewedInRole(engines, t, admins, steps[..|steps|-1], p, r, ns)
        || (Records(steps[|steps|-1], p, r)
            && Allowed(RunFrom(engines, t, steps[..|steps|-1]), admins, r.reviewer, ns, ApproveReject)))
  }

  /** Some step of the run was a propose by the principal, who was then allowed to propose in the namespace. */
  ghost predicate ProposedInRole(engines: Option<Registry>, t: Tables, admins: set<string>, steps: seq<Step>,
                                 who: string, ns: Id)
    requires Sound(t)
  {
    && steps != []
    && (|| ProposedInRole(engines, t, admins, steps[..|steps|-1], who, ns)
        || (steps[|steps|-1].Propose? && steps[|steps|-1].input.proposer == who
            && Allowed(RunFrom(engines, t, steps[..|steps|-1]), admins, who, ns, ProposePromotion)))
  }

  // ---- One step ----

  lemma ProposedReviews(engines: Option<Registry>, t: Tables, input: ProposeInput, key: string, terms: Terms,
                        now: int, embedOk: bool, p: Id)
    requires References(t)
    requires p !in t.promos && p in ProposeKeyed(engines, t, input, key, terms, now, embedOk).0.promos
    ensures var promo := ProposeKeyed(engines, t, input, key, terms, now, embedOk).0.promos[p];
            promo.reviews == [] && promo.proposer == input.proposer && promo.ns == input.target
  {
  }

  lemma ReviewsAfterPropose(engines: Option<Registry>, t: Tables, input: ProposeInput, key: string, terms: Terms,
                            now: int, embedOk: bool, u: Tables, p: Id, r: Review)
    requires References(t) && IdsUsed(t) && u == ProposeKeyed(engines, t, input, key, terms, now, embedOk).0
    requires p in u.promos && r in u.promos[p].reviews
    ensures p in t.promos && r in t.promos[p].reviews
  {
    if p in t.promos {
      ProposeKeepsPromotions(engines, t, input, key, terms, now, embedOk, p);
    } else {
      ProposedReviews(engines, t, input, key, terms, now, embedOk, p);
    }
  }

  lemma ApprovedReviews(t: Tables, p: Id, reviewer: string, now: int, embedOk: bool, u: Tables, q: Id, r: Review)
    requires References(t) && u == ApproveTx(t, p, reviewer, now, embedOk).0
    requires q in u.promos && r in u.promos[q].reviews
    ensures q in t.promos && (r in t.promos[q].reviews || (q == p && r == Review(reviewer, Approve)))
  {
  }

  lemma MovedReviews(engines: Option<Registry>, t: Tables, s: Step, q: Id, r: Review)
    requires References(t) && IsMove(s) && q in Next(engines, t, s).promos && r in Next(engines, t, s).promos[q].reviews
    ensures q in t.promos
    ensures r in t.promos[q].reviews || Records(s, q, r)
  {
    var to, reviews, factTo, action := MoveStep(engines, t, s);
  }

  /** A review enters a promotion only by the step of its own reviewer on that promotion. */
  lemma ReviewsByReviewers(engines: Option<Registry>, t: Tables, s: Step, p: Id, r: Review)
    requires References(t) && IdsUsed(t)
    requires p in Next(engines, t, s).promos && r in Next(engines, t, s).promos[p].reviews
    ensures p in t.promos && (r in t.promos[p].reviews || Records(s, p, r))
  {
    if IsMove(s) {
      MovedReviews(engines, t, s, p, r);
    } else if s.ApproveBy? {
      ApprovedReviews(t, s.p, s.principal, s.now, s.embedOk, Next(engines, t, s), p, r);
    } else if s.Propose? {
      ReviewsAfterPropose(engines, t, s.input, KeyOf(s.input.subject), s.terms, s.now, s.embedOk,
                          Next(engines, t, s), p, r);
    } else {
      OtherStepsKeepPromotions(engines, t, s);
    }
  }

  /** A promotion enters the tables only by a propose of its own proposer. */
  lemma ProposalsByProposers(engines: Option<Registry>, t: Tables, s: Step, p: Id)
    requires References(t) && p in Next(engines, t, s).promos && p !in t.promos
    ensures s.Propose?
    ensures var promo := Next(engines, t, s).promos[p];
            promo.proposer == s.input.proposer && promo.ns == s.input.target
  {
    if IsMove(s) {
      var to, reviews, factTo, action := MoveStep(engines, t, s);
    } else if s.Propose? {
      ProposedReviews(engines, t, s.input, KeyOf(s.input.subject), s.terms, s.now, s.embedOk, p);
    } else if !s.ApproveBy? {
      OtherStepsKeepPromotions(engines, t, s);
    }
  }

  // ---- Runs ----

  lemma {:induction false} ReviewerHeldRole(engines: Option<Registry>, t: Tables, admins: set<string>, steps: seq<Step>,
                                            p: Id, r: Review)
    requires Sound(t) && t.promos == map[] && AuthorisedRun(engines, t, admins, steps)
    requires p in RunFrom(engines, t, steps).promos && r in RunFrom(engines, t, steps).promos[p].reviews
    ensures ReviewedInRole(engines, t, admins, steps, p, r, RunFrom(engines, t, steps).promos[p].ns)
  {
    if steps != [] {
      var init, s := steps[..|steps|-1], steps[|steps|-1];
      var before := RunFrom(engines, t, init);
      ReviewsByReviewers(engines, before, s, p, r);
      PromotionStep(engines, before, s, p);
      if r in before.promos[p].reviews {
        ReviewerHeldRole(engines, t, admins, init, p, r);
      }
    }
  }

  lemma {:induction false} ProposerHeldRole(engines: Option<Registry>, t: Tables, admins: set<string>, steps: seq<Step>,
                                            p: Id)
    requires Sound(t) && t.promos == map[] && AuthorisedRun(engines, t, admins, steps)
    requires p in RunFrom(engines, t, steps).promos
    ensures var promo := RunFrom(engines, t, steps).promos[p];
            ProposedInRole(engines, t, admins, steps, promo.proposer, promo.ns)
  {
    if steps != [] {
      var init, s := steps[..|steps|-1], steps[|steps|-1];
      var before := RunFrom(engines, t, init);
      if p in before.promos {
        PromotionStep(engines, before, s, p);
        ProposerHeldRole(engines, t, admins, init, p);
      } else {
        ProposalsByProposers(engines, before, s, p);
      }
    }
  }

  /**
   * Four eyes, over every authorised run: a fact that reviewers activated carries as many distinct
   * approvers as its promotion required, none of them the proposer. Each of them approved this very
   * promotion in a step of the run, and was then a reviewer in the namespace or a platform admin; the
   * proposer likewise proposed in role.
   */
  lemma FourEyes(engines: Option<Registry>, admins: set<string>, steps: seq<Step>, p: Id)
    requires Sound(EMPTY) && AuthorisedRun(engines, EMPTY, admins, steps)
    requires p in Exec(engines, steps).promos && ByReviewers(Exec(engines, steps), Exec(engines, steps).promos[p])
    ensures var t := Exec(engines, steps);
            var promo := t.promos[p];
            && promo.factId in t.facts
            && var fact := t.facts[promo.factId];
            && |fact.approvedBy| == promo.required && promo.proposer !in fact.approvedBy
            && (forall i, j | 0 <= i < j < |fact.approvedBy| :: fact.approvedBy[i] != fact.approvedBy[j])
            && (forall n | n in fact.approvedBy ::
                  ReviewedInRole(engines, EMPTY, admins, steps, p, Review(n, Approve), fact.ns))
            && ProposedInRole(engines, EMPTY, admins, steps, promo.proposer, fact.ns)
  {
    var t := Exec(engines, steps);
    var promo := t.promos[p];
    ExactThreshold(t, p);
    assert Agrees(t.facts, promo);
    forall n | n in t.facts[promo.factId].approvedBy
      ensures ReviewedInRole(engines, EMPTY, admins, steps, p, Review(n, Approve), promo.ns)
    {
      ReviewerHeldRole(engines, EMPTY, admins, steps, p, Review(n, Approve));
    }
    ProposerHeldRole(engines, EMPTY, admins, steps, p);
  }
}
