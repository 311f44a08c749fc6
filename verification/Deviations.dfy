/**
 * Where the code leaves its documented rules, exactly: the edge table of fact statuses, the labels of
 * the audit events, and "active if and only if enough approvals". Counterexamples.dfy reaches the
 * states in which each of them fails.
 */
module Deviations {
  import opened Basics
  import opened Subjects
  import opened Autopromote
  import opened Schema
  import opened Reviews
  import opened Workflow
  import opened Maintenance
  import opened Invariants
  import opened Approvals
  import opened Runs
  import opened Lifecycle
  import opened History

  // ---- The edge table ----

  /** The step changes the status of f along no edge of the table. */
  ghost predicate LeavesTable(t: Tables, u: Tables, f: Id) {
    && f in t.facts && f in u.facts && u.facts[f].status != t.facts[f].status
    && !TableEdge(t.facts[f].status, u.facts[f].status)
  }

  /** The step approves at the threshold, with an open slot, a promotion whose fact is still proposed. */
  ghost predicate SkipsReview(t: Tables, s: Step, f: Id) {
    && s.ApproveBy? && Reaches(t, s.p, s.principal)
    && t.promos[s.p].factId == f && f in t.facts && t.facts[f].status == Proposed && SlotOpen(t, t.promos[s.p])
  }

  /** The step supersedes a fact that had been revoked or had expired. */
  ghost predicate SupersedesRetired(t: Tables, s: Step, f: Id) {
    Supersedes(t, s, f) && f in t.facts && (t.facts[f].status == Revoked || t.facts[f].status == Expired)
  }

  lemma ActivateLeavesTable(t: Tables, p: Id, a: Actor, now: int, embedOk: bool, f: Id)
    requires Sound(t) && PromoRefs(t, p) && Open(t.promos[p].state) && f in t.facts
    ensures LeavesTable(t, Activate(t, p, a, now, embedOk), f) <==>
              || (t.promos[p].factId == f && t.facts[f].status == Proposed)
              || (t.promos[p].conflictWith == Some(f) && (t.facts[f].status == Revoked || t.facts[f].status == Expired))
  {
    assert Agrees(t.facts, t.promos[p]) && ConflictOlder(t.facts, t.promos[p]);
    ActivateRows(t, p, a, now, embedOk);
    TableEdges(t.facts[f].status, Activate(t, p, a, now, embedOk).facts[f].status);
  }

  lemma ApproveLeavesTable(t: Tables, p: Id, reviewer: string, now: int, embedOk: bool, f: Id)
    requires Sound(t) && f in t.facts
    ensures var s := ApproveBy(p, reviewer, now, embedOk);
            LeavesTable(t, ApproveTx(t, p, reviewer, now, embedOk).0, f) <==>
              SkipsReview(t, s, f) || SupersedesRetired(t, s, f)
  {
    if Reaches(t, p, reviewer) && SlotOpen(t, t.promos[p]) {
      ActivateLeavesTable(t, p, Reviewed(WithApproval(t.promos[p], reviewer), reviewer), now, embedOk, f);
    }
  }

  lemma ProposeKeepsTable(engines: Option<Registry>, t: Tables, input: ProposeInput, key: string, terms: Terms,
                          now: int, embedOk: bool, f: Id)
    requires Sound(t) && f in t.facts
    ensures !LeavesTable(t, ProposeKeyed(engines, t, input, key, terms, now, embedOk).0, f)
  {
    ProposeEdges(engines, t, input, key, terms, now, embedOk, f);
    TableEdges(t.facts[f].status, ProposeKeyed(engines, t, input, key, terms, now, embedOk).0.facts[f].status);
  }

  lemma MoveKeepsTable(engines: Option<Registry>, t: Tables, s: Step, f: Id)
    requires Sound(t) && f in t.facts && IsMove(s)
    ensures !LeavesTable(t, Next(engines, t, s), f)
  {
    var to, reviews, factTo, action := MoveStep(engines, t, s);
    if Next(engines, t, s) != t {
      assert Agrees(t.facts, t.promos[s.p]);
      TableEdges(t.facts[f].status, factTo);
    }
  }

  lemma LeaveKeepsTable(engines: Option<Registry>, t: Tables, s: Step, f: Id)
    requires References(t) && f in t.facts && (s.RevokeFact? || s.Reap?)
    ensures !LeavesTable(t, Next(engines, t, s), f)
  {
    TableEdges(Active, Revoked);
    TableEdges(Active, Expired);
    if s.Reap? && Enumerates(s.order, DueIds(t, s.now)) {
      ExpireAllFacts(t, s.order);
    }
  }

  /**
   * Exactly when a step takes a fact off the reference table: an approval activates a fact that is
   * still proposed, or supersedes one that had been revoked or had expired.
   */
  lemma OffTable(engines: Option<Registry>, t: Tables, s: Step, f: Id)
    requires Sound(t) && f in t.facts
    ensures f in Next(engines, t, s).facts
    ensures LeavesTable(t, Next(engines, t, s), f) <==> SkipsReview(t, s, f) || SupersedesRetired(t, s, f)
  {
    FactStep(engines, t, s, f);
    if IsMove(s) {
      MoveKeepsTable(engines, t, s, f);
    } else if s.RevokeFact? || s.Reap? {
      LeaveKeepsTable(engines, t, s, f);
    } else if s.Propose? {
      ProposeKeepsTable(engines, t, s.input, KeyOf(s.input.subject), s.terms, s.now, s.embedOk, f);
    } else if s.ApproveBy? {
      ApproveLeavesTable(t, s.p, s.principal, s.now, s.embedOk, f);
    } else {
      RegistryKeepsTable(engines, t, s, f);
    }
  }

  lemma RegistryKeepsTable(engines: Option<Registry>, t: Tables, s: Step, f: Id)
    requires Core(t) && IsRegistryStep(s)
    ensures !LeavesTable(t, Next(engines, t, s), f)
  {
    RegistryCosmetic(engines, t, s);
  }

  // ---- The labels of the audit events ----

  /** The status an event says its fact left is the one it had. */
  ghost predicate LabelsFrom(t: Tables, e: Event) {
    e.fromState.OfFact? ==> e.subject in t.facts && e.fromState.status == t.facts[e.subject].status
  }

  /** The status an event says its fact took is the one it has. */
  ghost predicate LabelsTo(u: Tables, e: Event) {
    e.toState.OfFact? ==> e.subject in u.facts && e.toState.status == u.facts[e.subject].status
  }

  /** The step supersedes the fact of the event although it is no longer active. */
  ghost predicate Belated(t: Tables, s: Step, e: Event) {
    e.fromState.OfFact? && e.subject in t.facts && Supersedes(t, s, e.subject) && t.facts[e.subject].status != Active
  }

  lemma ActivationLabels(t: Tables, p: Id, a: Actor, now: int, embedOk: bool, e: Event)
    requires Sound(t) && PromoRefs(t, p) && e in ActivationEvents(p, t.promos[p], a)
    ensures LabelsTo(Activate(t, p, a, now, embedOk), e)
    ensures e.fromState.OfFact? ==>
              && t.promos[p].conflictWith == Some(e.subject) && e.subject in t.facts
              && e.fromState == OfFact(Active) && e.action == FactSuperseded
  {
    ActivateRows(t, p, a, now, embedOk);
  }

  lemma ApproveLabels(t: Tables, p: Id, reviewer: string, now: int, embedOk: bool, i: nat)
    requires Sound(t) && |t.log| <= i < |ApproveTx(t, p, reviewer, now, embedOk).0.log|
    ensures var (u, s) := (ApproveTx(t, p, reviewer, now, embedOk).0, ApproveBy(p, reviewer, now, embedOk));
            LabelsTo(u, u.log[i]) && (LabelsFrom(t, u.log[i]) <==> !Belated(t, s, u.log[i]))
  {
    if Reaches(t, p, reviewer) && SlotOpen(t, t.promos[p]) {
      var a := Reviewed(WithApproval(t.promos[p], reviewer), reviewer);
      var u := Activate(t, p, a, now, embedOk);
      assert u.log[i] in ActivationEvents(p, t.promos[p], a);
      ActivationLabels(t, p, a, now, embedOk, u.log[i]);
    }
  }

  lemma AutoLabels(t: Tables, v: Tables, p: Id, a: Actor, now: int, embedOk: bool, i: nat)
    requires Sound(v) && PromoRefs(v, p) && |v.log| <= i < |Activate(v, p, a, now, embedOk).log|
    requires var c := v.promos[p].conflictWith;
             c.Some? ==> c.value in t.facts && t.facts[c.value].status == Active
    ensures var u := Activate(v, p, a, now, embedOk);
            LabelsTo(u, u.log[i]) && LabelsFrom(t, u.log[i])
  {
    var u := Activate(v, p, a, now, embedOk);
    assert u.log[i] in ActivationEvents(p, v.promos[p], a);
    ActivationLabels(v, p, a, now, embedOk, u.log[i]);
  }

  /** A fresh proposal may be activated, and its conflict, if any, was active when it was made. */
  lemma FreshConflict(t: Tables, input: ProposeInput, key: string, terms: Terms)
    requires Sound(t) && !ProposeBlocked(t, input)
    ensures var v := WithProposal(t, input, key, terms);
            && Sound(v) && PromoRefs(v, t.next + 1) && |v.log| == |t.log| + 1
            && var c := v.promos[t.next + 1].conflictWith;
            c.Some? ==> c.value in t.facts && t.facts[c.value].status == Active
  {
    AddSound(t, input, key, terms);
  }

  /** The first event of a propose is about its promotion alone. */
  lemma ProposedLabels(engines: Option<Registry>, t: Tables, input: ProposeInput, key: string, terms: Terms,
                       now: int, embedOk: bool)
    requires |t.log| < |ProposeKeyed(engines, t, input, key, terms, now, embedOk).0.log|
    ensures var e := ProposeKeyed(engines, t, input, key, terms, now, embedOk).0.log[|t.log|];
            e.toState.OfPromotion? && e.fromState.NoState?
  {
  }

  lemma ProposeLabels(engines: Option<Registry>, t: Tables, input: ProposeInput, key: string, terms: Terms,
                      now: int, embedOk: bool, i: nat)
    requires Sound(t) && |t.log| <= i < |ProposeKeyed(engines, t, input, key, terms, now, embedOk).0.log|
    ensures var u := ProposeKeyed(engines, t, input, key, terms, now, embedOk).0;
            LabelsTo(u, u.log[i]) && LabelsFrom(t, u.log[i])
  {
    if i == |t.log| {
      ProposedLabels(engines, t, input, key, terms, now, embedOk);
    } else {
      var actor := AutoActor(engines, terms.autoPromote, input);
      var v := WithProposal(t, input, key, terms);
      FreshConflict(t, input, key, terms);
      assert ProposeKeyed(engines, t, input, key, terms, now, embedOk).0
          == Activate(v, t.next + 1, actor.value, now, embedOk);
      AutoLabels(t, v, t.next + 1, actor.value, now, embedOk, i);
    }
  }

  lemma {:induction false} ExpireAllEvents(t: Tables, order: seq<Id>, i: nat)
    requires forall f | f in order :: f in t.facts
    requires i < |order|
    ensures |ExpireAll(t, order).log| == |t.log| + |order|
    ensures ExpireAll(t, order).log[|t.log| + i]
              == Event(REAPER, FactExpired, OnFact, order[i], OfFact(Active), OfFact(Expired), NoDetail)
  {
    var last := |order| - 1;
    if last > 0 {
      ExpireAllEvents(t, order[..last], if i < last then i else 0);
    }
  }

  lemma ReapLabels(t: Tables, now: int, order: seq<Id>, i: nat)
    requires |t.log| <= i < |ReapTx(t, now, order).log|
    ensures var u := ReapTx(t, now, order);
            LabelsTo(u, u.log[i]) && LabelsFrom(t, u.log[i])
  {
    assert Enumerates(order, DueIds(t, now));
    ExpireAllFacts(t, order);
    ExpireAllEvents(t, order, i - |t.log|);
    assert order[i - |t.log|] in order;
  }

  lemma MoveLabels(engines: Option<Registry>, t: Tables, s: Step, i: nat)
    requires Sound(t) && IsMove(s) && |t.log| <= i < |Next(engines, t, s).log|
    ensures var u := Next(engines, t, s); LabelsTo(u, u.log[i]) && LabelsFrom(t, u.log[i])
  {
    var to, reviews, factTo, action := MoveStep(engines, t, s);
  }

  /**
   * Every event a step logs names the status its fact then has. The status it says the fact had is
   * right exactly when the step is no belated supersession.
   */
  lemma EventLabels(engines: Option<Registry>, t: Tables, s: Step, i: nat)
    requires Sound(t) && |t.log| <= i < |Next(engines, t, s).log|
    ensures var u := Next(engines, t, s);
            LabelsTo(u, u.log[i]) && (LabelsFrom(t, u.log[i]) <==> !Belated(t, s, u.log[i]))
  {
    if IsMove(s) {
      MoveLabels(engines, t, s, i);
    } else if s.Reap? {
      ReapLabels(t, s.now, s.order, i);
    } else if s.Propose? {
      ProposeLabels(engines, t, s.input, KeyOf(s.input.subject), s.terms, s.now, s.embedOk, i);
    } else if s.ApproveBy? {
      ApproveLabels(t, s.p, s.principal, s.now, s.embedOk, i);
    } else if !s.RevokeFact? {
      RegistryCosmetic(engines, t, s);
    }
  }

  // ---- Active if and only if enough approvals ----

  /**
   * Exactly when the equivalence holds of a promotion and its fact: unless an engine activated the
   * fact and it still is active, or reviewers did and it no longer is.
   */
  lemma ActiveIffEnough(t: Tables, p: Id)
    requires Sound(t) && p in t.promos
    ensures t.promos[p].factId in t.facts
    ensures var promo := t.promos[p];
            var active := t.facts[promo.factId].status == Active;
            (active <==> Enough(promo)) <==> !(ByEngine(t, promo) && active) && !(ByReviewers(t, promo) && !active)
  {
    ExactThreshold(t, p);
    assert Agrees(t.facts, t.promos[p]);
  }
}
