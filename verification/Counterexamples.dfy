/**
 * Reachable states in which documented rules fail, and a reachable step for every status change the
 * code makes. History.dfy and Deviations.dfy state exactly when each rule fails.
 */
module Counterexamples {
  import opened Basics
  import opened Subjects
  import opened Autopromote
  import opened Schema
  import opened Reviews
  import opened Workflow
  import opened Invariants
  import opened Approvals
  import opened Runs
  import opened Lifecycle
  import opened History
  import opened Deviations
  import opened Reachability

  const INPUT := ProposeInput(0, "use make", Subject("build.command", "", map[]), {}, map[], "alice", "", "", "",
                              "agent")

  // ---- Terminal facts, lineage and labels ----

  /**
   * A terminal fact changes: A is revoked while a proposal that recorded it waits, and the late
   * approval turns the revoked fact into a superseded one. The event claims that A was active. The
   * approved fact goes from proposed to active without a review step.
   */
  lemma RevokedFactSuperseded(engines: Option<Registry>) returns (t: Tables, p: Id, a: Id, f: Id)
    ensures Reachable(engines, t) && References(t)
    ensures var u := ApproveTx(t, p, "bob", 0, false).0;
            && a in t.facts && t.facts[a].status == Revoked && a in u.facts && u.facts[a].status == Superseded
            && f in t.facts && t.facts[f].status == Proposed && f in u.facts && u.facts[f].status == Active
            && |u.log| > |t.log| && u.log[|t.log|] == SupersededBy(f, a) && !LabelsFrom(t, u.log[|t.log|])
    ensures !TableEdge(Revoked, Superseded) && !TableEdge(Proposed, Active)
  {
    t, p, a, f := RevokedRival(engines);
    AttainedReachable(engines, t);
    TableEdges(Revoked, Superseded);
    TableEdges(Proposed, Active);
  }

  lemma RevokedRival(engines: Option<Registry>) returns (t: Tables, p: Id, a: Id, f: Id)
    ensures Attained(engines, t) && References(t)
    ensures var u := ApproveTx(t, p, "bob", 0, false).0;
            && a in t.facts && t.facts[a].status == Revoked && a in u.facts && u.facts[a].status == Superseded
            && f in t.facts && t.facts[f].status == Proposed && f in u.facts && u.facts[f].status == Active
            && |u.log| > |t.log| && u.log[|t.log|] == SupersededBy(f, a)
  {
    var key := KeyOf(INPUT.subject);
    var t0, p3, f3;
    t0, a, p, f, p3, f3 := TwoRivals(engines, INPUT, key);
    t := ThenRevoke(engines, t0, key, a);
    RetiredRest(t0, t, key, a, Revoked);
    var u := ThenApprove(engines, t, key, p, f, Some(a), Proposed);
  }

  /**
   * Lineage is one-way in the end: F2 supersedes A and is revoked, F3 then supersedes A again, and
   * F2 still names A while A names F3.
   */
  lemma LineageLost(engines: Option<Registry>) returns (t: Tables, a: Id, f2: Id, f3: Id)
    ensures Reachable(engines, t)
    ensures && f2 in t.facts && t.facts[f2].supersedes == Some(a)
            && a in t.facts && t.facts[a].supersededBy == Some(f3) && f2 != f3 && !TwoWay(t, f2, a)
  {
    var key := KeyOf(INPUT.subject);
    var v, p3;
    v, t, a, f2, p3, f3 := SupersededTwice(engines, key);
    AttainedReachable(engines, t);
  }

  lemma SupersededTwice(engines: Option<Registry>, key: string)
    returns (t: Tables, u: Tables, a: Id, f2: Id, p3: Id, f3: Id)
    requires key == KeyOf(INPUT.subject)
    ensures Attained(engines, t) && References(t) && u == ApproveTx(t, p3, "bob", 0, false).0 && Attained(engines, u)
    ensures a in t.facts && t.facts[a].status == Superseded
    ensures a in u.facts && u.facts[a] == WithStatus(t.facts[a], Superseded).(supersededBy := Some(f3))
    ensures f2 in u.facts && u.facts[f2].supersedes == Some(a) && f2 != f3
  {
    var t0, p2;
    t0, a, p2, f2, p3, f3 := TwoRivals(engines, INPUT, key);
    AttainedSound(engines, t0);
    OneToOne(t0, p2, p3);
    var v := ThenApprove(engines, t0, key, p2, f2, Some(a), Proposed);
    t := ThenRevoke(engines, v, key, f2);
    RetiredRest(v, t, key, f2, Revoked);
    u := ThenApprove(engines, t, key, p3, f3, Some(a), Proposed);
    assert Kept(v, t, a) && Kept(t, u, f2);
  }

  // ---- Active facts and approvals ----

  /** Reviewers approved the promotion, and its fact is no longer active. */
  lemma EnoughNotActive(engines: Option<Registry>) returns (t: Tables, p: Id)
    ensures Reachable(engines, t) && p in t.promos && t.promos[p].factId in t.facts
    ensures Enough(t.promos[p]) && t.facts[t.promos[p].factId].status == Revoked
  {
    var key := KeyOf(INPUT.subject);
    var t1 := FirstProposal(engines, INPUT, key);
    var t2 := ThenApprove(engines, t1, key, 2, 1, None, Proposed);
    t := ThenRevoke(engines, t2, key, 1);
    p := 2;
    AttainedReachable(engines, t);
  }

  /** Any engine that promotes the candidate leaves an active fact with no approval and no approver. */
  lemma EngineApproves(engines: Option<Registry>, t: Tables, input: ProposeInput, key: string, terms: Terms)
    returns (u: Tables)
    requires Sound(t) && !ProposeBlocked(t, input) && AutoActor(engines, terms.autoPromote, input).Some?
    ensures u == ProposeKeyed(engines, t, input, key, terms, 0, false).0
    ensures t.next + 1 in u.promos && WithoutApproval(u, u.promos[t.next + 1])
  {
    u := ProposeKeyed(engines, t, input, key, terms, 0, false).0;
    EnginePromotes(engines, t, input, key, terms, u);
    ProposalCounted(engines, t, input, key, terms, u);
    AutomaticWithoutApproval(t, u, t.next + 1, AutoActor(engines, terms.autoPromote, input).value);
  }

  lemma ProposalCounted(engines: Option<Registry>, t: Tables, input: ProposeInput, key: string, terms: Terms, u: Tables)
    requires Sound(t) && u == ProposeKeyed(engines, t, input, key, terms, 0, false).0
    ensures Thresholds(u)
  {
    ProposeSound(engines, t, input, key, terms, 0, false);
  }

  lemma EnginePromotes(engines: Option<Registry>, t: Tables, input: ProposeInput, key: string, terms: Terms, u: Tables)
    requires Sound(t) && !ProposeBlocked(t, input) && AutoActor(engines, terms.autoPromote, input).Some?
    requires u == ProposeKeyed(engines, t, input, key, terms, 0, false).0
    ensures AutoPromoted(t, u, t.next + 1, AutoActor(engines, terms.autoPromote, input).value)
  {
    AutoPromotionAllOrNothing(engines, t, input, key, terms, 0, false);
  }

  /** The fact is active although nobody approved it. */
  ghost predicate WithoutApproval(t: Tables, p: Promotion) {
    && p.factId in t.facts && t.facts[p.factId].status == Active
    && ApprovalCount(p) == 0 && !Enough(p) && t.facts[p.factId].approvedBy == []
  }

  lemma AutomaticWithoutApproval(t: Tables, u: Tables, p: Id, a: Actor)
    requires Thresholds(u) && AutoPromoted(t, u, p, a)
    ensures WithoutApproval(u, u.promos[p])
  {
    assert u.log[|u.log| - 1] in u.log;
    assert ByEngine(u, u.promos[p]);
    assert Counted(u, u.promos[p]);
    assert ApproverSet([], u.promos[p].proposer) == {};
  }

  /** The rules that promote whatever an agent proposes. */
  const AGENTS := Document([Rule([Condition("actor.type", "eq", Some(JString("agent")))])], false)

  const ENGINES := Some(map[SIMPLE_ID := SIMPLE])

  lemma AgentsPromoted(input: ProposeInput)
    requires input.actorType == "agent"
    ensures AutoActor(ENGINES, Some(AutoPromote(SIMPLE_ID, AGENTS)), input).Some?
  {
    var conditions := [Condition("actor.type", "eq", Some(JString("agent")))];
    assert ConditionValid(conditions[0]);
    assert AGENTS.rules[0] == Rule(conditions);
    assert Holds(AGENTS.rules[0], CandidateOf(input));
    VerdictMeaning(CandidateOf(input), AGENTS);
  }

  /** An active fact that simple/v1 promoted under its namespace's own policy, with no approvals. */
  lemma ActiveNotEnough() returns (t: Tables, p: Id)
    ensures Reachable(ENGINES, t) && p in t.promos && WithoutApproval(t, t.promos[p])
  {
    var ap := Some(AutoPromote(SIMPLE_ID, AGENTS));
    var terms := Terms(1, ap);
    var t1 := DoCreate(ENGINES, Policy(1, None, ap));
    AttainedSound(ENGINES, t1);
    AgentsPromoted(INPUT);
    t := EngineApproves(ENGINES, t1, INPUT, KeyOf(INPUT.subject), terms);
    p := t1.next + 1;
    AttainedPropose(ENGINES, t1, INPUT, terms);
    AttainedReachable(ENGINES, t);
  }

  // ---- Events without transitions ----

  /** Two approvals are required, and bob's is the only one so far. */
  ghost predicate HalfApproved(t: Tables, p: Id) {
    && p in t.promos && t.promos[p].state == Reviewing && t.promos[p].required == 2
    && t.promos[p].proposer == "alice" && t.promos[p].reviews == [Review("bob", Schema.Approve)]
  }

  lemma BobIsOne(p: Promotion)
    requires p.proposer == "alice" && p.reviews == [Review("bob", Schema.Approve)]
    ensures ApprovalCount(p) == 1 && AlreadyApprovedBy(p, "bob") && WithApproval(p, "bob") == p.reviews
  {
    assert p.reviews[0] in p.reviews;
    assert ApproverSet(p.reviews, "alice") == {"bob"};
  }

  lemma FirstOfTwo(t: Tables, p: Id)
    requires Sound(t) && p in t.promos && t.promos[p].state == Pending && t.promos[p].required == 2
    requires t.promos[p].proposer == "alice" && t.promos[p].reviews == []
    ensures HalfApproved(ApproveTx(t, p, "bob", 0, false).0, p)
  {
    assert WithApproval(t.promos[p], "bob") == [Review("bob", Schema.Approve)];
    BobIsOne(t.promos[p].(reviews := WithApproval(t.promos[p], "bob")));
    assert !Reaches(t, p, "bob");
  }

  lemma DueForTwo(engines: Option<Registry>) returns (t: Tables, p: Id)
    ensures Attained(engines, t) && p in t.promos && t.promos[p].state == Pending && t.promos[p].required == 2
    ensures t.promos[p].proposer == "alice" && t.promos[p].reviews == []
  {
    var t1 := DoCreate(engines, Policy(2, None, None));
    AttainedSound(engines, t1);
    AttainedPropose(engines, t1, INPUT, Terms(2, None));
    ProposedForTwo(engines, t1, INPUT, KeyOf(INPUT.subject));
    t, p := ProposeTx(engines, t1, INPUT, Terms(2, None), 0, false).0, t1.next + 1;
  }

  lemma ProposedForTwo(engines: Option<Registry>, t: Tables, input: ProposeInput, key: string)
    requires Sound(t) && 0 in t.namespaces && FromAlice(input)
    ensures var u := ProposeKeyed(engines, t, input, key, Terms(2, None), 0, false).0;
            t.next + 1 in u.promos && u.promos[t.next + 1] == NewPromotion(input, t.next, 2, ActiveInSlot(t, 0, key))
  {
  }

  /** An approval repeated below the threshold logs an event and changes no row. */
  lemma RepeatedApproval(engines: Option<Registry>) returns (t: Tables, p: Id)
    ensures Reachable(engines, t) && References(t) && HalfApproved(t, p)
    ensures var u := ApproveTx(t, p, "bob", 0, false).0;
            u.facts == t.facts && u.promos == t.promos && |u.log| == |t.log| + 1
  {
    var t2;
    t2, p := DueForTwo(engines);
    AttainedSound(engines, t2);
    FirstOfTwo(t2, p);
    AttainedApprove(engines, t2, p);
    t := ApproveTx(t2, p, "bob", 0, false).0;
    AttainedSound(engines, t);
    AgainOfTwo(t, p);
    AttainedReachable(engines, t);
  }

  lemma AgainOfTwo(t: Tables, p: Id)
    requires Sound(t) && HalfApproved(t, p)
    ensures var u := ApproveTx(t, p, "bob", 0, false).0;
            u.facts == t.facts && u.promos == t.promos && |u.log| == |t.log| + 1
  {
    BobIsOne(t.promos[p]);
    assert t.promos[p].(state := Reviewing, reviews := t.promos[p].reviews) == t.promos[p];
  }

  // ---- Every status change ----

  /** The step, from a reachable state to u, changes the governed row of f and takes its status from `from` to `to`. */
  ghost predicate Takes(engines: Option<Registry>, t: Tables, s: Step, u: Tables, f: Id, from: Status, to: Status) {
    && Reachable(engines, t) && References(t) && u == Next(engines, t, s) && f in t.facts && f in u.facts
    && t.facts[f].status == from && u.facts[f].status == to && Governed(u.facts[f]) != Governed(t.facts[f])
  }

  ghost predicate Occurs(engines: Option<Registry>, from: Status, to: Status) {
    exists t, s, u, f :: Takes(engines, t, s, u, f, from, to)
  }

  /** A relation that covers every change the steps make; it and Forced only help to prove EdgesExact. */
  ghost predicate Covers(engines: Option<Registry>, changes: iset<(Status, Status)>) {
    forall t, s, u, f, from, to | Takes(engines, t, s, u, f, from, to) :: (from, to) in changes
  }

  /** What occurs, as the least such relation: ForcedOccurs and OccursForced prove the two the same. */
  ghost predicate Forced(engines: Option<Registry>, from: Status, to: Status) {
    forall changes | Covers(engines, changes) :: (from, to) in changes
  }

  lemma OccurrencesCover(engines: Option<Registry>)
    ensures Covers(engines, iset change: (Status, Status) | Occurs(engines, change.0, change.1))
  {
    forall t, s, u, f, from, to | Takes(engines, t, s, u, f, from, to) ensures Occurs(engines, from, to) {
    }
  }

  lemma ForcedOccurs(engines: Option<Registry>, from: Status, to: Status)
    requires Forced(engines, from, to)
    ensures Occurs(engines, from, to)
  {
    OccurrencesCover(engines);
  }

  lemma OccursForced(engines: Option<Registry>, from: Status, to: Status)
    requires Occurs(engines, from, to)
    ensures Forced(engines, from, to)
  {
    var t, s, u, f :| Takes(engines, t, s, u, f, from, to);
  }

  lemma Witness(engines: Option<Registry>, t: Tables, s: Step, u: Tables, f: Id)
    requires Attained(engines, t) && References(t) && u == Next(engines, t, s)
    requires f in t.facts && f in u.facts && u.facts[f].version != t.facts[f].version
    ensures Forced(engines, t.facts[f].status, u.facts[f].status)
  {
    AttainedReachable(engines, t);
    assert Takes(engines, t, s, u, f, t.facts[f].status, u.facts[f].status);
  }

  lemma ApprovalWitness(engines: Option<Registry>, t: Tables, p: Id, u: Tables, f: Id)
    requires Attained(engines, t) && References(t) && u == ApproveTx(t, p, "bob", 0, false).0
    requires f in t.facts && f in u.facts && u.facts[f].version != t.facts[f].version
    ensures Forced(engines, t.facts[f].status, u.facts[f].status)
  {
    Witness(engines, t, ApproveBy(p, "bob", 0, false), u, f);
  }

  lemma SubmitMoves(engines: Option<Registry>, t: Tables, key: string, p: Id, f: Id, c: Option<Id>)
    requires Attained(engines, t) && Waiting(t, key, p, f, c, Proposed)
    ensures Forced(engines, Proposed, InReview)
  {
    AttainedSound(engines, t);
    Witness(engines, t, Submit(p, "alice"), SubmitTx(t, p, "alice").0, f);
  }

  lemma WithdrawMoves(engines: Option<Registry>, t: Tables, key: string, p: Id, f: Id, c: Option<Id>)
    requires Attained(engines, t) && Waiting(t, key, p, f, c, Proposed)
    ensures Forced(engines, Proposed, Rejected)
  {
    AttainedSound(engines, t);
    Witness(engines, t, Withdraw(p, "alice"), WithdrawTx(t, p, "alice").0, f);
  }

  lemma RejectMoves(engines: Option<Registry>, t: Tables, key: string, p: Id, f: Id, c: Option<Id>, st: Status)
    requires Attained(engines, t) && Waiting(t, key, p, f, c, st)
    ensures Forced(engines, st, Rejected)
  {
    AttainedSound(engines, t);
    Witness(engines, t, RejectBy(p, "bob"), RejectTx(t, p, "bob").0, f);
  }

  lemma RequestMoves(engines: Option<Registry>, t: Tables, key: string, p: Id, f: Id, c: Option<Id>, st: Status)
    requires Attained(engines, t) && Waiting(t, key, p, f, c, st)
    ensures Forced(engines, st, Proposed)
  {
    AttainedSound(engines, t);
    Witness(engines, t, RequestChangesBy(p, "bob"), RequestChangesTx(t, p, "bob").0, f);
  }

  lemma ActivationForced(engines: Option<Registry>, t: Tables, key: string, p: Id, f: Id, st: Status)
    requires Attained(engines, t) && Waiting(t, key, p, f, None, st) && NoneActive(t) && 0 in t.namespaces
    ensures Forced(engines, st, Active)
  {
    AttainedSound(engines, t);
    var u := FirstActivation(engines, t, key, p, f, st);
    ApprovalWitness(engines, t, p, u, f);
  }

  lemma FirstActivation(engines: Option<Registry>, t: Tables, key: string, p: Id, f: Id, st: Status) returns (u: Tables)
    requires References(t) && Attained(engines, t) && 0 in t.namespaces
    requires Waiting(t, key, p, f, None, st) && NoneActive(t)
    ensures u == ApproveTx(t, p, "bob", 0, false).0 && f in u.facts && u.facts[f].status == Active
    ensures u.facts[f].version == t.facts[f].version + 1
  {
    u := ThenApprove(engines, t, key, p, f, None, st);
    ActivateRaises(t, p, Reviewed(WithApproval(t.promos[p], "bob"), "bob"));
  }

  lemma ActivateRaises(t: Tables, p: Id, a: Actor)
    requires PromoRefs(t, p) && t.promos[p].conflictWith != Some(t.promos[p].factId)
    ensures Activate(t, p, a, 0, false).facts[t.promos[p].factId].version == t.facts[t.promos[p].factId].version + 1
  {
  }

  lemma SupersessionForced(engines: Option<Registry>, t: Tables, key: string, p: Id, f: Id, a: Id)
    requires Attained(engines, t) && Waiting(t, key, p, f, Some(a), Proposed) && Unopposed(t, Some(a))
        && 0 in t.namespaces
    ensures a in t.facts && Forced(engines, t.facts[a].status, Superseded)
  {
    var u := ThenApprove(engines, t, key, p, f, Some(a), Proposed);
    ApprovalWitness(engines, t, p, u, a);
  }

  lemma EarlyEdges(engines: Option<Registry>)
    ensures Forced(engines, Proposed, InReview) && Forced(engines, Proposed, Rejected)
        && Forced(engines, Proposed, Proposed)
    ensures Forced(engines, InReview, Rejected) && Forced(engines, InReview, Proposed)
    ensures Forced(engines, Proposed, Active) && Forced(engines, InReview, Active)
  {
    var key := KeyOf(INPUT.subject);
    var t := FirstProposal(engines, INPUT, key);
    SubmitMoves(engines, t, key, 2, 1, None);
    WithdrawMoves(engines, t, key, 2, 1, None);
    RequestMoves(engines, t, key, 2, 1, None, Proposed);
    ActivationForced(engines, t, key, 2, 1, Proposed);
    var u := ThenSubmit(engines, t, key, 2, 1, None);
    RejectMoves(engines, u, key, 2, 1, None, InReview);
    RequestMoves(engines, u, key, 2, 1, None, InReview);
    ActivationForced(engines, u, key, 2, 1, InReview);
  }

  lemma RevokingEdges(engines: Option<Registry>, t: Tables, key: string, a: Id, p: Id, f: Id)
    requires Attained(engines, t) && OnlyActive(t, key, a) && Waiting(t, key, p, f, Some(a), Proposed)
    ensures Forced(engines, Active, Revoked) && Forced(engines, Revoked, Superseded)
  {
    AttainedSound(engines, t);
    var r := ThenRevoke(engines, t, key, a);
    RetiredRest(t, r, key, a, Revoked);
    Witness(engines, t, RevokeFact(a, t.facts[a].version, "carol"), r, a);
    SupersessionForced(engines, r, key, p, f, a);
  }

  lemma ExpiringEdges(engines: Option<Registry>, t: Tables, key: string, a: Id, p: Id, f: Id)
    requires Attained(engines, t) && OnlyActive(t, key, a) && Waiting(t, key, p, f, Some(a), Proposed)
    ensures Forced(engines, Active, Expired) && Forced(engines, Expired, Superseded)
  {
    var v, e := ThenExpire(engines, t, key, a);
    RetiredRest(t, e, key, a, Expired);
    AttainedSound(engines, v);
    Witness(engines, v, Reap(0, [a]), e, a);
    SupersessionForced(engines, e, key, p, f, a);
  }

  lemma LateEdges(engines: Option<Registry>)
    ensures Forced(engines, Active, Superseded)
    ensures Forced(engines, Active, Revoked) && Forced(engines, Revoked, Superseded)
    ensures Forced(engines, Active, Expired) && Forced(engines, Expired, Superseded)
    ensures Forced(engines, Superseded, Superseded)
  {
    var key := KeyOf(INPUT.subject);
    var t, a, p2, f2, p3, f3 := TwoRivals(engines, INPUT, key);
    SupersessionForced(engines, t, key, p2, f2, a);
    RevokingEdges(engines, t, key, a, p2, f2);
    ExpiringEdges(engines, t, key, a, p2, f2);
    SupersededAgainOccurs(engines, key);
  }

  lemma SupersededAgainOccurs(engines: Option<Registry>, key: string)
    requires key == KeyOf(INPUT.subject)
    ensures Forced(engines, Superseded, Superseded)
  {
    var t, u, a, f2, p3, f3 := SupersededTwice(engines, key);
    ApprovalWitness(engines, t, p3, u, a);
  }

  lemma OccursOnEdges(engines: Option<Registry>, t: Tables, s: Step, u: Tables, f: Id, from: Status, to: Status)
    requires Takes(engines, t, s, u, f, from, to)
    ensures TableEdge(from, to) || ExtraEdge(from, to) || (from == to && (from == Proposed || from == Superseded))
  {
    ReachableSound(engines, t);
    StepEdges(engines, t, s, f);
  }

  /**
   * The status changes the code makes, exactly: whatever engines are registered, some reachable step
   * takes a fact from one status to another if and only if that is an edge of the table, one of the
   * three extra edges, or a proposed or superseded fact set so again.
   */
  lemma EdgesExact(engines: Option<Registry>, from: Status, to: Status)
    ensures Occurs(engines, from, to) <==>
              || TableEdge(from, to) || ExtraEdge(from, to)
              || (from == to && (from == Proposed || from == Superseded))
  {
    if TableEdge(from, to) || ExtraEdge(from, to) || (from == to && (from == Proposed || from == Superseded)) {
      TableEdges(from, to);
      EarlyEdges(engines);
      LateEdges(engines);
      ForcedOccurs(engines, from, to);
    } else if t, s, u, f :| Takes(engines, t, s, u, f, from, to) {
      OccursOnEdges(engines, t, s, u, f, from, to);
    }
  }
}
