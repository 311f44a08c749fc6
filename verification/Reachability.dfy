/** Reachable states, and short runs that lead to interesting ones whatever engines are registered. */
module Reachability {
  import opened Basics
  import opened Subjects
  import opened Autopromote
  import opened Schema
  import opened Reviews
  import opened Workflow
  import opened Invariants
  import opened Runs

  /** Some run from the empty database ends in t. */
  ghost predicate Reachable(engines: Option<Registry>, t: Tables) {
    exists steps: seq<Step> :: t == Exec(engines, steps)
  }

  /** A set of states that holds the empty database and is closed under every step. */
  ghost predicate Closed(engines: Option<Registry>, states: iset<Tables>) {
    && EMPTY in states
    && forall t, s | t in states && References(t) :: Next(engines, t, s) in states
  }

  /**
   * Reachability as the least closed set, which keeps proofs about single steps free of runs:
   * AttainedReachable and ReachableAttained prove the two the same.
   */
  ghost predicate Attained(engines: Option<Registry>, t: Tables) {
    forall states | Closed(engines, states) :: t in states
  }

  lemma RunsClosed(engines: Option<Registry>)
    ensures Closed(engines, iset t | Reachable(engines, t))
  {
    assert Exec(engines, []) == EMPTY;
    forall t, s | Reachable(engines, t) && References(t) ensures Reachable(engines, Next(engines, t, s)) {
      var steps: seq<Step> :| t == Exec(engines, steps);
      assert (steps + [s])[..|steps + [s]| - 1] == steps;
      assert Exec(engines, steps + [s]) == Next(engines, t, s);
    }
  }

  lemma AttainedReachable(engines: Option<Registry>, t: Tables)
    requires Attained(engines, t)
    ensures Reachable(engines, t)
  {
    RunsClosed(engines);
  }

  lemma {:induction false} RunAttained(engines: Option<Registry>, t: Tables, steps: seq<Step>, states: iset<Tables>)
    requires Sound(t) && t in states && Closed(engines, states)
    ensures RunFrom(engines, t, steps) in states
  {
    if steps != [] {
      RunAttained(engines, t, steps[..|steps|-1], states);
    }
  }

  lemma ReachableAttained(engines: Option<Registry>, t: Tables)
    requires Reachable(engines, t)
    ensures Attained(engines, t)
  {
    var steps: seq<Step> :| t == Exec(engines, steps);
    EmptySound();
    forall states | Closed(engines, states) ensures t in states {
      RunAttained(engines, EMPTY, steps, states);
    }
  }

  lemma ReachableSound(engines: Option<Registry>, t: Tables)
    requires Reachable(engines, t)
    ensures Sound(t)
  {
  }

  lemma AttainedSound(engines: Option<Registry>, t: Tables)
    requires Attained(engines, t)
    ensures Sound(t)
  {
    AttainedReachable(engines, t);
  }

  lemma AttainedStep(engines: Option<Registry>, t: Tables, s: Step)
    requires Attained(engines, t) && References(t)
    ensures Attained(engines, Next(engines, t, s))
  {
  }

  lemma AttainedPropose(engines: Option<Registry>, t: Tables, input: ProposeInput, terms: Terms)
    requires Attained(engines, t) && References(t)
    ensures Attained(engines, ProposeTx(engines, t, input, terms, 0, false).0)
  {
    AttainedStep(engines, t, Propose(input, terms, 0, false));
  }

  lemma AttainedSubmit(engines: Option<Registry>, t: Tables, p: Id)
    requires Attained(engines, t) && References(t)
    ensures Attained(engines, SubmitTx(t, p, "alice").0)
  {
    AttainedStep(engines, t, Submit(p, "alice"));
  }

  lemma AttainedApprove(engines: Option<Registry>, t: Tables, p: Id)
    requires Attained(engines, t) && References(t)
    ensures Attained(engines, ApproveTx(t, p, "bob", 0, false).0)
  {
    AttainedStep(engines, t, ApproveBy(p, "bob", 0, false));
  }

  lemma AttainedRevoke(engines: Option<Registry>, t: Tables, f: Id, version: nat)
    requires Attained(engines, t) && References(t)
    ensures Attained(engines, RevokeTx(t, f, version, "carol").0)
  {
    AttainedStep(engines, t, RevokeFact(f, version, "carol"));
  }

  lemma AttainedExpire(engines: Option<Registry>, t: Tables, f: Id)
    requires Attained(engines, t) && References(t)
    ensures var v := SetValidToTx(t, f, Some(0));
            Attained(engines, v) && Attained(engines, ReapTx(v, 0, [f]))
  {
    AttainedStep(engines, t, SetValidTo(f, Some(0)));
    var v := SetValidToTx(t, f, Some(0));
    AttainedSound(engines, v);
    AttainedStep(engines, v, Reap(0, [f]));
  }

  // ---- States with one slot ----

  /** Alice proposes into the first namespace, without an idempotency key. */
  predicate FromAlice(input: ProposeInput) {
    input.target == 0 && input.proposer == "alice" && input.idemKey == "" && input.subject.Valid()
  }

  /** The statuses of a fact whose proposal waits. */
  predicate Waits(st: Status) {
    st == Proposed || st == InReview
  }

  /** p is alice's unreviewed proposal of fact f under the key, one approval short, recorded against c. */
  ghost predicate Waiting(t: Tables, key: string, p: Id, f: Id, c: Option<Id>, st: Status) {
    && p in t.promos && Waits(st)
    && t.promos[p] == Promotion(f, 0, if st == InReview then Reviewing else Pending, "alice", [], 1, c, None)
    && f in t.facts && t.facts[f].status == st && t.facts[f].supersedes == None
    && t.facts[f].ns == 0 && t.facts[f].key == key
  }

  ghost predicate Kept(t: Tables, u: Tables, f: Id) {
    f in t.facts && f in u.facts && u.facts[f] == t.facts[f]
  }

  /** Only fact a is active, in the slot of the key; everything else is waiting or retired. */
  ghost predicate OnlyActive(t: Tables, key: string, a: Id) {
    && 0 in t.namespaces && a in t.facts && t.facts[a].status == Active
    && t.facts[a].ns == 0 && t.facts[a].key == key
    && forall g | g in t.facts && t.facts[g].status == Active :: g == a
  }

  ghost predicate NoneActive(t: Tables) {
    forall g | g in t.facts :: t.facts[g].status != Active
  }

  /** No fact is active but the recorded conflict. */
  ghost predicate Unopposed(t: Tables, c: Option<Id>) {
    forall g | g in t.facts && t.facts[g].status == Active :: c == Some(g)
  }

  const TERMS := Terms(1, None)

  lemma Keyed(engines: Option<Registry>, t: Tables, input: ProposeInput, key: string)
    requires Sound(t) && 0 in t.namespaces && FromAlice(input)
    ensures var u := ProposeKeyed(engines, t, input, key, TERMS, 0, false).0;
            && u.facts == t.facts[t.next := NewFact(input, key)] && u.namespaces == t.namespaces
            && u.promos == t.promos[t.next + 1 := Promotion(t.next, 0, Pending, "alice", [], 1,
                                                            ActiveInSlot(t, 0, key), None)]
  {
  }

  lemma DoPropose(engines: Option<Registry>, t: Tables, input: ProposeInput, key: string) returns (u: Tables)
    requires Attained(engines, t) && 0 in t.namespaces && FromAlice(input) && key == KeyOf(input.subject)
    ensures Attained(engines, u) && u.namespaces == t.namespaces
    ensures t.next !in t.facts && t.next + 1 !in t.promos
    ensures u.facts == t.facts[t.next := NewFact(input, key)]
    ensures Waiting(u, key, t.next + 1, t.next, ActiveInSlot(t, 0, key), Proposed)
    ensures forall p, f, c, st | Waiting(t, key, p, f, c, st) :: Waiting(u, key, p, f, c, st)
  {
    u := ProposeTx(engines, t, input, TERMS, 0, false).0;
    AttainedSound(engines, t);
    Keyed(engines, t, input, key);
    AttainedPropose(engines, t, input, TERMS);
  }

  lemma ThresholdReached(t: Tables, key: string, p: Id, f: Id, c: Option<Id>, st: Status)
    requires Sound(t) && Waiting(t, key, p, f, c, st) && Unopposed(t, c)
    ensures Reaches(t, p, "bob") && SlotOpen(t, t.promos[p]) && PromoRefs(t, p)
  {
    ApprovalCounts(t.promos[p], "bob");
    assert ApproverSet([], "alice") == {};
  }

  lemma OthersWait(t: Tables, key: string, p: Id, a: Actor, q: Id, g: Id, d: Option<Id>, st: Status)
    requires Sound(t) && PromoRefs(t, p) && q != p && Waiting(t, key, q, g, d, st)
    ensures Waiting(Activate(t, p, a, 0, false), key, q, g, d, st)
  {
    OneToOne(t, p, q);
    assert ConflictOlder(t.facts, t.promos[p]);
  }

  /** The event that reports the supersession of c by f. */
  function SupersededBy(f: Id, c: Id): Event {
    Event("bob", FactSuperseded, OnFact, c, OfFact(Active), OfFact(Superseded), SupersededByDetail(f))
  }

  lemma DoApprove(t: Tables, key: string, p: Id, f: Id, c: Option<Id>, st: Status) returns (u: Tables)
    requires Sound(t) && Waiting(t, key, p, f, c, st) && Unopposed(t, c)
    ensures Reaches(t, p, "bob") && SlotOpen(t, t.promos[p])
    ensures u == ApproveTx(t, p, "bob", 0, false).0 && u.namespaces == t.namespaces && u.facts.Keys == t.facts.Keys
    ensures f in u.facts && u.facts[f].status == Active && u.facts[f].supersedes == c
        && SameFact(t.facts[f], u.facts[f])
    ensures c.Some? ==>
              && c.value in t.facts && c.value in u.facts
              && u.facts[c.value] == WithStatus(t.facts[c.value], Superseded).(supersededBy := Some(f))
              && |u.log| > |t.log| && u.log[|t.log|] == SupersededBy(f, c.value)
    ensures p in u.promos && u.promos[p].factId == f && Enough(u.promos[p])
    ensures forall g | g in t.facts && g != f && c != Some(g) :: Kept(t, u, g)
    ensures forall q, g, d, s | q != p && Waiting(t, key, q, g, d, s) :: Waiting(u, key, q, g, d, s)
  {
    ThresholdReached(t, key, p, f, c, st);
    var a := Reviewed(WithApproval(t.promos[p], "bob"), "bob");
    u := Activate(t, p, a, 0, false);
    assert u == ApproveTx(t, p, "bob", 0, false).0;
    assert ConflictOlder(t.facts, t.promos[p]);
    ActivateRows(t, p, a, 0, false);
    assert SameFact(t.facts[f], u.facts[f]);
    forall q, g, d, s | q != p && Waiting(t, key, q, g, d, s) ensures Waiting(u, key, q, g, d, s) {
      OthersWait(t, key, p, a, q, g, d, s);
    }
  }

  lemma Holder(engines: Option<Registry>, t: Tables, key: string, f: Id)
    requires Attained(engines, t) && OnlyActive(t, key, f)
    ensures ActiveInSlot(t, 0, key) == Some(f)
  {
    AttainedSound(engines, t);
    assert ActiveAt(t, f, 0, key);
    assert Rivals(t.facts[f], t.facts[ActiveInSlot(t, 0, key).value]);
  }

  lemma DoCreate(engines: Option<Registry>, policy: Policy) returns (t: Tables)
    requires policy.requiredApprovals >= 1 && policy.allowedProposers == None && Storable(policy)
    ensures Attained(engines, t) && t.facts == map[] && t.next == 1
    ensures 0 in t.namespaces && t.namespaces[0].policy == policy
  {
    var s := CreateNamespace(Namespace("team", Project, None, policy));
    AttainedStep(engines, EMPTY, s);
    t := Next(engines, EMPTY, s);
  }

  // ---- Short runs ----

  lemma FirstProposal(engines: Option<Registry>, input: ProposeInput, key: string) returns (t: Tables)
    requires FromAlice(input) && key == KeyOf(input.subject)
    ensures Attained(engines, t) && NoneActive(t) && Waiting(t, key, 2, 1, None, Proposed) && 0 in t.namespaces
  {
    var t1 := DoCreate(engines, Policy(1, None, None));
    t := DoPropose(engines, t1, input, key);
    assert ActiveInSlot(t1, 0, key) == None;
  }

  /** With a alone active, a proposal for the same subject records a as its conflict. */
  lemma ThenPropose(engines: Option<Registry>, t: Tables, input: ProposeInput, key: string, a: Id)
    returns (u: Tables, p: Id, f: Id)
    requires FromAlice(input) && key == KeyOf(input.subject)
    requires Attained(engines, t) && OnlyActive(t, key, a)
    ensures Attained(engines, u) && OnlyActive(u, key, a) && Waiting(u, key, p, f, Some(a), Proposed) && p !in t.promos
    ensures forall q, g, d, st | Waiting(t, key, q, g, d, st) :: Waiting(u, key, q, g, d, st)
  {
    Holder(engines, t, key, a);
    u := DoPropose(engines, t, input, key);
    p, f := t.next + 1, t.next;
  }

  lemma ThenSubmit(engines: Option<Registry>, t: Tables, key: string, p: Id, f: Id, c: Option<Id>) returns (u: Tables)
    requires Attained(engines, t) && Waiting(t, key, p, f, c, Proposed) && 0 in t.namespaces
    ensures References(t) && u == SubmitTx(t, p, "alice").0
    ensures Attained(engines, u) && Waiting(u, key, p, f, c, InReview) && 0 in u.namespaces
    ensures NoneActive(t) ==> NoneActive(u)
  {
    AttainedSound(engines, t);
    u := SubmitTx(t, p, "alice").0;
    AttainedSubmit(engines, t, p);
  }

  lemma ThenApprove(engines: Option<Registry>, t: Tables, key: string, p: Id, f: Id, c: Option<Id>, st: Status)
    returns (u: Tables)
    requires Attained(engines, t) && Waiting(t, key, p, f, c, st) && 0 in t.namespaces && Unopposed(t, c)
    ensures References(t) && u == ApproveTx(t, p, "bob", 0, false).0
    ensures Reaches(t, p, "bob") && SlotOpen(t, t.promos[p])
    ensures Attained(engines, u) && OnlyActive(u, key, f) && u.facts[f].supersedes == c
    ensures c.Some? ==>
              && c.value in t.facts && c.value in u.facts
              && u.facts[c.value] == WithStatus(t.facts[c.value], Superseded).(supersededBy := Some(f))
              && |u.log| > |t.log| && u.log[|t.log|] == SupersededBy(f, c.value)
    ensures p in u.promos && u.promos[p].factId == f && Enough(u.promos[p])
    ensures forall g | g in t.facts && g != f && c != Some(g) :: Kept(t, u, g)
    ensures forall q, g, d, s | q != p && Waiting(t, key, q, g, d, s) :: Waiting(u, key, q, g, d, s)
  {
    AttainedSound(engines, t);
    u := DoApprove(t, key, p, f, c, st);
    AttainedApprove(engines, t, p);
    forall g | g in u.facts && u.facts[g].status == Active ensures g == f {
      assert g != f && c != Some(g) ==> Kept(t, u, g);
    }
  }

  /** What revoking and expiring have in common: the fact is retired and the rest stands. */
  ghost predicate Retires(t: Tables, u: Tables, f: Id, to: Status) {
    && f in t.facts && f in u.facts
    && u.facts == t.facts[f := WithStatus(t.facts[f].(validTo := u.facts[f].validTo), to)]
    && u.promos == t.promos && u.namespaces == t.namespaces
  }

  lemma RetiredRest(t: Tables, u: Tables, key: string, f: Id, to: Status)
    requires OnlyActive(t, key, f) && f in u.facts && Retires(t, u, f, to) && (to == Revoked || to == Expired)
    ensures NoneActive(u) && 0 in u.namespaces && u.facts[f].status == to
    ensures forall g | g in t.facts && g != f :: Kept(t, u, g)
    ensures forall p, g, c, st | Waiting(t, key, p, g, c, st) :: Waiting(u, key, p, g, c, st)
  {
  }

  lemma ThenRevoke(engines: Option<Registry>, t: Tables, key: string, f: Id) returns (u: Tables)
    requires Attained(engines, t) && OnlyActive(t, key, f)
    ensures u == RevokeTx(t, f, t.facts[f].version, "carol").0
    ensures Attained(engines, u) && f in u.facts && Retires(t, u, f, Revoked)
  {
    AttainedSound(engines, t);
    AttainedRevoke(engines, t, f, t.facts[f].version);
    u := RevokeTx(t, f, t.facts[f].version, "carol").0;
  }

  lemma OnlyDue(t: Tables, key: string, f: Id)
    requires OnlyActive(t, key, f)
    ensures Enumerates([f], DueIds(SetValidToTx(t, f, Some(0)), 0))
  {
  }

  /** An operator lets the active fact lapse, and the reaper runs. */
  lemma ThenExpire(engines: Option<Registry>, t: Tables, key: string, f: Id) returns (v: Tables, u: Tables)
    requires Attained(engines, t) && OnlyActive(t, key, f)
    ensures v == SetValidToTx(t, f, Some(0)) && Attained(engines, v) && f in v.facts && v.facts[f].status == Active
    ensures u == ReapTx(v, 0, [f]) && Attained(engines, u) && f in u.facts && Retires(t, u, f, Expired)
  {
    AttainedSound(engines, t);
    AttainedExpire(engines, t, f);
    v := SetValidToTx(t, f, Some(0));
    u := ReapTx(v, 0, [f]);
    OnlyDue(t, key, f);
    assert ExpireAll(v, [f][..0]) == v;
    assert u == Leave(v, f, Expired, REAPER, FactExpired);
  }

  /** A is active, and two proposals wait with A as their recorded conflict. */
  lemma TwoRivals(engines: Option<Registry>, input: ProposeInput, key: string)
    returns (t: Tables, a: Id, p2: Id, f2: Id, p3: Id, f3: Id)
    requires FromAlice(input) && key == KeyOf(input.subject)
    ensures Attained(engines, t) && OnlyActive(t, key, a) && p2 != p3
    ensures Waiting(t, key, p2, f2, Some(a), Proposed) && Waiting(t, key, p3, f3, Some(a), Proposed)
  {
    var t2 := FirstProposal(engines, input, key);
    var t3 := ThenApprove(engines, t2, key, 2, 1, None, Proposed);
    a := 1;
    var t4;
    t4, p2, f2 := ThenPropose(engines, t3, input, key, a);
    t, p3, f3 := ThenPropose(engines, t4, input, key, a);
  }
}
