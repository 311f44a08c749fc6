/** Every run from the empty database: all invariants hold in every state it passes through. */
module Runs {
  import opened Basics
  import opened Subjects
  import opened Autopromote
  import opened Schema
  import opened Reviews
  import opened Workflow
  import opened Maintenance
  import opened Invariants
  import opened Ledger
  import opened Approvals

  ghost predicate Sound(t: Tables) {
    Core(t) && LogIds(t) && Replays(t) && Versions(t) && Thresholds(t)
  }

  // ---- One step ----

  lemma AddSound(t: Tables, input: ProposeInput, key: string, terms: Terms)
    requires Sound(t) && !ProposeBlocked(t, input)
    ensures var u := WithProposal(t, input, key, terms);
            && Sound(u) && PromoRefs(u, t.next + 1) && SlotOpen(u, u.promos[t.next + 1])
            && u.promos[t.next + 1].state == Pending && u.promos[t.next + 1].reviews == []
  {
    var conflict := ActiveInSlot(t, input.target, key);
    AddKeepsConstraints(t, input, key, terms.required);
    AddKeepsPaired(t, input, key, terms.required);
    AddKeepsLineage(t, input, key, terms.required, conflict);
    AddReplays(t, input, key, terms.required, conflict);
    AddVersions(t, input, key, terms.required, conflict);
    AddThresholds(t, input, key, terms.required, conflict);
    NewSlotOpen(t, input, key, terms);
  }

  lemma MoveSound(t: Tables, p: Id, to: State, reviews: seq<Review>, factTo: Status, principal: string, action: Action)
    requires Sound(t) && p in t.promos
    requires t.promos[p].state != Approved && Announces(action, to, factTo)
    requires ApproverSet(reviews, t.promos[p].proposer) == ApproverSet(t.promos[p].reviews, t.promos[p].proposer)
    ensures t.promos[p].factId in t.facts && Sound(Move(t, p, to, reviews, factTo, principal, action))
  {
    MoveKeeps(t, p, to, reviews, factTo, principal, action);
    MoveReplays(t, p, to, reviews, factTo, principal, action);
    MoveVersions(t, p, to, reviews, factTo, principal, action);
    MoveThresholds(t, p, to, reviews, factTo, principal, action);
  }

  lemma RecordSound(t: Tables, p: Id, reviewer: string)
    requires Sound(t) && p in t.promos && Open(t.promos[p].state)
    requires reviewer != t.promos[p].proposer && !Reaches(t, p, reviewer)
    ensures Sound(RecordApproval(t, p, WithApproval(t.promos[p], reviewer), reviewer))
  {
    var reviews := WithApproval(t.promos[p], reviewer);
    RecordKeeps(t, p, reviews, reviewer);
    RecordReplays(t, p, reviews, reviewer);
    RecordVersions(t, p, reviews, reviewer);
    RecordThresholds(t, p, reviewer);
  }

  lemma ActivateSound(t: Tables, p: Id, a: Actor, now: int, embedOk: bool)
    requires Sound(t) && PromoRefs(t, p) && t.promos[p].state != Approved && SlotOpen(t, t.promos[p])
    requires match a
             case Reviewed(reviews, last) => Reaches(t, p, last) && reviews == WithApproval(t.promos[p], last)
             case Automatic(_, _) => t.promos[p].state == Pending && t.promos[p].reviews == []
    ensures Sound(Activate(t, p, a, now, embedOk))
  {
    ActivateKeeps(t, p, a, now, embedOk);
    ActivateReplays(t, p, a, now, embedOk);
    ActivateVersions(t, p, a, now, embedOk);
    ActivateLogIds(t, p, a, now, embedOk);
    match a {
      case Reviewed(_, last) => ReviewedThresholds(t, p, last, now, embedOk);
      case Automatic(engine, rule) => AutomaticThresholds(t, p, engine, rule, now, embedOk);
    }
  }

  lemma AutomaticSound(t: Tables, p: Id, a: Actor, now: int, embedOk: bool)
    requires Sound(t) && PromoRefs(t, p) && SlotOpen(t, t.promos[p]) && a.Automatic?
    requires t.promos[p].state == Pending && t.promos[p].reviews == []
    ensures Sound(Activate(t, p, a, now, embedOk))
  {
    ActivateSound(t, p, a, now, embedOk);
  }

  lemma ActivateLogIds(t: Tables, p: Id, a: Actor, now: int, embedOk: bool)
    requires Core(t) && LogIds(t) && PromoRefs(t, p)
    ensures LogIds(Activate(t, p, a, now, embedOk))
  {
  }

  lemma LeaveSound(t: Tables, f: Id, to: Status, principal: string, action: Action)
    requires Sound(t) && f in t.facts && t.facts[f].status == Active
    requires (to == Revoked && action == FactRevoked) || (to == Expired && action == FactExpired)
    ensures Sound(Leave(t, f, to, principal, action))
  {
    LeaveKeeps(t, f, to, principal, action);
    LeaveReplays(t, f, to, principal, action);
    LeaveVersions(t, f, to, principal, action);
    LeaveThresholds(t, f, to, principal, action);
  }

  lemma CosmeticSound(t: Tables, u: Tables)
    requires Sound(t) && Cosmetic(t, u)
    ensures Sound(u)
  {
    CosmeticKeeps(t, u);
    CosmeticLedger(t, u);
    CosmeticThresholds(t, u);
  }

  lemma {:induction false} ExpireAllSound(t: Tables, order: seq<Id>)
    requires Sound(t)
    requires forall f | f in order :: f in t.facts && t.facts[f].status == Active
    requires forall i, j | 0 <= i < j < |order| :: order[i] != order[j]
    ensures Sound(ExpireAll(t, order))
  {
    if order != [] {
      var last := |order| - 1;
      ExpireAllSound(t, order[..last]);
      ExpireAllFacts(t, order[..last]);
      assert order[last] !in order[..last];
      LeaveSound(ExpireAll(t, order[..last]), order[last], Expired, REAPER, FactExpired);
    }
  }

  lemma ProposeSound(engines: Option<Registry>, t: Tables, input: ProposeInput, key: string, terms: Terms, now: int,
                     embedOk: bool)
    requires Sound(t)
    ensures Sound(ProposeKeyed(engines, t, input, key, terms, now, embedOk).0)
  {
    var actor := AutoActor(engines, terms.autoPromote, input);
    if !ProposeBlocked(t, input) {
      if actor.Some? {
        AutoProposalSound(t, input, key, terms, WithProposal(t, input, key, terms), actor.value, now, embedOk);
      } else {
        AddSound(t, input, key, terms);
      }
    }
  }

  lemma AutoProposalSound(t: Tables, input: ProposeInput, key: string, terms: Terms, v: Tables, a: Actor, now: int,
                          embedOk: bool)
    requires Sound(t) && !ProposeBlocked(t, input) && a.Automatic? && v == WithProposal(t, input, key, terms)
    ensures PromoRefs(v, t.next + 1) && Sound(Activate(v, t.next + 1, a, now, embedOk))
  {
    AddSound(t, input, key, terms);
    AutomaticSound(v, t.next + 1, a, now, embedOk);
  }

  lemma ApproveSound(t: Tables, p: Id, reviewer: string, now: int, embedOk: bool)
    requires Sound(t)
    ensures Sound(ApproveTx(t, p, reviewer, now, embedOk).0)
  {
    if p in t.promos && Open(t.promos[p].state) && reviewer != t.promos[p].proposer {
      if !Reaches(t, p, reviewer) {
        RecordSound(t, p, reviewer);
      } else if SlotOpen(t, t.promos[p]) {
        ActivateSound(t, p, Reviewed(WithApproval(t.promos[p], reviewer), reviewer), now, embedOk);
      }
    }
  }

  lemma ReviewSound(t: Tables, p: Id, reviewer: string)
    requires Sound(t)
    ensures Sound(RejectTx(t, p, reviewer).0) && Sound(RequestChangesTx(t, p, reviewer).0)
  {
    if p in t.promos && Open(t.promos[p].state) {
      OtherVerdicts(t.promos[p], reviewer, Schema.Reject);
      OtherVerdicts(t.promos[p], reviewer, Schema.RequestChanges);
      MoveSound(t, p, Denied, t.promos[p].reviews + [Review(reviewer, Schema.Reject)], Rejected, reviewer,
                PromotionRejected);
      MoveSound(t, p, ChangesRequested, t.promos[p].reviews + [Review(reviewer, Schema.RequestChanges)], Proposed,
                reviewer, PromotionChangesRequested);
    }
  }

  lemma ProposerSound(t: Tables, p: Id, principal: string)
    requires Sound(t)
    ensures Sound(SubmitTx(t, p, principal).0) && Sound(WithdrawTx(t, p, principal).0)
  {
    if p in t.promos && (t.promos[p].state == Pending || t.promos[p].state == ChangesRequested) {
      MoveSound(t, p, Reviewing, t.promos[p].reviews, InReview, principal, PromotionSubmitted);
      MoveSound(t, p, Denied, t.promos[p].reviews, Rejected, principal, PromotionWithdrawn);
    }
  }

  predicate IsRegistryStep(s: Step) {
    s.CreateNamespace? || s.UpdatePolicy? || s.Grant? || s.RevokeGrant? || s.Embed? || s.SetValidTo?
  }

  lemma CreateCosmetic(t: Tables, ns: Namespace)
    requires Core(t)
    ensures Cosmetic(t, CreateNamespaceTx(t, ns).0)
  {
  }

  lemma PolicyCosmetic(t: Tables, n: Id, policy: Policy)
    requires Core(t)
    ensures Cosmetic(t, UpdatePolicyTx(t, n, policy).0)
  {
  }

  lemma MembershipCosmetic(t: Tables, m: Membership)
    requires Core(t)
    ensures Cosmetic(t, GrantTx(t, m).0) && Cosmetic(t, RevokeGrantTx(t, m))
  {
  }

  lemma EmbedCosmetic(t: Tables, f: Id)
    requires Core(t)
    ensures Cosmetic(t, EmbedTx(t, f))
  {
  }

  lemma ValidToCosmetic(t: Tables, f: Id, until: Option<int>)
    requires Core(t)
    ensures Cosmetic(t, SetValidToTx(t, f, until))
  {
  }

  lemma RegistryCosmetic(engines: Option<Registry>, t: Tables, s: Step)
    requires Core(t) && IsRegistryStep(s)
    ensures Cosmetic(t, Next(engines, t, s))
  {
    match s
    case CreateNamespace(ns) => CreateCosmetic(t, ns);
    case UpdatePolicy(n, policy) => PolicyCosmetic(t, n, policy);
    case Grant(m) => MembershipCosmetic(t, m);
    case RevokeGrant(m) => MembershipCosmetic(t, m);
    case Embed(f) => EmbedCosmetic(t, f);
    case SetValidTo(f, until) => ValidToCosmetic(t, f, until);
  }

  /** Every operation keeps every invariant. */
  lemma LeaveStepSound(engines: Option<Registry>, t: Tables, s: Step)
    requires Sound(t) && (s.RevokeFact? || s.Reap?)
    ensures Sound(Next(engines, t, s))
  {
    match s
    case RevokeFact(f, version, principal) =>
      if f in t.facts && t.facts[f].status == Active && t.facts[f].version == version {
        LeaveSound(t, f, Revoked, principal, FactRevoked);
      }
    case Reap(now, order) =>
      if Enumerates(order, DueIds(t, now)) {
        ExpireAllSound(t, order);
      }
  }

  lemma RegistryStepSound(engines: Option<Registry>, t: Tables, s: Step)
    requires Sound(t) && IsRegistryStep(s)
    ensures Sound(Next(engines, t, s))
  {
    RegistryCosmetic(engines, t, s);
    CosmeticSound(t, Next(engines, t, s));
  }

  lemma ReviewStepSound(engines: Option<Registry>, t: Tables, s: Step)
    requires Sound(t) && (s.Submit? || s.Withdraw? || s.RejectBy? || s.RequestChangesBy?)
    ensures Sound(Next(engines, t, s))
  {
    if s.Submit? || s.Withdraw? {
      ProposerSound(t, s.p, s.principal);
    } else {
      ReviewSound(t, s.p, s.principal);
    }
  }

  lemma StepSound(engines: Option<Registry>, t: Tables, s: Step)
    requires Sound(t)
    ensures Sound(Next(engines, t, s))
  {
    if s.Propose? {
      ProposeSound(engines, t, s.input, KeyOf(s.input.subject), s.terms, s.now, s.embedOk);
    } else if s.ApproveBy? {
      ApproveSound(t, s.p, s.principal, s.now, s.embedOk);
    } else if s.RevokeFact? || s.Reap? {
      LeaveStepSound(engines, t, s);
    } else if IsRegistryStep(s) {
      RegistryStepSound(engines, t, s);
    } else {
      ReviewStepSound(engines, t, s);
    }
  }

  // ---- Whole runs ----

  lemma EmptySound()
    ensures Sound(EMPTY)
  {
  }

  /** The state a run of committed transactions reaches, from a sound one. */
  ghost function RunFrom(engines: Option<Registry>, t: Tables, steps: seq<Step>): (u: Tables)
    requires Sound(t)
    ensures Sound(u)
  {
    if steps == [] then t
    else
      var before := RunFrom(engines, t, steps[..|steps|-1]);
      StepSound(engines, before, steps[|steps|-1]);
      Next(engines, before, steps[|steps|-1])
  }

  /** Every state the system can reach from the empty database. */
  ghost function Exec(engines: Option<Registry>, steps: seq<Step>): (u: Tables)
    ensures Sound(u)
  {
    EmptySound();
    RunFrom(engines, EMPTY, steps)
  }

  /** The step proposes under terms that pin the given engine. */
  predicate Pins(s: Step, engine: string) {
    s.Propose? && s.terms.autoPromote.Some? && s.terms.autoPromote.value.engine == engine
  }

  /** Registering or replacing an engine changes no run in which no proposal is pinned to it. */
  lemma {:induction false} VersionIsolation(reg: Registry, other: Engine, t: Tables, steps: seq<Step>)
    requires Sound(t) && forall s | s in steps :: !Pins(s, other.id)
    ensures RunFrom(Some(reg[other.id := other]), t, steps) == RunFrom(Some(reg), t, steps)
  {
    if steps != [] {
      var before, s := RunFrom(Some(reg), t, steps[..|steps|-1]), steps[|steps|-1];
      VersionIsolation(reg, other, t, steps[..|steps|-1]);
      SameNext(reg, other, before, s);
    }
  }

  lemma SameNext(reg: Registry, other: Engine, t: Tables, s: Step)
    requires References(t) && !Pins(s, other.id)
    ensures Next(Some(reg[other.id := other]), t, s) == Next(Some(reg), t, s)
  {
    if s.Propose? {
      SameActor(reg, other, s.terms.autoPromote, s.input);
    }
  }

  lemma SameActor(reg: Registry, other: Engine, ap: Option<AutoPromote>, input: ProposeInput)
    requires ap.Some? ==> ap.value.engine != other.id
    ensures AutoActor(Some(reg[other.id := other]), ap, input) == AutoActor(Some(reg), ap, input)
  {
  }

  function Embeds(order: seq<Id>): (steps: seq<Step>)
    ensures |steps| == |order|
  {
    seq(|order|, i requires 0 <= i < |order| => Embed(order[i]))
  }

  function Ids(order: seq<Id>): set<Id> {
    set f | f in order
  }

  /** Without interference a backfill is the run of its own statements, in any order. */
  lemma {:induction false} BackfillIsRun(engines: Option<Registry>, t: Tables, order: seq<Id>)
    requires Sound(t) && forall f | f in order :: f in t.facts && t.facts[f].status == Active
    ensures RunFrom(engines, t, Embeds(order)) == BackfillTx(t, Ids(order))
  {
    if order == [] {
      EmbedNone(t);
      assert Embeds(order) == [] && Ids(order) == {};
    } else {
      var init, f := order[..|order|-1], order[|order|-1];
      assert order == init + [f];
      BackfillIsRun(engines, t, init);
      var before := BackfillTx(t, Ids(init));
      EmbedMore(engines, t, init, before, f);
    }
  }

  lemma EmbedMore(engines: Option<Registry>, t: Tables, init: seq<Id>, before: Tables, f: Id)
    requires Sound(t) && f in t.facts && t.facts[f].status == Active
    requires before == RunFrom(engines, t, Embeds(init)) == BackfillTx(t, Ids(init))
    ensures RunFrom(engines, t, Embeds(init + [f])) == BackfillTx(t, Ids(init + [f]))
  {
    assert Embeds(init + [f]) == Embeds(init) + [Embed(f)] && Ids(init + [f]) == Ids(init) + {f};
    RunSnoc(engines, t, Embeds(init), before, Embed(f));
    EmbedStep(engines, t, Ids(init), before, f);
  }

  lemma RunSnoc(engines: Option<Registry>, t: Tables, steps: seq<Step>, before: Tables, s: Step)
    requires Sound(t) && before == RunFrom(engines, t, steps)
    ensures RunFrom(engines, t, steps + [s]) == Next(engines, before, s)
  {
    assert (steps + [s])[..|steps + [s]| - 1] == steps;
  }

  lemma EmbedStep(engines: Option<Registry>, t: Tables, done: set<Id>, before: Tables, f: Id)
    requires References(before) && before == BackfillTx(t, done) && f in t.facts && t.facts[f].status == Active
    ensures Next(engines, before, Embed(f)) == BackfillTx(t, done + {f})
  {
    EmbedOneMore(t, done, f);
  }

  // ---- What the log determines ----

  /** Every fact's version is one plus the events on it and the moves of its one promotion. */
  lemma VersionConserved(t: Tables, f: Id)
    requires Sound(t) && f in t.facts
    ensures exists p :: Drives(t.promos, p, f) && t.facts[f].version == 1 + Bumps(t.log, f, p)
  {
    assert HasDriver(t.promos, f);
    var p :| Drives(t.promos, p, f);
    assert VersionOk(t, p);
  }

  /** The log as the only record: sound states with equal logs agree on every status, version and lineage pointer. */
  lemma LogDetermines(t: Tables, u: Tables, f: Id)
    requires Sound(t) && Sound(u) && t.log == u.log
    ensures t.promos.Keys == u.promos.Keys && forall p | p in t.promos :: t.promos[p].state == u.promos[p].state
    ensures f in t.facts <==> f in u.facts
    ensures f in t.facts ==>
              && t.facts[f].status == u.facts[f].status && t.facts[f].version == u.facts[f].version
              && t.facts[f].supersededBy == u.facts[f].supersededBy && t.facts[f].supersedes == u.facts[f].supersedes
  {
    LogDeterminesView(t, u);
    if f in t.facts {
      assert HasDriver(t.promos, f);
      var p :| Drives(t.promos, p, f);
      assert VersionOk(t, p) && VersionOk(u, p);
      assert Agrees(t.facts, t.promos[p]) && Agrees(u.facts, u.promos[p]);
    }
  }

  predicate SameInLog(p: Promotion, q: Promotion) {
    p.state == q.state && p.factId == q.factId && p.conflictWith == q.conflictWith
  }

  lemma LogDeterminesView(t: Tables, u: Tables)
    requires Replays(t) && Replays(u) && t.log == u.log
    ensures t.promos.Keys == u.promos.Keys && t.facts.Keys == u.facts.Keys
    ensures forall p | p in t.promos :: SameInLog(t.promos[p], u.promos[p])
    ensures forall f | f in t.facts ::
              t.facts[f].status == u.facts[f].status && t.facts[f].supersededBy == u.facts[f].supersededBy
  {
    var v, w := ViewOf(t), ViewOf(u);
    assert v == w;
    assert t.promos.Keys == v.promos.Keys && u.promos.Keys == w.promos.Keys;
    assert t.facts.Keys == v.facts.Keys && u.facts.Keys == w.facts.Keys;
    forall p | p in t.promos ensures SameInLog(t.promos[p], u.promos[p]) {
      assert v.promos[p] == w.promos[p] && v.factOf[p] == w.factOf[p] && v.conflictOf[p] == w.conflictOf[p];
    }
    forall f | f in t.facts
      ensures t.facts[f].status == u.facts[f].status && t.facts[f].supersededBy == u.facts[f].supersededBy
    {
      assert v.facts[f] == w.facts[f];
      assert f in v.successor <==> f in w.successor;
      assert f in v.successor ==> v.successor[f] == w.successor[f];
    }
  }
}
