/**
 * What a transaction of the workflow leaves behind, row by row and event by event, in terms of columns
 * alone. Promotions.dfy and Maintenance.dfy promise these outcomes of the code.
 */
module Outcomes {
  import opened Basics
  import opened KeyMeaning
  import opened Autopromote
  import opened Schema
  import opened Reviews
  import opened Workflow
  import opened Invariants
  import opened RuleMeaning

  // ---- Approving ----

  /** The reviews after the approval: one already there is not repeated. */
  function ReviewsAfter(p: Promotion, reviewer: string): seq<Review> {
    if Review(reviewer, Approve) in p.reviews then p.reviews else p.reviews + [Review(reviewer, Approve)]
  }

  /** Everyone but the proposer who approved. */
  function Voters(reviews: seq<Review>, proposer: string): set<string> {
    set r | r in reviews && r.decision == Approve && r.reviewer != proposer :: r.reviewer
  }

  /** Another active fact holds the slot of the promotion's fact, and it is not the recorded conflict. */
  ghost predicate SlotTaken(t: Tables, p: Promotion)
    requires p.factId in t.facts
  {
    exists g :: g in t.facts && g != p.factId && t.facts[g].status == Active && p.conflictWith != Some(g)
                && t.facts[g].ns == t.facts[p.factId].ns && t.facts[g].key == t.facts[p.factId].key
  }

  /** Activation sets these columns and leaves the rest. */
  predicate ActivatedColumns(f: Fact, g: Fact, conflict: Option<Id>, now: int, embedOk: bool) {
    && g.ns == f.ns && g.subject == f.subject && g.key == f.key && g.statement == f.statement
    && g.createdBy == f.createdBy && g.validTo == f.validTo && g.supersededBy == f.supersededBy
    && g.status == Active && g.version == f.version + 1 && g.validFrom == Some(now)
    && g.embedded == (f.embedded || embedOk)
    && g.supersedes == if conflict.Some? then conflict else f.supersedes
  }

  /** The distinct names in order of their first approval. */
  ghost predicate NamesInOrder(names: seq<string>, reviews: seq<Review>, proposer: string) {
    && (forall n :: n in names <==> n in Voters(reviews, proposer))
    && (forall i, j | 0 <= i < j < |names| :: names[i] != names[j] && ApprovedBefore(reviews, names[i], names[j]))
  }

  ghost predicate ApprovedBefore(reviews: seq<Review>, a: string, b: string) {
    exists k :: 0 <= k < |reviews| && reviews[k] == Review(a, Approve)
                && forall l | 0 <= l <= k :: reviews[l] != Review(b, Approve)
  }

  /** The superseded row: status, successor and version change. */
  predicate SupersededColumns(f: Fact, g: Fact, successor: Id) {
    g == f.(status := Superseded, supersededBy := Some(successor), version := f.version + 1)
  }

  /** Only the promoted fact and the recorded conflict change. */
  ghost predicate FactsOfActivation(t: Tables, u: Tables, p: Promotion, now: int, embedOk: bool)
    requires p.factId in t.facts
  {
    && u.facts.Keys == t.facts.Keys
    && ActivatedColumns(t.facts[p.factId], u.facts[p.factId], p.conflictWith, now, embedOk)
    && (p.conflictWith.Some? ==>
          && p.conflictWith.value in t.facts
          && SupersededColumns(t.facts[p.conflictWith.value], u.facts[p.conflictWith.value], p.factId))
    && (forall g | g in t.facts && g != p.factId && p.conflictWith != Some(g) :: u.facts[g] == t.facts[g])
  }

  /** The event of the supersession, if there is a conflict. */
  function Supersession(p: Promotion, principal: string): seq<Event> {
    match p.conflictWith
    case None => []
    case Some(c) =>
      [Event(principal := principal, action := FactSuperseded, subjectType := OnFact, subject := c,
             fromState := OfFact(Active), toState := OfFact(Superseded), detail := SupersededByDetail(p.factId))]
  }

  function ApprovalEvent(id: Id, p: Promotion, reviewer: string, state: State, votes: nat): Event {
    Event(principal := reviewer, action := PromotionApproved, subjectType := OnPromotion, subject := id,
          fromState := NoState, toState := OfPromotion(state), detail := ApprovalsDetail(votes, p.required))
  }

  /** The events of an approval at the threshold: the supersession, the activation, the approval. */
  function ApprovalEvents(id: Id, p: Promotion, reviewer: string, votes: nat): seq<Event> {
    Supersession(p, reviewer)
    + [Event(principal := reviewer, action := FactActivated, subjectType := OnFact, subject := p.factId,
             fromState := NoState, toState := OfFact(Active), detail := NoDetail),
       ApprovalEvent(id, p, reviewer, Approved, votes)]
  }

  /** The promoted fact keeps its tags and gains its approvers. */
  ghost predicate ApprovedFact(f: Fact, g: Fact, reviews: seq<Review>, proposer: string) {
    g.tags == f.tags && NamesInOrder(g.approvedBy, reviews, proposer)
  }

  /** The rows and events of an approval at the threshold. */
  ghost predicate ApprovedOutcome(t: Tables, u: Tables, id: Id, reviewer: string, now: int, embedOk: bool)
    requires id in t.promos && t.promos[id].factId in t.facts
  {
    var p := t.promos[id];
    var reviews := ReviewsAfter(p, reviewer);
    && u.namespaces == t.namespaces && u.memberships == t.memberships && u.next == t.next
    && u.promos == t.promos[id := p.(state := Approved, reviews := reviews)]
    && FactsOfActivation(t, u, p, now, embedOk)
    && ApprovedFact(t.facts[p.factId], u.facts[p.factId], reviews, p.proposer)
    && u.log == t.log + ApprovalEvents(id, p, reviewer, |Voters(reviews, p.proposer)|)
  }

  /** The rows and the event of an approval below the threshold. */
  ghost predicate RecordedOutcome(t: Tables, u: Tables, id: Id, reviewer: string)
    requires id in t.promos
  {
    var p := t.promos[id];
    var reviews := ReviewsAfter(p, reviewer);
    u == t.(promos := t.promos[id := p.(state := Reviewing, reviews := reviews)],
            log := t.log + [ApprovalEvent(id, p, reviewer, Reviewing, |Voters(reviews, p.proposer)|)])
  }

  /** Exactly when each happens, in the order in which the code checks. */
  ghost predicate ApproveOutcome(t: Tables, u: Tables, r: Outcome, id: Id, reviewer: string, now: int, embedOk: bool) {
    if id !in t.promos then u == t && r == Err(NotFound)
    else
      var p := t.promos[id];
      if p.state != Pending && p.state != Reviewing then u == t && r == Err(InvalidState)
      else if reviewer == p.proposer then u == t && r == Err(SelfApproval)
      else if |Voters(ReviewsAfter(p, reviewer), p.proposer)| < p.required then
        RecordedOutcome(t, u, id, reviewer) && r == Ok(id, u.promos[id])
      else
        && p.factId in t.facts
        && if SlotTaken(t, p) then u == t && r == Err(Aborted)
           else ApprovedOutcome(t, u, id, reviewer, now, embedOk) && r == Ok(id, u.promos[id])
  }

  lemma VotersAre(p: Promotion, reviewer: string)
    ensures WithApproval(p, reviewer) == ReviewsAfter(p, reviewer)
    ensures ApproverSet(WithApproval(p, reviewer), p.proposer) == Voters(ReviewsAfter(p, reviewer), p.proposer)
  {
    assert forall r | r in p.reviews && r.reviewer == reviewer && r.decision == Approve ::
        r == Review(reviewer, Approve);
  }

  lemma {:induction false} ListInOrder(reviews: seq<Review>, proposer: string)
    ensures NamesInOrder(ApproverList(reviews, proposer), reviews, proposer)
  {
    assert ApproverSet(reviews, proposer) == Voters(reviews, proposer);
    if reviews != [] {
      var before, last := reviews[..|reviews|-1], reviews[|reviews|-1];
      ListInOrder(before, proposer);
      assert reviews == before + [last];
      ApproverListSnoc(before, last, proposer);
      var names, all := ApproverList(before, proposer), ApproverList(reviews, proposer);
      forall i, j | 0 <= i < j < |all| ensures all[i] != all[j] && ApprovedBefore(reviews, all[i], all[j]) {
        if j < |names| {
          StillBefore(before, last, names[i], names[j]);
        } else {
          NewIsLast(before, last, proposer, names[i]);
        }
      }
    }
  }

  lemma StillBefore(before: seq<Review>, last: Review, a: string, b: string)
    requires ApprovedBefore(before, a, b)
    ensures ApprovedBefore(before + [last], a, b)
  {
    var k :| 0 <= k < |before| && before[k] == Review(a, Approve)
             && forall l | 0 <= l <= k :: before[l] != Review(b, Approve);
    assert (before + [last])[k] == before[k];
  }

  lemma NewIsLast(before: seq<Review>, last: Review, proposer: string, a: string)
    requires a in Voters(before, proposer) && last.reviewer !in Voters(before, proposer)
    requires last.decision == Approve && last.reviewer != proposer
    ensures ApprovedBefore(before + [last], a, last.reviewer)
  {
    var r :| r in before && r.decision == Approve && r.reviewer == a;
    var k :| 0 <= k < |before| && before[k] == r;
    var all := before + [last];
    assert all[k] == Review(a, Approve);
    forall l | 0 <= l <= k ensures all[l] != Review(last.reviewer, Approve) {
      assert all[l] == before[l] && before[l] in before;
    }
  }

  lemma ActivationRows(t: Tables, id: Id, a: Actor, now: int, embedOk: bool)
    requires PromoRefs(t, id) && t.promos[id].conflictWith != Some(t.promos[id].factId)
    ensures FactsOfActivation(t, Activate(t, id, a, now, embedOk), t.promos[id], now, embedOk)
    ensures var f, g := t.facts[t.promos[id].factId], Activate(t, id, a, now, embedOk).facts[t.promos[id].factId];
            match a
            case Reviewed(reviews, _) =>
              g.tags == f.tags && g.approvedBy == ApproverList(reviews, t.promos[id].proposer)
            case Automatic(_, _) => g.tags == f.tags + {"auto:true"} && g.approvedBy == f.approvedBy
  {
    assert ConflictCleared(t.facts, t.promos[id]).Keys == t.facts.Keys;
  }

  lemma ApprovalLogs(t: Tables, id: Id, reviewer: string, a: Actor)
    requires id in t.promos && a == Reviewed(ReviewsAfter(t.promos[id], reviewer), reviewer)
    ensures ActivationEvents(id, t.promos[id], a)
         == ApprovalEvents(id, t.promos[id], reviewer,
                           |Voters(ReviewsAfter(t.promos[id], reviewer), t.promos[id].proposer)|)
  {
    var p := t.promos[id];
    assert ApproverSet(a.reviews, p.proposer) == Voters(a.reviews, p.proposer);
    assert SupersededEvents(p, reviewer) == Supersession(p, reviewer);
  }

  lemma ApprovalActivates(t: Tables, id: Id, reviewer: string, now: int, embedOk: bool, a: Actor, u: Tables)
    requires PromoRefs(t, id) && t.promos[id].conflictWith != Some(t.promos[id].factId)
    requires a == Reviewed(ReviewsAfter(t.promos[id], reviewer), reviewer) && u == Activate(t, id, a, now, embedOk)
    ensures ApprovedOutcome(t, u, id, reviewer, now, embedOk)
  {
    var p := t.promos[id];
    ListInOrder(a.reviews, p.proposer);
    ActivationRows(t, id, a, now, embedOk);
    ApprovalLogs(t, id, reviewer, a);
  }

  lemma ApprovalRecords(t: Tables, id: Id, reviewer: string)
    requires id in t.promos
    ensures RecordedOutcome(t, RecordApproval(t, id, WithApproval(t.promos[id], reviewer), reviewer), id, reviewer)
  {
    VotersAre(t.promos[id], reviewer);
  }

  /** In every reachable state an approval has exactly this outcome. */
  lemma ApproveMeans(t: Tables, id: Id, reviewer: string, now: int, embedOk: bool)
    requires References(t) && Paired(t)
    ensures var (u, r) := ApproveTx(t, id, reviewer, now, embedOk);
            ApproveOutcome(t, u, r, id, reviewer, now, embedOk)
  {
    if id in t.promos && Open(t.promos[id].state) && reviewer != t.promos[id].proposer {
      var p := t.promos[id];
      VotersAre(p, reviewer);
      assert ConflictOlder(t.facts, p);
      if !Reaches(t, id, reviewer) {
        ApprovalRecords(t, id, reviewer);
      } else {
        assert SlotOpen(t, p) <==> !SlotTaken(t, p);
        if SlotOpen(t, p) {
          var a := Reviewed(ReviewsAfter(p, reviewer), reviewer);
          ApprovalActivates(t, id, reviewer, now, embedOk, a, Activate(t, id, a, now, embedOk));
        }
      }
    }
  }

  // ---- Proposing ----

  /** A promotion of the proposer carries the idempotency key. */
  ghost predicate KeyUsed(t: Tables, input: ProposeInput) {
    input.idemKey != ""
    && exists q :: q in t.promos && t.promos[q].proposer == input.proposer && t.promos[q].idemKey == Some(input.idemKey)
  }

  /** The fact is the active one under the key in the target namespace. */
  predicate Holds(t: Tables, input: ProposeInput, key: string, c: Id) {
    c in t.facts && t.facts[c].status == Active && t.facts[c].ns == input.target && t.facts[c].key == key
  }

  /** The pinned engine is registered and promotes the proposal's own fields, naming the rule. */
  ghost predicate EnginePromotes(engines: Option<Registry>, pinned: Option<AutoPromote>, input: ProposeInput,
                                 rule: Option<Rule>) {
    && engines.Some? && pinned.Some?
    && var ap := pinned.value;
    && ap.engine != "" && ap.engine in engines.value
    && engines.value[ap.engine].evaluate(
         Candidate(originType := input.originType, sourceKind := input.sourceKind, actorType := input.actorType,
                   tags := input.tags, metadata := input.metadata), ap.rules) == Verdict.Promote(rule)
  }

  function ProposedEvent(input: ProposeInput, key: string, f: Id, p: Id, conflict: Option<Id>): Event {
    Event(principal := input.proposer, action := FactProposed, subjectType := OnPromotion, subject := p,
          fromState := NoState, toState := OfPromotion(Pending),
          detail := ProposedDetail(factId := f, key := key, conflictWith := conflict))
  }

  function ProposedFact(input: ProposeInput, key: string): Fact {
    Fact(ns := input.target, subject := input.subject, key := key, statement := input.statement,
         status := Proposed, tags := input.tags, validFrom := None, validTo := None,
         supersedes := None, supersededBy := None,
         createdBy := input.proposer, approvedBy := [], embedded := false, version := 1)
  }

  function ProposedPromotion(input: ProposeInput, f: Id, required: int, state: State, conflict: Option<Id>): Promotion {
    Promotion(factId := f, ns := input.target, state := state, proposer := input.proposer, reviews := [],
              required := if required >= 1 then required else 1, conflictWith := conflict,
              idemKey := if input.idemKey != "" then Some(input.idemKey) else None)
  }

  /** One fact and one promotion are new and wait for review. */
  ghost predicate PendingOutcome(t: Tables, u: Tables, input: ProposeInput, key: string, required: int,
                                 conflict: Option<Id>) {
    u == t.(facts := t.facts[t.next := ProposedFact(input, key)],
            promos := t.promos[t.next + 1 := ProposedPromotion(input, t.next, required, Pending, conflict)],
            log := t.log + [ProposedEvent(input, key, t.next, t.next + 1, conflict)], next := t.next + 2)
  }

  /** One fact and one promotion are new, and the engine has activated and approved them. */
  ghost predicate PromotedOutcome(t: Tables, u: Tables, input: ProposeInput, key: string, required: int,
                                  conflict: Option<Id>, engine: string, rule: Option<Rule>, now: int, embedOk: bool) {
    var f, p := t.next, t.next + 1;
    var promo := ProposedPromotion(input, f, required, Approved, conflict);
    && u.namespaces == t.namespaces && u.memberships == t.memberships && u.next == t.next + 2
    && u.promos == t.promos[p := promo] && u.facts.Keys == t.facts.Keys + {f}
    && ActivatedColumns(ProposedFact(input, key), u.facts[f], conflict, now, embedOk)
    && u.facts[f].tags == input.tags + {"auto:true"} && u.facts[f].approvedBy == []
    && (conflict.Some? ==> conflict.value in t.facts && conflict.value != f
                           && SupersededColumns(t.facts[conflict.value], u.facts[conflict.value], f))
    && (forall g | g in t.facts && g != f && conflict != Some(g) :: u.facts[g] == t.facts[g])
    && u.log == t.log + [ProposedEvent(input, key, f, p, conflict)] + Supersession(promo, "engine:" + engine)
         + [Event(principal := "engine:" + engine, action := FactAutoPromoted, subjectType := OnFact, subject := f,
                  fromState := NoState, toState := OfFact(Active), detail := EngineDetail(engine, rule))]
  }

  /** Exactly when each happens: the conflict is the slot's holder, and the engine decides. */
  ghost predicate ProposeOutcome(engines: Option<Registry>, t: Tables, u: Tables, r: Outcome, input: ProposeInput,
                                 key: string, terms: Terms, now: int, embedOk: bool) {
    if input.target !in t.namespaces || KeyUsed(t, input) then u == t && r == Err(Aborted)
    else
      && t.next + 1 in u.promos && r == Ok(t.next + 1, u.promos[t.next + 1])
      && var conflict := u.promos[t.next + 1].conflictWith;
      && (conflict.Some? ==> Holds(t, input, key, conflict.value))
      && (conflict.None? ==> forall c :: !Holds(t, input, key, c))
      && ((forall rule :: !EnginePromotes(engines, terms.autoPromote, input, rule)) ==>
            PendingOutcome(t, u, input, key, terms.required, conflict))
      && (forall rule | EnginePromotes(engines, terms.autoPromote, input, rule) ::
            PromotedOutcome(t, u, input, key, terms.required, conflict, terms.autoPromote.value.engine, rule, now,
                            embedOk))
  }

  lemma ActorMeans(engines: Option<Registry>, pinned: Option<AutoPromote>, input: ProposeInput)
    ensures var actor := AutoActor(engines, pinned, input);
            && (actor.None? <==> forall rule :: !EnginePromotes(engines, pinned, input, rule))
            && (actor.Some? ==>
                  && pinned.Some? && actor.value.Automatic?
                  && actor.value.engine == pinned.value.engine
                  && forall rule :: EnginePromotes(engines, pinned, input, rule) <==> rule == actor.value.rule)
  {
    if AutoActor(engines, pinned, input).Some? {
      assert EnginePromotes(engines, pinned, input, AutoActor(engines, pinned, input).value.rule);
    }
  }

  lemma ProposalPends(t: Tables, input: ProposeInput, key: string, terms: Terms, v: Tables)
    requires v == WithProposal(t, input, key, terms)
    ensures PendingOutcome(t, v, input, key, terms.required, ActiveInSlot(t, input.target, key))
  {
  }

  lemma ProposalPromoted(t: Tables, input: ProposeInput, key: string, terms: Terms, v: Tables, a: Actor, now: int,
                         embedOk: bool, u: Tables)
    requires IdsUsed(t) && a.Automatic? && PromoRefs(v, t.next + 1)
    requires v == WithProposal(t, input, key, terms) && u == Activate(v, t.next + 1, a, now, embedOk)
    ensures PromotedOutcome(t, u, input, key, terms.required, ActiveInSlot(t, input.target, key), a.engine, a.rule,
                            now, embedOk)
  {
    ProposalPends(t, input, key, terms, v);
    var conflict := ActiveInSlot(t, input.target, key);
    assert conflict != Some(t.next);
    ActivationRows(v, t.next + 1, a, now, embedOk);
    assert u.promos == t.promos[t.next + 1 := ProposedPromotion(input, t.next, terms.required, Approved, conflict)];
    assert SupersededEvents(v.promos[t.next + 1], "engine:" + a.engine)
        == Supersession(ProposedPromotion(input, t.next, terms.required, Approved, conflict), "engine:" + a.engine);
  }

  /** In every state that satisfies the constraints a propose has exactly this outcome. */
  lemma ProposeMeans(engines: Option<Registry>, t: Tables, input: ProposeInput, key: string, terms: Terms, now: int,
                     embedOk: bool, u: Tables, r: Outcome)
    requires Constraints(t) && (u, r) == ProposeKeyed(engines, t, input, key, terms, now, embedOk)
    ensures ProposeOutcome(engines, t, u, r, input, key, terms, now, embedOk)
  {
    BlockedMeans(t, input);
    if !ProposeBlocked(t, input) {
      var actor := AutoActor(engines, terms.autoPromote, input);
      var v := WithProposal(t, input, key, terms);
      if actor.None? {
        PendingMeans(engines, t, input, key, terms, now, embedOk, v);
      } else {
        PromotedMeans(engines, t, input, key, terms, v, actor.value, now, embedOk,
                      Activate(v, t.next + 1, actor.value, now, embedOk));
      }
    }
  }

  lemma PendingMeans(engines: Option<Registry>, t: Tables, input: ProposeInput, key: string, terms: Terms, now: int,
                     embedOk: bool, v: Tables)
    requires !ProposeBlocked(t, input) && AutoActor(engines, terms.autoPromote, input).None?
    requires v == WithProposal(t, input, key, terms)
    ensures t.next + 1 in v.promos
    ensures ProposeOutcome(engines, t, v, Ok(t.next + 1, v.promos[t.next + 1]), input, key, terms, now, embedOk)
  {
    BlockedMeans(t, input);
    ActorMeans(engines, terms.autoPromote, input);
    HolderMeans(t, input, key);
    ProposalPends(t, input, key, terms, v);
  }

  lemma PromotedMeans(engines: Option<Registry>, t: Tables, input: ProposeInput, key: string, terms: Terms, v: Tables,
                      a: Actor, now: int, embedOk: bool, u: Tables)
    requires IdsUsed(t) && !ProposeBlocked(t, input) && PromoRefs(v, t.next + 1)
    requires AutoActor(engines, terms.autoPromote, input) == Some(a)
    requires v == WithProposal(t, input, key, terms) && u == Activate(v, t.next + 1, a, now, embedOk)
    ensures t.next + 1 in u.promos
    ensures ProposeOutcome(engines, t, u, Ok(t.next + 1, u.promos[t.next + 1]), input, key, terms, now, embedOk)
  {
    BlockedMeans(t, input);
    HolderMeans(t, input, key);
    ActorMeans(engines, terms.autoPromote, input);
    ProposalPromoted(t, input, key, terms, v, a, now, embedOk, u);
  }

  lemma BlockedMeans(t: Tables, input: ProposeInput)
    ensures ProposeBlocked(t, input) <==> input.target !in t.namespaces || KeyUsed(t, input)
  {
    var found := FindIdem(t, input.proposer, input.idemKey);
    forall q ensures HasIdemKey(t, q, input.proposer, input.idemKey) <==>
                       && q in t.promos && t.promos[q].proposer == input.proposer
                       && t.promos[q].idemKey == Some(input.idemKey)
    {
    }
    if found.Some? {
      assert HasIdemKey(t, found.value, input.proposer, input.idemKey);
      assert found.value in t.promos;
    }
  }

  lemma HolderMeans(t: Tables, input: ProposeInput, key: string)
    ensures var c := ActiveInSlot(t, input.target, key);
            && (c.Some? ==> Holds(t, input, key, c.value))
            && (c.None? ==> forall g :: !Holds(t, input, key, g))
  {
    forall g ensures Holds(t, input, key, g) <==> ActiveAt(t, g, input.target, key) {
    }
  }

  /**
   * Auto-promotion, spelled out: with simple/v1 registered and pinned, a committed propose is active at
   * once if and only if the stored rules are acceptable and one is true of the proposal.
   */
  lemma AutoPromotionMeans(engines: Option<Registry>, t: Tables, input: ProposeInput, key: string, required: int,
                           rules: Rules, now: int, embedOk: bool)
    requires Constraints(t) && input.target in t.namespaces && !KeyUsed(t, input)
    requires engines.Some? && "simple/v1" in engines.value && engines.value["simple/v1"] == SIMPLE
    ensures var terms := Terms(required, Some(AutoPromote("simple/v1", rules)));
            var u := ProposeKeyed(engines, t, input, key, terms, now, embedOk).0;
            && t.next in u.facts && t.next + 1 in u.promos
            && (if Promoting(rules, input)
                then u.facts[t.next].status == Active && u.promos[t.next + 1].state == Approved
                else u.facts[t.next].status == Proposed && u.promos[t.next + 1].state == Pending)
  {
    var terms := Terms(required, Some(AutoPromote("simple/v1", rules)));
    var done := ProposeKeyed(engines, t, input, key, terms, now, embedOk);
    ProposeMeans(engines, t, input, key, terms, now, embedOk, done.0, done.1);
    SimpleMeans(rules, input);
    var verdict := Evaluate(CandidateOf(input), rules);
    assert verdict.Promote? ==> EnginePromotes(engines, terms.autoPromote, input, verdict.rule);
  }

  // ---- Looking up ----

  /** The reads before the propose transaction, in the order in which the code makes them. */
  ghost predicate LookupOutcome(t: Tables, input: ProposeInput, r: Lookup) {
    if AllBlank(input.subject.typ) then r == Refused(InvalidSubject)
    else if KeyUsed(t, input) then
      && r.Existing? && r.id in t.promos && t.promos[r.id].proposer == input.proposer
      && t.promos[r.id].idemKey == Some(input.idemKey)
    else if input.target !in t.namespaces then r == Refused(NotFound)
    else
      var policy := t.namespaces[input.target].policy;
      r == Proceed(Terms(required := policy.requiredApprovals, autoPromote := policy.autoPromote))
  }

  lemma LookupMeans(t: Tables, input: ProposeInput)
    ensures LookupOutcome(t, input, ProposeLookup(t, input))
  {
    BlankMeans(input.subject.typ);
    BlockedMeans(t, input);
    var found := FindIdem(t, input.proposer, input.idemKey);
    if found.None? {
      assert forall q :: !HasIdemKey(t, q, input.proposer, input.idemKey);
    }
    if KeyUsed(t, input) {
      var q :| q in t.promos && t.promos[q].proposer == input.proposer && t.promos[q].idemKey == Some(input.idemKey);
      assert HasIdemKey(t, q, input.proposer, input.idemKey);
    }
  }

  // ---- Reviewing short of approval ----

  /** The promotion, its fact and the log after a move: state and reviews, status and version, one event. */
  predicate MovedRows(t: Tables, u: Tables, id: Id, state: State, reviews: seq<Review>, status: Status, action: Action,
                      principal: string)
    requires id in t.promos
  {
    var p := t.promos[id];
    && p.factId in t.facts
    && u == t.(promos := t.promos[id := p.(state := state, reviews := reviews)],
               facts := t.facts[p.factId :=
                                  t.facts[p.factId].(status := status, version := t.facts[p.factId].version + 1)],
               log := t.log + [Event(principal := principal, action := action, subjectType := OnPromotion,
                                     subject := id, fromState := NoState, toState := OfPromotion(state),
                                     detail := NoDetail)])
  }

  /** Only its own proposer submits a promotion, and only before or after a review. */
  predicate SubmitOutcome(t: Tables, u: Tables, r: Outcome, id: Id, principal: string) {
    if id !in t.promos then u == t && r == Err(NotFound)
    else if t.promos[id].state != Pending && t.promos[id].state != ChangesRequested then
      u == t && r == Err(InvalidState)
    else if principal != t.promos[id].proposer then u == t && r == Err(NotProposer)
    else
      && MovedRows(t, u, id, Reviewing, t.promos[id].reviews, InReview, PromotionSubmitted, principal)
      && r == Ok(id, u.promos[id])
  }

  predicate WithdrawOutcome(t: Tables, u: Tables, r: Outcome, id: Id, principal: string) {
    if id !in t.promos then u == t && r == Err(NotFound)
    else if principal != t.promos[id].proposer then u == t && r == Err(NotProposer)
    else if t.promos[id].state != Pending && t.promos[id].state != ChangesRequested then
      u == t && r == Err(InvalidState)
    else
      && MovedRows(t, u, id, Denied, t.promos[id].reviews, Rejected, PromotionWithdrawn, principal)
      && r == Ok(id, u.promos[id])
  }

  /** The reviewer's rejection is appended and both rows are rejected. */
  predicate RejectOutcome(t: Tables, u: Tables, r: Outcome, id: Id, reviewer: string) {
    if id !in t.promos then u == t && r == Err(NotFound)
    else if t.promos[id].state != Pending && t.promos[id].state != Reviewing then u == t && r == Err(InvalidState)
    else
      && MovedRows(t, u, id, Denied, t.promos[id].reviews + [Review(reviewer, Schema.Reject)], Rejected,
                   PromotionRejected, reviewer)
      && r == Ok(id, u.promos[id])
  }

  predicate RequestChangesOutcome(t: Tables, u: Tables, r: Outcome, id: Id, reviewer: string) {
    if id !in t.promos then u == t && r == Err(NotFound)
    else if t.promos[id].state != Pending && t.promos[id].state != Reviewing then u == t && r == Err(InvalidState)
    else
      && MovedRows(t, u, id, ChangesRequested, t.promos[id].reviews + [Review(reviewer, Schema.RequestChanges)],
                   Proposed, PromotionChangesRequested, reviewer)
      && r == Ok(id, u.promos[id])
  }

  lemma ProposerMeans(t: Tables, id: Id, principal: string)
    requires References(t)
    ensures SubmitOutcome(t, SubmitTx(t, id, principal).0, SubmitTx(t, id, principal).1, id, principal)
    ensures WithdrawOutcome(t, WithdrawTx(t, id, principal).0, WithdrawTx(t, id, principal).1, id, principal)
  {
  }

  lemma ReviewMeans(t: Tables, id: Id, reviewer: string)
    requires References(t)
    ensures RejectOutcome(t, RejectTx(t, id, reviewer).0, RejectTx(t, id, reviewer).1, id, reviewer)
    ensures var done := RequestChangesTx(t, id, reviewer);
            RequestChangesOutcome(t, done.0, done.1, id, reviewer)
  {
  }

  // ---- Revoking, reaping, embedding ----

  /** Compare-and-set on an active fact's version; anything else is the precise error and no change. */
  predicate RevokeOutcome(t: Tables, u: Tables, err: Option<Error>, f: Id, version: nat, principal: string) {
    && (f !in t.facts ==> u == t && err == Some(NotFound))
    && (f in t.facts && t.facts[f].status != Active ==> u == t && err == Some(NotActive(t.facts[f].status)))
    && (f in t.facts && t.facts[f].status == Active && t.facts[f].version != version ==>
          u == t && err == Some(VersionConflict))
    && (f in t.facts && t.facts[f].status == Active && t.facts[f].version == version ==>
          && err == None
          && u == t.(facts := t.facts[f := t.facts[f].(status := Revoked, version := version + 1)],
                     log := t.log + [Event(principal := principal, action := FactRevoked, subjectType := OnFact,
                                           subject := f, fromState := OfFact(Active), toState := OfFact(Revoked),
                                           detail := NoDetail)]))
  }

  lemma RevokeMeans(t: Tables, f: Id, version: nat, principal: string)
    ensures var done := RevokeTx(t, f, version, principal);
            RevokeOutcome(t, done.0, done.1, f, version, principal)
  {
  }

  /** The fact is active and its validity has ended. */
  predicate Lapsed(f: Fact, now: int) {
    f.status == Active && f.validTo.Some? && f.validTo.value <= now
  }

  function ExpiredEvent(f: Id): Event {
    Event(principal := "system:reaper", action := FactExpired, subjectType := OnFact, subject := f,
          fromState := OfFact(Active), toState := OfFact(Expired), detail := NoDetail)
  }

  /** Exactly the lapsed facts are expired, with one event each, and no lapsed fact is left. */
  ghost predicate ReapOutcome(t: Tables, u: Tables, now: int) {
    && u == t.(facts := u.facts, log := u.log) && u.facts.Keys == t.facts.Keys
    && (forall f | f in t.facts ::
          u.facts[f] == if Lapsed(t.facts[f], now)
                        then t.facts[f].(status := Expired, version := t.facts[f].version + 1)
                        else t.facts[f])
    && (forall f | f in u.facts && u.facts[f].status == Active && u.facts[f].validTo.Some? ::
          u.facts[f].validTo.value > now)
    && t.log <= u.log
    && (forall i | |t.log| <= i < |u.log| ::
          && u.log[i].subject in t.facts && Lapsed(t.facts[u.log[i].subject], now)
          && u.log[i] == ExpiredEvent(u.log[i].subject))
    && (forall f | f in t.facts && Lapsed(t.facts[f], now) ::
          exists i :: |t.log| <= i < |u.log| && u.log[i].subject == f)
    && (forall i, j | |t.log| <= i < j < |u.log| :: u.log[i].subject != u.log[j].subject)
  }

  lemma {:induction false} ExpiredEvents(t: Tables, order: seq<Id>)
    requires forall f | f in order :: f in t.facts
    ensures |ExpireAll(t, order).log| == |t.log| + |order| && t.log <= ExpireAll(t, order).log
    ensures forall i | 0 <= i < |order| :: ExpireAll(t, order).log[|t.log| + i] == ExpiredEvent(order[i])
  {
    if order != [] {
      ExpiredEvents(t, order[..|order|-1]);
    }
  }

  /** Only the embedding flag of the one row changes. */
  predicate EmbedOutcome(t: Tables, u: Tables, f: Id) {
    u == if f in t.facts then t.(facts := t.facts[f := t.facts[f].(embedded := true)]) else t
  }

  /** The active facts that can be embedded are, and nothing else changes. */
  predicate BackfillOutcome(t: Tables, u: Tables, accepts: set<Id>) {
    && u == t.(facts := u.facts) && u.facts.Keys == t.facts.Keys
    && forall f | f in t.facts ::
         u.facts[f] == t.facts[f].(embedded := t.facts[f].embedded || (t.facts[f].status == Active && f in accepts))
  }

  lemma EmbeddingMeans(t: Tables, f: Id, accepts: set<Id>)
    ensures EmbedOutcome(t, EmbedTx(t, f), f) && BackfillOutcome(t, BackfillTx(t, accepts), accepts)
  {
  }
}
