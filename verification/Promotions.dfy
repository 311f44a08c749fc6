/** The promotion workflow as the service runs it (internal/promotions/service.go). */
module Promotions {
  import opened Basics
  import opened Subjects
  import opened Autopromote
  import opened Schema
  import opened Reviews
  import opened Workflow
  import opened Store
  import opened Invariants
  import opened Outcomes

  class Service {
    const db: Db
    const engines: Option<Registry>

    constructor (db: Db, engines: Option<Registry>)
      ensures this.db == db && this.engines == engines
    {
      this.db := db;
      this.engines := engines;
    }

    // ---- Propose ----

    /** The reads before the transaction; another client may commit between them and ProposeCommit. */
    method LookUp(input: ProposeInput) returns (r: Lookup)
      requires db.Valid()
      ensures r == ProposeLookup(db.tables, input)
      ensures LookupOutcome(db.tables, input, r)
    {
      LookupMeans(db.tables, input);
      if !input.subject.Valid() {
        return Refused(InvalidSubject);
      }
      var t := db.tables;
      if input.idemKey != "" {
        if p :| p in t.promos && t.promos[p].proposer == input.proposer && t.promos[p].idemKey == Some(input.idemKey) {
          assert HasIdemKey(t, p, input.proposer, input.idemKey);
          assert SameRequest(t.promos[p], t.promos[FindIdem(t, input.proposer, input.idemKey).value]);
          return Existing(p);
        }
      }
      if input.target !in t.namespaces {
        return Refused(NotFound);
      }
      var policy := t.namespaces[input.target].policy;
      r := Proceed(Terms(policy.requiredApprovals, policy.autoPromote));
    }

    /** Propose with no other client in between: past the lookup, the transaction never fails. */
    method Propose(input: ProposeInput, now: int, embedOk: bool) returns (r: Outcome)
      requires db.Valid()
      modifies db
      ensures db.Valid()
      ensures match ProposeLookup(old(db.tables), input)
              case Refused(e) => db.tables == old(db.tables) && r == Err(e)
              case Existing(id) =>
                && db.tables == old(db.tables) && HasIdemKey(db.tables, id, input.proposer, input.idemKey)
                && r == Ok(id, db.tables.promos[id])
              case Proceed(terms) =>
                && r.Ok? && r == ProposeTx(engines, old(db.tables), input, terms, now, embedOk).1
                && db.tables == ProposeTx(engines, old(db.tables), input, terms, now, embedOk).0
                && ProposeOutcome(engines, old(db.tables), db.tables, r, input, KeyOf(input.subject), terms, now,
                                  embedOk)
    {
      var found := LookUp(input);
      match found {
        case Refused(e) => r := Err(e);
        case Existing(id) => r := Ok(id, db.tables.promos[id]);
        case Proceed(terms) => r := ProposeCommit(input, terms, now, embedOk);
      }
    }

    method ProposeCommit(input: ProposeInput, terms: Terms, now: int, embedOk: bool) returns (r: Outcome)
      requires db.Valid()
      modifies db
      ensures db.Valid()
      ensures db.tables == ProposeTx(engines, old(db.tables), input, terms, now, embedOk).0
      ensures r == ProposeTx(engines, old(db.tables), input, terms, now, embedOk).1
      ensures ProposeOutcome(engines, old(db.tables), db.tables, r, input, KeyOf(input.subject), terms, now, embedOk)
    {
      ghost var t0 := db.tables;
      r := RunPropose(input, terms, now, embedOk);
      ProposeMeans(engines, t0, input, KeyOf(input.subject), terms, now, embedOk, db.tables, r);
    }

    /** The body of the propose transaction. */
    method RunPropose(input: ProposeInput, terms: Terms, now: int, embedOk: bool) returns (r: Outcome)
      requires db.Valid()
      modifies db
      ensures db.Valid()
      ensures db.tables == ProposeTx(engines, old(db.tables), input, terms, now, embedOk).0
      ensures r == ProposeTx(engines, old(db.tables), input, terms, now, embedOk).1
    {
      ghost var t0 := db.tables;
      var tx := db.Begin();
      var key := CanonicalKey(input.subject);
      var p := InsertProposal(tx, input, key, terms);
      if p.None? {
        return Err(Aborted);
      }
      var promo := MaybeAutoPromote(tx, p.value, terms.autoPromote, input, now, embedOk);
      assert tx.work == ProposeTx(engines, t0, input, terms, now, embedOk).0;
      var ok := db.Commit(tx);
      r := if ok then Ok(p.value, promo) else Err(Aborted);
    }

    /** Conflict detection, the fact, the promotion and the proposed event. */
    method InsertProposal(tx: Tx, input: ProposeInput, key: string, terms: Terms) returns (p: Option<Id>)
      requires tx.Valid() && !tx.aborted
      modifies tx
      ensures tx.Valid() && tx.aborted == p.None?
      ensures p == if ProposeBlocked(old(tx.work), input) then None else Some(old(tx.work).next + 1)
      ensures p.Some? ==> tx.work == WithProposal(old(tx.work), input, key, terms)
      ensures p.Some? ==> PromoRefs(tx.work, p.value) && SlotOpen(tx.work, tx.work.promos[p.value])
    {
      ghost var t0 := tx.work;
      var conflict := tx.FindActiveByKey(input.target, key);
      NewProposalAdmissible(t0, input, key, terms.required);
      var f := tx.InsertFact(NewFact(input, key));
      if f.None? {
        return None;
      }
      assert tx.work == t0.(facts := t0.facts[t0.next := NewFact(input, key)], next := t0.next + 1);
      p := tx.InsertPromotion(NewPromotion(input, f.value, terms.required, conflict));
      if p.None? {
        return;
      }
      var err := tx.WriteAudit(Event(input.proposer, FactProposed, OnPromotion, p.value, NoState, OfPromotion(Pending),
                                     ProposedDetail(f.value, key, conflict)));
      if err.Some? {
        return None;
      }
      assert tx.work == WithProposal(t0, input, key, terms);
    }

    /**
     * Runs inside the propose transaction and swallows every error; an error it swallows has aborted
     * the transaction all the same, and only a slot held by another fact can cause one.
     */
    method MaybeAutoPromote(tx: Tx, p: Id, ap: Option<AutoPromote>, input: ProposeInput, now: int, embedOk: bool)
      returns (promo: Promotion)
      requires tx.Valid() && !tx.aborted
      requires PromoRefs(tx.work, p)
      modifies tx
      ensures tx.Valid()
      ensures tx.aborted <==> AutoActor(engines, ap, input).Some? && !SlotOpen(old(tx.work), old(tx.work).promos[p])
      ensures var actor := AutoActor(engines, ap, input);
              !tx.aborted ==>
                && tx.work == (if actor.None? then old(tx.work)
                               else Workflow.Activate(old(tx.work), p, actor.value, now, embedOk))
                && p in tx.work.promos && promo == tx.work.promos[p]
      ensures (forall rule :: !EnginePromotes(engines, ap, input, rule)) ==> !tx.aborted && tx.work == old(tx.work)
      ensures forall rule | EnginePromotes(engines, ap, input, rule) ::
                tx.aborted == SlotTaken(old(tx.work), old(tx.work).promos[p])
    {
      ActorMeans(engines, ap, input);
      assert SlotTaken(tx.work, tx.work.promos[p]) <==> !SlotOpen(tx.work, tx.work.promos[p]);
      promo := tx.work.promos[p];
      if engines.None? || ap.None? || ap.value.engine == "" {
        return;
      }
      var verdict := Decide(engines.value, ap.value.engine, CandidateOf(input), ap.value.rules);
      if !verdict.Promote? {
        return;
      }
      promo := ActivateByEngine(tx, p, promo, ap.value.engine, verdict.rule, now, embedOk);
    }

    method ActivateByEngine(tx: Tx, p: Id, promo: Promotion, engine: string, rule: Option<Rule>, now: int,
                            embedOk: bool)
      returns (after: Promotion)
      requires tx.Valid() && !tx.aborted
      requires PromoRefs(tx.work, p) && promo == tx.work.promos[p]
      modifies tx
      ensures tx.Valid() && tx.aborted == !SlotOpen(old(tx.work), promo)
      ensures !tx.aborted ==>
                && tx.work == Workflow.Activate(old(tx.work), p, Automatic(engine, rule), now, embedOk)
                && p in tx.work.promos && after == tx.work.promos[p]
    {
      ghost var t0, actor := tx.work, Automatic(engine, rule);
      after := promo;
      var err := EngineRows(tx, promo, engine, rule, now, embedOk);
      if err.Some? {
        return;
      }
      after := promo.(state := Approved);
      err := tx.UpdateStateAndReviews(p, after.state, after.reviews);
      if err.Some? {
        return;
      }
      var _ := tx.WriteAudit(Event(EnginePrincipal(engine), FactAutoPromoted, OnFact, promo.factId,
                                   NoState, OfFact(Active), EngineDetail(engine, rule)));
      assert tx.work.log == t0.log + ActivationEvents(p, promo, actor);
    }

    /** The fact rows of an automatic activation. */
    method EngineRows(tx: Tx, promo: Promotion, engine: string, rule: Option<Rule>, now: int, embedOk: bool)
      returns (err: Option<Error>)
      requires tx.Valid() && !tx.aborted
      requires promo.factId in tx.work.facts && RefersTo(promo.conflictWith, tx.work.facts.Keys)
      modifies tx
      ensures tx.Valid() && tx.aborted == err.Some?
      ensures err.None? <==> SlotOpen(old(tx.work), promo)
      ensures var cleared := ConflictCleared(old(tx.work).facts, promo);
              var actor := Automatic(engine, rule);
              err.None? ==>
                tx.work == old(tx.work).(
                  facts := cleared[promo.factId :=
                                     ActivatedFact(cleared[promo.factId], promo.proposer, actor, now, embedOk)],
                  log := old(tx.work).log + SupersededEvents(promo, EnginePrincipal(engine)))
    {
      ghost var t0 := tx.work;
      err := ClearConflict(tx, promo, EnginePrincipal(engine));
      if err.Some? {
        return;
      }
      ghost var cleared := tx.work.facts;
      ActivationAdmissible(t0, promo, AutoRow(cleared[promo.factId], now));
      err := ActivateAutoEmbedded(tx, promo.factId, now, embedOk);
      if err.None? {
        EmbeddedRow(cleared, promo, Automatic(engine, rule), now, embedOk,
                    AutoRow(cleared[promo.factId], now), tx.work.facts);
      }
    }

    /** ActivateAuto, and the embedding of the fact it activated. */
    method ActivateAutoEmbedded(tx: Tx, f: Id, now: int, embedOk: bool) returns (err: Option<Error>)
      requires tx.Valid() && !tx.aborted && f in tx.work.facts
      modifies tx
      ensures tx.Valid() && tx.aborted == err.Some?
      ensures err.None? <==> FactAdmissible(old(tx.work), f, AutoRow(old(tx.work).facts[f], now))
      ensures err.None? ==>
                var row := AutoRow(old(tx.work).facts[f], now);
                tx.work == old(tx.work).(facts := WithEmbedded(old(tx.work).facts, f, row, embedOk))
    {
      err := tx.ActivateAuto(f, now);
      if err.None? {
        EmbedActivated(tx, f, embedOk);
      }
    }

    /** Activate, and the embedding of the fact it activated. */
    method ActivateEmbedded(tx: Tx, f: Id, approvers: seq<string>, now: int, embedOk: bool) returns (err: Option<Error>)
      requires tx.Valid() && !tx.aborted && f in tx.work.facts
      modifies tx
      ensures tx.Valid() && tx.aborted == err.Some? && (err.Some? ==> err.value == Aborted)
      ensures err.None? <==> FactAdmissible(old(tx.work), f, ActivatedRow(old(tx.work).facts[f], approvers, now))
      ensures err.None? ==>
                var row := ActivatedRow(old(tx.work).facts[f], approvers, now);
                tx.work == old(tx.work).(facts := WithEmbedded(old(tx.work).facts, f, row, embedOk))
    {
      err := tx.Activate(f, approvers, now);
      if err.None? {
        EmbedActivated(tx, f, embedOk);
      }
    }

    /** Best effort: a fact whose text cannot be embedded is activated all the same. */
    method EmbedActivated(tx: Tx, f: Id, embedOk: bool)
      requires tx.Valid() && !tx.aborted
      modifies tx
      ensures tx.Valid() && !tx.aborted
      ensures tx.work == if embedOk then EmbedTx(old(tx.work), f) else old(tx.work)
    {
      if embedOk {
        tx.SetEmbedding(f);
      }
    }

    /** Supersede the recorded conflict, if there is one, and log it. */
    method ClearConflict(tx: Tx, p: Promotion, principal: string) returns (err: Option<Error>)
      requires tx.Valid() && !tx.aborted
      requires p.factId in tx.work.facts && RefersTo(p.conflictWith, tx.work.facts.Keys)
      modifies tx
      ensures tx.Valid() && !tx.aborted && err.None?
      ensures tx.work == old(tx.work).(facts := ConflictCleared(old(tx.work).facts, p),
                                       log := old(tx.work).log + SupersededEvents(p, principal))
    {
      err := None;
      if p.conflictWith.Some? {
        err := tx.Supersede(p.conflictWith.value, p.factId);
        if err.Some? {
          return;
        }
        err := tx.WriteAudit(Event(principal, FactSuperseded, OnFact, p.conflictWith.value,
                                   OfFact(Active), OfFact(Superseded), SupersededByDetail(p.factId)));
      }
    }

    // ---- Review ----

    method Approve(id: Id, reviewer: string, now: int, embedOk: bool) returns (r: Outcome)
      requires db.Valid()
      modifies db
      ensures db.Valid()
      ensures db.tables == ApproveTx(old(db.tables), id, reviewer, now, embedOk).0
      ensures r == ApproveTx(old(db.tables), id, reviewer, now, embedOk).1
      ensures Paired(old(db.tables)) ==> ApproveOutcome(old(db.tables), db.tables, r, id, reviewer, now, embedOk)
    {
      ghost var t0 := db.tables;
      r := RunApprove(id, reviewer, now, embedOk);
      if Paired(t0) {
        ApproveMeans(t0, id, reviewer, now, embedOk);
      }
    }

    /** The body of the approve transaction. */
    method RunApprove(id: Id, reviewer: string, now: int, embedOk: bool) returns (r: Outcome)
      requires db.Valid()
      modifies db
      ensures db.Valid()
      ensures db.tables == ApproveTx(old(db.tables), id, reviewer, now, embedOk).0
      ensures r == ApproveTx(old(db.tables), id, reviewer, now, embedOk).1
    {
      ghost var t0 := db.tables;
      ghost var spec := ApproveTx(t0, id, reviewer, now, embedOk);
      var tx := db.Begin();
      var found := tx.GetPromotion(id);
      if found.None? {
        return Err(NotFound);
      }
      var p := found.value;
      if p.state != Reviewing && p.state != Pending {
        return Err(InvalidState);
      }
      if reviewer == p.proposer {
        return Err(SelfApproval);
      }
      if !AlreadyApprovedBy(p, reviewer) {
        p := p.(reviews := p.reviews + [Review(reviewer, Schema.Approve)]);
      }
      r := ActOnApproval(tx, id, p, reviewer, now, embedOk);
    }

    /** Activate at the threshold, stay in review below it. */
    method ActOnApproval(tx: Tx, id: Id, promo: Promotion, reviewer: string, now: int, embedOk: bool)
        returns (r: Outcome)
      requires db.Valid() && tx.Valid() && !tx.aborted && tx.work == db.tables
      requires id in tx.work.promos && promo == tx.work.promos[id].(reviews := promo.reviews)
      modifies db, tx
      ensures db.Valid()
      ensures db.tables ==
                if !Enough(promo) then RecordApproval(old(db.tables), id, promo.reviews, reviewer)
                else if !SlotOpen(old(db.tables), promo) then old(db.tables)
                else Workflow.Activate(old(db.tables), id, Reviewed(promo.reviews, reviewer), now, embedOk)
      ensures r == if Enough(promo) && !SlotOpen(old(db.tables), promo) then Err(Aborted)
                   else Ok(id, promo.(state := if Enough(promo) then Approved else Reviewing))
    {
      ghost var t0 := tx.work;
      var p := promo;
      var approvers := DistinctApprovers(p);
      if |approvers| >= p.required {
        p := p.(state := Approved);
        var err := Activate(tx, id, p, reviewer, now, embedOk);
        if err.Some? {
          return Err(err.value);
        }
      } else {
        p := p.(state := Reviewing);
      }
      r := FinishApproval(tx, id, p, reviewer);
      ghost var actor := Reviewed(p.reviews, reviewer);
      assert Enough(promo) ==> db.tables.log == t0.log + ActivationEvents(id, t0.promos[id], actor);
    }

    method FinishApproval(tx: Tx, id: Id, p: Promotion, reviewer: string) returns (r: Outcome)
      requires tx.Valid() && !tx.aborted && id in tx.work.promos
      requires p == tx.work.promos[id].(state := p.state, reviews := p.reviews)
      modifies db, tx
      ensures db.Valid() && r == Ok(id, p)
      ensures db.tables == old(tx.work).(promos := old(tx.work).promos[id := p],
                                         log := old(tx.work).log + [ApprovedEvent(id, p, reviewer)])
    {
      var err := tx.UpdateStateAndReviews(id, p.state, p.reviews);
      if err.Some? {
        return Err(Aborted);
      }
      err := tx.WriteAudit(ApprovedEvent(id, p, reviewer));
      if err.Some? {
        return Err(Aborted);
      }
      var ok := db.Commit(tx);
      r := if ok then Ok(id, p) else Err(Aborted);
    }

    /** Supersedes first, then activates: the other order would trip the index. */
    method Activate(tx: Tx, id: Id, p: Promotion, last: string, now: int, embedOk: bool) returns (err: Option<Error>)
      requires tx.Valid() && !tx.aborted
      requires p.factId in tx.work.facts && RefersTo(p.conflictWith, tx.work.facts.Keys)
      modifies tx
      ensures tx.Valid()
      ensures err == if SlotOpen(old(tx.work), p) then None else Some(Aborted)
      ensures tx.aborted == err.Some?
      ensures var actor := Reviewed(p.reviews, last);
              var cleared := ConflictCleared(old(tx.work).facts, p);
              err.None? ==>
                tx.work == old(tx.work).(
                  facts := cleared[p.factId := ActivatedFact(cleared[p.factId], p.proposer, actor, now, embedOk)],
                  log := old(tx.work).log + SupersededEvents(p, last)
                         + [Event(last, FactActivated, OnFact, p.factId, NoState, OfFact(Active), NoDetail)])
    {
      ghost var t0 := tx.work;
      var approvers := CollectApprovers(p);
      err := ClearConflict(tx, p, last);
      if err.Some? {
        return;
      }
      ghost var cleared := tx.work.facts;
      ActivationAdmissible(t0, p, ActivatedRow(cleared[p.factId], approvers, now));
      err := ActivateEmbedded(tx, p.factId, approvers, now, embedOk);
      if err.Some? {
        return;
      }
      EmbeddedRow(cleared, p, Reviewed(p.reviews, last), now, embedOk,
                  ActivatedRow(cleared[p.factId], approvers, now), tx.work.facts);
      err := tx.WriteAudit(Event(last, FactActivated, OnFact, p.factId, NoState, OfFact(Active), NoDetail));
    }

    method Reject(id: Id, reviewer: string) returns (r: Outcome)
      requires db.Valid()
      modifies db
      ensures db.Valid()
      ensures db.tables == RejectTx(old(db.tables), id, reviewer).0
      ensures r == RejectTx(old(db.tables), id, reviewer).1
      ensures RejectOutcome(old(db.tables), db.tables, r, id, reviewer)
    {
      ReviewMeans(db.tables, id, reviewer);
      r := RecordReview(id, reviewer, Schema.Reject, Denied, Rejected, PromotionRejected);
    }

    method RequestChanges(id: Id, reviewer: string) returns (r: Outcome)
      requires db.Valid()
      modifies db
      ensures db.Valid()
      ensures db.tables == RequestChangesTx(old(db.tables), id, reviewer).0
      ensures r == RequestChangesTx(old(db.tables), id, reviewer).1
      ensures RequestChangesOutcome(old(db.tables), db.tables, r, id, reviewer)
    {
      ReviewMeans(db.tables, id, reviewer);
      r := RecordReview(id, reviewer, Schema.RequestChanges, ChangesRequested, Proposed, PromotionChangesRequested);
    }

    /** review */
    method RecordReview(id: Id, reviewer: string, d: Decision, to: State, factTo: Status, action: Action)
        returns (r: Outcome)
      requires db.Valid() && factTo != Active
      modifies db
      ensures db.Valid()
      ensures db.tables == ReviewTx(old(db.tables), id, reviewer, d, to, factTo, action).0
      ensures r == ReviewTx(old(db.tables), id, reviewer, d, to, factTo, action).1
    {
      ghost var t0 := db.tables;
      ghost var spec := ReviewTx(t0, id, reviewer, d, to, factTo, action);
      var tx := db.Begin();
      var found := tx.GetPromotion(id);
      if found.None? {
        return Err(NotFound);
      }
      var p := found.value;
      if p.state != Reviewing && p.state != Pending {
        return Err(InvalidState);
      }
      r := Finish(tx, id, p.(reviews := p.reviews + [Review(reviewer, d)], state := to), factTo, reviewer, action);
      ghost var reviews := t0.promos[id].reviews + [Review(reviewer, d)];
      assert (db.tables, r) == Moved(t0, id, to, reviews, factTo, reviewer, action);
    }

    method Submit(id: Id, principal: string) returns (r: Outcome)
      requires db.Valid()
      modifies db
      ensures db.Valid()
      ensures db.tables == SubmitTx(old(db.tables), id, principal).0
      ensures r == SubmitTx(old(db.tables), id, principal).1
      ensures SubmitOutcome(old(db.tables), db.tables, r, id, principal)
    {
      ProposerMeans(db.tables, id, principal);
      var tx := db.Begin();
      var found := tx.GetPromotion(id);
      if found.None? {
        return Err(NotFound);
      }
      var p := found.value;
      if p.state != Pending && p.state != ChangesRequested {
        return Err(InvalidState);
      }
      if p.proposer != principal {
        return Err(NotProposer);
      }
      r := Finish(tx, id, p.(state := Reviewing), InReview, principal, PromotionSubmitted);
    }

    method Withdraw(id: Id, principal: string) returns (r: Outcome)
      requires db.Valid()
      modifies db
      ensures db.Valid()
      ensures db.tables == WithdrawTx(old(db.tables), id, principal).0
      ensures r == WithdrawTx(old(db.tables), id, principal).1
      ensures WithdrawOutcome(old(db.tables), db.tables, r, id, principal)
    {
      ProposerMeans(db.tables, id, principal);
      var tx := db.Begin();
      var found := tx.GetPromotion(id);
      if found.None? {
        return Err(NotFound);
      }
      var p := found.value;
      if p.proposer != principal {
        return Err(NotProposer);
      }
      if p.state != Pending && p.state != ChangesRequested {
        return Err(InvalidState);
      }
      r := Finish(tx, id, p.(state := Denied), Rejected, principal, PromotionWithdrawn);
    }

    /** The common tail of review and transition: promotion row, fact row, event, commit. */
    method Finish(tx: Tx, id: Id, p: Promotion, factTo: Status, principal: string, action: Action) returns (r: Outcome)
      requires db.Valid() && tx.Valid() && !tx.aborted && tx.work == db.tables
      requires id in tx.work.promos && factTo != Active
      requires p == tx.work.promos[id].(state := p.state, reviews := p.reviews)
      modifies db, tx
      ensures db.Valid()
      ensures db.tables == Move(old(db.tables), id, p.state, p.reviews, factTo, principal, action)
      ensures r == Ok(id, p)
    {
      var err := tx.UpdateStateAndReviews(id, p.state, p.reviews);
      if err.Some? {
        return Err(Aborted);
      }
      InactiveAdmissible(tx.work, p.factId, factTo);
      err := tx.SetStatus(p.factId, factTo);
      if err.Some? {
        return Err(Aborted);
      }
      err := tx.WriteAudit(Event(principal, action, OnPromotion, id, NoState, OfPromotion(p.state), NoDetail));
      if err.Some? {
        return Err(Aborted);
      }
      var ok := db.Commit(tx);
      r := if ok then Ok(id, p) else Err(Aborted);
    }
  }

  function WithEmbedded(facts: map<Id, Fact>, f: Id, row: Fact, embedOk: bool): map<Id, Fact> {
    facts[f := if embedOk then row.(embedded := true) else row]
  }

  /** The row an activation writes, with its embedding, is the activated fact. */
  lemma EmbeddedRow(facts: map<Id, Fact>, p: Promotion, a: Actor, now: int, embedOk: bool, row: Fact,
                    after: map<Id, Fact>)
    requires p.factId in facts
    requires row == match a
                    case Reviewed(reviews, _) => ActivatedRow(facts[p.factId], ApproverList(reviews, p.proposer), now)
                    case Automatic(_, _) => AutoRow(facts[p.factId], now)
    requires after == WithEmbedded(facts, p.factId, row, embedOk)
    ensures after == facts[p.factId := ActivatedFact(facts[p.factId], p.proposer, a, now, embedOk)]
  {
  }

  /** The slot is open exactly when activating after clearing the conflict keeps facts_active_unique. */
  lemma ActivationAdmissible(t: Tables, p: Promotion, row: Fact)
    requires Constraints(t) && p.factId in t.facts && RefersTo(p.conflictWith, t.facts.Keys)
    requires row.status == Active && SameSlot(row, t.facts[p.factId])
    requires var cleared := ConflictCleared(t.facts, p)[p.factId];
             row.supersedes == cleared.supersedes && row.supersededBy == cleared.supersededBy
    ensures FactAdmissible(t.(facts := ConflictCleared(t.facts, p)), p.factId, row) <==> SlotOpen(t, p)
  {
    var cleared := ConflictCleared(t.facts, p);
    assert cleared.Keys == t.facts.Keys;
    var after := cleared[p.factId := row];
    if SlotOpen(t, p) {
      forall f, g | f in after && g in after && Rivals(after[f], after[g]) ensures f == g {
        if f != p.factId && g != p.factId {
          assert Rivals(t.facts[f], t.facts[g]);
        }
      }
    } else {
      var g :| g in t.facts && g != p.factId && t.facts[g].status == Active
               && SameSlot(t.facts[g], t.facts[p.factId]) && p.conflictWith != Some(g);
      assert Rivals(after[g], after[p.factId]);
    }
  }

  /** A new proposal is admissible exactly when nothing blocks it, and its slot is then open for it. */
  lemma NewProposalAdmissible(t: Tables, input: ProposeInput, key: string, required: int)
    requires Constraints(t)
    ensures var conflict := ActiveInSlot(t, input.target, key);
            var row := NewFact(input, key);
            var t1 := t.(facts := t.facts[t.next := row], next := t.next + 1);
            var promo := NewPromotion(input, t.next, required, conflict);
            && (FactAdmissible(t, t.next, row) <==> input.target in t.namespaces)
            && (input.target in t.namespaces ==>
                  (PromotionAdmissible(t1, t1.next, promo) <==> !ProposeBlocked(t, input)))
            && SlotOpen(t1, promo)
  {
    var conflict := ActiveInSlot(t, input.target, key);
    var row := NewFact(input, key);
    var t1 := t.(facts := t.facts[t.next := row], next := t.next + 1);
    var promo := NewPromotion(input, t.next, required, conflict);
    var facts1, promos1 := t1.facts, t1.promos[t1.next := promo];
    forall f, g | f in facts1 && g in facts1 && Rivals(facts1[f], facts1[g]) ensures f == g {
      assert Rivals(t.facts[f], t.facts[g]);
    }
    NewSlotOpen(t, input, key, Terms(required, None));
    if input.idemKey != "" && FindIdem(t, input.proposer, input.idemKey).Some? {
      assert SameRequest(promos1[FindIdem(t, input.proposer, input.idemKey).value], promos1[t1.next]);
    } else {
      forall p, q | p in promos1 && q in promos1 && SameRequest(promos1[p], promos1[q]) ensures p == q {
        assert p != t1.next && q != t1.next ==> SameRequest(t.promos[p], t.promos[q]);
        assert p in t.promos ==> !HasIdemKey(t, p, input.proposer, input.idemKey) || input.idemKey == "";
        assert q in t.promos ==> !HasIdemKey(t, q, input.proposer, input.idemKey) || input.idemKey == "";
      }
    }
  }
}
