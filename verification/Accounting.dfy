/**
 * Does every state transition log exactly one event? The events a step logs on a promotion and on a
 * fact, against the changes it makes to them: the equations say exactly where the two differ.
 */
module Accounting {
  import opened Basics
  import opened Subjects
  import opened Autopromote
  import opened Schema
  import opened Reviews
  import opened Workflow
  import opened Maintenance
  import opened Invariants
  import opened Runs
  import opened History

  // ---- Counting ----

  function One(b: bool): nat {
    if b then 1 else 0
  }

  predicate On(e: Event, st: SubjectType, id: Id) {
    e.subjectType == st && e.subject == id
  }

  function OnEach(events: seq<Event>, st: SubjectType, id: Id): (on: seq<bool>)
    ensures |on| == |events|
  {
    seq(|events|, i requires 0 <= i < |events| => On(events[i], st, id))
  }

  function Count(events: seq<Event>, st: SubjectType, id: Id): nat {
    multiset(OnEach(events, st, id))[true]
  }

  lemma CountConcat(a: seq<Event>, b: seq<Event>, st: SubjectType, id: Id)
    ensures Count(a + b, st, id) == Count(a, st, id) + Count(b, st, id)
  {
    assert OnEach(a + b, st, id) == OnEach(a, st, id) + OnEach(b, st, id);
  }

  lemma CountOne(e: Event, st: SubjectType, id: Id)
    ensures Count([e], st, id) == One(On(e, st, id))
  {
    assert OnEach([e], st, id) == [On(e, st, id)];
  }

  lemma CountActivation(p: Id, promo: Promotion, a: Actor, st: SubjectType, id: Id)
    ensures Count(ActivationEvents(p, promo, a), st, id)
              == One(st == OnFact && promo.conflictWith == Some(id)) + One(st == OnFact && id == promo.factId)
                 + One(st == OnPromotion && id == p && a.Reviewed?)
  {
    var superseded, activated := SupersededEvents(promo, Principal(a)), ActivatedEvents(p, promo, a);
    CountConcat(superseded, activated, st, id);
    if promo.conflictWith.Some? {
      CountOne(superseded[0], st, id);
    }
    CountOne(activated[0], st, id);
    if a.Reviewed? {
      CountOne(activated[1], st, id);
      CountConcat([activated[0]], [activated[1]], st, id);
      assert activated == [activated[0]] + [activated[1]];
    }
  }

  /** The events the step logged on the row. */
  ghost function Logged(t: Tables, u: Tables, st: SubjectType, id: Id): nat
    requires t.log <= u.log
  {
    Count(u.log[|t.log|..], st, id)
  }

  lemma LoggedIs(t: Tables, u: Tables, events: seq<Event>, st: SubjectType, id: Id)
    requires u.log == t.log + events
    ensures Logged(t, u, st, id) == Count(events, st, id)
  {
    assert u.log[|t.log|..] == events;
  }

  /** The transitions of a promotion: its creation as pending, and a change of its state. */
  ghost function PromotionChanges(t: Tables, u: Tables, p: Id): nat
    requires p in u.promos
  {
    if p in t.promos then One(u.promos[p].state != t.promos[p].state)
    else 1 + One(u.promos[p].state != Pending)
  }

  /** The transitions of a fact: its creation as proposed, and a change of its status. */
  ghost function FactChanges(t: Tables, u: Tables, f: Id): nat
    requires f in u.facts
  {
    if f in t.facts then One(u.facts[f].status != t.facts[f].status)
    else 1 + One(u.facts[f].status != Proposed)
  }

  // ---- Where the two differ ----

  /** An approval that leaves a promotion under review: an event, and no transition. */
  ghost predicate StaysInReview(t: Tables, s: Step, p: Id) {
    && s.ApproveBy? && s.p == p && p in t.promos && t.promos[p].state == Reviewing
    && s.principal != t.promos[p].proposer && !Reaches(t, p, s.principal)
  }

  /** An engine approved the promotion in its propose: a transition, and no event of the promotion's own. */
  ghost predicate EngineApproved(t: Tables, u: Tables, p: Id) {
    p in u.promos && p !in t.promos && u.promos[p].state == Approved
  }

  /** A superseded fact is superseded again: an event, and no transition. */
  ghost predicate SupersededAgain(t: Tables, s: Step, f: Id) {
    f in t.facts && t.facts[f].status == Superseded && Supersedes(t, s, f)
  }

  /** Its promotion's event stands for a transition of the fact: its creation, or a move of the two. */
  ghost predicate LoggedOnPromotion(t: Tables, u: Tables, s: Step, f: Id) {
    f in u.facts && (f !in t.facts || (IsMove(s) && u.facts[f].status != t.facts[f].status))
  }

  ghost predicate PromotionBalances(t: Tables, u: Tables, s: Step, p: Id)
    requires t.log <= u.log && p in u.promos
  {
    Logged(t, u, OnPromotion, p) + One(EngineApproved(t, u, p))
      == PromotionChanges(t, u, p) + One(StaysInReview(t, s, p))
  }

  ghost predicate FactBalances(t: Tables, u: Tables, s: Step, f: Id)
    requires t.log <= u.log && f in u.facts
  {
    Logged(t, u, OnFact, f) + One(LoggedOnPromotion(t, u, s, f))
      == FactChanges(t, u, f) + One(SupersededAgain(t, s, f))
  }

  // ---- Moves ----

  /** One event on the promotion of the step, none on its fact. */
  lemma MoveLogs(t: Tables, p: Id, to: State, reviews: seq<Review>, factTo: Status, principal: string, action: Action,
                 st: SubjectType, id: Id)
    requires p in t.promos && t.promos[p].factId in t.facts
    ensures var u := Move(t, p, to, reviews, factTo, principal, action);
            t.log <= u.log && Logged(t, u, st, id) == One(st == OnPromotion && id == p)
  {
    var u := Move(t, p, to, reviews, factTo, principal, action);
    CountOne(u.log[|t.log|], st, id);
    LoggedIs(t, u, [u.log[|t.log|]], st, id);
  }

  lemma MoveBalances(engines: Option<Registry>, t: Tables, s: Step, u: Tables, p: Id, f: Id)
    requires References(t) && IsMove(s) && u == Next(engines, t, s)
    ensures t.log <= u.log
    ensures p in u.promos ==> PromotionBalances(t, u, s, p)
    ensures f in u.facts ==> FactBalances(t, u, s, f)
  {
    var to, reviews, factTo, action := MoveStep(engines, t, s);
    if u == t {
      LoggedIs(t, t, [], OnPromotion, p);
      LoggedIs(t, t, [], OnFact, f);
    } else {
      MoveLogs(t, s.p, to, reviews, factTo, s.principal, action, OnPromotion, p);
      MoveLogs(t, s.p, to, reviews, factTo, s.principal, action, OnFact, f);
    }
  }

  // ---- Approvals ----

  lemma ActivationOnPromotions(t: Tables, p: Id, a: Actor, now: int, embedOk: bool, q: Id)
    requires PromoRefs(t, p) && t.promos[p].state != Approved && q in t.promos
    ensures var u := Activate(t, p, a, now, embedOk);
            && t.log <= u.log
            && Logged(t, u, OnPromotion, q) + One(q == p && a.Automatic?) == One(u.promos[q].state != t.promos[q].state)
  {
    CountActivation(p, t.promos[p], a, OnPromotion, q);
    LoggedIs(t, Activate(t, p, a, now, embedOk), ActivationEvents(p, t.promos[p], a), OnPromotion, q);
  }

  lemma ActivationOnFacts(t: Tables, p: Id, a: Actor, now: int, embedOk: bool, f: Id)
    requires Paired(t) && PromoRefs(t, p) && Open(t.promos[p].state) && f in t.facts
    ensures var u := Activate(t, p, a, now, embedOk);
            && t.log <= u.log && u.facts.Keys == t.facts.Keys
            && Logged(t, u, OnFact, f)
                 == One(u.facts[f].status != t.facts[f].status)
                    + One(t.promos[p].conflictWith == Some(f) && t.facts[f].status == Superseded)
            && (f == t.promos[p].factId ==> u.facts[f].status == Active)
  {
    assert Agrees(t.facts, t.promos[p]) && ConflictOlder(t.facts, t.promos[p]);
    ActivateRows(t, p, a, now, embedOk);
    CountActivation(p, t.promos[p], a, OnFact, f);
    LoggedIs(t, Activate(t, p, a, now, embedOk), ActivationEvents(p, t.promos[p], a), OnFact, f);
  }

  lemma RecordBalances(t: Tables, s: Step, p: Id, f: Id)
    requires References(t) && s.ApproveBy? && s.p in t.promos && Open(t.promos[s.p].state)
    requires s.principal != t.promos[s.p].proposer && !Reaches(t, s.p, s.principal)
    ensures var u := RecordApproval(t, s.p, WithApproval(t.promos[s.p], s.principal), s.principal);
            && t.log <= u.log
            && (p in u.promos ==> PromotionBalances(t, u, s, p))
            && (f in u.facts ==> FactBalances(t, u, s, f))
  {
    var u := RecordApproval(t, s.p, WithApproval(t.promos[s.p], s.principal), s.principal);
    var e := u.log[|t.log|];
    CountOne(e, OnPromotion, p);
    CountOne(e, OnFact, f);
    LoggedIs(t, u, [e], OnPromotion, p);
    LoggedIs(t, u, [e], OnFact, f);
  }

  lemma ReviewedOnPromotion(t: Tables, s: Step, p: Id)
    requires References(t) && s.ApproveBy? && Reaches(t, s.p, s.principal) && PromoRefs(t, s.p) && p in t.promos
    ensures var a := Reviewed(WithApproval(t.promos[s.p], s.principal), s.principal);
            var u := Activate(t, s.p, a, s.now, s.embedOk);
            t.log <= u.log && PromotionBalances(t, u, s, p)
  {
    var a := Reviewed(WithApproval(t.promos[s.p], s.principal), s.principal);
    ActivationOnPromotions(t, s.p, a, s.now, s.embedOk, p);
  }

  lemma ReviewedOnFact(t: Tables, s: Step, f: Id)
    requires Sound(t) && s.ApproveBy? && Reaches(t, s.p, s.principal) && PromoRefs(t, s.p)
    requires SlotOpen(t, t.promos[s.p]) && f in t.facts
    ensures var a := Reviewed(WithApproval(t.promos[s.p], s.principal), s.principal);
            var u := Activate(t, s.p, a, s.now, s.embedOk);
            t.log <= u.log && u.facts.Keys == t.facts.Keys && FactBalances(t, u, s, f)
  {
    var a := Reviewed(WithApproval(t.promos[s.p], s.principal), s.principal);
    ActivationOnFacts(t, s.p, a, s.now, s.embedOk, f);
  }

  lemma ApproveBalances(t: Tables, s: Step, p: Id, f: Id)
    requires Sound(t) && s.ApproveBy?
    ensures var u := ApproveTx(t, s.p, s.principal, s.now, s.embedOk).0;
            && t.log <= u.log
            && (p in u.promos ==> PromotionBalances(t, u, s, p))
            && (f in u.facts ==> FactBalances(t, u, s, f))
  {
    if Reaches(t, s.p, s.principal) && SlotOpen(t, t.promos[s.p]) {
      ActivateUpdates(t, s.p, Reviewed(WithApproval(t.promos[s.p], s.principal), s.principal), s.now, s.embedOk);
      if p in t.promos {
        ReviewedOnPromotion(t, s, p);
      }
      if f in t.facts {
        ReviewedOnFact(t, s, f);
      }
    } else if s.p in t.promos && Open(t.promos[s.p].state) && s.principal != t.promos[s.p].proposer
              && !Reaches(t, s.p, s.principal) {
      RecordBalances(t, s, p, f);
    } else {
      LoggedIs(t, t, [], OnPromotion, p);
      LoggedIs(t, t, [], OnFact, f);
    }
  }

  // ---- Proposals ----

  lemma AddBalances(t: Tables, input: ProposeInput, key: string, terms: Terms, p: Id, f: Id)
    requires References(t)
    ensures var v := WithProposal(t, input, key, terms);
            && t.log <= v.log
            && Logged(t, v, OnPromotion, p) == One(p == t.next + 1) && Logged(t, v, OnFact, f) == 0
  {
    var v := WithProposal(t, input, key, terms);
    var e := v.log[|t.log|];
    CountOne(e, OnPromotion, p);
    CountOne(e, OnFact, f);
    LoggedIs(t, v, [e], OnPromotion, p);
    LoggedIs(t, v, [e], OnFact, f);
  }

  lemma LoggedThen(t: Tables, v: Tables, u: Tables, st: SubjectType, id: Id)
    requires t.log <= v.log <= u.log
    ensures Logged(t, u, st, id) == Logged(t, v, st, id) + Logged(v, u, st, id)
  {
    CountConcat(v.log[|t.log|..], u.log[|v.log|..], st, id);
    assert u.log[|t.log|..] == v.log[|t.log|..] + u.log[|v.log|..];
  }

  lemma AutoPromotionBalances(t: Tables, v: Tables, s: Step, a: Actor, now: int, embedOk: bool, own: Id, p: Id)
    requires s.Propose? && a.Automatic? && t.log <= v.log && PromoRefs(v, own)
    requires v.promos[own].state == Pending && own !in t.promos && v.promos == t.promos[own := v.promos[own]]
    requires Logged(t, v, OnPromotion, p) == One(p == own)
    ensures var u := Activate(v, own, a, now, embedOk);
            && t.log <= u.log
            && (p in u.promos ==> PromotionBalances(t, u, s, p))
  {
    var u := Activate(v, own, a, now, embedOk);
    if p in v.promos {
      ActivationOnPromotions(v, own, a, now, embedOk, p);
      LoggedThen(t, v, u, OnPromotion, p);
    }
  }

  /** A propose creates one fact, and what follows logs each change of a status. */
  lemma ThenBalances(t: Tables, v: Tables, u: Tables, s: Step, g: Id, f: Id)
    requires s.Propose? && t.log <= v.log <= u.log && f in v.facts && f in u.facts
    requires g !in t.facts && g in v.facts && v.facts[g].status == Proposed && v.facts == t.facts[g := v.facts[g]]
    requires Logged(t, v, OnFact, f) == 0 && Logged(v, u, OnFact, f) == One(u.facts[f].status != v.facts[f].status)
    ensures FactBalances(t, u, s, f)
  {
    LoggedThen(t, v, u, OnFact, f);
  }

  lemma AutoFactBalances(t: Tables, v: Tables, s: Step, a: Actor, now: int, embedOk: bool, own: Id, f: Id)
    requires s.Propose? && a.Automatic? && Paired(v) && t.log <= v.log && PromoRefs(v, own)
    requires v.promos[own].state == Pending
    requires var g := v.promos[own].factId;
             g !in t.facts && v.facts[g].status == Proposed && v.facts == t.facts[g := v.facts[g]]
    requires var c := v.promos[own].conflictWith;
             c.Some? ==> c.value in t.facts && t.facts[c.value].status == Active
    requires f in v.facts && Logged(t, v, OnFact, f) == 0
    ensures var u := Activate(v, own, a, now, embedOk);
            && t.log <= u.log
            && f in u.facts && FactBalances(t, u, s, f)
  {
    var u := Activate(v, own, a, now, embedOk);
    ActivationOnFacts(v, own, a, now, embedOk, f);
    ThenBalances(t, v, u, s, v.promos[own].factId, f);
  }

  lemma AutoOnPromotion(t: Tables, s: Step, key: string, v: Tables, a: Actor, p: Id)
    requires Sound(t) && s.Propose? && !ProposeBlocked(t, s.input) && a.Automatic?
    requires v == WithProposal(t, s.input, key, s.terms) && Logged(t, v, OnPromotion, p) == One(p == t.next + 1)
    ensures PromoRefs(v, t.next + 1)
    ensures var u := Activate(v, t.next + 1, a, s.now, s.embedOk);
            t.log <= u.log && (p in u.promos ==> PromotionBalances(t, u, s, p))
  {
    AddedPairs(t, s.input, key, s.terms, v);
    AutoPromotionBalances(t, v, s, a, s.now, s.embedOk, t.next + 1, p);
  }

  lemma AutoOnFact(t: Tables, s: Step, key: string, v: Tables, a: Actor, f: Id)
    requires Sound(t) && s.Propose? && !ProposeBlocked(t, s.input) && a.Automatic?
    requires v == WithProposal(t, s.input, key, s.terms) && Logged(t, v, OnFact, f) == 0
    ensures PromoRefs(v, t.next + 1)
    ensures var u := Activate(v, t.next + 1, a, s.now, s.embedOk);
            t.log <= u.log && (f in u.facts ==> FactBalances(t, u, s, f))
  {
    AddedPairs(t, s.input, key, s.terms, v);
    ActivateUpdates(v, t.next + 1, a, s.now, s.embedOk);
    if f in v.facts {
      AutoFactBalances(t, v, s, a, s.now, s.embedOk, t.next + 1, f);
    }
  }

  lemma AddedPairs(t: Tables, input: ProposeInput, key: string, terms: Terms, v: Tables)
    requires Sound(t) && !ProposeBlocked(t, input) && v == WithProposal(t, input, key, terms)
    ensures Paired(v) && PromoRefs(v, t.next + 1)
  {
    AddedCore(t, input, key, terms);
  }

  lemma ProposeBalances(engines: Option<Registry>, t: Tables, s: Step, key: string, p: Id, f: Id)
    requires Sound(t) && s.Propose?
    ensures var u := ProposeKeyed(engines, t, s.input, key, s.terms, s.now, s.embedOk).0;
            && t.log <= u.log
            && (p in u.promos ==> PromotionBalances(t, u, s, p))
            && (f in u.facts ==> FactBalances(t, u, s, f))
  {
    var actor := AutoActor(engines, s.terms.autoPromote, s.input);
    if ProposeBlocked(t, s.input) {
      LoggedIs(t, t, [], OnPromotion, p);
      LoggedIs(t, t, [], OnFact, f);
    } else {
      AddBalances(t, s.input, key, s.terms, p, f);
      if actor.Some? {
        var v := WithProposal(t, s.input, key, s.terms);
        AutoOnPromotion(t, s, key, v, actor.value, p);
        AutoOnFact(t, s, key, v, actor.value, f);
      }
    }
  }

  // ---- Revoking and reaping ----

  lemma {:induction false} ExpireAllCount(t: Tables, order: seq<Id>, st: SubjectType, id: Id)
    requires forall f | f in order :: f in t.facts
    requires forall i, j | 0 <= i < j < |order| :: order[i] != order[j]
    ensures t.log <= ExpireAll(t, order).log
    ensures Logged(t, ExpireAll(t, order), st, id) == One(st == OnFact && id in order)
  {
    if order == [] {
      LoggedIs(t, t, [], st, id);
    } else {
      var init, last := order[..|order|-1], order[|order|-1];
      var v, u := ExpireAll(t, init), ExpireAll(t, order);
      ExpireAllCount(t, init, st, id);
      var e := u.log[|v.log|];
      CountOne(e, st, id);
      LoggedIs(v, u, [e], st, id);
      LoggedThen(t, v, u, st, id);
      assert order == init + [last];
    }
  }

  lemma ReapBalances(t: Tables, s: Step, p: Id, f: Id)
    requires References(t) && s.Reap?
    ensures var u := ReapTx(t, s.now, s.order);
            && t.log <= u.log
            && (p in u.promos ==> PromotionBalances(t, u, s, p))
            && (f in u.facts ==> FactBalances(t, u, s, f))
  {
    if Enumerates(s.order, DueIds(t, s.now)) {
      ExpireAllCount(t, s.order, OnPromotion, p);
      ExpireAllCount(t, s.order, OnFact, f);
      ExpireAllFacts(t, s.order);
    } else {
      LoggedIs(t, t, [], OnPromotion, p);
      LoggedIs(t, t, [], OnFact, f);
    }
  }

  lemma RevokeBalances(t: Tables, s: Step, p: Id, f: Id)
    requires References(t) && s.RevokeFact?
    ensures var u := RevokeTx(t, s.f, s.version, s.principal).0;
            && t.log <= u.log
            && (p in u.promos ==> PromotionBalances(t, u, s, p))
            && (f in u.facts ==> FactBalances(t, u, s, f))
  {
    var u := RevokeTx(t, s.f, s.version, s.principal).0;
    if u.log == t.log {
      LoggedIs(t, u, [], OnPromotion, p);
      LoggedIs(t, u, [], OnFact, f);
    } else {
      var e := u.log[|t.log|];
      CountOne(e, OnPromotion, p);
      CountOne(e, OnFact, f);
      LoggedIs(t, u, [e], OnPromotion, p);
      LoggedIs(t, u, [e], OnFact, f);
    }
  }

  // ---- Every step ----

  lemma OtherBalances(engines: Option<Registry>, t: Tables, s: Step, p: Id, f: Id)
    requires Core(t) && IsRegistryStep(s)
    ensures var u := Next(engines, t, s);
            && t.log <= u.log
            && (p in u.promos ==> PromotionBalances(t, u, s, p))
            && (f in u.facts ==> FactBalances(t, u, s, f))
  {
    RegistryCosmetic(engines, t, s);
    LoggedIs(t, Next(engines, t, s), [], OnPromotion, p);
    LoggedIs(t, Next(engines, t, s), [], OnFact, f);
  }

  /**
   * "Every state transition produces exactly one event" is false of the code; this is what holds of
   * every step. The events on a promotion are its transitions, but for an approval that leaves it
   * under review (one event too many) and an engine's approval (one too few). The events on a fact are
   * its transitions, but for its creation and the moves of its promotion, logged there, and a second
   * supersession.
   */
  lemma EventsBalance(engines: Option<Registry>, t: Tables, s: Step, p: Id, f: Id)
    requires Sound(t)
    ensures var u := Next(engines, t, s);
            && t.log <= u.log
            && (p in u.promos ==> PromotionBalances(t, u, s, p))
            && (f in u.facts ==> FactBalances(t, u, s, f))
  {
    if IsMove(s) {
      MoveBalances(engines, t, s, Next(engines, t, s), p, f);
    } else if s.Propose? {
      ProposeBalances(engines, t, s, KeyOf(s.input.subject), p, f);
    } else if s.ApproveBy? {
      ApproveBalances(t, s, p, f);
    } else if s.Reap? {
      ReapBalances(t, s, p, f);
    } else if s.RevokeFact? {
      RevokeBalances(t, s, p, f);
    } else {
      OtherBalances(engines, t, s, p, f);
    }
  }
}
