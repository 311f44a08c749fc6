/** What the audit log alone determines: every status, every state and every version. */
module Ledger {
  import opened Basics
  import opened Autopromote
  import opened Schema
  import opened Workflow
  import opened Invariants

  // ---- Replaying the log ----

  datatype View = View(
    facts: map<Id, Status>, successor: map<Id, Id>,
    promos: map<Id, State>, factOf: map<Id, Id>, conflictOf: map<Id, Option<Id>>)

  const NOTHING := View(map[], map[], map[], map[], map[])

  ghost predicate IsPromotionOf(v: View, p: Id, f: Id) {
    p in v.factOf && v.factOf[p] == f
  }

  ghost function WithFact(v: View, f: Id, to: Label): View {
    if to.OfFact? then v.(facts := v.facts[f := to.status]) else v
  }

  ghost function WithPromotion(v: View, p: Id, to: Label): View {
    if to.OfPromotion? then v.(promos := v.promos[p := to.state]) else v
  }

  /** The fact status an event on a promotion stands for. */
  ghost function WithPaired(v: View, p: Id, to: Status): View {
    if p in v.factOf then v.(facts := v.facts[v.factOf[p] := to]) else v
  }

  ghost function WithSuccessor(v: View, f: Id, d: Detail): View {
    if d.SupersededByDetail? then v.(successor := v.successor[f := d.successor]) else v
  }

  ghost function WithApprovedPromotionOf(v: View, f: Id): View {
    if exists p :: IsPromotionOf(v, p, f) then
      var p :| IsPromotionOf(v, p, f);
      v.(promos := v.promos[p := Approved])
    else v
  }

  ghost function Apply(v: View, e: Event): View {
    match e.action
    case FactProposed =>
      if e.detail.ProposedDetail? then
        View(v.facts[e.detail.factId := Proposed], v.successor, v.promos[e.subject := Pending],
             v.factOf[e.subject := e.detail.factId], v.conflictOf[e.subject := e.detail.conflictWith])
      else v
    case FactSuperseded => WithSuccessor(WithFact(v, e.subject, e.toState), e.subject, e.detail)
    case FactActivated => WithFact(v, e.subject, e.toState)
    case FactRevoked => WithFact(v, e.subject, e.toState)
    case FactExpired => WithFact(v, e.subject, e.toState)
    case FactAutoPromoted => WithApprovedPromotionOf(WithFact(v, e.subject, e.toState), e.subject)
    case PromotionApproved => WithPromotion(v, e.subject, e.toState)
    case PromotionSubmitted => WithPaired(WithPromotion(v, e.subject, e.toState), e.subject, InReview)
    case PromotionRejected => WithPaired(WithPromotion(v, e.subject, e.toState), e.subject, Rejected)
    case PromotionWithdrawn => WithPaired(WithPromotion(v, e.subject, e.toState), e.subject, Rejected)
    case PromotionChangesRequested => WithPaired(WithPromotion(v, e.subject, e.toState), e.subject, Proposed)
  }

  ghost function Replay(v: View, log: seq<Event>): View {
    if log == [] then v else Apply(Replay(v, log[..|log|-1]), log[|log|-1])
  }

  lemma {:induction false} ReplayConcat(v: View, a: seq<Event>, b: seq<Event>)
    ensures Replay(v, a + b) == Replay(Replay(v, a), b)
  {
    if b == [] {
      assert a + b == a;
    } else {
      var last := |b| - 1;
      ReplayConcat(v, a, b[..last]);
      assert (a + b)[..|a + b| - 1] == a + b[..last];
    }
  }

  ghost function StatusOf(facts: map<Id, Fact>): map<Id, Status> {
    map f | f in facts :: facts[f].status
  }

  ghost function SuccessorOf(facts: map<Id, Fact>): map<Id, Id> {
    map f | f in facts && facts[f].supersededBy.Some? :: facts[f].supersededBy.value
  }

  ghost function StateOf(promos: map<Id, Promotion>): map<Id, State> {
    map p | p in promos :: promos[p].state
  }

  ghost function FactOf(promos: map<Id, Promotion>): map<Id, Id> {
    map p | p in promos :: promos[p].factId
  }

  ghost function ConflictOf(promos: map<Id, Promotion>): map<Id, Option<Id>> {
    map p | p in promos :: promos[p].conflictWith
  }

  ghost function ViewOf(t: Tables): View {
    View(StatusOf(t.facts), SuccessorOf(t.facts), StateOf(t.promos), FactOf(t.promos), ConflictOf(t.promos))
  }

  /** Writing one fact row, without touching its successor. */
  lemma FactRow(facts: map<Id, Fact>, f: Id, row: Fact)
    requires row.supersededBy == if f in facts then facts[f].supersededBy else None
    ensures StatusOf(facts[f := row]) == StatusOf(facts)[f := row.status]
    ensures SuccessorOf(facts[f := row]) == SuccessorOf(facts)
  {
  }

  /** Writing one promotion row. */
  lemma PromotionRow(promos: map<Id, Promotion>, p: Id, row: Promotion)
    ensures StateOf(promos[p := row]) == StateOf(promos)[p := row.state]
    ensures FactOf(promos[p := row]) == FactOf(promos)[p := row.factId]
    ensures ConflictOf(promos[p := row]) == ConflictOf(promos)[p := row.conflictWith]
  {
  }

  /** Writing a promotion row again, with its fact and its conflict as they were. */
  lemma PromotionRowAgain(promos: map<Id, Promotion>, p: Id, row: Promotion)
    requires p in promos && row.factId == promos[p].factId && row.conflictWith == promos[p].conflictWith
    ensures StateOf(promos[p := row]) == StateOf(promos)[p := row.state]
    ensures FactOf(promos[p := row]) == FactOf(promos) && ConflictOf(promos[p := row]) == ConflictOf(promos)
  {
  }

  /** The tables are what the log says. */
  ghost predicate Replays(t: Tables) {
    Replay(NOTHING, t.log) == ViewOf(t)
  }

  /** It is enough to replay the new events from the old tables. */
  lemma ReplayStep(t: Tables, u: Tables, events: seq<Event>)
    requires Replays(t) && u.log == t.log + events
    requires Replay(ViewOf(t), events) == ViewOf(u)
    ensures Replays(u)
  {
    ReplayConcat(NOTHING, t.log, events);
  }

  lemma ReplayOne(v: View, e: Event)
    ensures Replay(v, [e]) == Apply(v, e)
  {
  }

  lemma ReplayTwo(v: View, e: Event, f: Event)
    ensures Replay(v, [e, f]) == Apply(Apply(v, e), f)
  {
    ReplayOne(v, e);
    assert [e, f][..1] == [e];
  }

  lemma AddReplays(t: Tables, input: ProposeInput, key: string, required: int, conflict: Option<Id>)
    requires Replays(t) && t.next !in t.facts
    ensures Replays(AddProposal(t, input, key, required, conflict))
  {
    var u := AddProposal(t, input, key, required, conflict);
    FactRow(t.facts, t.next, u.facts[t.next]);
    PromotionRow(t.promos, t.next + 1, u.promos[t.next + 1]);
    ReplayOne(ViewOf(t), u.log[|t.log|]);
    ReplayStep(t, u, [u.log[|t.log|]]);
  }

  predicate Announces(action: Action, to: State, factTo: Status) {
    || (action == PromotionSubmitted && to == Reviewing && factTo == InReview)
    || (action == PromotionRejected && to == Denied && factTo == Rejected)
    || (action == PromotionWithdrawn && to == Denied && factTo == Rejected)
    || (action == PromotionChangesRequested && to == ChangesRequested && factTo == Proposed)
  }

  lemma MoveReplays(t: Tables, p: Id, to: State, reviews: seq<Review>, factTo: Status, principal: string,
                    action: Action)
    requires Replays(t) && p in t.promos && t.promos[p].factId in t.facts && Announces(action, to, factTo)
    ensures Replays(Move(t, p, to, reviews, factTo, principal, action))
  {
    var u := Move(t, p, to, reviews, factTo, principal, action);
    FactRow(t.facts, t.promos[p].factId, u.facts[t.promos[p].factId]);
    PromotionRowAgain(t.promos, p, u.promos[p]);
    ReplayOne(ViewOf(t), u.log[|t.log|]);
    ReplayStep(t, u, [u.log[|t.log|]]);
  }

  lemma RecordReplays(t: Tables, p: Id, reviews: seq<Review>, reviewer: string)
    requires Replays(t) && p in t.promos
    ensures Replays(RecordApproval(t, p, reviews, reviewer))
  {
    var u := RecordApproval(t, p, reviews, reviewer);
    PromotionRowAgain(t.promos, p, u.promos[p]);
    ReplayOne(ViewOf(t), u.log[|t.log|]);
    ReplayStep(t, u, [u.log[|t.log|]]);
  }

  lemma LeaveReplays(t: Tables, f: Id, to: Status, principal: string, action: Action)
    requires Replays(t) && f in t.facts && (action == FactRevoked || action == FactExpired)
    ensures Replays(Leave(t, f, to, principal, action))
  {
    var u := Leave(t, f, to, principal, action);
    FactRow(t.facts, f, u.facts[f]);
    ReplayOne(ViewOf(t), u.log[|t.log|]);
    ReplayStep(t, u, [u.log[|t.log|]]);
  }

  /** The view after the superseded event, if there is one. */
  lemma ClearedView(t: Tables, promo: Promotion, principal: string)
    requires promo.factId in t.facts && RefersTo(promo.conflictWith, t.facts.Keys)
    ensures Replay(ViewOf(t), SupersededEvents(promo, principal))
        == ViewOf(t.(facts := ConflictCleared(t.facts, promo)))
  {
    if promo.conflictWith.Some? {
      var c := promo.conflictWith.value;
      var after := t.facts[c := WithStatus(t.facts[c], Superseded).(supersededBy := Some(promo.factId))];
      assert StatusOf(after) == StatusOf(t.facts)[c := Superseded];
      assert SuccessorOf(after) == SuccessorOf(t.facts)[c := promo.factId];
      FactRow(after, promo.factId, after[promo.factId].(supersedes := Some(c)));
      assert StatusOf(after)[promo.factId := after[promo.factId].status] == StatusOf(after);
      ReplayOne(ViewOf(t), SupersededEvents(promo, principal)[0]);
    }
  }

  /** The view after the conflict is cleared and the fact is active. */
  lemma ActiveView(t: Tables, p: Id, a: Actor, now: int, embedOk: bool)
    requires PromoRefs(t, p)
    ensures var v := ViewOf(t.(facts := ConflictCleared(t.facts, t.promos[p])));
            var u := ViewOf(Activate(t, p, a, now, embedOk));
            && u.facts == v.facts[t.promos[p].factId := Active]
            && u.promos == v.promos[p := Approved] && u.factOf == v.factOf
            && u.successor == v.successor && u.conflictOf == v.conflictOf
  {
    var cleared := ConflictCleared(t.facts, t.promos[p]);
    var promo := t.promos[p];
    FactRow(cleared, promo.factId, ActivatedFact(cleared[promo.factId], promo.proposer, a, now, embedOk));
    PromotionRowAgain(t.promos, p, ApprovedPromotion(t.promos[p], a));
  }

  lemma ReviewedView(t: Tables, p: Id, reviews: seq<Review>, last: string, now: int, embedOk: bool)
    requires PromoRefs(t, p)
    ensures var a := Reviewed(reviews, last);
            Replay(ViewOf(t.(facts := ConflictCleared(t.facts, t.promos[p]))), ActivatedEvents(p, t.promos[p], a))
              == ViewOf(Activate(t, p, a, now, embedOk))
  {
    var a := Reviewed(reviews, last);
    var events := ActivatedEvents(p, t.promos[p], a);
    ReplayTwo(ViewOf(t.(facts := ConflictCleared(t.facts, t.promos[p]))), events[0], events[1]);
    ActiveView(t, p, a, now, embedOk);
  }

  /** The fact's own promotion is the one an automatic activation approves. */
  lemma OwnPromotion(t: Tables, v: View, p: Id)
    requires Paired(t) && p in t.promos
    requires forall q :: q in v.factOf <==> q in t.promos
    requires forall q | q in t.promos :: v.factOf[q] == t.promos[q].factId
    ensures WithApprovedPromotionOf(v, t.promos[p].factId) == v.(promos := v.promos[p := Approved])
  {
    var f := t.promos[p].factId;
    assert IsPromotionOf(v, p, f);
    forall q | IsPromotionOf(v, q, f) ensures q == p {
      assert Drives(t.promos, q, f) && Drives(t.promos, p, f);
    }
  }

  lemma AutomaticView(t: Tables, p: Id, engine: string, rule: Option<Rule>, now: int, embedOk: bool)
    requires Paired(t) && PromoRefs(t, p)
    ensures var a := Automatic(engine, rule);
            Replay(ViewOf(t.(facts := ConflictCleared(t.facts, t.promos[p]))), ActivatedEvents(p, t.promos[p], a))
              == ViewOf(Activate(t, p, a, now, embedOk))
  {
    var a := Automatic(engine, rule);
    var v := ViewOf(t.(facts := ConflictCleared(t.facts, t.promos[p])));
    var f := t.promos[p].factId;
    ReplayOne(v, ActivatedEvents(p, t.promos[p], a)[0]);
    OwnPromotion(t, WithFact(v, f, OfFact(Active)), p);
    ActiveView(t, p, a, now, embedOk);
  }

  lemma ActivateReplays(t: Tables, p: Id, a: Actor, now: int, embedOk: bool)
    requires Replays(t) && Paired(t) && PromoRefs(t, p)
    ensures Replays(Activate(t, p, a, now, embedOk))
  {
    ClearedView(t, t.promos[p], Principal(a));
    ReplayConcat(ViewOf(t), SupersededEvents(t.promos[p], Principal(a)), ActivatedEvents(p, t.promos[p], a));
    match a {
      case Reviewed(reviews, last) => ReviewedView(t, p, reviews, last, now, embedOk);
      case Automatic(engine, rule) => AutomaticView(t, p, engine, rule, now, embedOk);
    }
    ReplayStep(t, Activate(t, p, a, now, embedOk), ActivationEvents(p, t.promos[p], a));
  }

  // ---- Counting versions ----

  /** The events that raise the version of fact f, whose promotion is p. */
  predicate Touches(e: Event, f: Id, p: Id) {
    || (e.subjectType == OnFact && e.subject == f)
    || (e.subjectType == OnPromotion && e.subject == p
        && (e.action == PromotionSubmitted || e.action == PromotionRejected
            || e.action == PromotionChangesRequested || e.action == PromotionWithdrawn))
  }

  function TouchesEach(log: seq<Event>, f: Id, p: Id): (touched: seq<bool>)
    ensures |touched| == |log|
  {
    seq(|log|, i requires 0 <= i < |log| => Touches(log[i], f, p))
  }

  /** How many events of the log raise the version. */
  function Bumps(log: seq<Event>, f: Id, p: Id): nat {
    multiset(TouchesEach(log, f, p))[true]
  }

  lemma BumpsConcat(a: seq<Event>, b: seq<Event>, f: Id, p: Id)
    ensures Bumps(a + b, f, p) == Bumps(a, f, p) + Bumps(b, f, p)
  {
    assert TouchesEach(a + b, f, p) == TouchesEach(a, f, p) + TouchesEach(b, f, p);
  }

  lemma BumpsOne(e: Event, f: Id, p: Id)
    ensures Bumps([e], f, p) == if Touches(e, f, p) then 1 else 0
  {
    assert TouchesEach([e], f, p) == [Touches(e, f, p)];
  }

  lemma NoBumps(log: seq<Event>, f: Id, p: Id)
    requires forall e | e in log :: e.subject != f && e.subject != p
    ensures Bumps(log, f, p) == 0
  {
    assert true !in TouchesEach(log, f, p);
  }

  ghost predicate VersionOk(t: Tables, p: Id)
    requires p in t.promos && t.promos[p].factId in t.facts
  {
    t.facts[t.promos[p].factId].version == 1 + Bumps(t.log, t.promos[p].factId, p)
  }

  /** Every version is one more than the number of events that touched the fact. */
  ghost predicate Versions(t: Tables) {
    forall p {:trigger VersionOk(t, p)} | p in t.promos && t.promos[p].factId in t.facts :: VersionOk(t, p)
  }

  /** The log mentions only ids in use. */
  ghost predicate LogIds(t: Tables) {
    forall e | e in t.log :: e.subject < t.next
  }

  /** Enough for Versions: each fact's version grows by the new events that touch it. */
  lemma VersionsStep(t: Tables, u: Tables, events: seq<Event>)
    requires Core(t) && Versions(t) && Updated(t, u) && u.log == t.log + events
    requires forall q | q in t.promos && t.promos[q].factId in t.facts ::
               u.facts[t.promos[q].factId].version
                   == t.facts[t.promos[q].factId].version + Bumps(events, t.promos[q].factId, q)
    ensures Versions(u)
  {
    forall q | q in u.promos && u.promos[q].factId in u.facts ensures VersionOk(u, q) {
      assert SamePromotion(t.promos[q], u.promos[q]);
      assert VersionOk(t, q);
      BumpsConcat(t.log, events, t.promos[q].factId, q);
    }
  }

  lemma AddVersions(t: Tables, input: ProposeInput, key: string, required: int, conflict: Option<Id>)
    requires Core(t) && Versions(t) && LogIds(t)
    ensures Versions(AddProposal(t, input, key, required, conflict))
    ensures LogIds(AddProposal(t, input, key, required, conflict))
  {
    var u := AddProposal(t, input, key, required, conflict);
    var e := u.log[|t.log|];
    forall q | q in u.promos && u.promos[q].factId in u.facts ensures VersionOk(u, q) {
      var f := u.promos[q].factId;
      BumpsConcat(t.log, [e], f, q);
      BumpsOne(e, f, q);
      if q in t.promos {
        assert VersionOk(t, q);
      } else {
        NoBumps(t.log, f, q);
      }
    }
  }

  lemma MoveVersions(t: Tables, p: Id, to: State, reviews: seq<Review>, factTo: Status, principal: string,
                     action: Action)
    requires Core(t) && Versions(t) && p in t.promos && Announces(action, to, factTo)
    ensures Versions(Move(t, p, to, reviews, factTo, principal, action))
  {
    var u := Move(t, p, to, reviews, factTo, principal, action);
    var e := u.log[|t.log|];
    assert Updated(t, u);
    forall q | q in t.promos && t.promos[q].factId in t.facts
      ensures u.facts[t.promos[q].factId].version
          == t.facts[t.promos[q].factId].version + Bumps([e], t.promos[q].factId, q)
    {
      BumpsOne(e, t.promos[q].factId, q);
      if q != p {
        OneToOne(t, p, q);
      }
    }
    VersionsStep(t, u, [e]);
  }

  lemma RecordVersions(t: Tables, p: Id, reviews: seq<Review>, reviewer: string)
    requires Core(t) && Versions(t) && p in t.promos
    ensures Versions(RecordApproval(t, p, reviews, reviewer))
  {
    var u := RecordApproval(t, p, reviews, reviewer);
    var e := u.log[|t.log|];
    assert Updated(t, u);
    forall q | q in t.promos && t.promos[q].factId in t.facts ensures Bumps([e], t.promos[q].factId, q) == 0 {
      BumpsOne(e, t.promos[q].factId, q);
    }
    VersionsStep(t, u, [e]);
  }

  lemma LeaveVersions(t: Tables, f: Id, to: Status, principal: string, action: Action)
    requires Core(t) && Versions(t) && f in t.facts && (action == FactRevoked || action == FactExpired)
    ensures Versions(Leave(t, f, to, principal, action))
  {
    var u := Leave(t, f, to, principal, action);
    var e := u.log[|t.log|];
    assert Updated(t, u);
    forall q | q in t.promos && t.promos[q].factId in t.facts
      ensures u.facts[t.promos[q].factId].version
          == t.facts[t.promos[q].factId].version + Bumps([e], t.promos[q].factId, q)
    {
      BumpsOne(e, t.promos[q].factId, q);
    }
    VersionsStep(t, u, [e]);
  }

  lemma SupersededBumps(promo: Promotion, principal: string, g: Id, q: Id)
    ensures Bumps(SupersededEvents(promo, principal), g, q) == if promo.conflictWith == Some(g) then 1 else 0
  {
  }

  lemma ActivatedBumps(p: Id, promo: Promotion, a: Actor, g: Id, q: Id)
    ensures Bumps(ActivatedEvents(p, promo, a), g, q) == if promo.factId == g then 1 else 0
  {
    var events := ActivatedEvents(p, promo, a);
    BumpsOne(events[0], g, q);
    if a.Reviewed? {
      BumpsOne(events[1], g, q);
      BumpsConcat([events[0]], [events[1]], g, q);
      assert events == [events[0]] + [events[1]];
    }
  }

  lemma ActivationBumps(p: Id, promo: Promotion, a: Actor, g: Id, q: Id)
    ensures Bumps(ActivationEvents(p, promo, a), g, q)
              == (if promo.factId == g then 1 else 0) + (if promo.conflictWith == Some(g) then 1 else 0)
  {
    SupersededBumps(promo, Principal(a), g, q);
    ActivatedBumps(p, promo, a, g, q);
    BumpsConcat(SupersededEvents(promo, Principal(a)), ActivatedEvents(p, promo, a), g, q);
  }

  /** Each fact's version grows once if it is the promoted fact and once if it is the conflict. */
  lemma ActivationVersion(t: Tables, p: Id, a: Actor, now: int, embedOk: bool, f: Id)
    requires Paired(t) && PromoRefs(t, p) && f in t.facts
    ensures var u := Activate(t, p, a, now, embedOk);
            && f in u.facts
            && u.facts[f].version == t.facts[f].version
                 + (if t.promos[p].factId == f then 1 else 0) + (if t.promos[p].conflictWith == Some(f) then 1 else 0)
  {
    assert Agrees(t.facts, t.promos[p]) && ConflictOlder(t.facts, t.promos[p]);
  }

  lemma ActivateVersions(t: Tables, p: Id, a: Actor, now: int, embedOk: bool)
    requires Core(t) && Versions(t) && PromoRefs(t, p)
    ensures Versions(Activate(t, p, a, now, embedOk))
  {
    var u := Activate(t, p, a, now, embedOk);
    var events := ActivationEvents(p, t.promos[p], a);
    ActivateUpdates(t, p, a, now, embedOk);
    forall q | q in t.promos && t.promos[q].factId in t.facts
      ensures u.facts[t.promos[q].factId].version
                == t.facts[t.promos[q].factId].version + Bumps(events, t.promos[q].factId, q)
    {
      ActivationVersion(t, p, a, now, embedOk, t.promos[q].factId);
      ActivationBumps(p, t.promos[p], a, t.promos[q].factId, q);
    }
    VersionsStep(t, u, events);
  }

  lemma CosmeticView(t: Tables, u: Tables)
    requires Cosmetic(t, u)
    ensures ViewOf(u) == ViewOf(t)
  {
    assert StatusOf(u.facts) == StatusOf(t.facts);
    assert SuccessorOf(u.facts) == SuccessorOf(t.facts);
  }

  lemma CosmeticLedger(t: Tables, u: Tables)
    requires Core(t) && Replays(t) && Versions(t) && LogIds(t) && Cosmetic(t, u)
    ensures Replays(u) && Versions(u) && LogIds(u)
  {
    CosmeticView(t, u);
    forall q | q in u.promos && u.promos[q].factId in u.facts ensures VersionOk(u, q) {
      assert VersionOk(t, q);
    }
  }
}
