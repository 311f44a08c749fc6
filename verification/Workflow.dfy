/**
 * What each governance operation does to the tables, stated outright: which error stops it, and
 * otherwise the rows it changes and the events it logs. No transaction machinery appears here;
 * Promotions.dfy proves that the transactional code computes exactly these functions.
 */
module Workflow {
  import opened Basics
  import opened Subjects
  import opened Autopromote
  import opened Schema
  import opened Reviews

  datatype Error =
    | NotFound | InvalidState | NotProposer | SelfApproval | InvalidSubject
    | VersionConflict | NotActive(status: Status)
    | Aborted   // a constraint violation rolled the transaction back

  datatype Outcome = Ok(id: Id, promo: Promotion) | Err(error: Error)

  datatype ProposeInput = ProposeInput(
    target: Id, statement: string, subject: Subject, tags: set<string>, metadata: map<string, string>,
    proposer: string, idemKey: string, originType: string, sourceKind: string, actorType: string)

  // ---- Row effects ----

  function NewFact(input: ProposeInput, key: string): Fact {
    Fact(input.target, input.subject, key, input.statement, Proposed, input.tags,
         None, None, None, None, input.proposer, [], false, 1)
  }

  function OptionalKey(key: string): Option<string> {
    if key == "" then None else Some(key)
  }

  function NewPromotion(input: ProposeInput, factId: Id, required: int, conflict: Option<Id>): Promotion {
    Promotion(factId, input.target, Pending, input.proposer, [],
              if required < 1 then 1 else required, conflict, OptionalKey(input.idemKey))
  }

  function WithStatus(f: Fact, to: Status): Fact {
    f.(status := to, version := f.version + 1)
  }

  /** Supersede: both lineage pointers, the old fact's status and version; its status is not checked. */
  function SupersedeRows(facts: map<Id, Fact>, old_: Id, new_: Id): map<Id, Fact>
    requires old_ in facts && new_ in facts
  {
    var fs := facts[old_ := WithStatus(facts[old_], Superseded).(supersededBy := Some(new_))];
    fs[new_ := fs[new_].(supersedes := Some(old_))]
  }

  datatype Actor =
    | Reviewed(reviews: seq<Review>, last: string)
    | Automatic(engine: string, rule: Option<Rule>)

  function EnginePrincipal(engine: string): string {
    "engine:" + engine
  }

  function Principal(a: Actor): string {
    match a
    case Reviewed(_, last) => last
    case Automatic(engine, _) => EnginePrincipal(engine)
  }

  function ActivatedFact(f: Fact, proposer: string, a: Actor, now: int, embedOk: bool): Fact {
    var g := WithStatus(f, Active).(validFrom := Some(now), embedded := f.embedded || embedOk);
    match a
    case Reviewed(reviews, _) => g.(approvedBy := ApproverList(reviews, proposer))
    case Automatic(_, _) => g.(tags := f.tags + {"auto:true"})
  }

  // ---- The five changes every operation is made of ----

  /** A new fact and its promotion. */
  function AddProposal(t: Tables, input: ProposeInput, key: string, required: int, conflict: Option<Id>): Tables {
    var f, p := t.next, t.next + 1;
    t.(facts := t.facts[f := NewFact(input, key)],
       promos := t.promos[p := NewPromotion(input, f, required, conflict)],
       log := t.log + [Event(input.proposer, FactProposed, OnPromotion, p, NoState, OfPromotion(Pending),
                             ProposedDetail(f, key, conflict))],
       next := t.next + 2)
  }

  /** A promotion and its fact move together. */
  function Move(t: Tables, p: Id, to: State, reviews: seq<Review>, factTo: Status, principal: string,
                action: Action): Tables
    requires p in t.promos && t.promos[p].factId in t.facts
  {
    var f := t.promos[p].factId;
    t.(promos := t.promos[p := t.promos[p].(state := to, reviews := reviews)],
       facts := t.facts[f := WithStatus(t.facts[f], factTo)],
       log := t.log + [Event(principal, action, OnPromotion, p, NoState, OfPromotion(to), NoDetail)])
  }

  function ApprovedEvent(p: Id, promo: Promotion, reviewer: string): Event {
    Event(reviewer, PromotionApproved, OnPromotion, p, NoState, OfPromotion(promo.state),
          ApprovalsDetail(ApprovalCount(promo), promo.required))
  }

  /** An approval below the threshold. */
  function RecordApproval(t: Tables, p: Id, reviews: seq<Review>, reviewer: string): Tables
    requires p in t.promos
  {
    var promo := t.promos[p].(state := Reviewing, reviews := reviews);
    t.(promos := t.promos[p := promo], log := t.log + [ApprovedEvent(p, promo, reviewer)])
  }

  function SupersededEvents(p: Promotion, principal: string): seq<Event> {
    if p.conflictWith.None? then []
    else [Event(principal, FactSuperseded, OnFact, p.conflictWith.value, OfFact(Active), OfFact(Superseded),
                SupersededByDetail(p.factId))]
  }

  function ApprovedPromotion(p: Promotion, a: Actor): Promotion {
    match a
    case Reviewed(reviews, _) => p.(state := Approved, reviews := reviews)
    case Automatic(_, _) => p.(state := Approved)
  }

  function ActivatedEvents(p: Id, promo: Promotion, a: Actor): seq<Event> {
    match a
    case Reviewed(_, last) =>
      [Event(last, FactActivated, OnFact, promo.factId, NoState, OfFact(Active), NoDetail),
       ApprovedEvent(p, ApprovedPromotion(promo, a), last)]
    case Automatic(engine, rule) =>
      [Event(EnginePrincipal(engine), FactAutoPromoted, OnFact, promo.factId, NoState, OfFact(Active),
             EngineDetail(engine, rule))]
  }

  function ActivationEvents(p: Id, promo: Promotion, a: Actor): seq<Event> {
    SupersededEvents(promo, Principal(a)) + ActivatedEvents(p, promo, a)
  }

  ghost predicate PromoRefs(t: Tables, p: Id) {
    p in t.promos && t.promos[p].factId in t.facts && RefersTo(t.promos[p].conflictWith, t.facts.Keys)
  }

  function ConflictCleared(facts: map<Id, Fact>, promo: Promotion): map<Id, Fact>
    requires promo.factId in facts && RefersTo(promo.conflictWith, facts.Keys)
  {
    if promo.conflictWith.None? then facts else SupersedeRows(facts, promo.conflictWith.value, promo.factId)
  }

  /** The fact becomes active, the fact it conflicts with (if any) superseded, the promotion approved. */
  function Activate(t: Tables, p: Id, a: Actor, now: int, embedOk: bool): Tables
    requires PromoRefs(t, p)
  {
    var promo := t.promos[p];
    var cleared := ConflictCleared(t.facts, promo);
    t.(facts := cleared[promo.factId := ActivatedFact(cleared[promo.factId], promo.proposer, a, now, embedOk)],
       promos := t.promos[p := ApprovedPromotion(promo, a)],
       log := t.log + ActivationEvents(p, promo, a))
  }

  /** An active fact is revoked or expires. */
  function Leave(t: Tables, f: Id, to: Status, principal: string, action: Action): Tables
    requires f in t.facts
  {
    t.(facts := t.facts[f := WithStatus(t.facts[f], to)],
       log := t.log + [Event(principal, action, OnFact, f, OfFact(Active), OfFact(to), NoDetail)])
  }

  // ---- Proposing ----

  ghost predicate ActiveAt(t: Tables, f: Id, ns: Id, key: string) {
    f in t.facts && t.facts[f].status == Active && t.facts[f].ns == ns && t.facts[f].key == key
  }

  /** FindActiveByKey: unique when facts_active_unique holds. */
  ghost function ActiveInSlot(t: Tables, ns: Id, key: string): (r: Option<Id>)
    ensures r.Some? ==> ActiveAt(t, r.value, ns, key)
    ensures r.None? ==> forall f :: !ActiveAt(t, f, ns, key)
  {
    if exists f :: ActiveAt(t, f, ns, key) then
      var f :| ActiveAt(t, f, ns, key); Some(f)
    else None
  }

  ghost predicate HasIdemKey(t: Tables, p: Id, proposer: string, key: string) {
    p in t.promos && t.promos[p].proposer == proposer && t.promos[p].idemKey == Some(key)
  }

  /** findByIdempotencyKey: unique when promotion_requests_idem_unique holds. */
  ghost function FindIdem(t: Tables, proposer: string, key: string): (r: Option<Id>)
    ensures r.Some? ==> HasIdemKey(t, r.value, proposer, key)
    ensures r.None? ==> forall p :: !HasIdemKey(t, p, proposer, key)
  {
    if exists p :: HasIdemKey(t, p, proposer, key) then
      var p :| HasIdemKey(t, p, proposer, key); Some(p)
    else None
  }

  function CandidateOf(input: ProposeInput): Candidate {
    Candidate(input.originType, input.sourceKind, input.actorType, input.tags, input.metadata)
  }

  /** The engine that promotes the candidate at once, if any. */
  function AutoActor(engines: Option<Registry>, ap: Option<AutoPromote>, input: ProposeInput): Option<Actor> {
    if engines.None? || ap.None? || ap.value.engine == "" then None
    else
      var v := Decide(engines.value, ap.value.engine, CandidateOf(input), ap.value.rules);
      if v.Promote? then Some(Automatic(ap.value.engine, v.rule)) else None
  }

  /** What the propose transaction works with, read before it began. */
  datatype Terms = Terms(required: int, autoPromote: Option<AutoPromote>)

  datatype Lookup = Existing(id: Id) | Refused(error: Error) | Proceed(terms: Terms)

  /** The part of Propose before its transaction. */
  ghost function ProposeLookup(t: Tables, input: ProposeInput): Lookup {
    if !input.subject.Valid() then Refused(InvalidSubject)
    else if input.idemKey != "" && FindIdem(t, input.proposer, input.idemKey).Some? then
      Existing(FindIdem(t, input.proposer, input.idemKey).value)
    else if input.target !in t.namespaces then Refused(NotFound)
    else Proceed(Terms(t.namespaces[input.target].policy.requiredApprovals,
                       t.namespaces[input.target].policy.autoPromote))
  }

  ghost predicate ProposeBlocked(t: Tables, input: ProposeInput) {
    || input.target !in t.namespaces
    || (input.idemKey != "" && FindIdem(t, input.proposer, input.idemKey).Some?)
  }

  ghost function WithProposal(t: Tables, input: ProposeInput, key: string, terms: Terms): Tables {
    AddProposal(t, input, key, terms.required, ActiveInSlot(t, input.target, key))
  }

  /** The propose transaction once the canonical key is known. */
  ghost function ProposeKeyed(engines: Option<Registry>, t: Tables, input: ProposeInput, key: string, terms: Terms,
                              now: int, embedOk: bool): (Tables, Outcome)
  {
    if ProposeBlocked(t, input) then (t, Err(Aborted))
    else
      var t1 := WithProposal(t, input, key, terms);
      var p := t.next + 1;
      var actor := AutoActor(engines, terms.autoPromote, input);
      var t2 := if actor.None? then t1 else Activate(t1, p, actor.value, now, embedOk);
      (t2, Ok(p, t2.promos[p]))
  }

  /** The propose transaction, for any terms read earlier; the key is always derived from the subject. */
  ghost function ProposeTx(engines: Option<Registry>, t: Tables, input: ProposeInput, terms: Terms, now: int,
                           embedOk: bool)
    : (Tables, Outcome)
  {
    ProposeKeyed(engines, t, input, KeyOf(input.subject), terms, now, embedOk)
  }

  // ---- Reviewing ----

  function Moved(t: Tables, p: Id, to: State, reviews: seq<Review>, factTo: Status, principal: string, action: Action)
    : (Tables, Outcome)
    requires p in t.promos && t.promos[p].factId in t.facts
  {
    var u := Move(t, p, to, reviews, factTo, principal, action);
    (u, Ok(p, u.promos[p]))
  }

  function SubmitTx(t: Tables, p: Id, principal: string): (Tables, Outcome)
    requires References(t)
  {
    if p !in t.promos then (t, Err(NotFound))
    else if t.promos[p].state != Pending && t.promos[p].state != ChangesRequested then (t, Err(InvalidState))
    else if t.promos[p].proposer != principal then (t, Err(NotProposer))
    else Moved(t, p, Reviewing, t.promos[p].reviews, InReview, principal, PromotionSubmitted)
  }

  function WithdrawTx(t: Tables, p: Id, principal: string): (Tables, Outcome)
    requires References(t)
  {
    if p !in t.promos then (t, Err(NotFound))
    else if t.promos[p].proposer != principal then (t, Err(NotProposer))
    else if t.promos[p].state != Pending && t.promos[p].state != ChangesRequested then (t, Err(InvalidState))
    else Moved(t, p, Denied, t.promos[p].reviews, Rejected, principal, PromotionWithdrawn)
  }

  predicate Open(s: State) {
    s == Pending || s == Reviewing
  }

  /** Reject and RequestChanges. */
  function ReviewTx(t: Tables, p: Id, reviewer: string, d: Decision, to: State, factTo: Status,
                    action: Action): (Tables, Outcome)
    requires References(t)
  {
    if p !in t.promos then (t, Err(NotFound))
    else if !Open(t.promos[p].state) then (t, Err(InvalidState))
    else Moved(t, p, to, t.promos[p].reviews + [Review(reviewer, d)], factTo, reviewer, action)
  }

  function RejectTx(t: Tables, p: Id, reviewer: string): (Tables, Outcome)
    requires References(t)
  {
    ReviewTx(t, p, reviewer, Reject, Denied, Rejected, PromotionRejected)
  }

  function RequestChangesTx(t: Tables, p: Id, reviewer: string): (Tables, Outcome)
    requires References(t)
  {
    ReviewTx(t, p, reviewer, RequestChanges, ChangesRequested, Proposed, PromotionChangesRequested)
  }

  /** Every active fact in the slot, other than the promoted one, is the recorded conflict. */
  ghost predicate SlotOpen(t: Tables, promo: Promotion)
    requires promo.factId in t.facts
  {
    forall g | g in t.facts && g != promo.factId ::
      t.facts[g].status == Active && SameSlot(t.facts[g], t.facts[promo.factId]) ==> promo.conflictWith == Some(g)
  }

  /** The approval is admissible and reaches the threshold. */
  ghost predicate Reaches(t: Tables, p: Id, reviewer: string) {
    && p in t.promos && Open(t.promos[p].state) && reviewer != t.promos[p].proposer
    && Enough(t.promos[p].(reviews := WithApproval(t.promos[p], reviewer)))
  }

  ghost function ApproveTx(t: Tables, p: Id, reviewer: string, now: int, embedOk: bool): (Tables, Outcome)
    requires References(t)
  {
    if p !in t.promos then (t, Err(NotFound))
    else if !Open(t.promos[p].state) then (t, Err(InvalidState))
    else if reviewer == t.promos[p].proposer then (t, Err(SelfApproval))
    else
      var reviews := WithApproval(t.promos[p], reviewer);
      if !Reaches(t, p, reviewer) then
        var u := RecordApproval(t, p, reviews, reviewer);
        (u, Ok(p, u.promos[p]))
      else if !SlotOpen(t, t.promos[p]) then (t, Err(Aborted))
      else
        var u := Activate(t, p, Reviewed(reviews, reviewer), now, embedOk);
        (u, Ok(p, u.promos[p]))
  }

  /** A fresh proposal's recorded conflict is the only active fact of its slot. */
  lemma NewSlotOpen(t: Tables, input: ProposeInput, key: string, terms: Terms)
    requires Constraints(t)
    ensures var u := WithProposal(t, input, key, terms);
            SlotOpen(u, u.promos[t.next + 1])
  {
    var u := WithProposal(t, input, key, terms);
    var conflict := ActiveInSlot(t, input.target, key);
    forall g | g in u.facts && g != t.next && u.facts[g].status == Active && SameSlot(u.facts[g], u.facts[t.next])
      ensures conflict == Some(g)
    {
      assert ActiveAt(t, g, input.target, key);
      assert Rivals(t.facts[g], t.facts[conflict.value]);
    }
  }

  // ---- Revoking, reaping, backfilling ----

  /** Revoke: compare-and-set on the version. */
  function RevokeTx(t: Tables, f: Id, version: nat, principal: string): (Tables, Option<Error>) {
    if f !in t.facts then (t, Some(NotFound))
    else if t.facts[f].status != Active then (t, Some(NotActive(t.facts[f].status)))
    else if t.facts[f].version != version then (t, Some(VersionConflict))
    else (Leave(t, f, Revoked, principal, FactRevoked), None)
  }

  predicate Due(f: Fact, now: int) {
    f.status == Active && f.validTo.Some? && f.validTo.value <= now
  }

  ghost function DueIds(t: Tables, now: int): set<Id> {
    set f | f in t.facts && Due(t.facts[f], now)
  }

  /** A row order in which a SELECT may return exactly the given ids. */
  ghost predicate Enumerates(order: seq<Id>, ids: set<Id>) {
    && (forall i, j | 0 <= i < j < |order| :: order[i] != order[j])
    && (forall x :: x in order <==> x in ids)
  }

  const REAPER := "system:reaper"

  function ExpireAll(t: Tables, order: seq<Id>): (u: Tables)
    requires forall f | f in order :: f in t.facts
    ensures u.facts.Keys == t.facts.Keys
  {
    if order == [] then t
    else
      var last := |order| - 1;
      Leave(ExpireAll(t, order[..last]), order[last], Expired, REAPER, FactExpired)
  }

  /** Reap, for the row order the SELECT happened to return. */
  ghost function ReapTx(t: Tables, now: int, order: seq<Id>): Tables {
    if Enumerates(order, DueIds(t, now)) then ExpireAll(t, order) else t
  }

  /** SetEmbedding, in a statement of its own. */
  function EmbedTx(t: Tables, f: Id): Tables {
    if f in t.facts then t.(facts := t.facts[f := t.facts[f].(embedded := true)]) else t
  }

  /** BackfillEmbeddings without interference, for the facts that could be embedded. */
  function BackfillTx(t: Tables, accepted: set<Id>): Tables {
    t.(facts := map f | f in t.facts ::
         if t.facts[f].status == Active && f in accepted then t.facts[f].(embedded := true) else t.facts[f])
  }

  // ---- Namespaces, memberships and the operator ----

  function DefaultPolicy(k: Kind): Policy {
    match k
    case Org => Policy(2, None, None)
    case Team => Policy(1, None, Some(AutoPromote(SIMPLE_ID, NoBytes)))
    case _ => Policy(1, None, None)
  }

  function EffectivePolicy(ns: Namespace): Policy {
    if ns.policy == Policy(0, None, None) then DefaultPolicy(ns.kind) else ns.policy
  }

  /** marshalPolicy fails on rules that are not one JSON value. */
  predicate Storable(p: Policy) {
    p.autoPromote.Some? ==> Marshals(p.autoPromote.value.rules)
  }

  /** The policy as the column gives it back: an empty list of proposers is left out of the JSON. */
  function Stored(p: Policy): Policy {
    if p.allowedProposers == Some([]) then p.(allowedProposers := None) else p
  }

  predicate NameTaken(t: Tables, name: string) {
    exists n :: n in t.namespaces && t.namespaces[n].name == name
  }

  function CreateNamespaceTx(t: Tables, ns: Namespace): (Tables, Option<Id>) {
    var policy := EffectivePolicy(ns);
    if !Storable(policy) || NameTaken(t, ns.name) || !RefersTo(ns.parent, t.namespaces.Keys) then (t, None)
    else
      var row := ns.(policy := Stored(policy));
      (t.(namespaces := t.namespaces[t.next := row], next := t.next + 1), Some(t.next))
  }

  function UpdatePolicyTx(t: Tables, n: Id, policy: Policy): (Tables, bool) {
    if !Storable(policy) || n !in t.namespaces then (t, false)
    else (t.(namespaces := t.namespaces[n := t.namespaces[n].(policy := Stored(policy))]), true)
  }

  function GrantTx(t: Tables, m: Membership): (Tables, bool) {
    if m.role.UnknownRole? || m.ns !in t.namespaces then (t, false)
    else (t.(memberships := t.memberships + {m}), true)
  }

  function RevokeGrantTx(t: Tables, m: Membership): Tables {
    t.(memberships := t.memberships - {m})
  }

  /** No code path writes valid_to; an operator may, by SQL. */
  function SetValidToTx(t: Tables, f: Id, until: Option<int>): Tables {
    if f in t.facts then t.(facts := t.facts[f := t.facts[f].(validTo := until)]) else t
  }

  // ---- Runs ----

  datatype Step =
    | CreateNamespace(ns: Namespace)
    | UpdatePolicy(n: Id, policy: Policy)
    | Grant(m: Membership)
    | RevokeGrant(m: Membership)
    | Propose(input: ProposeInput, terms: Terms, now: int, embedOk: bool)
    | Submit(p: Id, principal: string)
    | ApproveBy(p: Id, principal: string, now: int, embedOk: bool)
    | RejectBy(p: Id, principal: string)
    | RequestChangesBy(p: Id, principal: string)
    | Withdraw(p: Id, principal: string)
    | RevokeFact(f: Id, version: nat, principal: string)
    | Reap(now: int, order: seq<Id>)
    | Embed(f: Id)
    | SetValidTo(f: Id, until: Option<int>)

  /** One committed transaction; an operation that fails leaves the tables as they were. */
  ghost function Next(engines: Option<Registry>, t: Tables, s: Step): Tables
    requires References(t)
  {
    match s
    case CreateNamespace(ns) => CreateNamespaceTx(t, ns).0
    case UpdatePolicy(n, policy) => UpdatePolicyTx(t, n, policy).0
    case Grant(m) => GrantTx(t, m).0
    case RevokeGrant(m) => RevokeGrantTx(t, m)
    case Propose(input, terms, now, embedOk) => ProposeTx(engines, t, input, terms, now, embedOk).0
    case Submit(p, principal) => SubmitTx(t, p, principal).0
    case ApproveBy(p, principal, now, embedOk) => ApproveTx(t, p, principal, now, embedOk).0
    case RejectBy(p, principal) => RejectTx(t, p, principal).0
    case RequestChangesBy(p, principal) => RequestChangesTx(t, p, principal).0
    case Withdraw(p, principal) => WithdrawTx(t, p, principal).0
    case RevokeFact(f, version, principal) => RevokeTx(t, f, version, principal).0
    case Reap(now, order) => ReapTx(t, now, order)
    case Embed(f) => EmbedTx(t, f)
    case SetValidTo(f, until) => SetValidToTx(t, f, until)
  }
}
