/** The tables of the governance database and the constraints Postgres holds them to (00001_init.sql). */
module Schema {
  import opened Basics
  import opened Subjects
  import opened Autopromote

  // ---- Namespaces and memberships ----

  datatype Kind = User | Project | Team | Org

  datatype AutoPromote = AutoPromote(engine: string, rules: Rules)

  datatype Policy = Policy(requiredApprovals: int, allowedProposers: Option<seq<string>>,
                           autoPromote: Option<AutoPromote>)

  datatype Namespace = Namespace(name: string, kind: Kind, parent: Option<Id>, policy: Policy)

  datatype Role = Reader | Contributor | Reviewer | NamespaceAdmin | UnknownRole(name: string)

  datatype Membership = Membership(principal: string, ns: Id, role: Role)

  // ---- Facts and promotions ----

  datatype Status = Proposed | InReview | Active | Superseded | Revoked | Expired | Rejected

  datatype Fact = Fact(
    ns: Id, subject: Subject, key: string, statement: string, status: Status, tags: set<string>,
    validFrom: Option<int>, validTo: Option<int>,
    supersedes: Option<Id>, supersededBy: Option<Id>,
    createdBy: string, approvedBy: seq<string>, embedded: bool, version: nat)

  datatype State = Pending | Reviewing | ChangesRequested | Approved | Denied

  datatype Decision = Approve | Reject | RequestChanges

  datatype Review = Review(reviewer: string, decision: Decision)

  datatype Promotion = Promotion(
    factId: Id, ns: Id, state: State, proposer: string, reviews: seq<Review>,
    required: int, conflictWith: Option<Id>, idemKey: Option<string>)

  // ---- The audit log ----

  datatype Action =
    | FactProposed | FactSuperseded | FactActivated | FactAutoPromoted | FactRevoked | FactExpired
    | PromotionSubmitted | PromotionApproved | PromotionRejected
    | PromotionChangesRequested | PromotionWithdrawn

  datatype SubjectType = OnFact | OnPromotion

  datatype Label = NoState | OfFact(status: Status) | OfPromotion(state: State)

  datatype Detail =
    | NoDetail
    | ProposedDetail(factId: Id, key: string, conflictWith: Option<Id>)
    | SupersededByDetail(successor: Id)
    | ApprovalsDetail(approvals: nat, required: int)
    | EngineDetail(engine: string, matchedRule: Option<Rule>)

  datatype Event = Event(
    principal: string, action: Action, subjectType: SubjectType, subject: Id,
    fromState: Label, toState: Label, detail: Detail)

  // ---- The database ----

  /** `next` is the source of fresh ids, shared by all tables. */
  datatype Tables = Tables(
    namespaces: map<Id, Namespace>, memberships: set<Membership>,
    facts: map<Id, Fact>, promos: map<Id, Promotion>, log: seq<Event>, next: Id)

  const EMPTY := Tables(map[], {}, map[], map[], [], 0)

  predicate SameSlot(f: Fact, g: Fact) {
    f.ns == g.ns && f.key == g.key
  }

  predicate Rivals(f: Fact, g: Fact) {
    f.status == Active && g.status == Active && SameSlot(f, g)
  }

  /** facts_active_unique */
  predicate SlotUnique(facts: map<Id, Fact>) {
    forall f, g {:trigger Rivals(facts[f], facts[g])} | f in facts && g in facts && Rivals(facts[f], facts[g]) :: f == g
  }

  predicate SameRequest(p: Promotion, q: Promotion) {
    p.idemKey.Some? && p.idemKey == q.idemKey && p.proposer == q.proposer
  }

  /** promotion_requests_idem_unique */
  predicate IdemUnique(promos: map<Id, Promotion>) {
    forall p, q {:trigger SameRequest(promos[p], promos[q])} |
      p in promos && q in promos && SameRequest(promos[p], promos[q]) :: p == q
  }

  predicate RefersTo(ref: Option<Id>, ids: set<Id>) {
    ref.Some? ==> ref.value in ids
  }

  /** The foreign keys of the facts and promotion_requests tables. */
  predicate References(t: Tables) {
    && (forall f {:trigger t.facts[f]} | f in t.facts ::
          && t.facts[f].ns in t.namespaces
          && RefersTo(t.facts[f].supersedes, t.facts.Keys)
          && RefersTo(t.facts[f].supersededBy, t.facts.Keys))
    && (forall p {:trigger t.promos[p]} | p in t.promos ::
          && t.promos[p].factId in t.facts
          && t.promos[p].ns in t.namespaces
          && RefersTo(t.promos[p].conflictWith, t.facts.Keys))
  }

  predicate IdsUsed(t: Tables) {
    && (forall f | f in t.facts :: f < t.next)
    && (forall p | p in t.promos :: p < t.next)
    && (forall n | n in t.namespaces :: n < t.next)
  }

  predicate NamespaceReferences(t: Tables) {
    && (forall n {:trigger t.namespaces[n]} | n in t.namespaces :: RefersTo(t.namespaces[n].parent, t.namespaces.Keys))
    && (forall m | m in t.memberships :: m.ns in t.namespaces)
  }

  /** What every committed state satisfies because the database enforces it. */
  predicate Constraints(t: Tables) {
    SlotUnique(t.facts) && IdemUnique(t.promos) && References(t) && NamespaceReferences(t) && IdsUsed(t)
  }
}
