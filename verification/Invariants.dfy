/** The structural invariants of every reachable state, kept by each of the five changes. */
module Invariants {
  import opened Basics
  import opened Schema
  import opened Workflow

  predicate OnceActive(s: Status) {
    s == Active || s == Superseded || s == Revoked || s == Expired
  }

  /** The statuses a fact may have while its promotion is in the given state. */
  predicate Compatible(s: State, f: Status) {
    match s
    case Pending => f == Proposed
    case Reviewing => f == Proposed || f == InReview
    case ChangesRequested => f == Proposed
    case Approved => OnceActive(f)
    case Denied => f == Rejected
  }

  ghost predicate Drives(promos: map<Id, Promotion>, p: Id, f: Id) {
    p in promos && promos[p].factId == f
  }

  ghost predicate HasDriver(promos: map<Id, Promotion>, f: Id) {
    exists p :: Drives(promos, p, f)
  }

  /** A promotion agrees with its fact; lineage backwards is exactly the recorded conflict. */
  ghost predicate Agrees(facts: map<Id, Fact>, p: Promotion) {
    && p.factId in facts
    && Compatible(p.state, facts[p.factId].status)
    && p.ns == facts[p.factId].ns && p.proposer == facts[p.factId].createdBy
    && facts[p.factId].supersedes == if p.state == Approved then p.conflictWith else None
  }

  /** The recorded conflict is an older fact of the same slot that has been active. */
  ghost predicate ConflictOlder(facts: map<Id, Fact>, p: Promotion) {
    p.conflictWith.Some? && p.factId in facts ==>
      var c := p.conflictWith.value;
      c in facts && c < p.factId && SameSlot(facts[c], facts[p.factId]) && OnceActive(facts[c].status)
  }

  /** Promotions and facts are one-to-one and agree. */
  ghost predicate Paired(t: Tables) {
    && (forall p {:trigger Agrees(t.facts, t.promos[p])} | p in t.promos :: Agrees(t.facts, t.promos[p]))
    && (forall p {:trigger ConflictOlder(t.facts, t.promos[p])} | p in t.promos :: ConflictOlder(t.facts, t.promos[p]))
    && (forall p, q, f | Drives(t.promos, p, f) && Drives(t.promos, q, f) :: p == q)
    && (forall f {:trigger HasDriver(t.promos, f)} | f in t.facts :: HasDriver(t.promos, f))
  }

  /** A superseded fact names a newer fact of its slot that names it back. */
  ghost predicate LineageAt(facts: map<Id, Fact>, a: Id)
    requires a in facts
  {
    && (facts[a].status == Superseded <==> facts[a].supersededBy.Some?)
    && (facts[a].supersededBy.Some? ==>
          var f := facts[a].supersededBy.value;
          && f in facts && a < f && facts[f].supersedes == Some(a)
          && SameSlot(facts[a], facts[f]) && OnceActive(facts[f].status))
  }

  ghost predicate Lineage(facts: map<Id, Fact>) {
    forall a {:trigger LineageAt(facts, a)} | a in facts :: LineageAt(facts, a)
  }

  ghost predicate Core(t: Tables) {
    Constraints(t) && Paired(t) && Lineage(t.facts)
  }

  // ---- Proposing ----

  lemma AddKeepsRequests(t: Tables, input: ProposeInput, key: string, required: int, conflict: Option<Id>)
    requires IdemUnique(t.promos) && !ProposeBlocked(t, input) && t.next + 1 !in t.promos
    ensures IdemUnique(AddProposal(t, input, key, required, conflict).promos)
  {
    var u := AddProposal(t, input, key, required, conflict);
    forall p | p in t.promos
      ensures !SameRequest(u.promos[p], u.promos[t.next + 1]) && !SameRequest(u.promos[t.next + 1], u.promos[p])
    {
      assert input.idemKey != "" ==> !HasIdemKey(t, p, input.proposer, input.idemKey);
    }
    forall p, q | p in u.promos && q in u.promos && SameRequest(u.promos[p], u.promos[q]) ensures p == q {
      assert p in t.promos && q in t.promos ==> SameRequest(t.promos[p], t.promos[q]);
    }
  }

  lemma AddKeepsConstraints(t: Tables, input: ProposeInput, key: string, required: int)
    requires Core(t) && !ProposeBlocked(t, input)
    ensures Constraints(AddProposal(t, input, key, required, ActiveInSlot(t, input.target, key)))
  {
    var conflict := ActiveInSlot(t, input.target, key);
    var u := AddProposal(t, input, key, required, conflict);
    forall f, g | f in u.facts && g in u.facts && Rivals(u.facts[f], u.facts[g]) ensures f == g {
      assert Rivals(t.facts[f], t.facts[g]);
    }
    AddKeepsRequests(t, input, key, required, conflict);
  }

  lemma AddKeepsPaired(t: Tables, input: ProposeInput, key: string, required: int)
    requires Core(t)
    ensures var u := AddProposal(t, input, key, required, ActiveInSlot(t, input.target, key));
            Paired(u)
  {
    var u := AddProposal(t, input, key, required, ActiveInSlot(t, input.target, key));
    forall p | p in u.promos ensures Agrees(u.facts, u.promos[p]) && ConflictOlder(u.facts, u.promos[p]) {
      if p in t.promos {
        assert Agrees(t.facts, t.promos[p]) && ConflictOlder(t.facts, t.promos[p]);
      }
    }
    forall p, q, f | Drives(u.promos, p, f) && Drives(u.promos, q, f) ensures p == q {
      if p in t.promos && q in t.promos {
        assert Drives(t.promos, p, f) && Drives(t.promos, q, f);
      }
    }
    forall f | f in u.facts ensures HasDriver(u.promos, f) {
      if f in t.facts {
        assert HasDriver(t.promos, f);
        var p :| Drives(t.promos, p, f);
        assert Drives(u.promos, p, f);
      } else {
        assert Drives(u.promos, t.next + 1, f);
      }
    }
  }

  lemma AddKeepsLineage(t: Tables, input: ProposeInput, key: string, required: int, conflict: Option<Id>)
    requires Core(t)
    ensures Lineage(AddProposal(t, input, key, required, conflict).facts)
  {
    var u := AddProposal(t, input, key, required, conflict);
    forall a | a in u.facts ensures LineageAt(u.facts, a) {
      assert a in t.facts ==> LineageAt(t.facts, a);
    }
  }

  // ---- Changes to one fact row and one promotion row ----

  /** The promotion keeps its identity and its fact. */
  predicate SamePromotion(p: Promotion, q: Promotion) {
    && p.factId == q.factId && p.ns == q.ns && p.proposer == q.proposer && p.required == q.required
    && p.conflictWith == q.conflictWith && p.idemKey == q.idemKey
  }

  /** The fact keeps its identity. */
  predicate SameFact(f: Fact, g: Fact) {
    f.ns == g.ns && f.subject == g.subject && f.key == g.key && f.createdBy == g.createdBy && f.statement == g.statement
  }

  /** Rows are only updated: same ids, same identities. */
  ghost predicate Updated(t: Tables, u: Tables) {
    && u.facts.Keys == t.facts.Keys && u.promos.Keys == t.promos.Keys && u.next == t.next
    && u.namespaces == t.namespaces && u.memberships == t.memberships
    && (forall f {:trigger SameFact(t.facts[f], u.facts[f])} | f in t.facts :: SameFact(t.facts[f], u.facts[f]))
    && (forall p {:trigger SamePromotion(t.promos[p], u.promos[p])} | p in t.promos ::
          SamePromotion(t.promos[p], u.promos[p]))
  }

  /** What is left to check of the constraints after updates. */
  lemma UpdatedKeepsConstraints(t: Tables, u: Tables)
    requires Constraints(t) && Updated(t, u)
    requires forall f | f in t.facts :: u.facts[f].status == Active ==>
               || t.facts[f].status == Active
               || forall g | g in t.facts && g != f && SameSlot(t.facts[g], t.facts[f]) :: u.facts[g].status != Active
    requires forall f | f in t.facts ::
               RefersTo(u.facts[f].supersedes, t.facts.Keys) && RefersTo(u.facts[f].supersededBy, t.facts.Keys)
    ensures Constraints(u)
  {
    forall f, g | f in u.facts && g in u.facts && Rivals(u.facts[f], u.facts[g]) ensures f == g {
      assert SameFact(t.facts[f], u.facts[f]) && SameFact(t.facts[g], u.facts[g]);
      if t.facts[f].status == Active && t.facts[g].status == Active {
        assert Rivals(t.facts[f], t.facts[g]);
      }
    }
    forall p, q | p in u.promos && q in u.promos && SameRequest(u.promos[p], u.promos[q]) ensures p == q {
      assert SamePromotion(t.promos[p], u.promos[p]) && SamePromotion(t.promos[q], u.promos[q]);
      assert SameRequest(t.promos[p], t.promos[q]);
    }
    forall p | p in u.promos
      ensures u.promos[p].factId in u.facts && u.promos[p].ns in u.namespaces
          && RefersTo(u.promos[p].conflictWith, u.facts.Keys)
    {
      assert SamePromotion(t.promos[p], u.promos[p]);
    }
    forall f | f in u.facts ensures u.facts[f].ns in u.namespaces {
      assert SameFact(t.facts[f], u.facts[f]);
    }
  }

  lemma UpdatedKeepsPairs(t: Tables, u: Tables)
    requires Paired(t) && Updated(t, u)
    requires forall p | p in t.promos :: Agrees(u.facts, u.promos[p])
    requires forall f | f in t.facts && OnceActive(t.facts[f].status) :: OnceActive(u.facts[f].status)
    ensures Paired(u)
  {
    forall p | p in u.promos ensures ConflictOlder(u.facts, u.promos[p]) {
      assert SamePromotion(t.promos[p], u.promos[p]);
      assert ConflictOlder(t.facts, t.promos[p]) && Agrees(t.facts, t.promos[p]);
      assert SameFact(t.facts[t.promos[p].factId], u.facts[t.promos[p].factId]);
      if u.promos[p].conflictWith.Some? {
        var c := u.promos[p].conflictWith.value;
        assert SameFact(t.facts[c], u.facts[c]);
      }
    }
    forall p, f | Drives(u.promos, p, f) ensures Drives(t.promos, p, f) {
      assert SamePromotion(t.promos[p], u.promos[p]);
    }
    forall f | f in u.facts ensures HasDriver(u.promos, f) {
      assert HasDriver(t.promos, f);
      var p :| Drives(t.promos, p, f);
      assert SamePromotion(t.promos[p], u.promos[p]);
      assert Drives(u.promos, p, f);
    }
  }

  /** Distinct promotions have distinct facts. */
  lemma OneToOne(t: Tables, p: Id, q: Id)
    requires Paired(t) && p in t.promos && q in t.promos && p != q
    ensures t.promos[p].factId != t.promos[q].factId
  {
    assert Drives(t.promos, p, t.promos[p].factId) && Drives(t.promos, q, t.promos[q].factId);
  }

  lemma MoveKeepsAgreement(t: Tables, p: Id, to: State, reviews: seq<Review>, factTo: Status, principal: string,
                           action: Action)
    requires Paired(t) && p in t.promos
    requires t.promos[p].state != Approved && to != Approved && Compatible(to, factTo)
    ensures t.promos[p].factId in t.facts
    ensures var u := Move(t, p, to, reviews, factTo, principal, action);
            Updated(t, u) && forall q | q in t.promos :: Agrees(u.facts, u.promos[q])
  {
    assert Agrees(t.facts, t.promos[p]);
    var u := Move(t, p, to, reviews, factTo, principal, action);
    forall q | q in t.promos ensures Agrees(u.facts, u.promos[q]) {
      assert Agrees(t.facts, t.promos[q]);
      if q != p {
        OneToOne(t, p, q);
      }
    }
  }

  lemma MoveKeepsConstraints(t: Tables, p: Id, to: State, reviews: seq<Review>, factTo: Status, principal: string,
                             action: Action)
    requires Constraints(t) && p in t.promos && factTo != Active
    ensures var u := Move(t, p, to, reviews, factTo, principal, action);
            Updated(t, u) ==> Constraints(u)
  {
    var u := Move(t, p, to, reviews, factTo, principal, action);
    if Updated(t, u) {
      UpdatedKeepsConstraints(t, u);
    }
  }

  lemma MoveKeepsLineage(t: Tables, p: Id, to: State, reviews: seq<Review>, factTo: Status, principal: string,
                         action: Action)
    requires Paired(t) && Lineage(t.facts) && p in t.promos
    requires t.promos[p].state != Approved && to != Approved && Compatible(to, factTo)
    ensures t.promos[p].factId in t.facts
    ensures var u := Move(t, p, to, reviews, factTo, principal, action);
            && Lineage(u.facts)
            && forall f | f in t.facts && OnceActive(t.facts[f].status) :: OnceActive(u.facts[f].status)
  {
    assert Agrees(t.facts, t.promos[p]);
    var u := Move(t, p, to, reviews, factTo, principal, action);
    forall a | a in u.facts ensures LineageAt(u.facts, a) {
      assert LineageAt(t.facts, a);
    }
  }

  /** A promotion and its fact move to a compatible pair short of activation. */
  lemma MoveKeeps(t: Tables, p: Id, to: State, reviews: seq<Review>, factTo: Status, principal: string, action: Action)
    requires Core(t) && p in t.promos
    requires t.promos[p].state != Approved && to != Approved && Compatible(to, factTo)
    ensures Core(Move(t, p, to, reviews, factTo, principal, action))
  {
    var u := Move(t, p, to, reviews, factTo, principal, action);
    MoveKeepsAgreement(t, p, to, reviews, factTo, principal, action);
    MoveKeepsConstraints(t, p, to, reviews, factTo, principal, action);
    MoveKeepsLineage(t, p, to, reviews, factTo, principal, action);
    UpdatedKeepsPairs(t, u);
  }

  lemma RecordKeeps(t: Tables, p: Id, reviews: seq<Review>, reviewer: string)
    requires Core(t) && p in t.promos && Open(t.promos[p].state)
    ensures Core(RecordApproval(t, p, reviews, reviewer))
  {
    var u := RecordApproval(t, p, reviews, reviewer);
    forall q | q in t.promos ensures Agrees(u.facts, u.promos[q]) {
      assert Agrees(t.facts, t.promos[q]);
    }
    assert Updated(t, u);
    UpdatedKeepsConstraints(t, u);
    UpdatedKeepsPairs(t, u);
  }

  lemma LeaveUpdates(t: Tables, f: Id, to: Status, principal: string, action: Action)
    requires Paired(t) && f in t.facts && t.facts[f].status == Active && (to == Revoked || to == Expired)
    ensures var u := Leave(t, f, to, principal, action);
            Updated(t, u) && forall q | q in t.promos :: Agrees(u.facts, u.promos[q])
  {
    var u := Leave(t, f, to, principal, action);
    forall q | q in t.promos ensures Agrees(u.facts, u.promos[q]) {
      assert Agrees(t.facts, t.promos[q]);
    }
  }

  lemma LeaveKeepsLineage(t: Tables, f: Id, to: Status, principal: string, action: Action)
    requires Lineage(t.facts) && f in t.facts && t.facts[f].status == Active && (to == Revoked || to == Expired)
    ensures Lineage(Leave(t, f, to, principal, action).facts)
  {
    var u := Leave(t, f, to, principal, action);
    forall a | a in u.facts ensures LineageAt(u.facts, a) {
      assert LineageAt(t.facts, a);
      assert LineageAt(t.facts, f);
    }
  }

  lemma LeaveKeeps(t: Tables, f: Id, to: Status, principal: string, action: Action)
    requires Core(t) && f in t.facts && t.facts[f].status == Active && (to == Revoked || to == Expired)
    ensures Core(Leave(t, f, to, principal, action))
  {
    var u := Leave(t, f, to, principal, action);
    LeaveUpdates(t, f, to, principal, action);
    LeaveKeepsLineage(t, f, to, principal, action);
    UpdatedKeepsConstraints(t, u);
    UpdatedKeepsPairs(t, u);
  }

  // ---- Activation ----

  lemma ActivateUpdates(t: Tables, p: Id, a: Actor, now: int, embedOk: bool)
    requires PromoRefs(t, p)
    ensures Updated(t, Activate(t, p, a, now, embedOk))
  {
  }

  /** The rows of an activation: the promoted fact, the conflict, and nothing else. */
  lemma ActivateRows(t: Tables, p: Id, a: Actor, now: int, embedOk: bool)
    requires Paired(t) && p in t.promos
    ensures PromoRefs(t, p) && Activated(t, Activate(t, p, a, now, embedOk), p)
  {
    assert Agrees(t.facts, t.promos[p]) && ConflictOlder(t.facts, t.promos[p]);
    ActivateUpdates(t, p, a, now, embedOk);
  }

  ghost predicate Activated(t: Tables, u: Tables, p: Id)
    requires PromoRefs(t, p)
  {
    var f, c := t.promos[p].factId, t.promos[p].conflictWith;
    && Updated(t, u)
    && u.facts[f].status == Active && u.facts[f].supersededBy == t.facts[f].supersededBy
    && u.facts[f].supersedes == (if c.Some? then c else t.facts[f].supersedes)
    && (c.Some? ==>
          && c.value != f
          && u.facts[c.value] == WithStatus(t.facts[c.value], Superseded).(supersededBy := Some(f)))
    && (forall g | g in t.facts && g != f && c != Some(g) :: u.facts[g] == t.facts[g])
  }

  lemma ActivateKeepsLineage(t: Tables, p: Id, a: Actor, now: int, embedOk: bool)
    requires Paired(t) && Lineage(t.facts) && p in t.promos && t.promos[p].state != Approved
    requires PromoRefs(t, p)
    ensures Lineage(Activate(t, p, a, now, embedOk).facts)
  {
    ActivateRows(t, p, a, now, embedOk);
    assert Agrees(t.facts, t.promos[p]);
    var u := Activate(t, p, a, now, embedOk);
    forall b | b in t.facts ensures LineageAt(u.facts, b) {
      ActivateKeepsLineageAt(t, p, u, b);
    }
  }

  lemma ActivateKeepsLineageAt(t: Tables, p: Id, u: Tables, b: Id)
    requires Paired(t) && Lineage(t.facts) && PromoRefs(t, p) && t.promos[p].state != Approved
    requires Activated(t, u, p) && b in t.facts
    ensures LineageAt(u.facts, b)
  {
    var f := t.promos[p].factId;
    assert Agrees(t.facts, t.promos[p]) && ConflictOlder(t.facts, t.promos[p]);
    assert LineageAt(t.facts, f) && LineageAt(t.facts, b);
    assert SameFact(t.facts[b], u.facts[b]) && SameFact(t.facts[f], u.facts[f]);
    if t.facts[b].supersededBy.Some? {
      var g := t.facts[b].supersededBy.value;
      assert SameFact(t.facts[g], u.facts[g]);
      assert g != f;
    }
  }

  lemma ActivateKeepsAgreement(t: Tables, p: Id, a: Actor, now: int, embedOk: bool)
    requires Paired(t) && p in t.promos && t.promos[p].state != Approved
    requires PromoRefs(t, p)
    ensures var u := Activate(t, p, a, now, embedOk);
            forall q | q in t.promos :: Agrees(u.facts, u.promos[q])
  {
    ActivateRows(t, p, a, now, embedOk);
    var u := Activate(t, p, a, now, embedOk);
    assert Agrees(t.facts, t.promos[p]) && ConflictOlder(t.facts, t.promos[p]);
    forall q | q in t.promos ensures Agrees(u.facts, u.promos[q]) {
      assert Agrees(t.facts, t.promos[q]);
      assert SameFact(t.facts[t.promos[q].factId], u.facts[t.promos[q].factId]);
      if q != p {
        OneToOne(t, p, q);
      }
    }
  }

  lemma ActivateKeepsConstraints(t: Tables, p: Id, u: Tables)
    requires Constraints(t) && PromoRefs(t, p) && SlotOpen(t, t.promos[p]) && Activated(t, u, p)
    ensures Constraints(u)
  {
    UpdatedKeepsConstraints(t, u);
  }

  lemma ActivateKeepsOnceActive(t: Tables, p: Id, u: Tables)
    requires PromoRefs(t, p) && Activated(t, u, p)
    ensures forall g | g in t.facts && OnceActive(t.facts[g].status) :: OnceActive(u.facts[g].status)
  {
  }

  lemma ActivateKeeps(t: Tables, p: Id, a: Actor, now: int, embedOk: bool)
    requires Core(t) && p in t.promos && t.promos[p].state != Approved
    requires PromoRefs(t, p)
    requires SlotOpen(t, t.promos[p])
    ensures Core(Activate(t, p, a, now, embedOk))
  {
    ActivateRows(t, p, a, now, embedOk);
    var u := Activate(t, p, a, now, embedOk);
    ActivateKeepsAgreement(t, p, a, now, embedOk);
    ActivateKeepsConstraints(t, p, u);
    ActivateKeepsOnceActive(t, p, u);
    UpdatedKeepsPairs(t, u);
    ActivateKeepsLineage(t, p, a, now, embedOk);
  }

  // ---- The operator's and the registries' changes ----

  /** Facts differ only in their embedding flag and validity; promotions and log are the same. */
  ghost predicate Cosmetic(t: Tables, u: Tables) {
    && u.facts.Keys == t.facts.Keys
    && (forall f | f in t.facts ::
          u.facts[f] == t.facts[f].(embedded := u.facts[f].embedded, validTo := u.facts[f].validTo))
    && u.promos == t.promos && u.log == t.log
    && t.namespaces.Keys <= u.namespaces.Keys && t.next <= u.next
    && NamespaceReferences(u) && forall n | n in u.namespaces :: n < u.next
  }

  lemma CosmeticKeepsConstraints(t: Tables, u: Tables)
    requires Constraints(t) && Cosmetic(t, u)
    ensures Constraints(u)
  {
    forall f, g | f in u.facts && g in u.facts && Rivals(u.facts[f], u.facts[g]) ensures f == g {
      assert Rivals(t.facts[f], t.facts[g]);
    }
  }

  lemma CosmeticKeepsPairs(t: Tables, u: Tables)
    requires Paired(t) && Cosmetic(t, u)
    ensures Paired(u)
  {
    forall p | p in u.promos ensures Agrees(u.facts, u.promos[p]) && ConflictOlder(u.facts, u.promos[p]) {
      assert Agrees(t.facts, t.promos[p]) && ConflictOlder(t.facts, t.promos[p]);
    }
    forall f | f in u.facts ensures HasDriver(u.promos, f) {
      assert HasDriver(t.promos, f);
    }
  }

  lemma CosmeticKeeps(t: Tables, u: Tables)
    requires Core(t) && Cosmetic(t, u)
    ensures Core(u)
  {
    CosmeticKeepsConstraints(t, u);
    CosmeticKeepsPairs(t, u);
    forall a | a in u.facts ensures LineageAt(u.facts, a) {
      assert LineageAt(t.facts, a);
    }
  }
}
