/** What a step may do to a fact, and what stays true of it for the rest of any run. */
module History {
  import opened Basics
  import opened Subjects
  import opened Autopromote
  import opened Schema
  import opened Reviews
  import opened Workflow
  import opened Maintenance
  import opened Invariants
  import opened Runs
  import opened Lifecycle

  // ---- One step of one fact ----

  /** The governed part of a fact row: all but its embedding flag and its validity. */
  function Governed(f: Fact): Fact {
    f.(embedded := false, validTo := None)
  }

  /** The step is an approval that activates a promotion whose recorded conflict is this fact. */
  ghost predicate Supersedes(t: Tables, s: Step, f: Id) {
    && s.ApproveBy? && Reaches(t, s.p, s.principal)
    && t.promos[s.p].conflictWith == Some(f)
    && t.promos[s.p].factId in t.facts && SlotOpen(t, t.promos[s.p])
  }

  ghost predicate EdgeOk(t: Tables, u: Tables, f: Id)
    requires f in t.facts
  {
    && f in u.facts && SameFact(t.facts[f], u.facts[f])
    && (Governed(u.facts[f]) == Governed(t.facts[f])
        || (u.facts[f].version == t.facts[f].version + 1
            && (u.facts[f].status == t.facts[f].status ==>
                  u.facts[f].status == Proposed || u.facts[f].status == Superseded)
            && (u.facts[f].status != t.facts[f].status ==>
                  TableEdge(t.facts[f].status, u.facts[f].status) || ExtraEdge(t.facts[f].status, u.facts[f].status))))
  }

  lemma MoveEdges(t: Tables, p: Id, to: State, reviews: seq<Review>, factTo: Status, principal: string,
                  action: Action, f: Id)
    requires Sound(t) && p in t.promos && t.promos[p].factId in t.facts && f in t.facts
    requires MayMove(t.promos[p].state, factTo)
    ensures EdgeOk(t, Move(t, p, to, reviews, factTo, principal, action), f)
    ensures IsTerminal(t.facts[f].status) ==> Move(t, p, to, reviews, factTo, principal, action).facts[f] == t.facts[f]
  {
    assert Agrees(t.facts, t.promos[p]);
    TableEdges(t.facts[f].status, factTo);
  }

  /** The fact statuses a promotion's fact may be moved to from the given state, short of activation. */
  predicate MayMove(from: State, factTo: Status) {
    match from
    case Pending => factTo in {InReview, Rejected, Proposed}
    case Reviewing => factTo in {Rejected, Proposed}
    case ChangesRequested => factTo in {InReview, Rejected}
    case _ => false
  }

  predicate IsMove(s: Step) {
    s.Submit? || s.Withdraw? || s.RejectBy? || s.RequestChangesBy?
  }

  function MoveDecision(s: Step): Decision {
    if s.RejectBy? then Schema.Reject else Schema.RequestChanges
  }

  /** Submitting, withdrawing, rejecting and requesting changes are one kind of change. */
  lemma MoveStep(engines: Option<Registry>, t: Tables, s: Step)
    returns (to: State, reviews: seq<Review>, factTo: Status, action: Action)
    requires References(t) && IsMove(s)
    ensures Next(engines, t, s) == t ||
            (&& s.p in t.promos && t.promos[s.p].factId in t.facts
             && MayMove(t.promos[s.p].state, factTo)
             && to != t.promos[s.p].state && t.promos[s.p].reviews <= reviews
             && (forall r | r in reviews && r !in t.promos[s.p].reviews :: r == Review(s.principal, MoveDecision(s)))
             && (s.Submit? || s.Withdraw? ==> reviews == t.promos[s.p].reviews)
             && Next(engines, t, s) == Move(t, s.p, to, reviews, factTo, s.principal, action))
  {
    reviews := if s.p in t.promos then t.promos[s.p].reviews else [];
    match s
    case Submit(_, _) => to, factTo, action := Reviewing, InReview, PromotionSubmitted;
    case Withdraw(_, _) => to, factTo, action := Denied, Rejected, PromotionWithdrawn;
    case RejectBy(p, r) =>
      to, factTo, action := Denied, Rejected, PromotionRejected;
      reviews := reviews + [Review(r, Schema.Reject)];
    case RequestChangesBy(p, r) =>
      to, factTo, action := ChangesRequested, Proposed, PromotionChangesRequested;
      reviews := reviews + [Review(r, Schema.RequestChanges)];
  }

  lemma ActivateEdge(t: Tables, p: Id, a: Actor, now: int, embedOk: bool)
    requires Sound(t) && PromoRefs(t, p) && Open(t.promos[p].state)
    ensures EdgeOk(t, Activate(t, p, a, now, embedOk), t.promos[p].factId)
    ensures !IsTerminal(t.facts[t.promos[p].factId].status)
  {
    assert Agrees(t.facts, t.promos[p]) && ConflictOlder(t.facts, t.promos[p]);
    var f := t.promos[p].factId;
    assert Activate(t, p, a, now, embedOk).facts[f].version == t.facts[f].version + 1;
    TableEdges(t.facts[f].status, Active);
  }

  lemma ActivateEdges(t: Tables, p: Id, a: Actor, now: int, embedOk: bool, f: Id)
    requires Sound(t) && PromoRefs(t, p) && Open(t.promos[p].state) && f in t.facts
    ensures var u := Activate(t, p, a, now, embedOk);
            && EdgeOk(t, u, f)
            && (IsTerminal(t.facts[f].status) && t.promos[p].conflictWith != Some(f) ==> u.facts[f] == t.facts[f])
            && (t.promos[p].conflictWith == Some(f) ==>
                  t.facts[f].status != Rejected && u.facts[f].version == t.facts[f].version + 1)
  {
    ActivateEdge(t, p, a, now, embedOk);
    ActivateRows(t, p, a, now, embedOk);
    if f != t.promos[p].factId {
      OtherEdge(t, Activate(t, p, a, now, embedOk), p, f);
    }
  }

  lemma OtherEdge(t: Tables, u: Tables, p: Id, f: Id)
    requires Paired(t) && PromoRefs(t, p) && Activated(t, u, p) && f in t.facts && f != t.promos[p].factId
    ensures EdgeOk(t, u, f)
    ensures t.promos[p].conflictWith != Some(f) ==> u.facts[f] == t.facts[f]
    ensures t.promos[p].conflictWith == Some(f) ==>
              t.facts[f].status != Rejected && u.facts[f].version == t.facts[f].version + 1
  {
    if t.promos[p].conflictWith == Some(f) {
      assert ConflictOlder(t.facts, t.promos[p]);
      TableEdges(t.facts[f].status, Superseded);
    }
  }

  lemma ProposeEdges(engines: Option<Registry>, t: Tables, input: ProposeInput, key: string, terms: Terms, now: int,
                     embedOk: bool, f: Id)
    requires Sound(t) && f in t.facts
    ensures var u := ProposeKeyed(engines, t, input, key, terms, now, embedOk).0;
            EdgeOk(t, u, f) && (t.facts[f].status != Active ==> u.facts[f] == t.facts[f])
  {
    var actor := AutoActor(engines, terms.autoPromote, input);
    if !ProposeBlocked(t, input) && actor.Some? {
      AutoProposalEdges(t, input, key, terms, WithProposal(t, input, key, terms), actor.value, now, embedOk, f);
    }
  }

  lemma AutoProposalEdges(t: Tables, input: ProposeInput, key: string, terms: Terms, v: Tables, a: Actor, now: int,
                          embedOk: bool, f: Id)
    requires Sound(t) && !ProposeBlocked(t, input) && a.Automatic? && f in t.facts
    requires v == WithProposal(t, input, key, terms)
    ensures PromoRefs(v, t.next + 1)
    ensures var u := Activate(v, t.next + 1, a, now, embedOk);
            EdgeOk(t, u, f) && (t.facts[f].status != Active ==> u.facts[f] == t.facts[f])
  {
    AddSound(t, input, key, terms);
    AutoEdges(t, v, t.next + 1, a, now, embedOk, f);
  }

  lemma AutoEdges(t: Tables, v: Tables, p: Id, a: Actor, now: int, embedOk: bool, f: Id)
    requires Sound(v) && PromoRefs(v, p) && Open(v.promos[p].state) && SlotOpen(v, v.promos[p])
    requires f in t.facts && f in v.facts && v.facts[f] == t.facts[f] && f != v.promos[p].factId
    requires v.promos[p].conflictWith == Some(f) ==> t.facts[f].status == Active
    ensures var u := Activate(v, p, a, now, embedOk);
            EdgeOk(t, u, f) && (t.facts[f].status != Active ==> u.facts[f] == t.facts[f])
  {
    ActivateEdges(v, p, a, now, embedOk, f);
    ActivateRows(v, p, a, now, embedOk);
  }

  /**
   * Every status change a step commits is an edge of the table or one of the extra edges, and
   * raises the version by one; a fact no status change touches keeps its whole governed row,
   * except for the proposed and superseded facts that are proposed or superseded again.
   */
  lemma StepEdges(engines: Option<Registry>, t: Tables, s: Step, f: Id)
    requires Sound(t) && f in t.facts
    ensures EdgeOk(t, Next(engines, t, s), f)
  {
    if IsMove(s) {
      MoveStepEdges(engines, t, s, f);
    } else if s.RevokeFact? || s.Reap? {
      LeaveStepEdges(engines, t, s, f);
    } else if s.Propose? {
      ProposeEdges(engines, t, s.input, KeyOf(s.input.subject), s.terms, s.now, s.embedOk, f);
    } else if s.ApproveBy? {
      ApproveEdges(t, s.p, s.principal, s.now, s.embedOk, f);
    } else {
      RegistryCosmetic(engines, t, s);
    }
  }

  lemma MoveStepEdges(engines: Option<Registry>, t: Tables, s: Step, f: Id)
    requires Sound(t) && f in t.facts && IsMove(s)
    ensures EdgeOk(t, Next(engines, t, s), f)
    ensures IsTerminal(t.facts[f].status) ==> Next(engines, t, s).facts[f] == t.facts[f]
  {
    var to, reviews, factTo, action := MoveStep(engines, t, s);
    if Next(engines, t, s) != t {
      MoveEdges(t, s.p, to, reviews, factTo, s.principal, action, f);
    }
  }

  lemma LeaveStepEdges(engines: Option<Registry>, t: Tables, s: Step, f: Id)
    requires References(t) && f in t.facts && (s.RevokeFact? || s.Reap?)
    ensures EdgeOk(t, Next(engines, t, s), f)
    ensures t.facts[f].status != Active ==> Next(engines, t, s).facts[f] == t.facts[f]
  {
    if s.RevokeFact? {
      LeaveEdge(t, RevokeTx(t, s.f, s.version, s.principal).0, f, Revoked);
    } else if Enumerates(s.order, DueIds(t, s.now)) {
      ExpireAllFacts(t, s.order);
      LeaveEdge(t, ExpireAll(t, s.order), f, Expired);
    }
  }

  lemma LeaveEdge(t: Tables, u: Tables, f: Id, to: Status)
    requires f in t.facts && f in u.facts && (to == Revoked || to == Expired)
    requires u.facts[f] == t.facts[f] || (t.facts[f].status == Active && u.facts[f] == WithStatus(t.facts[f], to))
    ensures EdgeOk(t, u, f) && (t.facts[f].status != Active ==> u.facts[f] == t.facts[f])
  {
    TableEdges(Active, to);
  }

  lemma ApproveEdges(t: Tables, p: Id, reviewer: string, now: int, embedOk: bool, f: Id)
    requires Sound(t) && f in t.facts
    ensures var u := ApproveTx(t, p, reviewer, now, embedOk).0;
            && EdgeOk(t, u, f)
            && (IsTerminal(t.facts[f].status) ==>
                  (Governed(u.facts[f]) != Governed(t.facts[f]) <==>
                     Supersedes(t, ApproveBy(p, reviewer, now, embedOk), f)))
  {
    if Reaches(t, p, reviewer) && SlotOpen(t, t.promos[p]) {
      ActivateEdges(t, p, Reviewed(WithApproval(t.promos[p], reviewer), reviewer), now, embedOk, f);
    }
  }

  /**
   * "Terminal states never change" is false of the code. This is exactly when a step changes the
   * governed row of a terminal fact: an approval activates a promotion that recorded the fact as
   * its conflict while it was still active.
   */
  lemma TerminalChanges(engines: Option<Registry>, t: Tables, s: Step, f: Id)
    requires Sound(t) && f in t.facts && IsTerminal(t.facts[f].status)
    ensures f in Next(engines, t, s).facts
    ensures Governed(Next(engines, t, s).facts[f]) != Governed(t.facts[f]) <==> Supersedes(t, s, f)
  {
    if IsMove(s) {
      MoveStepEdges(engines, t, s, f);
    } else if s.RevokeFact? || s.Reap? {
      LeaveStepEdges(engines, t, s, f);
    } else if s.Propose? {
      ProposeEdges(engines, t, s.input, KeyOf(s.input.subject), s.terms, s.now, s.embedOk, f);
    } else if s.ApproveBy? {
      ApproveEdges(t, s.p, s.principal, s.now, s.embedOk, f);
    } else {
      RegistryCosmetic(engines, t, s);
    }
  }

  // ---- Lineage ----

  /** The pointers of f and a name each other. */
  ghost predicate TwoWay(t: Tables, f: Id, a: Id) {
    f in t.facts && a in t.facts && t.facts[f].supersedes == Some(a) && t.facts[a].supersededBy == Some(f)
  }

  /** One side of the lineage always holds: a superseded fact and its successor name each other. */
  lemma SuccessorNamesBack(t: Tables, a: Id)
    requires Sound(t) && a in t.facts
    ensures t.facts[a].status == Superseded <==> t.facts[a].supersededBy.Some?
    ensures t.facts[a].supersededBy.Some? ==>
              var f := t.facts[a].supersededBy.value;
              TwoWay(t, f, a) && a < f && SameSlot(t.facts[a], t.facts[f])
  {
    assert LineageAt(t.facts, a);
  }

  /** Chains never merge: a fact is the successor of at most one fact. */
  lemma ChainsNeverMerge(t: Tables, a: Id, b: Id)
    requires Sound(t) && a in t.facts && b in t.facts
    requires t.facts[a].supersededBy.Some? && t.facts[a].supersededBy == t.facts[b].supersededBy
    ensures a == b
  {
    assert LineageAt(t.facts, a) && LineageAt(t.facts, b);
  }

  /** Following superseded_by from any fact ends. */
  ghost function ChainEnd(t: Tables, a: Id): (end: Id)
    requires Sound(t) && a in t.facts
    ensures end in t.facts && SameSlot(t.facts[a], t.facts[end]) && t.facts[end].status != Superseded
    ensures t.facts[a].status == Superseded ==> t.facts[end].status in {Active, Revoked, Expired}
    decreases t.next - a
  {
    assert LineageAt(t.facts, a);
    if t.facts[a].supersededBy.None? then a
    else
      var f := t.facts[a].supersededBy.value;
      assert LineageAt(t.facts, f);
      ChainEnd(t, f)
  }

  /**
   * The other side, "F.supersedes = A implies A.superseded_by = F", is false over long runs. Once
   * it holds, exactly one kind of step breaks it: another promotion with conflict A is activated.
   */
  lemma TwoWayBroken(engines: Option<Registry>, t: Tables, s: Step, f: Id, a: Id)
    requires Sound(t) && TwoWay(t, f, a)
    ensures TwoWay(Next(engines, t, s), f, a) <==> !Supersedes(t, s, a)
  {
    assert LineageAt(t.facts, a);
    TerminalChanges(engines, t, s, a);
    StepEdges(engines, t, s, f);
    if Supersedes(t, s, a) {
      SupersedesRelinks(engines, t, s, a);
      assert Agrees(t.facts, t.promos[s.p]);
    } else {
      StepSound(engines, t, s);
      assert LineageAt(Next(engines, t, s).facts, a);
    }
  }

  lemma SupersedesRelinks(engines: Option<Registry>, t: Tables, s: Step, a: Id)
    requires Sound(t) && a in t.facts && Supersedes(t, s, a)
    ensures a in Next(engines, t, s).facts && Next(engines, t, s).facts[a].supersededBy == Some(t.promos[s.p].factId)
  {
  }

  // ---- Approval as a compare-and-swap on the slot ----

  /**
   * An approval that reaches the threshold commits exactly when the slot holds no active fact or
   * the one recorded as the conflict; otherwise nothing changes, the reviews included.
   */
  lemma ApproveSwaps(t: Tables, p: Id, reviewer: string, now: int, embedOk: bool)
    requires Sound(t) && Reaches(t, p, reviewer)
    ensures t.promos[p].factId in t.facts
    ensures var (u, r) := ApproveTx(t, p, reviewer, now, embedOk);
            var f := t.facts[t.promos[p].factId];
            var holder := ActiveInSlot(t, f.ns, f.key);
            && (r.Ok? <==> holder.None? || holder == t.promos[p].conflictWith)
            && (r.Ok? ==> ActiveInSlot(u, f.ns, f.key) == Some(t.promos[p].factId))
            && (!r.Ok? ==> u == t && r == Err(Aborted))
  {
    var promo := t.promos[p];
    assert Agrees(t.facts, promo);
    var f := t.facts[promo.factId];
    var holder := ActiveInSlot(t, f.ns, f.key);
    forall g | g in t.facts && t.facts[g].status == Active && SameSlot(t.facts[g], f) ensures holder == Some(g) {
      assert ActiveAt(t, g, f.ns, f.key);
      assert Rivals(t.facts[g], t.facts[holder.value]);
    }
    assert SlotOpen(t, promo) <==> holder.None? || holder == promo.conflictWith;
    if SlotOpen(t, promo) {
      var actor := Reviewed(WithApproval(promo, reviewer), reviewer);
      var u := Activate(t, p, actor, now, embedOk);
      ActivateRows(t, p, actor, now, embedOk);
      ApproveSound(t, p, reviewer, now, embedOk);
      assert SameFact(f, u.facts[promo.factId]);
      assert ActiveAt(u, promo.factId, f.ns, f.key);
      assert Rivals(u.facts[promo.factId], u.facts[ActiveInSlot(u, f.ns, f.key).value]);
    }
  }

  // ---- Auto-promotion ----

  /** The propose transaction stopped at human review. */
  ghost predicate LeftPending(t: Tables, u: Tables, p: Id) {
    && p in u.promos && u.promos[p].factId in u.facts
    && u.promos[p].state == Pending && u.facts[u.promos[p].factId].status == Proposed
    && u.facts[u.promos[p].factId].supersedes == None
    && |u.log| == |t.log| + 1 && u.log == t.log + [u.log[|t.log|]]
    && forall g | g in t.facts :: g in u.facts && u.facts[g] == t.facts[g]
  }

  /** The propose transaction activated the fact at once. */
  ghost predicate AutoPromoted(t: Tables, u: Tables, p: Id, a: Actor) {
    && a.Automatic? && p in u.promos && u.promos[p].factId in u.facts
    && var f, conflict := u.promos[p].factId, u.promos[p].conflictWith;
    && u.promos[p].state == Approved && u.facts[f].status == Active && "auto:true" in u.facts[f].tags
    && u.facts[f].supersedes == conflict
    && (conflict.Some? ==> TwoWay(u, f, conflict.value) && u.facts[conflict.value].status == Superseded)
    && (forall g | g in t.facts && conflict != Some(g) :: g in u.facts && u.facts[g] == t.facts[g])
    && |u.log| > |t.log|
    && u.log == t.log + [u.log[|t.log|]] + SupersededEvents(u.promos[p], EnginePrincipal(a.engine))
         + [Event(EnginePrincipal(a.engine), FactAutoPromoted, OnFact, f, NoState, OfFact(Active),
                  EngineDetail(a.engine, a.rule))]
  }

  lemma ActivationIsAutoPromotion(t: Tables, v: Tables, p: Id, a: Actor, now: int, embedOk: bool)
    requires Paired(v) && PromoRefs(v, p) && a.Automatic? && LeftPending(t, v, p) && v.promos[p].factId !in t.facts
    ensures AutoPromoted(t, Activate(v, p, a, now, embedOk), p, a)
  {
    ActivateRows(v, p, a, now, embedOk);
    var u := Activate(v, p, a, now, embedOk);
    assert u.log
        == v.log + SupersededEvents(v.promos[p], EnginePrincipal(a.engine)) + ActivatedEvents(p, v.promos[p], a);
  }

  /** Exactly one fact and one promotion are new, for this slot and with its holder as the conflict. */
  ghost predicate OneProposal(t: Tables, u: Tables, p: Id, input: ProposeInput, key: string) {
    && p in u.promos && p !in t.promos && u.promos == t.promos[p := u.promos[p]]
    && u.promos[p].conflictWith == ActiveInSlot(t, input.target, key)
    && var f := u.promos[p].factId;
    && f !in t.facts && u.facts.Keys == t.facts.Keys + {f}
    && u.facts[f].ns == input.target && u.facts[f].key == key && u.facts[f].subject == input.subject
  }

  lemma AddedProposal(t: Tables, input: ProposeInput, key: string, terms: Terms)
    requires Sound(t)
    ensures var v := WithProposal(t, input, key, terms);
            OneProposal(t, v, t.next + 1, input, key) && LeftPending(t, v, t.next + 1)
  {
  }

  lemma ActivationAddsNothing(t: Tables, v: Tables, p: Id, input: ProposeInput, key: string, a: Actor, now: int,
                              embedOk: bool)
    requires Paired(v) && PromoRefs(v, p) && OneProposal(t, v, p, input, key)
    ensures OneProposal(t, Activate(v, p, a, now, embedOk), p, input, key)
  {
  }

  lemma AddedCore(t: Tables, input: ProposeInput, key: string, terms: Terms)
    requires Sound(t) && !ProposeBlocked(t, input)
    ensures var v := WithProposal(t, input, key, terms);
            Core(v) && PromoRefs(v, t.next + 1)
  {
    AddSound(t, input, key, terms);
  }

  lemma AutoProposal(t: Tables, v: Tables, p: Id, input: ProposeInput, key: string, a: Actor, now: int, embedOk: bool)
    requires Paired(v) && PromoRefs(v, p) && a.Automatic? && OneProposal(t, v, p, input, key) && LeftPending(t, v, p)
    ensures var u := Activate(v, p, a, now, embedOk);
            OneProposal(t, u, p, input, key) && AutoPromoted(t, u, p, a)
  {
    ActivationAddsNothing(t, v, p, input, key, a, now, embedOk);
    ActivationIsAutoPromotion(t, v, p, a, now, embedOk);
  }

  /**
   * All or nothing: a committed propose adds one promotion and one fact, and then either leaves
   * both for review and touches no other fact, or approves at once: the fact is active with its
   * tag, the conflict (and only it) superseded, and the log gains one engine-attributed event.
   */
  lemma AutoPromotionAllOrNothing(engines: Option<Registry>, t: Tables, input: ProposeInput, key: string, terms: Terms,
                                  now: int, embedOk: bool)
    requires Sound(t) && !ProposeBlocked(t, input)
    ensures var (u, r) := ProposeKeyed(engines, t, input, key, terms, now, embedOk);
            && r.Ok? && OneProposal(t, u, r.id, input, key) && r.promo == u.promos[r.id]
            && var actor := AutoActor(engines, terms.autoPromote, input);
            if actor.None? then LeftPending(t, u, r.id) else AutoPromoted(t, u, r.id, actor.value)
  {
    var actor := AutoActor(engines, terms.autoPromote, input);
    if actor.Some? {
      AutoProposed(t, input, key, terms, actor.value, now, embedOk);
    } else {
      AddedProposal(t, input, key, terms);
    }
  }

  lemma AutoProposed(t: Tables, input: ProposeInput, key: string, terms: Terms, a: Actor, now: int, embedOk: bool)
    requires Sound(t) && !ProposeBlocked(t, input) && a.Automatic?
    ensures var (v, p) := (WithProposal(t, input, key, terms), t.next + 1);
            && PromoRefs(v, p)
            && OneProposal(t, Activate(v, p, a, now, embedOk), p, input, key)
            && AutoPromoted(t, Activate(v, p, a, now, embedOk), p, a)
  {
    AddedProposal(t, input, key, terms);
    AddedCore(t, input, key, terms);
    AutoProposal(t, WithProposal(t, input, key, terms), t.next + 1, input, key, a, now, embedOk);
  }

  // ---- The rest of any run ----

  /** How far a fact is in its life: proposed or in review, active, retired; a rejected fact stands apart. */
  function Phase(s: Status): nat {
    match s
    case Proposed => 0
    case InReview => 0
    case Active => 1
    case _ => 2
  }

  ghost predicate FactLater(f: Fact, g: Fact) {
    && SameFact(f, g) && f.version <= g.version && Phase(f.status) <= Phase(g.status)
    && (f.status == Rejected ==> Governed(g) == Governed(f))
    && (Phase(f.status) > 0 ==> g.status != Rejected || f.status == Rejected)
    && (f.version == g.version ==> Governed(g) == Governed(f))
  }

  ghost predicate PromotionLater(p: Promotion, q: Promotion) {
    && SamePromotion(p, q) && p.reviews <= q.reviews
    && (p.state == Approved || p.state == Denied ==> q == p)
  }

  /** What a later state keeps of an earlier one. */
  ghost predicate Later(t: Tables, u: Tables) {
    && t.log <= u.log && t.next <= u.next && t.facts.Keys <= u.facts.Keys && t.promos.Keys <= u.promos.Keys
    && (forall f {:trigger FactLater(t.facts[f], u.facts[f])} | f in t.facts :: FactLater(t.facts[f], u.facts[f]))
    && (forall p {:trigger PromotionLater(t.promos[p], u.promos[p])} | p in t.promos ::
          PromotionLater(t.promos[p], u.promos[p]))
  }

  lemma FactStep(engines: Option<Registry>, t: Tables, s: Step, f: Id)
    requires Sound(t) && f in t.facts
    ensures var u := Next(engines, t, s);
            f in u.facts && FactLater(t.facts[f], u.facts[f])
  {
    var u := Next(engines, t, s);
    StepEdges(engines, t, s, f);
    TableEdges(t.facts[f].status, u.facts[f].status);
  }

  lemma ProposeKeepsPromotions(engines: Option<Registry>, t: Tables, input: ProposeInput, key: string, terms: Terms,
                               now: int, embedOk: bool, p: Id)
    requires References(t) && IdsUsed(t) && p in t.promos
    ensures var u := ProposeKeyed(engines, t, input, key, terms, now, embedOk).0;
            p in u.promos && u.promos[p] == t.promos[p]
  {
  }

  lemma ApproveKeepsPromotions(t: Tables, p: Id, reviewer: string, now: int, embedOk: bool, q: Id)
    requires References(t) && q in t.promos
    ensures var u := ApproveTx(t, p, reviewer, now, embedOk).0;
            q in u.promos && PromotionLater(t.promos[q], u.promos[q])
  {
    if Reaches(t, p, reviewer) && SlotOpen(t, t.promos[p]) {
      assert t.promos[p].reviews <= WithApproval(t.promos[p], reviewer);
    }
  }

  lemma MoveKeepsPromotions(engines: Option<Registry>, t: Tables, s: Step, p: Id)
    requires References(t) && p in t.promos && IsMove(s)
    ensures var u := Next(engines, t, s);
            p in u.promos && PromotionLater(t.promos[p], u.promos[p])
  {
    var to, reviews, factTo, action := MoveStep(engines, t, s);
  }

  lemma OtherStepsKeepPromotions(engines: Option<Registry>, t: Tables, s: Step)
    requires References(t) && !IsMove(s) && !s.Propose? && !s.ApproveBy?
    ensures Next(engines, t, s).promos == t.promos
  {
    if s.Reap? && Enumerates(s.order, DueIds(t, s.now)) {
      ExpireAllFacts(t, s.order);
    }
  }

  lemma PromotionStep(engines: Option<Registry>, t: Tables, s: Step, p: Id)
    requires Sound(t) && p in t.promos
    ensures var u := Next(engines, t, s);
            p in u.promos && PromotionLater(t.promos[p], u.promos[p])
  {
    if IsMove(s) {
      MoveKeepsPromotions(engines, t, s, p);
    } else if s.Propose? {
      ProposeKeepsPromotions(engines, t, s.input, KeyOf(s.input.subject), s.terms, s.now, s.embedOk, p);
    } else if s.ApproveBy? {
      ApproveKeepsPromotions(t, s.p, s.principal, s.now, s.embedOk, p);
    } else {
      OtherStepsKeepPromotions(engines, t, s);
    }
  }

  lemma {:induction false} ExpireAllLog(t: Tables, order: seq<Id>)
    requires forall f | f in order :: f in t.facts
    ensures t.log <= ExpireAll(t, order).log
  {
    if order != [] {
      ExpireAllLog(t, order[..|order| - 1]);
    }
  }

  lemma ProposeGrows(engines: Option<Registry>, t: Tables, input: ProposeInput, key: string, terms: Terms, now: int,
                     embedOk: bool)
    ensures var u := ProposeKeyed(engines, t, input, key, terms, now, embedOk).0; t.log <= u.log && t.next <= u.next
  {
  }

  /** Every step only extends the log. */
  lemma LogGrows(engines: Option<Registry>, t: Tables, s: Step)
    requires References(t)
    ensures t.log <= Next(engines, t, s).log && t.next <= Next(engines, t, s).next
  {
    if IsMove(s) {
      var _, _, _, _ := MoveStep(engines, t, s);
    } else if s.Reap? {
      if Enumerates(s.order, DueIds(t, s.now)) {
        ExpireAllLog(t, s.order);
        ExpireAllFacts(t, s.order);
      }
    } else if s.Propose? {
      ProposeGrows(engines, t, s.input, KeyOf(s.input.subject), s.terms, s.now, s.embedOk);
    }
  }

  lemma StepLater(engines: Option<Registry>, t: Tables, s: Step)
    requires Sound(t)
    ensures Later(t, Next(engines, t, s))
  {
    LogGrows(engines, t, s);
    var u := Next(engines, t, s);
    forall f | f in t.facts ensures f in u.facts && FactLater(t.facts[f], u.facts[f]) {
      FactStep(engines, t, s, f);
    }
    forall p | p in t.promos ensures p in u.promos && PromotionLater(t.promos[p], u.promos[p]) {
      PromotionStep(engines, t, s, p);
    }
  }

  lemma LaterTransitive(t: Tables, u: Tables, v: Tables)
    requires Later(t, u) && Later(u, v)
    ensures Later(t, v)
  {
    forall f | f in t.facts ensures FactLater(t.facts[f], v.facts[f]) {
      assert FactLater(t.facts[f], u.facts[f]) && FactLater(u.facts[f], v.facts[f]);
    }
    forall p | p in t.promos ensures PromotionLater(t.promos[p], v.promos[p]) {
      assert PromotionLater(t.promos[p], u.promos[p]) && PromotionLater(u.promos[p], v.promos[p]);
    }
  }

  lemma LaterReflexive(t: Tables)
    ensures Later(t, t)
  {
  }

  /**
   * Over any continuation of any run: rows are never lost, identities never change, the log only
   * grows, versions never fall, a fact that left active never returns, a rejected fact and a
   * decided promotion never change.
   */
  lemma {:induction false} RunLater(engines: Option<Registry>, t: Tables, steps: seq<Step>)
    requires Sound(t)
    ensures Later(t, RunFrom(engines, t, steps))
  {
    if steps == [] {
      LaterReflexive(t);
    } else {
      var before := RunFrom(engines, t, steps[..|steps|-1]);
      RunLater(engines, t, steps[..|steps|-1]);
      StepLater(engines, before, steps[|steps|-1]);
      LaterTransitive(t, before, RunFrom(engines, t, steps));
    }
  }

  /** A fact that has left active is never active again. */
  lemma NeverReactivated(engines: Option<Registry>, t: Tables, steps: seq<Step>, f: Id)
    requires Sound(t) && f in t.facts && t.facts[f].status in {Superseded, Revoked, Expired, Rejected}
    ensures var u := RunFrom(engines, t, steps);
            && f in u.facts && u.facts[f].status != Active
            && (t.facts[f].status == Rejected ==> Governed(u.facts[f]) == Governed(t.facts[f]))
  {
    RunLater(engines, t, steps);
    RetiredStays(t, RunFrom(engines, t, steps), f);
  }

  lemma RetiredStays(t: Tables, u: Tables, f: Id)
    requires Later(t, u) && f in t.facts && Phase(t.facts[f].status) == 2
    ensures f in u.facts && u.facts[f].status != Active
    ensures t.facts[f].status == Rejected ==> Governed(u.facts[f]) == Governed(t.facts[f])
  {
    assert FactLater(t.facts[f], u.facts[f]);
  }
}
