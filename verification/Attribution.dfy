/** Who the log says did what, over whole runs: the principal of an event is the one entitled to it. */
module Attribution {
  import opened Basics
  import opened Subjects
  import opened Autopromote
  import opened Schema
  import opened Workflow
  import opened Maintenance
  import opened Invariants
  import opened Runs
  import opened History
  import opened Outcomes

  /** The event's principal is its promotion's proposer or one of its reviewers, the reaper, or an engine. */
  ghost predicate Credits(t: Tables, e: Event) {
    match e.action
    case FactProposed => e.subject in t.promos && e.principal == t.promos[e.subject].proposer
    case PromotionSubmitted => e.subject in t.promos && e.principal == t.promos[e.subject].proposer
    case PromotionWithdrawn => e.subject in t.promos && e.principal == t.promos[e.subject].proposer
    case PromotionApproved =>
      && e.subject in t.promos && e.principal != t.promos[e.subject].proposer
      && Review(e.principal, Schema.Approve) in t.promos[e.subject].reviews
    case PromotionRejected => e.subject in t.promos && Review(e.principal, Schema.Reject) in t.promos[e.subject].reviews
    case PromotionChangesRequested =>
      e.subject in t.promos && Review(e.principal, Schema.RequestChanges) in t.promos[e.subject].reviews
    case FactExpired => e.principal == "system:reaper"
    case FactAutoPromoted => |e.principal| >= 7 && e.principal[..7] == "engine:"
    case _ => true
  }

  ghost predicate Attributed(t: Tables) {
    forall e {:trigger Credits(t, e)} | e in t.log :: Credits(t, e)
  }

  lemma CreditsStay(t: Tables, u: Tables, e: Event)
    requires Later(t, u) && Credits(t, e)
    ensures Credits(u, e)
  {
    if e.subject in t.promos {
      assert PromotionLater(t.promos[e.subject], u.promos[e.subject]);
    }
  }

  /** It is enough that the new events are credited. */
  lemma NewCredits(t: Tables, u: Tables)
    requires Later(t, u) && Attributed(t)
    requires forall i | |t.log| <= i < |u.log| :: Credits(u, u.log[i])
    ensures Attributed(u)
  {
    forall e | e in u.log ensures Credits(u, e) {
      var i :| 0 <= i < |u.log| && u.log[i] == e;
      if i < |t.log| {
        assert t.log[i] == e && e in t.log;
        CreditsStay(t, u, e);
      }
    }
  }

  lemma PromotedCredits(t: Tables, u: Tables, input: ProposeInput, key: string, required: int, conflict: Option<Id>,
                        engine: string, rule: Option<Rule>, now: int, embedOk: bool, i: nat)
    requires PromotedOutcome(t, u, input, key, required, conflict, engine, rule, now, embedOk) && |t.log| <= i < |u.log|
    ensures Credits(u, u.log[i])
  {
    assert ("engine:" + engine)[..7] == "engine:";
  }

  lemma PendingCredits(t: Tables, u: Tables, input: ProposeInput, key: string, required: int, conflict: Option<Id>,
                       i: nat)
    requires PendingOutcome(t, u, input, key, required, conflict) && |t.log| <= i < |u.log|
    ensures Credits(u, u.log[i])
  {
  }

  lemma ProposeCredits(engines: Option<Registry>, t: Tables, input: ProposeInput, key: string, terms: Terms, now: int,
                       embedOk: bool, u: Tables, r: Outcome, i: nat)
    requires ProposeOutcome(engines, t, u, r, input, key, terms, now, embedOk) && |t.log| <= i < |u.log|
    ensures Credits(u, u.log[i])
  {
    var conflict := u.promos[t.next + 1].conflictWith;
    if rule :| EnginePromotes(engines, terms.autoPromote, input, rule) {
      PromotedCredits(t, u, input, key, terms.required, conflict, terms.autoPromote.value.engine, rule, now, embedOk,
                      i);
    } else {
      PendingCredits(t, u, input, key, terms.required, conflict, i);
    }
  }

  lemma ApproveCredits(t: Tables, s: Step, u: Tables, r: Outcome, i: nat)
    requires s.ApproveBy? && ApproveOutcome(t, u, r, s.p, s.principal, s.now, s.embedOk) && |t.log| <= i < |u.log|
    ensures Credits(u, u.log[i])
  {
  }

  lemma MoveCredits(engines: Option<Registry>, t: Tables, s: Step, u: Tables, i: nat)
    requires References(t) && IsMove(s) && u == Next(engines, t, s) && |t.log| <= i < |u.log|
    ensures Credits(u, u.log[i])
  {
    if s.Submit? || s.Withdraw? {
      ProposerMeans(t, s.p, s.principal);
    } else {
      ReviewMeans(t, s.p, s.principal);
    }
  }

  lemma OtherCredits(engines: Option<Registry>, t: Tables, s: Step, u: Tables, i: nat)
    requires Core(t) && !s.Propose? && !s.ApproveBy? && !IsMove(s) && u == Next(engines, t, s) && |t.log| <= i < |u.log|
    ensures Credits(u, u.log[i])
  {
    if s.Reap? {
      ReapMeans(t, s.now, s.order);
    } else if !s.RevokeFact? {
      RegistryCosmetic(engines, t, s);
    }
  }

  lemma StepAttributed(engines: Option<Registry>, t: Tables, s: Step)
    requires Sound(t) && Attributed(t)
    ensures Attributed(Next(engines, t, s))
  {
    var u := Next(engines, t, s);
    StepLater(engines, t, s);
    forall i | |t.log| <= i < |u.log| ensures Credits(u, u.log[i]) {
      StepCredits(engines, t, s, u, i);
    }
    NewCredits(t, u);
  }

  lemma StepCredits(engines: Option<Registry>, t: Tables, s: Step, u: Tables, i: nat)
    requires Sound(t) && u == Next(engines, t, s) && |t.log| <= i < |u.log|
    ensures Credits(u, u.log[i])
  {
    if s.Propose? {
      var key := KeyOf(s.input.subject);
      var r := ProposeKeyed(engines, t, s.input, key, s.terms, s.now, s.embedOk).1;
      ProposeMeans(engines, t, s.input, key, s.terms, s.now, s.embedOk, u, r);
      ProposeCredits(engines, t, s.input, key, s.terms, s.now, s.embedOk, u, r, i);
    } else if s.ApproveBy? {
      var r := ApproveTx(t, s.p, s.principal, s.now, s.embedOk).1;
      ApproveMeans(t, s.p, s.principal, s.now, s.embedOk);
      ApproveCredits(t, s, u, r, i);
    } else if IsMove(s) {
      MoveCredits(engines, t, s, u, i);
    } else {
      OtherCredits(engines, t, s, u, i);
    }
  }

  lemma {:induction false} RunAttributedFrom(engines: Option<Registry>, t: Tables, steps: seq<Step>)
    requires Sound(t) && Attributed(t)
    ensures Attributed(RunFrom(engines, t, steps))
  {
    if steps != [] {
      RunAttributedFrom(engines, t, steps[..|steps|-1]);
      StepAttributed(engines, RunFrom(engines, t, steps[..|steps|-1]), steps[|steps|-1]);
    }
  }

  /** In every run each event is credited: only proposers submit and withdraw, only reviewers decide. */
  lemma RunAttributed(engines: Option<Registry>, steps: seq<Step>, e: Event)
    requires e in Exec(engines, steps).log
    ensures Credits(Exec(engines, steps), e)
  {
    EmptySound();
    RunAttributedFrom(engines, EMPTY, steps);
  }
}
