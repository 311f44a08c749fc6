/** Which columns of a fact each step may touch, and what stays of them over runs. */
module Columns {
  import opened Basics
  import opened Subjects
  import opened Autopromote
  import opened Schema
  import opened Workflow
  import opened Maintenance
  import opened Invariants
  import opened Runs
  import opened History
  import opened Outcomes

  /** The fact becomes active. */
  predicate Becomes(f: Fact, g: Fact) {
    f.status != Active && g.status == Active
  }

  /** An activation by reviewers stamps the row; tags are never touched. */
  ghost predicate Stamped(t: Tables, s: Step, f: Fact, g: Fact) {
    && s.ApproveBy? && s.p in t.promos && g.validFrom == Some(s.now) && g.embedded == (f.embedded || s.embedOk)
    && NamesInOrder(g.approvedBy, ReviewsAfter(t.promos[s.p], s.principal), t.promos[s.p].proposer)
  }

  /** What a step leaves of a fact it does not activate. */
  predicate Unstamped(s: Step, id: Id, f: Fact, g: Fact) {
    && g.validFrom == f.validFrom && g.approvedBy == f.approvedBy
    && g.embedded == (f.embedded || s == Embed(id))
  }

  ghost predicate ColumnsOk(t: Tables, s: Step, u: Tables, f: Id)
    requires f in t.facts
  {
    && f in u.facts
    && u.facts[f].ns == t.facts[f].ns && u.facts[f].subject == t.facts[f].subject && u.facts[f].key == t.facts[f].key
    && u.facts[f].statement == t.facts[f].statement && u.facts[f].createdBy == t.facts[f].createdBy
    && u.facts[f].tags == t.facts[f].tags
    && u.facts[f].validTo == (if s.SetValidTo? && s.f == f then s.until else t.facts[f].validTo)
    && (if Becomes(t.facts[f], u.facts[f]) then Stamped(t, s, t.facts[f], u.facts[f])
        else Unstamped(s, f, t.facts[f], u.facts[f]))
  }

  /** Only status, version and successor differ, and the fact does not become active. */
  predicate Retired(f: Fact, g: Fact) {
    g == f.(status := g.status, version := g.version, supersededBy := g.supersededBy) && !Becomes(f, g)
  }

  lemma RetiredColumns(t: Tables, s: Step, u: Tables, f: Id)
    requires f in t.facts && f in u.facts && Retired(t.facts[f], u.facts[f]) && !s.SetValidTo? && !s.Embed?
    ensures ColumnsOk(t, s, u, f)
  {
  }

  lemma MoveColumns(engines: Option<Registry>, t: Tables, s: Step, u: Tables, f: Id)
    requires References(t) && IsMove(s) && f in t.facts && u == Next(engines, t, s)
    ensures ColumnsOk(t, s, u, f)
  {
    var to, reviews, factTo, action := MoveStep(engines, t, s);
    RetiredColumns(t, s, u, f);
  }

  lemma LeaveColumns(t: Tables, s: Step, u: Tables, f: Id)
    requires f in t.facts && (s.RevokeFact? || s.Reap?)
    requires u == if s.RevokeFact? then RevokeTx(t, s.f, s.version, s.principal).0 else ReapTx(t, s.now, s.order)
    ensures ColumnsOk(t, s, u, f)
  {
    if s.Reap? && Enumerates(s.order, DueIds(t, s.now)) {
      ExpireAllFacts(t, s.order);
    }
    RetiredColumns(t, s, u, f);
  }

  lemma RegistryColumns(engines: Option<Registry>, t: Tables, s: Step, u: Tables, f: Id)
    requires References(t) && IsRegistryStep(s) && f in t.facts && u == Next(engines, t, s)
    ensures ColumnsOk(t, s, u, f)
  {
    if s.SetValidTo? {
      ValidToColumns(t, s, u, f);
    } else if s.Embed? {
      EmbedColumns(t, s, u, f);
    } else {
      RegistryLeavesFacts(engines, t, s, u);
      RetiredColumns(t, s, u, f);
    }
  }

  lemma RegistryLeavesFacts(engines: Option<Registry>, t: Tables, s: Step, u: Tables)
    requires References(t) && IsRegistryStep(s) && !s.SetValidTo? && !s.Embed? && u == Next(engines, t, s)
    ensures u.facts == t.facts
  {
  }

  lemma ValidToColumns(t: Tables, s: Step, u: Tables, f: Id)
    requires s.SetValidTo? && f in t.facts && u == SetValidToTx(t, s.f, s.until)
    ensures ColumnsOk(t, s, u, f)
  {
  }

  lemma EmbedColumns(t: Tables, s: Step, u: Tables, f: Id)
    requires s.Embed? && f in t.facts && u == EmbedTx(t, s.f)
    ensures ColumnsOk(t, s, u, f)
  {
  }

  lemma ProposedRow(engines: Option<Registry>, t: Tables, u: Tables, r: Outcome, input: ProposeInput, key: string,
                    terms: Terms, now: int, embedOk: bool, f: Id)
    requires IdsUsed(t) && ProposeOutcome(engines, t, u, r, input, key, terms, now, embedOk) && f in t.facts
    ensures f in u.facts && Retired(t.facts[f], u.facts[f])
  {
  }

  lemma ProposeColumns(engines: Option<Registry>, t: Tables, s: Step, u: Tables, r: Outcome, f: Id)
    requires Constraints(t) && s.Propose? && f in t.facts
    requires (u, r) == ProposeKeyed(engines, t, s.input, KeyOf(s.input.subject), s.terms, s.now, s.embedOk)
    ensures ColumnsOk(t, s, u, f)
  {
    ProposeMeans(engines, t, s.input, KeyOf(s.input.subject), s.terms, s.now, s.embedOk, u, r);
    ProposedRow(engines, t, u, r, s.input, KeyOf(s.input.subject), s.terms, s.now, s.embedOk, f);
    RetiredColumns(t, s, u, f);
  }

  lemma ApprovedColumns(t: Tables, s: Step, u: Tables, f: Id)
    requires References(t) && Paired(t) && s.ApproveBy? && f in t.facts
    requires s.p in t.promos && t.promos[s.p].state != Approved
    requires ApprovedOutcome(t, u, s.p, s.principal, s.now, s.embedOk)
    ensures ColumnsOk(t, s, u, f)
  {
    assert Agrees(t.facts, t.promos[s.p]) && ConflictOlder(t.facts, t.promos[s.p]);
    if f != t.promos[s.p].factId {
      RetiredColumns(t, s, u, f);
    }
  }

  lemma ApproveColumns(t: Tables, s: Step, u: Tables, r: Outcome, f: Id)
    requires References(t) && Paired(t) && s.ApproveBy? && f in t.facts
    requires (u, r) == ApproveTx(t, s.p, s.principal, s.now, s.embedOk)
    ensures ColumnsOk(t, s, u, f)
  {
    ApproveMeans(t, s.p, s.principal, s.now, s.embedOk);
    if u.facts == t.facts {
      RetiredColumns(t, s, u, f);
    } else {
      ApprovedColumns(t, s, u, f);
    }
  }

  /**
   * The columns of a fact over any step: identity and tags never change, only an operator changes the
   * validity, and only an approval that activates it stamps its start, its approvers and, with a
   * backfill, its embedding.
   */
  lemma StepColumns(engines: Option<Registry>, t: Tables, s: Step, f: Id)
    requires Sound(t) && f in t.facts
    ensures ColumnsOk(t, s, Next(engines, t, s), f)
  {
    if IsMove(s) {
      MoveColumns(engines, t, s, Next(engines, t, s), f);
    } else if s.RevokeFact? || s.Reap? {
      LeaveColumns(t, s, Next(engines, t, s), f);
    } else if s.Propose? {
      var done := ProposeTx(engines, t, s.input, s.terms, s.now, s.embedOk);
      ProposeColumns(engines, t, s, done.0, done.1, f);
    } else if s.ApproveBy? {
      var done := ApproveTx(t, s.p, s.principal, s.now, s.embedOk);
      ApproveColumns(t, s, done.0, done.1, f);
    } else {
      RegistryColumns(engines, t, s, Next(engines, t, s), f);
    }
  }

  // ---- Over runs ----

  /** A fact keeps the tags it was created with for the rest of any run. */
  lemma {:induction false} TagsStay(engines: Option<Registry>, t: Tables, steps: seq<Step>, f: Id)
    requires Sound(t) && f in t.facts
    ensures f in RunFrom(engines, t, steps).facts && RunFrom(engines, t, steps).facts[f].tags == t.facts[f].tags
  {
    if steps != [] {
      var before := RunFrom(engines, t, steps[..|steps|-1]);
      TagsStay(engines, t, steps[..|steps|-1], f);
      StepColumns(engines, before, steps[|steps|-1], f);
    }
  }

  /**
   * Optimistic concurrency over runs: a revoke with the version read in an earlier state succeeds if
   * and only if the fact was active then and no step since has changed any column of it but its
   * embedding flag and its validity.
   */
  lemma RevokeSinceRead(engines: Option<Registry>, t: Tables, steps: seq<Step>, f: Id, principal: string)
    requires Sound(t) && f in t.facts
    ensures var u := RunFrom(engines, t, steps);
            && f in u.facts
            && (RevokeTx(u, f, t.facts[f].version, principal).1.None? <==>
                  && t.facts[f].status == Active
                  && u.facts[f] == t.facts[f].(embedded := u.facts[f].embedded, validTo := u.facts[f].validTo))
  {
    RunLater(engines, t, steps);
    RevokeLater(t, RunFrom(engines, t, steps), f, principal);
  }

  lemma RevokeLater(t: Tables, u: Tables, f: Id, principal: string)
    requires Later(t, u) && f in t.facts
    ensures f in u.facts
    ensures RevokeTx(u, f, t.facts[f].version, principal).1.None? <==>
              && t.facts[f].status == Active
              && u.facts[f] == t.facts[f].(embedded := u.facts[f].embedded, validTo := u.facts[f].validTo)
  {
    assert FactLater(t.facts[f], u.facts[f]);
    if u.facts[f].version == t.facts[f].version {
      assert Governed(u.facts[f]) == Governed(t.facts[f]);
    }
  }
}
