/**
 * The slots of the database are the identities of subjects: the key column always is the key of the
 * subject column, so one active fact per key is one active fact per normalised subject.
 */
module Slots {
  import opened Basics
  import opened Subjects
  import opened Autopromote
  import opened Schema
  import opened Workflow
  import opened Maintenance
  import opened Runs
  import opened History

  // ---- The key column over runs ----

  ghost predicate KeyMatches(f: Fact) {
    f.key == KeyOf(f.subject)
  }

  ghost predicate KeysMatch(t: Tables) {
    forall f {:trigger KeyMatches(t.facts[f])} | f in t.facts :: KeyMatches(t.facts[f])
  }

  /** Only a propose adds a fact, and it adds one with its subject and the given key. */
  lemma ProposedKey(engines: Option<Registry>, t: Tables, input: ProposeInput, key: string, terms: Terms,
                    now: int, embedOk: bool, f: Id)
    requires Sound(t)
    requires f !in t.facts && f in ProposeKeyed(engines, t, input, key, terms, now, embedOk).0.facts
    ensures var row := ProposeKeyed(engines, t, input, key, terms, now, embedOk).0.facts[f];
            row.key == key && row.subject == input.subject
  {
    AutoPromotionAllOrNothing(engines, t, input, key, terms, now, embedOk);
  }

  lemma OtherStepsAddNoFact(engines: Option<Registry>, t: Tables, s: Step)
    requires References(t) && !s.Propose?
    ensures Next(engines, t, s).facts.Keys == t.facts.Keys
  {
    if IsMove(s) {
      var to, reviews, factTo, action := MoveStep(engines, t, s);
    } else if s.Reap? && Enumerates(s.order, DueIds(t, s.now)) {
      ExpireAllFacts(t, s.order);
    }
  }

  lemma StepKeysMatch(engines: Option<Registry>, t: Tables, s: Step)
    requires Sound(t) && KeysMatch(t)
    ensures KeysMatch(Next(engines, t, s))
  {
    var u := Next(engines, t, s);
    forall f | f in u.facts ensures KeyMatches(u.facts[f]) {
      if f in t.facts {
        FactStep(engines, t, s, f);
        assert KeyMatches(t.facts[f]);
      } else if s.Propose? {
        ProposedKey(engines, t, s.input, KeyOf(s.input.subject), s.terms, s.now, s.embedOk, f);
      } else {
        OtherStepsAddNoFact(engines, t, s);
      }
    }
  }

  lemma {:induction false} RunKeysMatch(engines: Option<Registry>, t: Tables, steps: seq<Step>)
    requires Sound(t) && KeysMatch(t)
    ensures KeysMatch(RunFrom(engines, t, steps))
  {
    if steps != [] {
      RunKeysMatch(engines, t, steps[..|steps|-1]);
      StepKeysMatch(engines, RunFrom(engines, t, steps[..|steps|-1]), steps[|steps|-1]);
    }
  }

  // ---- Identities ----

  /** The same normalised type and scope, and the same k=v strings. */
  ghost predicate SameIdentity(a: Subject, b: Subject) {
    Normalize(a.typ) == Normalize(b.typ) && ScopeOf(a) == ScopeOf(b) && Pairs(a.qualifiers) == Pairs(b.qualifiers)
  }

  /** Subjects of one identity share a key, whatever characters they hold. */
  lemma IdentityDeterminesKey(a: Subject, b: Subject)
    requires SameIdentity(a, b)
    ensures KeyOf(a) == KeyOf(b)
  {
    SortedUnique(Sort(PairList(a.qualifiers), Same), Sort(PairList(b.qualifiers), Same), Same);
  }

  lemma SlotIsIdentity(t: Tables, f: Id, g: Id)
    requires SlotUnique(t.facts) && KeysMatch(t) && f in t.facts && g in t.facts
    requires t.facts[f].status == Active && t.facts[g].status == Active && t.facts[f].ns == t.facts[g].ns
    requires SameIdentity(t.facts[f].subject, t.facts[g].subject)
    ensures f == g
  {
    IdentityDeterminesKey(t.facts[f].subject, t.facts[g].subject);
    assert KeyMatches(t.facts[f]) && KeyMatches(t.facts[g]);
    assert Rivals(t.facts[f], t.facts[g]);
  }

  /** In every run: two active facts of one namespace never have subjects of the same identity. */
  lemma OneActivePerIdentity(engines: Option<Registry>, steps: seq<Step>, f: Id, g: Id)
    requires var t := Exec(engines, steps);
             && f in t.facts && g in t.facts && t.facts[f].ns == t.facts[g].ns
             && t.facts[f].status == Active && t.facts[g].status == Active
             && SameIdentity(t.facts[f].subject, t.facts[g].subject)
    ensures f == g
  {
    EmptySound();
    RunKeysMatch(engines, EMPTY, steps);
    SlotIsIdentity(Exec(engines, steps), f, g);
  }

  /**
   * Conflict detection is exact: where no ':' occurs in the subjects, a propose records a fact as its
   * conflict if and only if that fact is active in the target and has the subject's identity.
   */
  lemma ConflictIsIdentity(t: Tables, ns: Id, subject: Subject, f: Id)
    requires SlotUnique(t.facts) && KeysMatch(t) && f in t.facts && Plain(subject) && Plain(t.facts[f].subject)
    ensures ActiveInSlot(t, ns, KeyOf(subject)) == Some(f) <==>
              t.facts[f].status == Active && t.facts[f].ns == ns && SameIdentity(t.facts[f].subject, subject)
  {
    assert KeyMatches(t.facts[f]);
    KeyFaithful(t.facts[f].subject, subject);
    if t.facts[f].status == Active && t.facts[f].ns == ns && t.facts[f].key == KeyOf(subject) {
      assert ActiveAt(t, f, ns, KeyOf(subject));
      assert Rivals(t.facts[f], t.facts[ActiveInSlot(t, ns, KeyOf(subject)).value]);
    }
  }

  /** The same, for the conflict a committed propose records in a reachable state. */
  lemma RecordedConflict(engines: Option<Registry>, steps: seq<Step>, input: ProposeInput, terms: Terms,
                         now: int, embedOk: bool, f: Id)
    requires var t := Exec(engines, steps);
             !ProposeBlocked(t, input) && f in t.facts && Plain(input.subject) && Plain(t.facts[f].subject)
    ensures var t := Exec(engines, steps);
            var r := ProposeTx(engines, t, input, terms, now, embedOk).1;
            && r.Ok?
            && (r.promo.conflictWith == Some(f) <==>
                  && t.facts[f].status == Active && t.facts[f].ns == input.target
                  && SameIdentity(t.facts[f].subject, input.subject))
  {
    var t := Exec(engines, steps);
    EmptySound();
    RunKeysMatch(engines, EMPTY, steps);
    ConflictIsIdentity(t, input.target, input.subject, f);
    AutoPromotionAllOrNothing(engines, t, input, KeyOf(input.subject), terms, now, embedOk);
  }
}
