/**
 * Idempotent propose with many clients: the lookup and the transaction of each propose are
 * separate moves, and the moves of all clients interleave freely with every other operation.
 */
module Idempotency {
  import opened Basics
  import opened Subjects
  import opened Autopromote
  import opened Schema
  import opened Workflow
  import opened Runs
  import opened History

  /** A propose that passed its lookup and has yet to run its transaction. */
  datatype InFlight = InFlight(input: ProposeInput, terms: Terms)

  /** A propose answered with a promotion. */
  datatype Reply = Reply(proposer: string, key: string, id: Id)

  datatype System = System(tables: Tables, clients: map<nat, InFlight>, replies: seq<Reply>)

  datatype Act =
    | Begin(client: nat, input: ProposeInput)
    | Commit(client: nat, now: int, embedOk: bool)
    | Other(step: Step)

  const START := System(EMPTY, map[], [])

  /** The propose of a client ends, with the tables and the outcome of its transaction. */
  ghost function Settle(s: System, c: nat, t: Tables, r: Outcome): System
    requires c in s.clients
  {
    var input := s.clients[c].input;
    System(t, s.clients - {c}, if r.Ok? then s.replies + [Reply(input.proposer, input.idemKey, r.id)] else s.replies)
  }

  ghost function Perform(engines: Option<Registry>, s: System, a: Act): System
    requires Sound(s.tables)
  {
    match a
    case Begin(c, input) =>
      if c in s.clients then s
      else (
        match ProposeLookup(s.tables, input)
        case Existing(id) => s.(replies := s.replies + [Reply(input.proposer, input.idemKey, id)])
        case Refused(_) => s
        case Proceed(terms) => s.(clients := s.clients[c := InFlight(input, terms)])
      )
    case Commit(c, now, embedOk) =>
      if c !in s.clients then s
      else
        var input := s.clients[c].input;
        var done := ProposeTx(engines, s.tables, input, s.clients[c].terms, now, embedOk);
        Settle(s, c, done.0, done.1)
    case Other(step) =>
      if step.Propose? then s else s.(tables := Next(engines, s.tables, step))
  }

  /** Every answered propose with a key names a promotion that carries the key. */
  ghost predicate Answered(s: System) {
    forall r | r in s.replies && r.key != "" :: HasIdemKey(s.tables, r.id, r.proposer, r.key)
  }

  ghost predicate Consistent(s: System) {
    Sound(s.tables) && Answered(s)
  }

  lemma KeyKept(t: Tables, u: Tables, p: Id, proposer: string, key: string)
    requires Later(t, u) && HasIdemKey(t, p, proposer, key)
    ensures HasIdemKey(u, p, proposer, key)
  {
    assert PromotionLater(t.promos[p], u.promos[p]);
  }

  /** A committed propose answers with the promotion that carries its key. */
  lemma CommittedKey(engines: Option<Registry>, t: Tables, input: ProposeInput, key: string, terms: Terms, now: int,
                     embedOk: bool)
    requires Sound(t) && input.idemKey != ""
    ensures var (u, r) := ProposeKeyed(engines, t, input, key, terms, now, embedOk);
            r.Ok? ==> HasIdemKey(u, r.id, input.proposer, input.idemKey)
  {
  }

  lemma RepliesKept(s: System, u: System)
    requires Answered(s) && Later(s.tables, u.tables)
    requires u.replies == s.replies
             || (|u.replies| > 0 && u.replies == s.replies + [u.replies[|u.replies|-1]]
                 && var r := u.replies[|u.replies|-1]; r.key != "" ==> HasIdemKey(u.tables, r.id, r.proposer, r.key))
    ensures Answered(u)
  {
    forall r | r in u.replies && r.key != "" ensures HasIdemKey(u.tables, r.id, r.proposer, r.key) {
      if r in s.replies {
        KeyKept(s.tables, u.tables, r.id, r.proposer, r.key);
      }
    }
  }

  lemma SettleConsistent(s: System, c: nat, t: Tables, r: Outcome)
    requires Consistent(s) && c in s.clients && Sound(t) && Later(s.tables, t)
    requires var input := s.clients[c].input;
             r.Ok? && input.idemKey != "" ==> HasIdemKey(t, r.id, input.proposer, input.idemKey)
    ensures Consistent(Settle(s, c, t, r))
  {
    RepliesKept(s, Settle(s, c, t, r));
  }

  lemma StepKeeps(engines: Option<Registry>, t: Tables, step: Step, u: Tables)
    requires Sound(t) && u == Next(engines, t, step)
    ensures Sound(u) && Later(t, u)
  {
    StepSound(engines, t, step);
    StepLater(engines, t, step);
  }

  lemma CommitConsistent(engines: Option<Registry>, s: System, c: nat, now: int, embedOk: bool)
    requires Consistent(s) && c in s.clients
    ensures var u := Perform(engines, s, Commit(c, now, embedOk)); Consistent(u) && Later(s.tables, u.tables)
  {
    var f := s.clients[c];
    var done := ProposeTx(engines, s.tables, f.input, f.terms, now, embedOk);
    StepKeeps(engines, s.tables, Propose(f.input, f.terms, now, embedOk), done.0);
    if f.input.idemKey != "" {
      CommittedKey(engines, s.tables, f.input, KeyOf(f.input.subject), f.terms, now, embedOk);
    }
    SettleConsistent(s, c, done.0, done.1);
  }

  lemma OtherConsistent(engines: Option<Registry>, s: System, step: Step, t: Tables)
    requires Consistent(s) && t == Next(engines, s.tables, step)
    ensures Consistent(s.(tables := t)) && Later(s.tables, t)
  {
    StepKeeps(engines, s.tables, step, t);
    RepliesKept(s, s.(tables := t));
  }

  lemma PerformConsistent(engines: Option<Registry>, s: System, a: Act)
    requires Consistent(s)
    ensures Consistent(Perform(engines, s, a)) && Later(s.tables, Perform(engines, s, a).tables)
  {
    LaterReflexive(s.tables);
    match a {
      case Begin(_, _) =>
        RepliesKept(s, Perform(engines, s, a));
      case Commit(c, now, embedOk) =>
        if c in s.clients {
          CommitConsistent(engines, s, c, now, embedOk);
        }
      case Other(step) =>
        OtherConsistent(engines, s, step, Next(engines, s.tables, step));
    }
  }

  /** The state after any interleaving, from a consistent one. */
  ghost function Interleave(engines: Option<Registry>, s: System, acts: seq<Act>): (u: System)
    requires Consistent(s)
    ensures Consistent(u)
  {
    if acts == [] then s
    else
      var before := Interleave(engines, s, acts[..|acts|-1]);
      PerformConsistent(engines, before, acts[|acts|-1]);
      Perform(engines, before, acts[|acts|-1])
  }

  lemma {:induction false} InterleaveLater(engines: Option<Registry>, s: System, acts: seq<Act>)
    requires Consistent(s)
    ensures Later(s.tables, Interleave(engines, s, acts).tables)
  {
    if acts == [] {
      LaterReflexive(s.tables);
    } else {
      var before := Interleave(engines, s, acts[..|acts|-1]);
      InterleaveLater(engines, s, acts[..|acts|-1]);
      PerformConsistent(engines, before, acts[|acts|-1]);
      LaterTransitive(s.tables, before.tables, Interleave(engines, s, acts).tables);
    }
  }

  /** At most one promotion per proposer and key, in every sound state. */
  lemma OnePerKey(t: Tables, p: Id, q: Id, proposer: string, key: string)
    requires Sound(t) && HasIdemKey(t, p, proposer, key) && HasIdemKey(t, q, proposer, key)
    ensures p == q
  {
    assert SameRequest(t.promos[p], t.promos[q]);
  }

  /** The state any interleaving reaches from the empty database. */
  ghost function RunClients(engines: Option<Registry>, acts: seq<Act>): (u: System)
    ensures Consistent(u)
  {
    EmptySound();
    Interleave(engines, START, acts)
  }

  /** However the clients interleave, all proposes of one proposer and key are answered alike. */
  lemma SameAnswer(engines: Option<Registry>, acts: seq<Act>, i: nat, j: nat)
    requires var replies := RunClients(engines, acts).replies;
             i < |replies| && j < |replies| && replies[i].proposer == replies[j].proposer
             && replies[i].key == replies[j].key && replies[i].key != ""
    ensures RunClients(engines, acts).replies[i].id == RunClients(engines, acts).replies[j].id
  {
    var s := RunClients(engines, acts);
    OnePerKey(s.tables, s.replies[i].id, s.replies[j].id, s.replies[i].proposer, s.replies[i].key);
  }

  /**
   * Once a promotion carries a proposer's key, after any further interleaving a retry is answered
   * with that promotion and changes nothing in the database.
   */
  lemma RetryReturnsFirst(engines: Option<Registry>, s: System, acts: seq<Act>, c: nat, input: ProposeInput, p: Id)
    requires Consistent(s) && input.subject.Valid() && input.idemKey != ""
    requires HasIdemKey(s.tables, p, input.proposer, input.idemKey)
    requires c !in Interleave(engines, s, acts).clients
    ensures var u := Interleave(engines, s, acts);
            Perform(engines, u, Begin(c, input)) == u.(replies := u.replies + [Reply(input.proposer, input.idemKey, p)])
  {
    var u := Interleave(engines, s, acts);
    InterleaveLater(engines, s, acts);
    KeyKept(s.tables, u.tables, p, input.proposer, input.idemKey);
    OnePerKey(u.tables, p, FindIdem(u.tables, input.proposer, input.idemKey).value, input.proposer, input.idemKey);
  }
}
