/**
 * The registries of namespaces (internal/namespaces/repo.go) and memberships (internal/rbac/repo.go):
 * each write is one statement, and what it means is said in terms of access and of later proposals.
 */
module Registries {
  import opened Basics
  import opened Autopromote
  import opened Schema
  import opened Workflow
  import opened Store
  import opened Runs
  import opened Entitlement

  // ---- Namespaces ----

  predicate NamesUnique(t: Tables) {
    forall m, n {:trigger t.namespaces[m], t.namespaces[n]} |
      m in t.namespaces && n in t.namespaces && t.namespaces[m].name == t.namespaces[n].name :: m == n
  }

  predicate PoliciesStorable(t: Tables) {
    forall n {:trigger t.namespaces[n]} | n in t.namespaces :: Storable(t.namespaces[n].policy)
  }

  /** The raw rules are one JSON value, or absent. */
  predicate OneValue(rules: Rules) {
    match rules
    case NoBytes => true
    case NotJson => false
    case WrongShape => true
    case Document(_, trailing) => !trailing
  }

  /** The policy given, or the default of the kind when it is entirely empty. */
  predicate PolicyTaken(ns: Namespace, policy: Policy) {
    if ns.policy.requiredApprovals == 0 && ns.policy.allowedProposers.None? && ns.policy.autoPromote.None? then
      match ns.kind
      case Org => policy == Policy(2, None, None)
      case Team => policy == Policy(1, None, Some(AutoPromote("simple/v1", NoBytes)))
      case Project => policy == Policy(1, None, None)
      case User => policy == Policy(1, None, None)
    else
      && policy.requiredApprovals == ns.policy.requiredApprovals && policy.autoPromote == ns.policy.autoPromote
      && policy.allowedProposers == if ns.policy.allowedProposers == Some([]) then None else ns.policy.allowedProposers
  }

  /** A new namespace takes a free name, changes no other, and nobody gains or loses access by it. */
  method CreateNamespace(db: Db, ns: Namespace) returns (id: Option<Id>)
    requires db.Valid()
    modifies db
    ensures db.Valid()
    ensures db.tables == CreateNamespaceTx(old(db.tables), ns).0 && id == CreateNamespaceTx(old(db.tables), ns).1
    ensures id.None? ==> db.tables == old(db.tables)
    ensures id.Some? ==>
              && id.value !in old(db.tables).namespaces && id.value in db.tables.namespaces
              && db.tables.namespaces - {id.value} == old(db.tables).namespaces
              && db.tables.namespaces[id.value] == ns.(policy := db.tables.namespaces[id.value].policy)
              && (forall n | n in old(db.tables).namespaces :: old(db.tables).namespaces[n].name != ns.name)
    ensures id.None? <==>
              || (exists n :: n in old(db.tables).namespaces && old(db.tables).namespaces[n].name == ns.name)
              || (ns.parent.Some? && ns.parent.value !in old(db.tables).namespaces)
              || (ns.policy.autoPromote.Some? && !OneValue(ns.policy.autoPromote.value.rules))
    ensures id.Some? ==> PolicyTaken(ns, db.tables.namespaces[id.value].policy)
    ensures NamesUnique(old(db.tables)) ==> NamesUnique(db.tables)
    ensures forall who, n :: MayRead(db.tables, who, n) <==> MayRead(old(db.tables), who, n)
    ensures forall who, n, a :: MayDo(db.tables, who, n, a) <==> MayDo(old(db.tables), who, n, a)
  {
    var t := db.tables;
    var policy := EffectivePolicy(ns);
    if !Storable(policy) || NameTaken(t, ns.name) || !RefersTo(ns.parent, t.namespaces.Keys) {
      return None;
    }
    id := Some(t.next);
    db.tables := t.(namespaces := t.namespaces[t.next := ns.(policy := Stored(policy))], next := t.next + 1);
    forall who, n ensures MayRead(db.tables, who, n) <==> MayRead(t, who, n) {
      CreateGivesNoAccess(t, ns, who, n);
    }
  }

  lemma {:induction false} UpUnchanged(t: Tables, ns: Namespace, n: Id, k: nat)
    requires Constraints(t) && n in t.namespaces
    ensures Up(CreateNamespaceTx(t, ns).0.namespaces, n, k) == Up(t.namespaces, n, k)
    decreases k
  {
    if k > 0 && t.namespaces[n].parent.Some? {
      UpUnchanged(t, ns, t.namespaces[n].parent.value, k - 1);
    }
  }

  lemma CreateGivesNoAccess(t: Tables, ns: Namespace, who: string, n: Id)
    requires Constraints(t)
    ensures MayRead(CreateNamespaceTx(t, ns).0, who, n) <==> MayRead(t, who, n)
  {
    var u := CreateNamespaceTx(t, ns).0;
    forall g, k: nat | GrantedIn(t, who, g) ensures Up(u.namespaces, g, k) == Up(t.namespaces, g, k) {
      UpUnchanged(t, ns, g, k);
    }
    forall g | GrantedIn(t, who, g) ensures Above(u.namespaces, g, n) <==> Above(t.namespaces, g, n) {
    }
    assert forall g :: GrantedIn(u, who, g) <==> GrantedIn(t, who, g);
  }

  /** What a propose would meet, up to the terms of the policy. */
  ghost predicate LooksAlike(a: Lookup, b: Lookup) {
    a == b || (a.Proceed? && b.Proceed?)
  }

  /**
   * A new policy governs the proposals made from then on, in its namespace only: no promotion
   * already made changes, its required approvals included, and nobody gains or loses access.
   */
  method UpdatePolicy(db: Db, n: Id, policy: Policy) returns (ok: bool)
    requires db.Valid()
    modifies db
    ensures db.Valid()
    ensures db.tables == UpdatePolicyTx(old(db.tables), n, policy).0
    ensures ok == UpdatePolicyTx(old(db.tables), n, policy).1
    ensures ok <==>
              && n in old(db.tables).namespaces
              && (policy.autoPromote.Some? ==> OneValue(policy.autoPromote.value.rules))
    ensures !ok ==> db.tables == old(db.tables)
    ensures db.tables.promos == old(db.tables).promos && db.tables.facts == old(db.tables).facts
    ensures ok ==> forall input: ProposeInput ::
              && LooksAlike(ProposeLookup(db.tables, input), ProposeLookup(old(db.tables), input))
              && (input.target != n ==> ProposeLookup(db.tables, input) == ProposeLookup(old(db.tables), input))
              && (input.target == n && ProposeLookup(db.tables, input).Proceed? ==>
                    ProposeLookup(db.tables, input).terms == Terms(policy.requiredApprovals, policy.autoPromote))
    ensures forall who, x :: MayRead(db.tables, who, x) <==> MayRead(old(db.tables), who, x)
  {
    var t := db.tables;
    ok := Storable(policy) && n in t.namespaces;
    if ok {
      db.tables := t.(namespaces := t.namespaces[n := t.namespaces[n].(policy := Stored(policy))]);
      forall input: ProposeInput
        ensures FindIdem(db.tables, input.proposer, input.idemKey) == FindIdem(t, input.proposer, input.idemKey)
      {
        SameIdem(t, db.tables, input.proposer, input.idemKey);
      }
      forall who, x ensures MayRead(db.tables, who, x) <==> MayRead(t, who, x) {
        SameParentsSameReads(t, db.tables, who, x);
      }
    }
  }

  lemma SameIdem(t: Tables, u: Tables, proposer: string, key: string)
    requires IdemUnique(t.promos) && t.promos == u.promos
    ensures FindIdem(u, proposer, key) == FindIdem(t, proposer, key)
  {
    var p, q := FindIdem(t, proposer, key), FindIdem(u, proposer, key);
    if p.Some? {
      assert HasIdemKey(u, p.value, proposer, key);
    }
    if q.Some? {
      assert HasIdemKey(t, q.value, proposer, key);
    }
    if p.Some? && q.Some? {
      assert SameRequest(t.promos[p.value], t.promos[q.value]);
    }
  }

  lemma {:induction false} UpByParents(a: map<Id, Namespace>, b: map<Id, Namespace>, n: Id, k: nat)
    requires a.Keys == b.Keys && forall x | x in a :: a[x].parent == b[x].parent
    ensures Up(a, n, k) == Up(b, n, k)
    decreases k
  {
    if k > 0 && n in a && a[n].parent.Some? {
      UpByParents(a, b, a[n].parent.value, k - 1);
    }
  }

  lemma SameParentsSameReads(t: Tables, u: Tables, who: string, n: Id)
    requires t.memberships == u.memberships && t.namespaces.Keys == u.namespaces.Keys
    requires forall x | x in t.namespaces :: t.namespaces[x].parent == u.namespaces[x].parent
    ensures MayRead(u, who, n) <==> MayRead(t, who, n)
  {
    forall g, k: nat ensures Up(u.namespaces, g, k) == Up(t.namespaces, g, k) {
      UpByParents(u.namespaces, t.namespaces, g, k);
    }
    assert forall g :: GrantedIn(u, who, g) <==> GrantedIn(t, who, g);
    assert forall g :: Above(u.namespaces, g, n) <==> Above(t.namespaces, g, n);
  }

  // ---- Memberships ----

  /** A grant adds one ancestor chain of reads and its role's own permissions, to its principal only. */
  method Grant(db: Db, m: Membership) returns (ok: bool)
    requires db.Valid()
    modifies db
    ensures db.Valid()
    ensures db.tables == GrantTx(old(db.tables), m).0 && ok == GrantTx(old(db.tables), m).1
    ensures ok <==> !m.role.UnknownRole? && m.ns in old(db.tables).namespaces
    ensures !ok ==> db.tables == old(db.tables)
    ensures db.tables == old(db.tables).(memberships := old(db.tables).memberships + if ok then {m} else {})
    ensures ok ==> forall who, n :: MayRead(db.tables, who, n) <==>
              MayRead(old(db.tables), who, n) || (who == m.principal && Above(old(db.tables).namespaces, m.ns, n))
    ensures ok ==> forall who, n, a :: MayDo(db.tables, who, n, a) <==>
              MayDo(old(db.tables), who, n, a) || (who == m.principal && n == m.ns && RoleCan(m.role, a))
  {
    ghost var t := db.tables;
    if m.role.UnknownRole? {
      return false;
    }
    ok := m.ns in db.tables.namespaces;
    if ok {
      db.tables := db.tables.(memberships := db.tables.memberships + {m});
      forall who, n, a
        ensures MayRead(db.tables, who, n) <==>
                  MayRead(t, who, n) || (who == m.principal && Above(t.namespaces, m.ns, n))
        ensures MayDo(db.tables, who, n, a) <==>
                  MayDo(t, who, n, a) || (who == m.principal && n == m.ns && RoleCan(m.role, a))
      {
        GrantAddsOneChain(t, m, who, n, a);
      }
    }
  }

  /** Revoking leaves everyone exactly what their other memberships give them. */
  method RevokeGrant(db: Db, m: Membership)
    requires db.Valid()
    modifies db
    ensures db.Valid()
    ensures db.tables == RevokeGrantTx(old(db.tables), m)
    ensures forall who, n :: MayRead(db.tables, who, n) <==>
              exists g :: g in old(db.tables).memberships && g != m && g.principal == who
                          && Above(old(db.tables).namespaces, g.ns, n)
    ensures forall who, n, a :: MayDo(db.tables, who, n, a) <==>
              exists g :: g in old(db.tables).memberships && g != m && g.principal == who
                          && g.ns == n && RoleCan(g.role, a)
  {
    ghost var t := db.tables;
    db.tables := db.tables.(memberships := db.tables.memberships - {m});
    forall who, n, a
      ensures MayRead(db.tables, who, n) <==>
                exists g :: g in t.memberships && g != m && g.principal == who && Above(t.namespaces, g.ns, n)
      ensures MayDo(db.tables, who, n, a) <==>
                exists g :: g in t.memberships && g != m && g.principal == who && g.ns == n && RoleCan(g.role, a)
    {
      RevokeLeavesTheRest(t, m, who, n, a);
    }
  }

  lemma RevokeLeavesTheRest(t: Tables, m: Membership, who: string, n: Id, a: Entitlement.Action)
    ensures MayRead(RevokeGrantTx(t, m), who, n) <==>
              exists g :: g in t.memberships && g != m && g.principal == who && Above(t.namespaces, g.ns, n)
    ensures MayDo(RevokeGrantTx(t, m), who, n, a) <==>
              exists g :: g in t.memberships && g != m && g.principal == who && g.ns == n && RoleCan(g.role, a)
  {
    var u := RevokeGrantTx(t, m);
    if MayRead(u, who, n) {
      var x :| GrantedIn(u, who, x) && Above(u.namespaces, x, n);
      var g :| g in u.memberships && g.principal == who && g.ns == x;
      assert g in t.memberships && g != m;
    }
    if g :| g in t.memberships && g != m && g.principal == who && Above(t.namespaces, g.ns, n) {
      assert g in u.memberships;
      assert GrantedIn(u, who, g.ns);
    }
    if MayDo(u, who, n, a) {
      var g :| g in u.memberships && g.principal == who && g.ns == n && RoleCan(g.role, a);
      assert g in t.memberships && g != m;
    }
    if g :| g in t.memberships && g != m && g.principal == who && g.ns == n && RoleCan(g.role, a) {
      assert g in u.memberships;
    }
  }

  // ---- Over runs ----

  lemma CreateKeepsRegistry(t: Tables, ns: Namespace)
    requires NamesUnique(t) && PoliciesStorable(t)
    ensures NamesUnique(CreateNamespaceTx(t, ns).0) && PoliciesStorable(CreateNamespaceTx(t, ns).0)
  {
  }

  lemma UpdateKeepsRegistry(t: Tables, n: Id, policy: Policy)
    requires NamesUnique(t) && PoliciesStorable(t)
    ensures NamesUnique(UpdatePolicyTx(t, n, policy).0) && PoliciesStorable(UpdatePolicyTx(t, n, policy).0)
  {
    var u := UpdatePolicyTx(t, n, policy).0;
    assert forall x | x in u.namespaces :: u.namespaces[x].name == t.namespaces[x].name;
  }

  lemma StepRegistry(engines: Option<Registry>, t: Tables, s: Step)
    requires Sound(t) && NamesUnique(t) && PoliciesStorable(t)
    ensures NamesUnique(Next(engines, t, s)) && PoliciesStorable(Next(engines, t, s))
  {
    match s
    case CreateNamespace(ns) => CreateKeepsRegistry(t, ns);
    case UpdatePolicy(n, policy) => UpdateKeepsRegistry(t, n, policy);
    case _ => GovernanceKeepsNamespaces(engines, t, s);
  }

  lemma {:induction false} RunRegistryFrom(engines: Option<Registry>, t: Tables, steps: seq<Step>)
    requires Sound(t) && NamesUnique(t) && PoliciesStorable(t)
    ensures NamesUnique(RunFrom(engines, t, steps)) && PoliciesStorable(RunFrom(engines, t, steps))
  {
    if steps != [] {
      RunRegistryFrom(engines, t, steps[..|steps|-1]);
      StepRegistry(engines, RunFrom(engines, t, steps[..|steps|-1]), steps[|steps|-1]);
    }
  }

  /** In every run names stay unique, and stored rules that simple/v1 validates are never refused as an error. */
  lemma RunRegistry(engines: Option<Registry>, steps: seq<Step>, n: Id, c: Candidate)
    ensures NamesUnique(Exec(engines, steps))
    ensures var t := Exec(engines, steps);
            n in t.namespaces && t.namespaces[n].policy.autoPromote.Some? ==>
              var rules := t.namespaces[n].policy.autoPromote.value.rules;
              Valid(rules) ==> Evaluate(c, rules) != Verdict.Error
  {
    EmptySound();
    RunRegistryFrom(engines, EMPTY, steps);
  }
}
