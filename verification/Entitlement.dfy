/** Who may read and who may act (internal/rbac), and the namespace forest it walks. */
module Entitlement {
  import opened Basics
  import opened Schema
  import opened Autopromote
  import opened Workflow
  import Maintenance
  import Subjects
  import opened Runs

  // ---- Capabilities ----

  datatype Action = ReadFacts | ProposePromotion | ApproveReject | RevokeFacts | ManageMembers | UnknownAction

  function RoleRank(r: Role): Option<nat> {
    match r
    case Reader => Some(0)
    case Contributor => Some(1)
    case Reviewer => Some(2)
    case NamespaceAdmin => Some(3)
    case UnknownRole(_) => None
  }

  function MinRank(a: Action): Option<nat> {
    match a
    case ReadFacts => Some(0)
    case ProposePromotion => Some(1)
    case ApproveReject => Some(2)
    case RevokeFacts => Some(2)
    case ManageMembers => Some(3)
    case UnknownAction => None
  }

  predicate RoleCan(r: Role, a: Action) {
    RoleRank(r).Some? && MinRank(a).Some? && RoleRank(r).value >= MinRank(a).value
  }

  predicate CanAny(roles: seq<Role>, a: Action) {
    exists i | 0 <= i < |roles| :: RoleCan(roles[i], a)
  }

  /** The capability matrix, spelled out. */
  lemma RoleMatrix(r: Role, a: Action)
    ensures RoleCan(r, a) <==>
              || (a == ReadFacts && r in {Reader, Contributor, Reviewer, NamespaceAdmin})
              || (a == ProposePromotion && r in {Contributor, Reviewer, NamespaceAdmin})
              || (a == ApproveReject && r in {Reviewer, NamespaceAdmin})
              || (a == RevokeFacts && r in {Reviewer, NamespaceAdmin})
              || (a == ManageMembers && r == NamespaceAdmin)
  {
  }

  // ---- The parent forest ----

  /** The ancestor k steps up. */
  ghost function Up(ns: map<Id, Namespace>, n: Id, k: nat): Option<Id>
    decreases k
  {
    if n !in ns then None
    else if k == 0 then Some(n)
    else if ns[n].parent.None? then None
    else Up(ns, ns[n].parent.value, k - 1)
  }

  ghost predicate Above(ns: map<Id, Namespace>, n: Id, a: Id) {
    exists k: nat :: Up(ns, n, k) == Some(a)
  }

  lemma {:induction false} UpAdd(ns: map<Id, Namespace>, n: Id, j: nat, k: nat)
    requires Up(ns, n, j).Some?
    ensures Up(ns, n, j + k) == Up(ns, Up(ns, n, j).value, k)
    decreases j
  {
    if j != 0 {
      UpAdd(ns, ns[n].parent.value, j - 1, k);
    }
  }

  /** The ancestors of a namespace form a single chain. */
  lemma AncestorsAreChain(ns: map<Id, Namespace>, n: Id, a: Id, b: Id)
    requires Above(ns, n, a) && Above(ns, n, b)
    ensures Above(ns, a, b) || Above(ns, b, a)
  {
    var j: nat :| Up(ns, n, j) == Some(a);
    var k: nat :| Up(ns, n, k) == Some(b);
    if j <= k {
      UpAdd(ns, n, j, k - j);
      assert Up(ns, a, k - j) == Some(b);
    } else {
      UpAdd(ns, n, k, j - k);
      assert Up(ns, b, j - k) == Some(a);
    }
  }

  // ---- Resolving a principal ----

  ghost predicate GrantedIn(t: Tables, principal: string, n: Id) {
    exists m :: m in t.memberships && m.principal == principal && m.ns == n
  }

  /** Reflexive-transitive ancestors of the directly granted namespaces. */
  ghost predicate MayRead(t: Tables, principal: string, a: Id) {
    exists n :: GrantedIn(t, principal, n) && Above(t.namespaces, n, a)
  }

  ghost predicate MayDo(t: Tables, principal: string, n: Id, a: Action) {
    exists m :: m in t.memberships && m.principal == principal && m.ns == n && RoleCan(m.role, a)
  }

  datatype Entitlements = Entitlements(principal: string, admin: bool, direct: map<Id, seq<Role>>, readable: set<Id>) {

    predicate Can(n: Id, a: Action) {
      admin || (n in direct && CanAny(direct[n], a))
    }

    predicate CanRead(n: Id) {
      admin || n in readable
    }
  }

  /** The entitlements agree with the tables. */
  ghost predicate Describes(e: Entitlements, t: Tables) {
    && (forall a :: a in e.readable <==> MayRead(t, e.principal, a))
    && (forall n, r :: (n in e.direct && r in e.direct[n]) <==> Membership(e.principal, n, r) in t.memberships)
  }

  ghost predicate ClosedExcept(ns: map<Id, Namespace>, readable: set<Id>, frontier: set<Id>) {
    forall n | n in readable && n !in frontier ::
      n in ns && (ns[n].parent.Some? && ns[n].parent.value in ns ==> ns[n].parent.value in readable)
  }

  lemma {:induction false} ClosedHolds(ns: map<Id, Namespace>, readable: set<Id>, n: Id, k: nat)
    requires ClosedExcept(ns, readable, {}) && n in readable && Up(ns, n, k).Some?
    ensures Up(ns, n, k).value in readable
    decreases k
  {
    if k > 0 {
      ClosedHolds(ns, readable, ns[n].parent.value, k - 1);
    }
  }

  lemma OneStepUp(ns: map<Id, Namespace>, n: Id, b: Id)
    requires Above(ns, n, b) && b in ns && ns[b].parent.Some? && ns[b].parent.value in ns
    ensures Above(ns, n, ns[b].parent.value)
  {
    var k: nat :| Up(ns, n, k) == Some(b);
    UpAdd(ns, n, k, 1);
    assert Up(ns, b, 1) == Some(ns[b].parent.value) by {
      assert Up(ns, ns[b].parent.value, 0) == Some(ns[b].parent.value);
    }
    assert Up(ns, n, k + 1) == Some(ns[b].parent.value);
  }

  function Parents(ns: map<Id, Namespace>, frontier: set<Id>): set<Id> {
    set n | n in frontier && n in ns && ns[n].parent.Some? && ns[n].parent.value in ns :: ns[n].parent.value
  }

  /** The walk so far: sound, holding every grant, and complete except above its frontier. */
  ghost predicate Explored(t: Tables, principal: string, readable: set<Id>, frontier: set<Id>) {
    && frontier <= readable <= t.namespaces.Keys
    && (forall n | GrantedIn(t, principal, n) && n in t.namespaces :: n in readable)
    && (forall a | a in readable :: MayRead(t, principal, a))
    && ClosedExcept(t.namespaces, readable, frontier)
  }

  lemma ExploreStart(t: Tables, principal: string, frontier: set<Id>)
    requires forall n :: n in frontier <==> GrantedIn(t, principal, n) && n in t.namespaces
    ensures Explored(t, principal, frontier, frontier)
  {
    forall a | a in frontier ensures MayRead(t, principal, a) {
      assert Up(t.namespaces, a, 0) == Some(a);
    }
  }

  lemma ExploreStep(t: Tables, principal: string, readable: set<Id>, frontier: set<Id>)
    requires Explored(t, principal, readable, frontier)
    ensures var found := Parents(t.namespaces, frontier) - readable;
            Explored(t, principal, readable + found, found)
  {
    forall b | b in frontier && t.namespaces[b].parent.Some? && t.namespaces[b].parent.value in t.namespaces
      ensures MayRead(t, principal, t.namespaces[b].parent.value)
    {
      assert MayRead(t, principal, b);
      var n :| GrantedIn(t, principal, n) && Above(t.namespaces, n, b);
      OneStepUp(t.namespaces, n, b);
    }
  }

  lemma ExploreEnd(t: Tables, principal: string, readable: set<Id>, a: Id)
    requires Explored(t, principal, readable, {})
    ensures a in readable <==> MayRead(t, principal, a)
  {
    if MayRead(t, principal, a) {
      var n :| GrantedIn(t, principal, n) && Above(t.namespaces, n, a);
      var k: nat :| Up(t.namespaces, n, k) == Some(a);
      ClosedHolds(t.namespaces, readable, n, k);
    }
  }

  /**
   * The recursive query: starts from the granted namespaces and adds parents until nothing new
   * appears. It terminates on any parent graph, cyclic or not.
   */
  method ReadableSet(t: Tables, principal: string) returns (readable: set<Id>)
    ensures forall a :: a in readable <==> MayRead(t, principal, a)
  {
    var granted := set m | m in t.memberships && m.principal == principal :: m.ns;
    var frontier := set n | n in granted && n in t.namespaces;
    readable := frontier;
    ExploreStart(t, principal, frontier);
    while frontier != {}
      invariant Explored(t, principal, readable, frontier)
      decreases t.namespaces.Keys - readable, frontier
    {
      ExploreStep(t, principal, readable, frontier);
      frontier := Parents(t.namespaces, frontier) - readable;
      readable := readable + frontier;
    }
    forall a ensures a in readable <==> MayRead(t, principal, a) {
      ExploreEnd(t, principal, readable, a);
    }
  }

  lemma {:induction false} UpExists(ns: map<Id, Namespace>, n: Id, k: nat)
    requires Up(ns, n, k).Some?
    ensures Up(ns, n, k).value in ns
    decreases k
  {
    if k > 0 {
      UpExists(ns, ns[n].parent.value, k - 1);
    }
  }

  /** Only namespaces that exist are readable. */
  lemma ReadableExists(t: Tables, principal: string, a: Id)
    requires MayRead(t, principal, a)
    ensures a in t.namespaces
  {
    var n :| GrantedIn(t, principal, n) && Above(t.namespaces, n, a);
    var k: nat :| Up(t.namespaces, n, k) == Some(a);
    UpExists(t.namespaces, n, k);
  }

  /** Repo.Resolve: the direct roles, filled row by row in any order, and the readable set. */
  method ResolvePrincipal(t: Tables, principal: string, admin: bool) returns (e: Entitlements)
    ensures e.principal == principal && e.admin == admin && Describes(e, t)
  {
    var direct: map<Id, seq<Role>> := map[];
    var left := set m | m in t.memberships && m.principal == principal;
    while left != {}
      invariant forall m | m in left :: m in t.memberships && m.principal == principal
      invariant forall n, r :: (n in direct && r in direct[n]) <==>
                  Membership(principal, n, r) in t.memberships && Membership(principal, n, r) !in left
    {
      var m :| m in left;
      assert m == Membership(principal, m.ns, m.role);
      direct := direct[m.ns := (if m.ns in direct then direct[m.ns] else []) + [m.role]];
      left := left - {m};
    }
    var readable := ReadableSet(t, principal);
    e := Entitlements(principal, admin, direct, readable);
  }

  /** What Can and CanRead decide, in terms of the tables. */
  lemma CanMeaning(e: Entitlements, t: Tables, n: Id, a: Action)
    requires Describes(e, t)
    ensures e.Can(n, a) <==> e.admin || MayDo(t, e.principal, n, a)
    ensures e.CanRead(n) <==> e.admin || MayRead(t, e.principal, n)
  {
    if n in e.direct && CanAny(e.direct[n], a) {
      var i :| 0 <= i < |e.direct[n]| && RoleCan(e.direct[n][i], a);
      assert Membership(e.principal, n, e.direct[n][i]) in t.memberships;
    }
    if m :| m in t.memberships && m.principal == e.principal && m.ns == n && RoleCan(m.role, a) {
      assert m == Membership(e.principal, n, m.role);
      assert m.role in e.direct[n];
    }
  }

  // ---- Granting ----

  /**
   * A grant adds exactly one ancestor chain of read access, to its principal only, and no
   * permission in any other namespace; write permissions never inherit.
   */
  lemma GrantAddsOneChain(t: Tables, m: Membership, who: string, n: Id, a: Action)
    requires GrantTx(t, m).1
    ensures var u := GrantTx(t, m).0;
            && (MayRead(u, who, n) <==> MayRead(t, who, n) || (who == m.principal && Above(t.namespaces, m.ns, n)))
            && (MayDo(u, who, n, a) <==> MayDo(t, who, n, a) || (who == m.principal && n == m.ns && RoleCan(m.role, a)))
  {
  }

  // ---- The forest over runs ----

  /** A parent is created before its children. */
  ghost predicate ParentsOlder(t: Tables) {
    forall n | n in t.namespaces && t.namespaces[n].parent.Some? :: t.namespaces[n].parent.value < n
  }

  lemma StepParents(engines: Option<Registry>, t: Tables, s: Step)
    requires Sound(t) && ParentsOlder(t)
    ensures ParentsOlder(Next(engines, t, s))
  {
    NamespacesKept(engines, t, s);
  }

  lemma ProposeKeepsNamespaces(engines: Option<Registry>, t: Tables, input: ProposeInput, key: string, terms: Terms,
                               now: int, embedOk: bool)
    ensures ProposeKeyed(engines, t, input, key, terms, now, embedOk).0.namespaces == t.namespaces
  {
  }

  /** No namespace is lost or re-parented; a new one names an existing parent. */
  ghost predicate Extended(t: Tables, u: Tables) {
    && (forall n | n in t.namespaces :: n in u.namespaces && u.namespaces[n].parent == t.namespaces[n].parent)
    && (forall n | n in u.namespaces && n !in t.namespaces ::
          n == t.next && RefersTo(u.namespaces[n].parent, t.namespaces.Keys))
  }

  /** Only the registry touches namespaces. */
  lemma GovernanceKeepsNamespaces(engines: Option<Registry>, t: Tables, s: Step)
    requires References(t) && !s.CreateNamespace? && !s.UpdatePolicy?
    ensures Next(engines, t, s).namespaces == t.namespaces
  {
    if s.Propose? {
      ProposeKeepsNamespaces(engines, t, s.input, Subjects.KeyOf(s.input.subject), s.terms, s.now, s.embedOk);
    } else if s.Reap? {
      if Enumerates(s.order, DueIds(t, s.now)) {
        Maintenance.ExpireAllFacts(t, s.order);
      }
    }
  }

  lemma NamespacesKept(engines: Option<Registry>, t: Tables, s: Step)
    requires Sound(t)
    ensures Extended(t, Next(engines, t, s))
  {
    match s
    case CreateNamespace(ns) => assert Extended(t, CreateNamespaceTx(t, ns).0);
    case UpdatePolicy(n, policy) => assert Extended(t, UpdatePolicyTx(t, n, policy).0);
    case _ => GovernanceKeepsNamespaces(engines, t, s);
  }

  lemma {:induction false} RunParents(engines: Option<Registry>, steps: seq<Step>)
    ensures ParentsOlder(Exec(engines, steps))
  {
    EmptySound();
    RunParentsFrom(engines, EMPTY, steps);
  }

  lemma {:induction false} RunParentsFrom(engines: Option<Registry>, t: Tables, steps: seq<Step>)
    requires Sound(t) && ParentsOlder(t)
    ensures ParentsOlder(RunFrom(engines, t, steps))
  {
    if steps != [] {
      RunParentsFrom(engines, t, steps[..|steps|-1]);
      StepParents(engines, RunFrom(engines, t, steps[..|steps|-1]), steps[|steps|-1]);
    }
  }

  lemma {:induction false} UpIsOlder(t: Tables, n: Id, k: nat)
    requires ParentsOlder(t) && Up(t.namespaces, n, k).Some?
    ensures Up(t.namespaces, n, k).value + k <= n
    decreases k
  {
    if k > 0 {
      UpIsOlder(t, t.namespaces[n].parent.value, k - 1);
    }
  }

  /** Over all runs the parent graph is acyclic. */
  lemma ForestAcyclic(engines: Option<Registry>, steps: seq<Step>, n: Id, k: nat)
    requires k > 0
    ensures Up(Exec(engines, steps).namespaces, n, k) != Some(n)
  {
    RunParents(engines, steps);
    if Up(Exec(engines, steps).namespaces, n, k) == Some(n) {
      UpIsOlder(Exec(engines, steps), n, k);
    }
  }
}
