/** The /context read path end to end (internal/server/handlers_context.go). */
module Context {
  import opened Basics
  import opened Schema
  import opened Resolver
  import opened Runs
  import opened Entitlement

  datatype Request = Request(
    narrowTo: Option<seq<Option<Id>>>,   // the parsed `namespaces` override; a bad id parses to None
    tags: set<string>, limit: int)

  /** The override accepts the namespace, or there is none. */
  ghost predicate Narrowed(r: Request, n: Id) {
    r.narrowTo.Some? ==> Some(n) in r.narrowTo.value
  }

  /** The namespaces a request may see. */
  ghost function Scope(t: Tables, principal: string, r: Request): set<Id> {
    set n | n in t.namespaces && MayRead(t, principal, n) && Narrowed(r, n)
  }

  /**
   * getContext: intersects the readable set with the override and resolves. A malformed id in the
   * override refuses the request.
   */
  method GetContext(t: Tables, e: Entitlements, r: Request, now: int, mem: Memories)
    returns (items: Option<seq<Item>>)
    requires Describes(e, t)
    ensures items.None? <==> r.narrowTo.Some? && None in r.narrowTo.value
    ensures items.Some? ==> Resolves(items.value, t, QueryOf(t, e.principal, r), now, mem)
  {
    var readable := e.readable;
    if r.narrowTo.Some? {
      var want: set<Id> := {};
      var raw := r.narrowTo.value;
      for i := 0 to |raw|
        invariant None !in raw[..i]
        invariant forall n :: n in want <==> Some(n) in raw[..i]
      {
        if raw[i].None? {
          return None;
        }
        want := want + {raw[i].value};
      }
      assert raw[..|raw|] == raw;
      var filtered: set<Id> := {};
      var left := readable;
      while left != {}
        invariant left <= readable
        invariant filtered == set n | n in readable && n !in left && n in want
      {
        var n :| n in left;
        if n in want {
          filtered := filtered + {n};
        }
        left := left - {n};
      }
      readable := filtered;
    }
    forall n ensures n in readable <==> n in Scope(t, e.principal, r) {
      if MayRead(t, e.principal, n) {
        ReadableExists(t, e.principal, n);
      }
    }
    assert readable == Scope(t, e.principal, r);
    var found := Resolve(t, Query(readable, r.tags, r.limit), now, mem);
    items := Some(found);
  }

  /** What the request asks of the resolver. */
  ghost function QueryOf(t: Tables, principal: string, r: Request): Query {
    Query(Scope(t, principal, r), r.tags, r.limit)
  }

  // ---- What an answer is, in terms of rows ----

  /** The request may see the fact: active, unexpired, in scope, and passing the tags. */
  ghost predicate Visible(t: Tables, principal: string, r: Request, now: int, f: Id) {
    && f in t.facts && t.facts[f].status == Active && t.facts[f].ns in t.namespaces
    && (t.facts[f].validTo.Some? ==> t.facts[f].validTo.value > now)
    && MayRead(t, principal, t.facts[f].ns) && Narrowed(r, t.facts[f].ns)
    && (|| r.tags == {}
        || (exists tag :: tag in r.tags && tag in t.facts[f].tags)
        || "authoritative:true" in t.facts[f].tags
        || "tier:always" in t.facts[f].tags)
  }

  /**
   * Nothing puts g before f: an authoritative fact yields to none that is not, and at equal authority
   * a project's yields only to a user's, a team's to a user's or a project's, an org's to all three.
   */
  predicate Stands(t: Tables, f: Id, g: Id)
    requires f in t.facts && g in t.facts && t.facts[f].ns in t.namespaces && t.facts[g].ns in t.namespaces
  {
    var first, second := "authoritative:true" in t.facts[f].tags, "authoritative:true" in t.facts[g].tags;
    var mine, theirs := t.namespaces[t.facts[f].ns].kind, t.namespaces[t.facts[g].ns].kind;
    && (second ==> first)
    && (first == second ==>
          match mine
          case User => true
          case Project => theirs != User
          case Team => theirs != User && theirs != Project
          case Org => theirs != User && theirs != Project && theirs != Team)
  }

  /** The item shows the columns of the fact and the kind of its namespace. */
  predicate Shows(t: Tables, x: Item)
    requires x.FactItem?
  {
    var f := x.row.fact;
    && f in t.facts && t.facts[f].ns in t.namespaces
    && x.row.key == t.facts[f].key && x.row.statement == t.facts[f].statement && x.row.ns == t.facts[f].ns
    && x.row.kind == t.namespaces[t.facts[f].ns].kind && x.row.validTo == t.facts[f].validTo
    && x.row.tags == t.facts[f].tags
  }

  ghost function VisibleKeys(t: Tables, principal: string, r: Request, now: int): set<string> {
    set f | f in t.facts && Visible(t, principal, r, now, f) :: t.facts[f].key
  }

  /** An item for every key there is to see, if and only if the limit has room for them. */
  ghost predicate Complete(t: Tables, principal: string, r: Request, now: int, items: seq<Item>) {
    (forall g | Visible(t, principal, r, now, g) ::
       exists i :: 0 <= i < |items| && items[i].FactItem? && items[i].row.key == t.facts[g].key)
    <==> (r.limit <= 0 || |VisibleKeys(t, principal, r, now)| <= r.limit)
  }

  /** The facts: visible, nothing put before them, first, and strictly in key order. */
  ghost predicate FactsOk(t: Tables, principal: string, r: Request, now: int, items: seq<Item>) {
    && (forall i | 0 <= i < |items| && items[i].FactItem? ::
          && Shows(t, items[i]) && Visible(t, principal, r, now, items[i].row.fact)
          && forall g | Visible(t, principal, r, now, g) && t.facts[g].key == items[i].row.key ::
               Stands(t, items[i].row.fact, g))
    && (forall i, j | 0 <= i < j < |items| && items[j].FactItem? ::
          items[i].FactItem? && Less(items[i].row.key, items[j].row.key))
  }

  /** The memories: the backend's, never for a visible key, and without a limit all the others. */
  ghost predicate MemoriesOk(t: Tables, principal: string, r: Request, now: int, mem: Memories, items: seq<Item>) {
    && (forall i | 0 <= i < |items| && items[i].MemoryItem? ::
          && mem.Listed? && items[i].memory in mem.memories
          && forall g | Visible(t, principal, r, now, g) :: items[i].memory.key != Some(t.facts[g].key))
    && (r.limit <= 0 && mem.Listed? ==>
          forall m | m in mem.memories
                     && (forall g | Visible(t, principal, r, now, g) :: m.key != Some(t.facts[g].key)) ::
            MemoryItem(m) in items)
  }

  lemma VisibleIsRow(t: Tables, principal: string, r: Request, now: int, f: Id)
    ensures Visible(t, principal, r, now, f) <==> Eligible(t, QueryOf(t, principal, r), now, f)
  {
    if f in t.facts {
      if tag :| tag in r.tags && tag in t.facts[f].tags {
        assert tag in t.facts[f].tags * r.tags;
      }
      if t.facts[f].tags * r.tags != {} {
        var tag :| tag in t.facts[f].tags * r.tags;
        assert tag in r.tags && tag in t.facts[f].tags;
      }
    }
  }

  lemma RankStands(t: Tables, f: Id, g: Id)
    requires f in t.facts && g in t.facts && t.facts[f].ns in t.namespaces && t.facts[g].ns in t.namespaces
    ensures Rank(RowOf(t, g)) <= Rank(RowOf(t, f)) <==> Stands(t, f, g)
  {
  }

  lemma FactsMean(t: Tables, principal: string, r: Request, now: int, mem: Memories, items: seq<Item>)
    requires Resolves(items, t, QueryOf(t, principal, r), now, mem)
    ensures FactsOk(t, principal, r, now, items)
  {
    var q := QueryOf(t, principal, r);
    forall i | 0 <= i < |items| && items[i].FactItem?
      ensures Shows(t, items[i]) && Visible(t, principal, r, now, items[i].row.fact)
      ensures forall g | Visible(t, principal, r, now, g) && t.facts[g].key == items[i].row.key ::
                Stands(t, items[i].row.fact, g)
    {
      AnswerSound(t, q, now, mem, items, i, i);
      VisibleIsRow(t, principal, r, now, items[i].row.fact);
      forall g | Visible(t, principal, r, now, g) && t.facts[g].key == items[i].row.key
        ensures Stands(t, items[i].row.fact, g)
      {
        VisibleIsRow(t, principal, r, now, g);
        AnswerMaximal(t, q, now, mem, items, i, RowOf(t, g));
        RankStands(t, items[i].row.fact, g);
      }
    }
    forall i, j | 0 <= i < j < |items| && items[j].FactItem?
      ensures items[i].FactItem? && Less(items[i].row.key, items[j].row.key)
    {
      AnswerSound(t, q, now, mem, items, i, j);
    }
  }

  lemma CompleteMeans(t: Tables, principal: string, r: Request, now: int, mem: Memories, items: seq<Item>)
    requires Resolves(items, t, QueryOf(t, principal, r), now, mem)
    ensures Complete(t, principal, r, now, items)
  {
    var q := QueryOf(t, principal, r);
    AnswerComplete(t, q, now, mem, items);
    forall f ensures Visible(t, principal, r, now, f) <==> Eligible(t, q, now, f) {
      VisibleIsRow(t, principal, r, now, f);
    }
    assert VisibleKeys(t, principal, r, now) == EligibleKeys(t, q, now);
    forall g | Visible(t, principal, r, now, g)
      ensures Represented(items, RowOf(t, g)) <==>
                exists i :: 0 <= i < |items| && items[i].FactItem? && items[i].row.key == t.facts[g].key
    {
      if i :| 0 <= i < |items| && items[i].FactItem? && items[i].row.key == t.facts[g].key {
        AnswerMaximal(t, q, now, mem, items, i, RowOf(t, g));
        assert Represents(items[i], RowOf(t, g));
      }
    }
    assert forall row | IsRow(t, q, now, row) :: Visible(t, principal, r, now, row.fact) && row == RowOf(t, row.fact);
    assert forall g | Visible(t, principal, r, now, g) :: IsRow(t, q, now, RowOf(t, g));
  }

  lemma MemoriesMean(t: Tables, principal: string, r: Request, now: int, mem: Memories, items: seq<Item>)
    requires Resolves(items, t, QueryOf(t, principal, r), now, mem)
    ensures MemoriesOk(t, principal, r, now, mem, items)
  {
    var q := QueryOf(t, principal, r);
    var rows: seq<Row>, winners: seq<Row> :|
      Selects(rows, t, q, now) && Lists(winners, Best(rows)) && items == Merged(winners, mem, q.limit);
    WinnerKeys(t, q, now, rows, winners);
    forall g ensures Visible(t, principal, r, now, g) <==> Eligible(t, q, now, g) {
      VisibleIsRow(t, principal, r, now, g);
    }
    forall i | 0 <= i < |items| && items[i].MemoryItem?
      ensures mem.Listed? && items[i].memory in mem.memories
      ensures forall g | Visible(t, principal, r, now, g) :: items[i].memory.key != Some(t.facts[g].key)
    {
      MemoriesBelowFacts(winners, mem, q.limit, i);
      forall g | Visible(t, principal, r, now, g) ensures items[i].memory.key != Some(t.facts[g].key) {
        assert t.facts[g].key in EligibleKeys(t, q, now);
        assert t.facts[g].key in KeysOf(winners);
      }
    }
    if r.limit <= 0 && mem.Listed? {
      UncoveredMeaning(mem.memories, KeysOf(winners));
      forall k | k in KeysOf(winners) ensures exists g :: Visible(t, principal, r, now, g) && t.facts[g].key == k {
        assert k in EligibleKeys(t, q, now);
      }
      forall m | m in mem.memories && (forall g | Visible(t, principal, r, now, g) :: m.key != Some(t.facts[g].key))
        ensures MemoryItem(m) in items
      {
        assert MemoryItem(m) in Uncovered(mem.memories, KeysOf(winners));
      }
    }
  }

  /**
   * The read path, end to end: only a malformed override is refused, and any other request is answered
   * with exactly the facts it may see that nothing puts before, one per key, and the memories below.
   */
  method ScopedContext(t: Tables, principal: string, admin: bool, r: Request, now: int, mem: Memories)
    returns (items: Option<seq<Item>>)
    ensures items.None? <==> r.narrowTo.Some? && None in r.narrowTo.value
    ensures items.Some? ==> Resolves(items.value, t, QueryOf(t, principal, r), now, mem)
    ensures items.Some? ==> FactsOk(t, principal, r, now, items.value)
    ensures items.Some? ==> Complete(t, principal, r, now, items.value)
    ensures items.Some? ==> MemoriesOk(t, principal, r, now, mem, items.value)
    ensures items.Some? && r.limit > 0 ==> |items.value| <= r.limit
  {
    var e := ResolvePrincipal(t, principal, admin);
    items := GetContext(t, e, r, now, mem);
    if items.Some? {
      FactsMean(t, principal, r, now, mem, items.value);
      CompleteMeans(t, principal, r, now, mem, items.value);
      MemoriesMean(t, principal, r, now, mem, items.value);
    }
  }

  /** An override only narrows: each fact it returns has its key in the full answer, at no lower rank. */
  lemma OverrideNarrows(t: Tables, principal: string, r: Request, now: int, mem: Memories,
                        narrow: seq<Item>, full: seq<Item>, i: nat)
    requires Resolves(narrow, t, QueryOf(t, principal, r), now, mem)
    requires Resolves(full, t, QueryOf(t, principal, r.(narrowTo := None)), now, mem)
    requires Fits(t, QueryOf(t, principal, r.(narrowTo := None)), now)
    requires i < |narrow| && narrow[i].FactItem?
    ensures Represented(full, narrow[i].row)
  {
    var q, wide := QueryOf(t, principal, r), QueryOf(t, principal, r.(narrowTo := None));
    WiderAnswer(t, q, wide, now, mem, mem, narrow, full, i);
  }

  /** The namespaces of the scope have different kinds, as along a user, project, team and org chain. */
  ghost predicate KindsDiffer(t: Tables, scope: set<Id>) {
    forall m, n | m in scope && n in scope && m in t.namespaces && n in t.namespaces
      && t.namespaces[m].kind == t.namespaces[n].kind :: m == n
  }

  /**
   * In every reachable state, one active fact per slot leaves no ties between namespaces of different
   * kinds, so a request has one answer, whatever order rows and map entries come in.
   */
  lemma OneAnswer(t: Tables, q: Query, now: int, mem: Memories, a: seq<Item>, b: seq<Item>)
    requires Sound(t) && KindsDiffer(t, q.namespaces)
    requires Resolves(a, t, q, now, mem) && Resolves(b, t, q, now, mem)
    ensures a == b
  {
    SlotsLeaveNoTies(t, q, now);
    AnswerDetermined(t, q, now, mem, a, b);
  }

  lemma SlotsLeaveNoTies(t: Tables, q: Query, now: int)
    requires SlotUnique(t.facts) && KindsDiffer(t, q.namespaces)
    ensures NoTies(t, q, now)
  {
    forall r, s | IsRow(t, q, now, r) && IsRow(t, q, now, s) && s.key == r.key && Rank(s) == Rank(r) ensures s == r {
      assert Rivals(t.facts[r.fact], t.facts[s.fact]);
    }
  }
}
