/** The context resolver (internal/contextsvc/contextsvc.go). */
module Resolver {
  import opened Basics
  import opened Schema
  import opened Workflow
  import opened Maintenance

  // ---- The query ----

  datatype Query = Query(namespaces: set<Id>, tags: set<string>, limit: int)

  /** One row of the query: a fact joined with its namespace. */
  datatype Row = Row(fact: Id, key: string, statement: string, ns: Id, kind: Kind, validTo: Option<int>,
                     tags: set<string>)

  const AUTHORITATIVE := "authoritative:true"
  const ALWAYS := "tier:always"

  /** The tag filter with its two always-pass markers. */
  predicate Passes(tags: set<string>, wanted: set<string>) {
    wanted == {} || tags * wanted != {} || AUTHORITATIVE in tags || ALWAYS in tags
  }

  predicate Eligible(t: Tables, q: Query, now: int, f: Id) {
    && f in t.facts && t.facts[f].status == Active
    && t.facts[f].ns in q.namespaces && t.facts[f].ns in t.namespaces
    && (t.facts[f].validTo.None? || t.facts[f].validTo.value > now)
    && Passes(t.facts[f].tags, q.tags)
  }

  function RowOf(t: Tables, f: Id): Row
    requires f in t.facts && t.facts[f].ns in t.namespaces
  {
    var x := t.facts[f];
    Row(f, x.key, x.statement, x.ns, t.namespaces[x.ns].kind, x.validTo, x.tags)
  }

  ghost predicate IsRow(t: Tables, q: Query, now: int, r: Row) {
    Eligible(t, q, now, r.fact) && r == RowOf(t, r.fact)
  }

  /** The rows of the query, in an order the database chooses. */
  ghost predicate Selects(rows: seq<Row>, t: Tables, q: Query, now: int) {
    && (forall i, j | 0 <= i < j < |rows| :: rows[i].fact != rows[j].fact)
    && (forall r :: r in rows <==> IsRow(t, q, now, r))
  }

  method QueryRows(t: Tables, q: Query, now: int) returns (rows: seq<Row>)
    ensures Selects(rows, t, q, now)
  {
    rows := [];
    var left := set f | f in t.facts && Eligible(t, q, now, f);
    while left != {}
      invariant forall f | f in left :: Eligible(t, q, now, f)
      invariant forall r :: r in rows <==> IsRow(t, q, now, r) && r.fact !in left
      invariant forall i, j | 0 <= i < j < |rows| :: rows[i].fact != rows[j].fact
    {
      var f :| f in left;
      assert RowOf(t, f) !in rows;
      rows := rows + [RowOf(t, f)];
      left := left - {f};
    }
  }

  // ---- Precedence ----

  function KindRank(k: Kind): nat {
    match k
    case User => 3
    case Project => 2
    case Team => 1
    case Org => 0
  }

  predicate Authoritative(r: Row) {
    AUTHORITATIVE in r.tags
  }

  predicate Outranks(a: Row, b: Row) {
    if Authoritative(a) != Authoritative(b) then Authoritative(a)
    else KindRank(a.kind) > KindRank(b.kind)
  }

  /** Precedence as one number: authoritative first, then specificity. */
  function Rank(r: Row): nat {
    (if Authoritative(r) then 4 else 0) + KindRank(r.kind)
  }

  lemma OutranksIsRank(a: Row, b: Row)
    ensures Outranks(a, b) <==> Rank(a) > Rank(b)
  {
  }

  /**
   * The first row may stand before the second, spelled out: it is authoritative if the second is, and
   * at equal authority a user's row stands before any, a project's before all but a user's, a team's
   * only before a team's and an org's, an org's only before an org's.
   */
  predicate Prevails(w: Row, r: Row) {
    && ("authoritative:true" in r.tags ==> "authoritative:true" in w.tags)
    && (("authoritative:true" in r.tags <==> "authoritative:true" in w.tags) ==>
          match w.kind
          case User => true
          case Project => r.kind != User
          case Team => r.kind != User && r.kind != Project
          case Org => r.kind == Org)
  }

  lemma RankPrevails(w: Row, r: Row)
    ensures Rank(r) <= Rank(w) <==> Prevails(w, r)
  {
  }

  type BestMap = map<string, Row>

  function Consider(best: BestMap, r: Row): BestMap {
    if r.key !in best || Outranks(r, best[r.key]) then best[r.key := r] else best
  }

  /** The one pass over the rows. */
  function Best(rows: seq<Row>): BestMap {
    if rows == [] then map[] else Consider(Best(rows[..|rows|-1]), rows[|rows|-1])
  }

  /** The first row of its key among those of the highest precedence. */
  ghost predicate FirstMaximum(rows: seq<Row>, i: nat)
    requires i < |rows|
  {
    forall j | 0 <= j < |rows| && rows[j].key == rows[i].key ::
      Rank(rows[j]) <= Rank(rows[i]) && (j < i ==> Rank(rows[j]) < Rank(rows[i]))
  }

  lemma NewMaximum(init: seq<Row>, last: Row)
    requires forall r | r in init && r.key == last.key :: Rank(r) < Rank(last)
    ensures FirstMaximum(init + [last], |init|)
  {
  }

  lemma KeptMaximum(init: seq<Row>, last: Row, i: nat)
    requires i < |init| && FirstMaximum(init, i)
    requires last.key == init[i].key ==> Rank(last) <= Rank(init[i])
    ensures FirstMaximum(init + [last], i)
  {
  }

  /** The row is the first of maximal precedence among those of the key. */
  ghost predicate Wins(rows: seq<Row>, k: string, r: Row) {
    exists i :: 0 <= i < |rows| && rows[i] == r && r.key == k && FirstMaximum(rows, i)
  }

  /** One more row: the new row wins its key if it outranks the winner so far. */
  lemma OneMoreRow(init: seq<Row>, last: Row, k: string)
    requires k in Best(init) <==> exists r :: r in init && r.key == k
    requires k in Best(init) ==> Wins(init, k, Best(init)[k])
    ensures var best := Consider(Best(init), last);
            && (k in best <==> exists r :: r in init + [last] && r.key == k)
            && (k in best ==> Wins(init + [last], k, best[k]))
  {
    var rows := init + [last];
    if last.key == k {
      assert last in rows;
      if k in Best(init) {
        OutranksIsRank(last, Best(init)[k]);
      }
    }
    if k in Best(init) {
      var i :| 0 <= i < |init| && init[i] == Best(init)[k] && init[i].key == k && FirstMaximum(init, i);
      assert rows[i] == init[i] && init[i] in rows;
      if last.key == k && Outranks(last, init[i]) {
        NewMaximum(init, last);
        assert rows[|init|] == last;
      } else {
        KeptMaximum(init, last, i);
      }
    } else if last.key == k {
      NewMaximum(init, last);
      assert rows[|init|] == last;
    }
  }

  /** The pass keeps, for exactly the keys that occur, the first row of maximal precedence. */
  lemma {:induction false} BestIsFirstMaximum(rows: seq<Row>, k: string)
    ensures k in Best(rows) <==> exists r :: r in rows && r.key == k
    ensures k in Best(rows) ==> Wins(rows, k, Best(rows)[k])
  {
    if rows != [] {
      var init, last := rows[..|rows|-1], rows[|rows|-1];
      BestIsFirstMaximum(init, k);
      OneMoreRow(init, last, k);
      assert rows == init + [last];
    }
  }

  /** The winner of a key: one of its rows, and no row of the key ranks higher. */
  lemma BestIsMaximal(rows: seq<Row>, k: string)
    requires k in Best(rows)
    ensures Best(rows)[k] in rows && Best(rows)[k].key == k
    ensures forall r | r in rows && r.key == k :: Rank(r) <= Rank(Best(rows)[k])
  {
    BestIsFirstMaximum(rows, k);
  }

  /** Best of a is kept unless best of b strictly outranks it. */
  function LeftBiased(a: BestMap, b: BestMap): BestMap {
    map k | k in a.Keys + b.Keys ::
      if k !in a then b[k] else if k !in b then a[k] else if Outranks(b[k], a[k]) then b[k] else a[k]
  }

  lemma BestKeys(rows: seq<Row>)
    ensures forall k | k in Best(rows) :: Best(rows)[k].key == k
  {
  }

  lemma ConsiderMerged(a: BestMap, b: BestMap, r: Row)
    ensures Consider(LeftBiased(a, b), r) == LeftBiased(a, Consider(b, r))
  {
  }

  /** Resolving is a homomorphism: two batches of rows resolve separately and merge, the left one winning ties. */
  lemma {:induction false} BestConcat(a: seq<Row>, b: seq<Row>)
    ensures Best(a + b) == LeftBiased(Best(a), Best(b))
  {
    if b == [] {
      assert a + b == a;
      assert LeftBiased(Best(a), map[]) == Best(a);
    } else {
      var n := |b| - 1;
      assert (a + b)[..|a + b| - 1] == a + b[..n];
      BestConcat(a, b[..n]);
      ConsiderMerged(Best(a), Best(b[..n]), b[n]);
    }
  }

  /** No two rows of one key tie for the highest precedence. */
  ghost predicate UniqueMaxima(rows: seq<Row>) {
    forall r | r in rows ::
      (forall s | s in rows && s.key == r.key :: Rank(s) <= Rank(r)) ==>
      (forall s | s in rows && s.key == r.key && Rank(s) == Rank(r) :: s == r)
  }

  /** Without ties the row order of the database does not matter. */
  lemma OrderIrrelevantWithoutTies(a: seq<Row>, b: seq<Row>)
    requires UniqueMaxima(a) && forall r :: r in a <==> r in b
    ensures Best(a) == Best(b)
  {
    forall k ensures k in Best(a) <==> k in Best(b) {
      BestIsFirstMaximum(a, k);
      BestIsFirstMaximum(b, k);
    }
    forall k | k in Best(a) ensures Best(a)[k] == Best(b)[k] {
      BestIsMaximal(a, k);
      BestIsMaximal(b, k);
    }
  }

  // ---- The sorted list ----

  function RowKey(r: Row): string { r.key }

  /** The rows of the map in key order: what ranging over it and sorting must produce. */
  ghost predicate Lists(out: seq<Row>, best: BestMap) {
    && SortedBy(out, RowKey)
    && (forall i, j | 0 <= i < j < |out| :: out[i].key != out[j].key)
    && (forall r :: r in out <==> r.key in best && best[r.key] == r)
  }

  lemma {:induction false} DistinctMultiset(s: seq<Row>, r: Row)
    requires forall i, j | 0 <= i < j < |s| :: s[i].key != s[j].key
    ensures multiset(s)[r] == if r in s then 1 else 0
  {
    if s != [] {
      DistinctMultiset(s[1..], r);
      assert s == [s[0]] + s[1..];
      if s[0] == r {
        assert r !in s[1..];
      }
    }
  }

  lemma CountedTwice(s: seq<Row>, i: nat, j: nat)
    requires i < j < |s| && s[i] == s[j]
    ensures multiset(s)[s[i]] >= 2
  {
    assert s == s[..j] + s[j..];
    assert s[i] in s[..j] && s[j] in s[j..];
  }

  lemma DistinctKeys(s: seq<Row>)
    requires forall r | r in s :: multiset(s)[r] == 1
    requires forall x, y | x in s && y in s && x.key == y.key :: x == y
    ensures forall i, j | 0 <= i < j < |s| :: s[i].key != s[j].key
  {
    forall i, j | 0 <= i < j < |s| ensures s[i] != s[j] {
      if s[i] == s[j] {
        CountedTwice(s, i, j);
      }
    }
  }

  /** The output is determined by the best map: whatever order the map is ranged in. */
  lemma ListingUnique(a: seq<Row>, b: seq<Row>, best: BestMap)
    requires Lists(a, best) && Lists(b, best)
    ensures a == b
  {
    forall r ensures multiset(a)[r] == multiset(b)[r] {
      DistinctMultiset(a, r);
      DistinctMultiset(b, r);
    }
    SortedUnique(a, b, RowKey);
  }

  /** Ranges over the map in arbitrary order, then sorts. */
  method ListBest(best: BestMap) returns (out: seq<Row>)
    requires forall k | k in best :: best[k].key == k
    ensures Lists(out, best)
  {
    var unsorted: seq<Row> := [];
    var left := best.Keys;
    while left != {}
      invariant left <= best.Keys
      invariant forall r :: r in unsorted <==> r.key in best && r.key !in left && best[r.key] == r
      invariant forall i, j | 0 <= i < j < |unsorted| :: unsorted[i].key != unsorted[j].key
    {
      var k :| k in left;
      unsorted := unsorted + [best[k]];
      left := left - {k};
    }
    out := Sort(unsorted, RowKey);
    forall r ensures r in out <==> r in unsorted {
      assert r in multiset(out) <==> r in multiset(unsorted);
    }
    forall r | r in out ensures multiset(out)[r] == 1 {
      DistinctMultiset(unsorted, r);
    }
    DistinctKeys(out);
  }

  // ---- Memories and the limit ----

  datatype Memory = Memory(content: string, key: Option<string>)

  /** What the memory backend gave: nothing asked, an outage, or a list. */
  datatype Memories = NotAsked | Unavailable | Listed(memories: seq<Memory>)

  datatype Item = FactItem(row: Row) | MemoryItem(memory: Memory)

  function FactItems(rows: seq<Row>): seq<Item> {
    seq(|rows|, i requires 0 <= i < |rows| => FactItem(rows[i]))
  }

  predicate Covered(m: Memory, keys: set<string>) {
    m.key.Some? && m.key.value in keys
  }

  /** The memories that no fact covers, in the order of the backend. */
  function Uncovered(ms: seq<Memory>, keys: set<string>): seq<Item> {
    if ms == [] then []
    else Uncovered(ms[..|ms|-1], keys) + if Covered(ms[|ms|-1], keys) then [] else [MemoryItem(ms[|ms|-1])]
  }

  function KeysOf(rows: seq<Row>): set<string> {
    set r | r in rows :: r.key
  }

  function ApplyLimit<T>(items: seq<T>, limit: int): seq<T> {
    if limit > 0 && |items| > limit then items[..limit] else items
  }

  function Merged(rows: seq<Row>, mem: Memories, limit: int): seq<Item> {
    ApplyLimit(FactItems(rows) + (if mem.Listed? then Uncovered(mem.memories, KeysOf(rows)) else []), limit)
  }

  /** maybeMergeMemories */
  method MergeMemories(rows: seq<Row>, mem: Memories, limit: int) returns (out: seq<Item>)
    ensures out == Merged(rows, mem, limit)
  {
    out := FactItems(rows);
    if !mem.Listed? {
      assert out + [] == out;
      return ApplyLimit(out, limit);
    }
    var factKeys := KeysOf(rows);
    for i := 0 to |mem.memories|
      invariant out == FactItems(rows) + Uncovered(mem.memories[..i], factKeys)
    {
      var m := mem.memories[i];
      assert mem.memories[..i + 1][..i] == mem.memories[..i];
      if !Covered(m, factKeys) {
        out := out + [MemoryItem(m)];
      }
    }
    assert mem.memories[..|mem.memories|] == mem.memories;
    out := ApplyLimit(out, limit);
  }

  /** The answer for some order of the eligible rows: their winners in key order, memories below, cut at the limit. */
  ghost predicate Resolves(items: seq<Item>, t: Tables, q: Query, now: int, mem: Memories) {
    exists rows, winners {:trigger Selects(rows, t, q, now), Merged(winners, mem, q.limit)} ::
      Selects(rows, t, q, now) && Lists(winners, Best(rows)) && items == Merged(winners, mem, q.limit)
  }

  method Resolve(t: Tables, q: Query, now: int, mem: Memories) returns (items: seq<Item>)
    ensures Resolves(items, t, q, now, mem)
    ensures forall i | 0 <= i < |items| && items[i].FactItem? ::
              && IsRow(t, q, now, items[i].row)
              && forall r | IsRow(t, q, now, r) && r.key == items[i].row.key :: Prevails(items[i].row, r)
  {
    items := RunResolve(t, q, now, mem);
    forall i | 0 <= i < |items| && items[i].FactItem?
      ensures IsRow(t, q, now, items[i].row)
      ensures forall r | IsRow(t, q, now, r) && r.key == items[i].row.key :: Prevails(items[i].row, r)
    {
      AnswerPrevails(t, q, now, mem, items, i);
    }
  }

  lemma AnswerPrevails(t: Tables, q: Query, now: int, mem: Memories, items: seq<Item>, i: nat)
    requires Resolves(items, t, q, now, mem) && i < |items| && items[i].FactItem?
    ensures IsRow(t, q, now, items[i].row)
    ensures forall r | IsRow(t, q, now, r) && r.key == items[i].row.key :: Prevails(items[i].row, r)
  {
    AnswerSound(t, q, now, mem, items, i, i);
    forall r | IsRow(t, q, now, r) && r.key == items[i].row.key ensures Prevails(items[i].row, r) {
      AnswerMaximal(t, q, now, mem, items, i, r);
      RankPrevails(items[i].row, r);
    }
  }

  /** The query, the pass over its rows, the sort and the merge. */
  method RunResolve(t: Tables, q: Query, now: int, mem: Memories) returns (items: seq<Item>)
    ensures Resolves(items, t, q, now, mem)
  {
    if q.namespaces == {} {
      assert Selects([], t, q, now) && Lists([], Best([]));
      items := MergeMemories([], mem, q.limit);
      return;
    }
    var selected := QueryRows(t, q, now);
    var best: BestMap := map[];
    for i := 0 to |selected|
      invariant best == Best(selected[..i])
    {
      var c := selected[i];
      assert selected[..i + 1][..i] == selected[..i];
      if c.key !in best || Outranks(c, best[c.key]) {
        best := best[c.key := c];
      }
    }
    assert selected[..|selected|] == selected;
    BestKeys(selected);
    var facts := ListBest(best);
    items := MergeMemories(facts, mem, q.limit);
  }

  // ---- What the result means ----

  /**
   * For each key that occurs among the eligible rows exactly one fact is returned, it is maximal
   * under precedence, and the list is in key order; other keys do not occur.
   */
  lemma ResolveMeaning(t: Tables, q: Query, now: int, rows: seq<Row>, winners: seq<Row>)
    requires Selects(rows, t, q, now) && Lists(winners, Best(rows))
    ensures forall w | w in winners ::
              && IsRow(t, q, now, w)
              && forall r | IsRow(t, q, now, r) && r.key == w.key :: Rank(r) <= Rank(w)
    ensures forall r | IsRow(t, q, now, r) :: exists i :: 0 <= i < |winners| && winners[i].key == r.key
    ensures forall i, j | 0 <= i < j < |winners| :: Less(winners[i].key, winners[j].key)
  {
    forall w | w in winners ensures w in rows && forall r | r in rows && r.key == w.key :: Rank(r) <= Rank(w) {
      BestIsMaximal(rows, w.key);
    }
    forall r | IsRow(t, q, now, r) ensures exists i :: 0 <= i < |winners| && winners[i].key == r.key {
      assert r in rows;
      BestIsFirstMaximum(rows, r.key);
      BestIsMaximal(rows, r.key);
      assert Best(rows)[r.key] in winners;
    }
    forall i, j | 0 <= i < j < |winners| ensures Less(winners[i].key, winners[j].key) {
      LessTotal(winners[i].key, winners[j].key);
      assert !Less(RowKey(winners[j]), RowKey(winners[i]));
    }
  }

  /** No two eligible rows of one key tie for the highest precedence. */
  ghost predicate NoTies(t: Tables, q: Query, now: int) {
    forall r | IsRow(t, q, now, r) ::
      (forall s | IsRow(t, q, now, s) && s.key == r.key :: Rank(s) <= Rank(r)) ==>
      (forall s | IsRow(t, q, now, s) && s.key == r.key && Rank(s) == Rank(r) :: s == r)
  }

  /** Without ties there is one answer, whatever order the database and the map iteration choose. */
  lemma AnswerDetermined(t: Tables, q: Query, now: int, mem: Memories, a: seq<Item>, b: seq<Item>)
    requires NoTies(t, q, now) && Resolves(a, t, q, now, mem) && Resolves(b, t, q, now, mem)
    ensures a == b
  {
    var ra, wa :| Selects(ra, t, q, now) && Lists(wa, Best(ra)) && a == Merged(wa, mem, q.limit);
    var rb, wb :| Selects(rb, t, q, now) && Lists(wb, Best(rb)) && b == Merged(wb, mem, q.limit);
    SameWinners(t, q, now, ra, rb, wa, wb);
  }

  lemma SameWinners(t: Tables, q: Query, now: int, ra: seq<Row>, rb: seq<Row>, wa: seq<Row>, wb: seq<Row>)
    requires NoTies(t, q, now) && Selects(ra, t, q, now) && Selects(rb, t, q, now)
    requires Lists(wa, Best(ra)) && Lists(wb, Best(rb))
    ensures wa == wb
  {
    assert UniqueMaxima(ra);
    OrderIrrelevantWithoutTies(ra, rb);
    ListingUnique(wa, wb, Best(ra));
  }

  /** A mandatory baseline cannot be filtered out: an authoritative winner survives every tag filter. */
  lemma AuthoritativeSurvives(t: Tables, q: Query, wanted: set<string>, now: int, all: seq<Row>, some: seq<Row>,
                              k: string)
    requires q.tags == {}
    requires Selects(all, t, q, now) && Selects(some, t, q.(tags := wanted), now)
    requires k in Best(all) && Authoritative(Best(all)[k])
    ensures k in Best(some) && Rank(Best(some)[k]) == Rank(Best(all)[k])
    ensures UniqueMaxima(all) ==> Best(some)[k] == Best(all)[k]
  {
    BestIsMaximal(all, k);
    var w := Best(all)[k];
    assert IsRow(t, q, now, w) && IsRow(t, q.(tags := wanted), now, w);
    BestIsFirstMaximum(some, k);
    BestIsMaximal(some, k);
    assert IsRow(t, q, now, Best(some)[k]);
  }

  /** A larger scope keeps every key and never lowers the winner. */
  lemma ScopeMonotone(t: Tables, q: Query, wider: set<Id>, now: int, small: seq<Row>, large: seq<Row>, k: string)
    requires q.namespaces <= wider
    requires Selects(small, t, q, now) && Selects(large, t, q.(namespaces := wider), now)
    requires k in Best(small)
    ensures k in Best(large) && Rank(Best(large)[k]) >= Rank(Best(small)[k])
  {
    BestIsMaximal(small, k);
    var w := Best(small)[k];
    assert IsRow(t, q, now, w) && IsRow(t, q.(namespaces := wider), now, w);
    BestIsFirstMaximum(large, k);
    BestIsMaximal(large, k);
  }

  /** The item is a fact of the key that ranks at least as high as the row. */
  predicate Represents(x: Item, r: Row) {
    x.FactItem? && x.row.key == r.key && Rank(x.row) >= Rank(r)
  }

  ghost predicate Represented(items: seq<Item>, r: Row) {
    exists i :: 0 <= i < |items| && Represents(items[i], r)
  }

  ghost function EligibleKeys(t: Tables, q: Query, now: int): set<string> {
    set f | f in t.facts && Eligible(t, q, now, f) :: t.facts[f].key
  }

  /** The limit leaves room for one fact per eligible key. */
  ghost predicate Fits(t: Tables, q: Query, now: int) {
    q.limit <= 0 || |EligibleKeys(t, q, now)| <= q.limit
  }

  lemma {:induction false} DistinctKeyCount(rows: seq<Row>)
    requires forall i, j | 0 <= i < j < |rows| :: rows[i].key != rows[j].key
    ensures |KeysOf(rows)| == |rows|
  {
    if rows != [] {
      var init, last := rows[..|rows|-1], rows[|rows|-1];
      DistinctKeyCount(init);
      assert rows == init + [last];
      assert KeysOf(rows) == KeysOf(init) + {last.key};
    }
  }

  /** The winners' keys are the eligible ones. */
  lemma WinnerKeys(t: Tables, q: Query, now: int, rows: seq<Row>, winners: seq<Row>)
    requires Selects(rows, t, q, now) && Lists(winners, Best(rows))
    ensures KeysOf(winners) == EligibleKeys(t, q, now)
  {
    ResolveMeaning(t, q, now, rows, winners);
    forall k ensures k in KeysOf(winners) <==> k in EligibleKeys(t, q, now) {
      if k in KeysOf(winners) {
        var w :| w in winners && w.key == k;
        assert IsRow(t, q, now, w);
      }
      if k in EligibleKeys(t, q, now) {
        var f :| f in t.facts && Eligible(t, q, now, f) && t.facts[f].key == k;
        assert IsRow(t, q, now, RowOf(t, f));
      }
    }
  }

  /** There are exactly as many winners as eligible keys. */
  lemma WinnerCount(t: Tables, q: Query, now: int, rows: seq<Row>, winners: seq<Row>)
    requires Selects(rows, t, q, now) && Lists(winners, Best(rows))
    ensures |winners| == |EligibleKeys(t, q, now)|
  {
    WinnerKeys(t, q, now, rows, winners);
    DistinctKeyCount(winners);
  }

  lemma WinnersRepresent(t: Tables, q: Query, now: int, mem: Memories, rows: seq<Row>, winners: seq<Row>, r: Row)
    requires Selects(rows, t, q, now) && Lists(winners, Best(rows)) && IsRow(t, q, now, r)
    requires q.limit <= 0 || |winners| <= q.limit
    ensures Represented(Merged(winners, mem, q.limit), r)
  {
    ResolveMeaning(t, q, now, rows, winners);
    var i :| 0 <= i < |winners| && winners[i].key == r.key;
    assert winners[i] in winners;
    assert Merged(winners, mem, q.limit)[i] == FactItem(winners[i]);
  }

  lemma CutLoses(t: Tables, q: Query, now: int, mem: Memories, rows: seq<Row>, winners: seq<Row>)
    requires Selects(rows, t, q, now) && Lists(winners, Best(rows)) && 0 < q.limit < |winners|
    ensures IsRow(t, q, now, winners[q.limit])
    ensures !Represented(Merged(winners, mem, q.limit), winners[q.limit])
  {
    var lost := winners[q.limit];
    ResolveMeaning(t, q, now, rows, winners);
    assert lost in winners;
    forall i | 0 <= i < q.limit ensures Merged(winners, mem, q.limit)[i] == FactItem(winners[i]) {
    }
  }

  /** An answer represents every eligible row if and only if the limit has room for the facts. */
  lemma AnswerComplete(t: Tables, q: Query, now: int, mem: Memories, items: seq<Item>)
    requires Resolves(items, t, q, now, mem)
    ensures (forall r | IsRow(t, q, now, r) :: Represented(items, r)) <==> Fits(t, q, now)
  {
    var rows: seq<Row>, winners: seq<Row> :|
      Selects(rows, t, q, now) && Lists(winners, Best(rows)) && items == Merged(winners, mem, q.limit);
    WinnerCount(t, q, now, rows, winners);
    if Fits(t, q, now) {
      forall r | IsRow(t, q, now, r) ensures Represented(items, r) {
        WinnersRepresent(t, q, now, mem, rows, winners, r);
      }
    } else {
      CutLoses(t, q, now, mem, rows, winners);
    }
  }

  /** In every answer the facts are eligible rows, first, and strictly in key order. */
  lemma AnswerSound(t: Tables, q: Query, now: int, mem: Memories, items: seq<Item>, i: nat, j: nat)
    requires Resolves(items, t, q, now, mem) && i <= j < |items| && items[j].FactItem?
    ensures items[i].FactItem? && IsRow(t, q, now, items[j].row)
    ensures i < j ==> Less(items[i].row.key, items[j].row.key)
  {
    var rows: seq<Row>, winners: seq<Row> :|
      Selects(rows, t, q, now) && Lists(winners, Best(rows)) && items == Merged(winners, mem, q.limit);
    ResolveMeaning(t, q, now, rows, winners);
    MemoriesBelowFacts(winners, mem, q.limit, i);
    MemoriesBelowFacts(winners, mem, q.limit, j);
    assert winners[j] in winners;
  }

  /** A larger scope: every fact of an answer has its key in each wider answer that fits, at no lower rank. */
  lemma WiderAnswer(t: Tables, q: Query, wide: Query, now: int, mem: Memories, more: Memories,
                    small: seq<Item>, large: seq<Item>, i: nat)
    requires q.namespaces <= wide.namespaces && q.tags == wide.tags
    requires Resolves(small, t, q, now, mem) && Resolves(large, t, wide, now, more) && Fits(t, wide, now)
    requires i < |small| && small[i].FactItem?
    ensures Represented(large, small[i].row)
  {
    AnswerSound(t, q, now, mem, small, i, i);
    assert IsRow(t, wide, now, small[i].row);
    AnswerComplete(t, wide, now, more, large);
  }

  /**
   * The same under a tag filter: an authoritative fact of the unfiltered answer has its key in each
   * filtered answer that fits, with a fact of exactly its rank.
   */
  lemma AuthoritativeAnswer(t: Tables, q: Query, tagged: Query, now: int, mem: Memories, more: Memories,
                            all: seq<Item>, some: seq<Item>, i: nat)
    requires q.namespaces == tagged.namespaces && q.tags == {}
    requires Resolves(all, t, q, now, mem) && Resolves(some, t, tagged, now, more) && Fits(t, tagged, now)
    requires i < |all| && all[i].FactItem? && Authoritative(all[i].row)
    ensures exists j :: 0 <= j < |some| && Represents(some[j], all[i].row) && Rank(some[j].row) == Rank(all[i].row)
  {
    AnswerSound(t, q, now, mem, all, i, i);
    assert IsRow(t, tagged, now, all[i].row);
    AnswerComplete(t, tagged, now, more, some);
    var j :| 0 <= j < |some| && Represents(some[j], all[i].row);
    AnswerSound(t, tagged, now, more, some, j, j);
    assert IsRow(t, q, now, some[j].row);
    AnswerMaximal(t, q, now, mem, all, i, some[j].row);
  }

  /** No eligible row of a key outranks the fact an answer gives for it. */
  lemma AnswerMaximal(t: Tables, q: Query, now: int, mem: Memories, items: seq<Item>, i: nat, r: Row)
    requires Resolves(items, t, q, now, mem) && i < |items| && items[i].FactItem?
    requires IsRow(t, q, now, r) && r.key == items[i].row.key
    ensures Rank(r) <= Rank(items[i].row)
  {
    var rows: seq<Row>, winners: seq<Row> :|
      Selects(rows, t, q, now) && Lists(winners, Best(rows)) && items == Merged(winners, mem, q.limit);
    ResolveMeaning(t, q, now, rows, winners);
    MemoriesBelowFacts(winners, mem, q.limit, i);
    assert winners[i] in winners;
  }

  lemma {:induction false} UncoveredMeaning(ms: seq<Memory>, keys: set<string>)
    ensures forall x :: x in Uncovered(ms, keys) <==> x.MemoryItem? && x.memory in ms && !Covered(x.memory, keys)
  {
    if ms != [] {
      assert ms == ms[..|ms|-1] + [ms[|ms|-1]];
      UncoveredMeaning(ms[..|ms|-1], keys);
    }
  }

  /** No memory precedes a fact or carries a fact's key, and one appears only after every fact has. */
  lemma MemoriesBelowFacts(rows: seq<Row>, mem: Memories, limit: int, i: nat)
    requires i < |Merged(rows, mem, limit)|
    ensures Merged(rows, mem, limit)[i].FactItem? <==> i < |rows|
    ensures i < |rows| ==> Merged(rows, mem, limit)[i] == FactItem(rows[i])
    ensures i >= |rows| ==>
              && mem.Listed? && Merged(rows, mem, limit)[i].memory in mem.memories
              && forall r | r in rows :: Merged(rows, mem, limit)[i].memory.key != Some(r.key)
  {
    if mem.Listed? {
      UncoveredMeaning(mem.memories, KeysOf(rows));
      if i >= |rows| {
        assert Merged(rows, mem, limit)[i] in Uncovered(mem.memories, KeysOf(rows));
      }
    }
  }

  lemma {:induction false} UncoveredPrefix(ms: seq<Memory>, n: nat, keys: set<string>)
    requires n <= |ms|
    ensures Uncovered(ms[..n], keys) <= Uncovered(ms, keys)
    decreases |ms|
  {
    if n < |ms| {
      var init := ms[..|ms|-1];
      UncoveredPrefix(init, n, keys);
      assert init[..n] == ms[..n];
    } else {
      assert ms[..n] == ms;
    }
  }

  /** With a backend whose limited list is a prefix of its full list, limiting only cuts the tail. */
  lemma LimitIsPrefix(rows: seq<Row>, ms: seq<Memory>, n: nat, limit: int)
    requires n <= |ms|
    ensures Merged(rows, Listed(ms[..n]), limit) <= Merged(rows, Listed(ms), 0)
  {
    UncoveredPrefix(ms, n, KeysOf(rows));
    var short, long := Uncovered(ms[..n], KeysOf(rows)), Uncovered(ms, KeysOf(rows));
    assert FactItems(rows) + short <= FactItems(rows) + long;
  }

  lemma LimitMattersLast(t: Tables, q: Query, now: int, rows: seq<Row>)
    ensures Selects(rows, t, q.(limit := 0), now) <==> Selects(rows, t, q, now)
  {
    forall r ensures IsRow(t, q.(limit := 0), now, r) <==> IsRow(t, q, now, r) {
    }
  }

  /** Without ties the limited answer is a prefix of the unlimited one, for such a backend. */
  lemma LimitedAnswer(t: Tables, q: Query, now: int, ms: seq<Memory>, n: nat, a: seq<Item>, b: seq<Item>)
    requires n <= |ms| && NoTies(t, q, now)
    requires Resolves(a, t, q, now, Listed(ms[..n])) && Resolves(b, t, q.(limit := 0), now, Listed(ms))
    ensures a <= b
  {
    var ra: seq<Row>, wa: seq<Row> :|
      Selects(ra, t, q, now) && Lists(wa, Best(ra)) && a == Merged(wa, Listed(ms[..n]), q.limit);
    var rb: seq<Row>, wb: seq<Row> :|
      Selects(rb, t, q.(limit := 0), now) && Lists(wb, Best(rb)) && b == Merged(wb, Listed(ms), 0);
    LimitMattersLast(t, q, now, rb);
    SameWinners(t, q, now, ra, rb, wa, wb);
    LimitIsPrefix(wa, ms, n, q.limit);
  }

  // ---- Eager and lazy expiry ----

  /** Resolving later does not notice whether the reaper has run before. */
  lemma ReaperInvisible(t: Tables, reapedAt: int, order: seq<Id>, q: Query, now: int, rows: seq<Row>)
    requires reapedAt <= now && Enumerates(order, DueIds(t, reapedAt))
    ensures Selects(rows, ReapTx(t, reapedAt, order), q, now) <==> Selects(rows, t, q, now)
  {
    var u := ReapTx(t, reapedAt, order);
    ExpireAllFacts(t, order);
    forall r ensures IsRow(u, q, now, r) <==> IsRow(t, q, now, r) {
    }
  }

  /** Eager and lazy expiry agree: the possible answers are the same with and without the earlier reap. */
  lemma EagerIsLazy(t: Tables, reapedAt: int, order: seq<Id>, q: Query, now: int, mem: Memories, items: seq<Item>)
    requires reapedAt <= now && Enumerates(order, DueIds(t, reapedAt))
    ensures Resolves(items, ReapTx(t, reapedAt, order), q, now, mem) <==> Resolves(items, t, q, now, mem)
  {
    forall rows {
      ReaperInvisible(t, reapedAt, order, q, now, rows);
    }
  }

  /** After a reap nothing is due, so a second one at the same time does nothing. */
  lemma ReapIdempotent(t: Tables, now: int, order: seq<Id>, again: seq<Id>)
    requires Enumerates(order, DueIds(t, now)) && Enumerates(again, DueIds(ReapTx(t, now, order), now))
    ensures DueIds(ReapTx(t, now, order), now) == {}
    ensures ReapTx(ReapTx(t, now, order), now, again) == ReapTx(t, now, order)
  {
    ExpireAllFacts(t, order);
    var u := ReapTx(t, now, order);
    assert forall f | f in u.facts :: !Due(u.facts[f], now);
    EnumerationSize(again, DueIds(u, now));
  }
}
