/** The structured subject of a fact and the canonical key derived from it (internal/facts/subject.go). */
module Subjects {
  import opened Basics

  datatype Subject = Subject(typ: string, scope: string, qualifiers: map<string, string>) {

    /** A key can be derived: the type is not blank. */
    predicate Valid() {
      TrimSpace(typ) != ""
    }
  }

  // ---- Normalisation of the parts (ASCII) ----

  predicate IsSpace(c: char) {
    c == ' ' || c == '\t' || c == '\n' || c == '\r' || c == 11 as char || c == 12 as char
  }

  function LowerChar(c: char): char {
    if 'A' <= c <= 'Z' then (c as int + 32) as char else c
  }

  function ToLower(s: string): (r: string)
    ensures |r| == |s|
    ensures forall i | 0 <= i < |s| :: r[i] == LowerChar(s[i])
  {
    seq(|s|, i requires 0 <= i < |s| => LowerChar(s[i]))
  }

  function TrimLeft(s: string): string {
    if s != [] && IsSpace(s[0]) then TrimLeft(s[1..]) else s
  }

  function TrimRight(s: string): string {
    if s != [] && IsSpace(s[|s|-1]) then TrimRight(s[..|s|-1]) else s
  }

  function TrimSpace(s: string): string {
    TrimRight(TrimLeft(s))
  }

  function Normalize(s: string): string {
    ToLower(TrimSpace(s))
  }

  predicate Trimmed(s: string) {
    s == [] || (!IsSpace(s[0]) && !IsSpace(s[|s|-1]))
  }

  lemma {:induction false} TrimRightShape(s: string)
    requires s == [] || !IsSpace(s[0])
    ensures Trimmed(TrimRight(s))
  {
    if s != [] && IsSpace(s[|s|-1]) {
      TrimRightShape(s[..|s|-1]);
    }
  }

  lemma {:induction false} TrimLeftShape(s: string)
    ensures TrimLeft(s) == [] || !IsSpace(TrimLeft(s)[0])
  {
    if s != [] && IsSpace(s[0]) {
      TrimLeftShape(s[1..]);
    }
  }

  /** Trimming and folding are idempotent, so a key part is a normal form. */
  lemma NormalizeIdempotent(s: string)
    ensures TrimSpace(TrimSpace(s)) == TrimSpace(s)
    ensures Normalize(Normalize(s)) == Normalize(s)
  {
    TrimLeftShape(s);
    TrimRightShape(TrimLeft(s));
    assert Trimmed(TrimSpace(s));
    assert Trimmed(Normalize(s));
    assert ToLower(Normalize(s)) == Normalize(s);
  }

  // ---- What the key is ----

  function ScopeOf(s: Subject): string {
    if Normalize(s.scope) == "" then "global" else Normalize(s.scope)
  }

  function Pair(k: string, v: string): string {
    Normalize(k) + "=" + TrimSpace(v)
  }

  /** Each qualifier key with the k=v string it prints as. */
  ghost function Labels(q: map<string, string>): map<string, string> {
    map k | k in q :: Pair(k, q[k])
  }

  /** The k=v strings of a qualifier map, with multiplicity. */
  ghost function Pairs(q: map<string, string>): multiset<string> {
    Printed(q.Keys, Labels(q))
  }

  ghost function Pick(keys: set<string>): (k: string)
    requires keys != {}
    ensures k in keys
  {
    var k :| k in keys; k
  }

  ghost function Printed(keys: set<string>, labels: map<string, string>): multiset<string>
    requires keys <= labels.Keys
  {
    if keys == {} then multiset{}
    else multiset{labels[Pick(keys)]} + Printed(keys - {Pick(keys)}, labels)
  }

  /** Whichever key a map range visits first, the same strings remain to be collected. */
  lemma {:induction false} PrintedRemove(keys: set<string>, k: string, labels: map<string, string>)
    requires keys <= labels.Keys && k in keys
    ensures Printed(keys, labels) == multiset{labels[k]} + Printed(keys - {k}, labels)
  {
    var j := Pick(keys);
    if j != k {
      PrintedRemove(keys - {j}, k, labels);
      PrintedRemove(keys - {k}, j, labels);
      assert keys - {j} - {k} == keys - {k} - {j};
    }
  }

  /** The keys that carry the label. */
  ghost function Carriers(keys: set<string>, x: string, labels: map<string, string>): set<string>
    requires keys <= labels.Keys
  {
    set k | k in keys && labels[k] == x
  }

  /** Counted with and without one key. */
  lemma CarriersCount(keys: set<string>, k: string, x: string, labels: map<string, string>)
    requires keys <= labels.Keys && k in keys
    ensures |Carriers(keys, x, labels)| == |Carriers(keys - {k}, x, labels)| + if labels[k] == x then 1 else 0
  {
    var all, rest := Carriers(keys, x, labels), Carriers(keys - {k}, x, labels);
    if labels[k] == x {
      assert all == rest + {k} && k !in rest;
    } else {
      assert all == rest;
    }
  }

  lemma {:induction false} PrintedCount(keys: set<string>, x: string, labels: map<string, string>)
    requires keys <= labels.Keys
    ensures Printed(keys, labels)[x] == |Carriers(keys, x, labels)|
  {
    if keys != {} {
      PrintedCount(keys - {Pick(keys)}, x, labels);
      CarriersCount(keys, Pick(keys), x, labels);
    }
  }

  /** A reading of Pairs free of any order: each string counts the qualifiers that print as it. */
  lemma PairsCount(q: map<string, string>, x: string)
    ensures Pairs(q)[x] == |set k | k in q && Pair(k, q[k]) == x|
  {
    PrintedCount(q.Keys, x, Labels(q));
    assert (set k | k in q && Pair(k, q[k]) == x) == Carriers(q.Keys, x, Labels(q));
  }

  ghost function PrintedList(keys: set<string>, labels: map<string, string>): (r: seq<string>)
    requires keys <= labels.Keys
    ensures multiset(r) == Printed(keys, labels)
  {
    if keys == {} then []
    else [labels[Pick(keys)]] + PrintedList(keys - {Pick(keys)}, labels)
  }

  ghost function PairList(q: map<string, string>): (r: seq<string>)
    ensures multiset(r) == Pairs(q)
  {
    PrintedList(q.Keys, Labels(q))
  }

  function Same(x: string): string { x }

  ghost function Parts(s: Subject): (parts: seq<string>)
    ensures |parts| >= 2
  {
    [Normalize(s.typ), ScopeOf(s)] + Sort(PairList(s.qualifiers), Same)
  }

  lemma NoPairs(q: map<string, string>)
    requires |q| == 0
    ensures Sort(PairList(q), Same) == []
  {
  }

  /** strings.Join(parts, ":") */
  function Join(parts: seq<string>): string {
    if parts == [] then ""
    else if |parts| == 1 then parts[0]
    else parts[0] + ":" + Join(parts[1..])
  }

  ghost function KeyOf(s: Subject): string {
    Join(Parts(s))
  }

  /**
   * Subject.CanonicalKey: the map range visits the qualifiers in an arbitrary order, and the
   * result does not depend on it.
   */
  method CanonicalKey(s: Subject) returns (key: string)
    ensures key == KeyOf(s)
  {
    var scope := Normalize(s.scope);
    if scope == "" {
      scope := "global";
    }
    var parts := [Normalize(s.typ), scope];
    if |s.qualifiers| > 0 {
      var quals := CollectPairs(s.qualifiers);
      SortedPairs(s, quals);
      parts := parts + Sort(quals, Same);
    } else {
      NoPairs(s.qualifiers);
    }
    assert parts == Parts(s);
    key := Join(parts);
  }

  /** The loop over the qualifiers, in whatever order the map is ranged. */
  method CollectPairs(q: map<string, string>) returns (quals: seq<string>)
    ensures multiset(quals) == Pairs(q)
  {
    quals := [];
    var left := q.Keys;
    while left != {}
      invariant left <= q.Keys
      invariant multiset(quals) + Printed(left, Labels(q)) == Pairs(q)
    {
      var k :| k in left;
      PrintedRemove(left, k, Labels(q));
      quals := quals + [Pair(k, q[k])];
      left := left - {k};
    }
  }

  lemma SortedPairs(s: Subject, quals: seq<string>)
    requires multiset(quals) == Pairs(s.qualifiers)
    ensures Parts(s) == [Normalize(s.typ), ScopeOf(s)] + Sort(quals, Same)
  {
    SortedUnique(Sort(quals, Same), Sort(PairList(s.qualifiers), Same), Same);
  }

  // ---- When two subjects share a key ----

  function Glue(c: char, rest: seq<string>): (r: seq<string>)
    requires rest != []
    ensures r != []
  {
    if c == ':' then [""] + rest else [[c] + rest[0]] + rest[1..]
  }

  /** The segments of a string between its colons; never empty. */
  function Split(s: string): (r: seq<string>)
    ensures r != []
  {
    if s == [] then [""] else Glue(s[0], Split(s[1..]))
  }

  function Segments(parts: seq<string>): seq<string> {
    if parts == [] then [] else Split(parts[0]) + Segments(parts[1..])
  }

  lemma {:induction false} JoinSplit(s: string)
    ensures Join(Split(s)) == s
  {
    if s != [] {
      JoinSplit(s[1..]);
      var rest := Split(s[1..]);
      if s[0] == ':' {
        assert ([""] + rest)[1..] == rest;
        assert s == "" + ":" + s[1..];
      } else {
        var r := [[s[0]] + rest[0]] + rest[1..];
        assert r[1..] == rest[1..];
        assert s == [s[0]] + s[1..];
      }
    }
  }

  lemma GlueConcat(c: char, a: seq<string>, b: seq<string>)
    requires a != []
    ensures Glue(c, a + b) == Glue(c, a) + b
  {
  }

  lemma SplitStep(c: char, s: string)
    ensures Split([c] + s) == Glue(c, Split(s))
  {
  }

  lemma {:induction false} SplitAtColon(a: string, b: string)
    ensures Split(a + [':'] + b) == Split(a) + Split(b)
  {
    if a == [] {
      SplitStep(':', b);
      assert a + [':'] + b == [':'] + b;
    } else {
      var rest := a[1..] + [':'] + b;
      assert a + [':'] + b == [a[0]] + rest;
      calc {
        Split(a + [':'] + b);
        Split([a[0]] + rest);
        { SplitStep(a[0], rest); }
        Glue(a[0], Split(rest));
        { SplitAtColon(a[1..], b); }
        Glue(a[0], Split(a[1..]) + Split(b));
        { GlueConcat(a[0], Split(a[1..]), Split(b)); }
        Glue(a[0], Split(a[1..])) + Split(b);
      }
    }
  }

  lemma {:induction false} SplitJoin(parts: seq<string>)
    requires parts != []
    ensures Split(Join(parts)) == Segments(parts)
  {
    if |parts| == 1 {
      assert Segments(parts[1..]) == [];
    } else {
      SplitJoin(parts[1..]);
      SplitAtColon(parts[0], Join(parts[1..]));
    }
  }

  /** Exactly when two subjects collide: their parts print the same colon-separated segments. */
  lemma KeyCollision(a: Subject, b: Subject)
    ensures KeyOf(a) == KeyOf(b) <==> Segments(Parts(a)) == Segments(Parts(b))
  {
    SplitJoin(Parts(a));
    SplitJoin(Parts(b));
    JoinSplit(KeyOf(a));
    JoinSplit(KeyOf(b));
  }

  predicate ColonFree(s: string) {
    ':' !in s
  }

  /** No part of the subject carries the separator. */
  ghost predicate Plain(s: Subject) {
    && ColonFree(s.typ) && ColonFree(s.scope)
    && forall k | k in s.qualifiers :: ColonFree(k) && ColonFree(s.qualifiers[k])
  }

  lemma {:induction false} SplitColonFree(s: string)
    requires ColonFree(s)
    ensures Split(s) == [s]
  {
    if s != [] {
      SplitColonFree(s[1..]);
      assert s == [s[0]] + s[1..];
    }
  }

  lemma {:induction false} SegmentsColonFree(parts: seq<string>)
    requires forall p | p in parts :: ColonFree(p)
    ensures Segments(parts) == parts
  {
    if parts != [] {
      SplitColonFree(parts[0]);
      SegmentsColonFree(parts[1..]);
      assert parts == [parts[0]] + parts[1..];
    }
  }

  lemma {:induction false} TrimKeepsChars(s: string, c: char)
    requires c in TrimSpace(s)
    ensures c in s
  {
    TrimRightKeeps(TrimLeft(s), c);
    TrimLeftKeeps(s, c);
  }

  lemma {:induction false} TrimLeftKeeps(s: string, c: char)
    ensures c in TrimLeft(s) ==> c in s
  {
    if s != [] && IsSpace(s[0]) {
      TrimLeftKeeps(s[1..], c);
    }
  }

  lemma {:induction false} TrimRightKeeps(s: string, c: char)
    ensures c in TrimRight(s) ==> c in s
  {
    if s != [] && IsSpace(s[|s|-1]) {
      TrimRightKeeps(s[..|s|-1], c);
    }
  }

  lemma NormalizeColonFree(s: string)
    requires ColonFree(s)
    ensures ColonFree(TrimSpace(s)) && ColonFree(Normalize(s))
  {
    if ':' in TrimSpace(s) {
      TrimKeepsChars(s, ':');
    }
  }

  lemma PlainParts(s: Subject)
    requires Plain(s)
    ensures forall p | p in Parts(s) :: ColonFree(p)
  {
    NormalizeColonFree(s.typ);
    NormalizeColonFree(s.scope);
    forall p | p in Sort(PairList(s.qualifiers), Same) ensures ColonFree(p) {
      assert p in multiset(PairList(s.qualifiers));
      PairsCount(s.qualifiers, p);
      var printing := set k | k in s.qualifiers && Pair(k, s.qualifiers[k]) == p;
      if printing != {} {
        var k :| k in printing;
        NormalizeColonFree(k);
        NormalizeColonFree(s.qualifiers[k]);
      }
    }
  }

  /**
   * For subjects without ':' the key is a faithful normal form: equal keys mean equal
   * normalised type and scope and the same k=v strings.
   */
  lemma KeyFaithful(a: Subject, b: Subject)
    requires Plain(a) && Plain(b)
    ensures KeyOf(a) == KeyOf(b) <==>
              && Normalize(a.typ) == Normalize(b.typ)
              && ScopeOf(a) == ScopeOf(b)
              && Pairs(a.qualifiers) == Pairs(b.qualifiers)
  {
    KeyCollision(a, b);
    PlainParts(a);
    PlainParts(b);
    SegmentsColonFree(Parts(a));
    SegmentsColonFree(Parts(b));
    var qa := Sort(PairList(a.qualifiers), Same);
    var qb := Sort(PairList(b.qualifiers), Same);
    assert Parts(a)[2..] == qa && Parts(b)[2..] == qb;
    if Pairs(a.qualifiers) == Pairs(b.qualifiers) {
      SortedUnique(qa, qb, Same);
    }
  }

  /** Rewriting a subject into its own normal form leaves the key alone. */
  lemma KeyOfNormalForm(s: Subject)
    ensures KeyOf(Subject(Normalize(s.typ), Normalize(s.scope), s.qualifiers)) == KeyOf(s)
    ensures KeyOf(Subject(s.typ, ScopeOf(s), s.qualifiers)) == KeyOf(s)
  {
    NormalizeIdempotent(s.typ);
    NormalizeIdempotent(s.scope);
    assert Normalize("global") == "global";
  }

  lemma OnePair(k: string, v: string)
    ensures Sort(PairList(map[k := v]), Same) == [Pair(k, v)]
  {
    var q := map[k := v];
    PrintedRemove({k}, k, Labels(q));
    assert {k} - {k} == {} && q.Keys == {k};
    var sorted := Sort(PairList(q), Same);
    assert multiset(sorted) == multiset{Pair(k, v)};
    assert |sorted| == |multiset(sorted)| == 1;
    assert sorted[0] in multiset(sorted);
  }

  lemma JoinTwo(x: string, y: string)
    ensures Join([x, y]) == x + ":" + y
  {
  }

  lemma JoinThree(x: string, y: string, z: string)
    ensures Join([x, y, z]) == x + ":" + (y + ":" + z)
  {
    assert [x, y, z][1..] == [y, z];
    JoinTwo(y, z);
  }

  lemma KeyNoQualifiers(t: string, scope: string)
    ensures KeyOf(Subject(t, scope, map[])) == Normalize(t) + ":" + ScopeOf(Subject(t, scope, map[]))
  {
    var s := Subject(t, scope, map[]);
    NoPairs(s.qualifiers);
    assert Parts(s) == [Normalize(t), ScopeOf(s)];
    JoinTwo(Normalize(t), ScopeOf(s));
  }

  lemma KeyOneQualifier(t: string, scope: string, k: string, v: string)
    ensures KeyOf(Subject(t, scope, map[k := v])) ==
            Normalize(t) + ":" + (ScopeOf(Subject(t, scope, map[k := v])) + ":" + Pair(k, v))
  {
    var s := Subject(t, scope, map[k := v]);
    OnePair(k, v);
    assert Parts(s) == [Normalize(t), ScopeOf(s), Pair(k, v)];
    JoinThree(Normalize(t), ScopeOf(s), Pair(k, v));
  }

  lemma CollisionLiterals()
    ensures Normalize("a:b") == "a:b" && Normalize("k=v") == "k=v"
    ensures Normalize("a") == "a" && Normalize("b") == "b" && Pair("k", "v") == "k=v"
    ensures "a" + ":" + ("b" + ":" + "k=v") == "a:b" + ":" + "k=v"
    ensures "a" != "a:b"
  {
  }

  /** A colon in a part can merge two different identities: "a:b" in "k=v", and "a" in "b" with k=v. */
  lemma ColonCollision(a: Subject, b: Subject)
    requires a == Subject("a:b", "k=v", map[])
    requires b == Subject("a", "b", map["k" := "v"])
    ensures KeyOf(a) == KeyOf(b) && Normalize(a.typ) != Normalize(b.typ)
  {
    KeyNoQualifiers(a.typ, a.scope);
    KeyOneQualifier(b.typ, b.scope, "k", "v");
    CollisionLiterals();
  }
}
