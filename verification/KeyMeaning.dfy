/** What the canonical key makes of letters and blanks, in terms of characters alone. */
module KeyMeaning {
  import opened Basics
  import opened Subjects

  // ---- Blanks and letters ----

  predicate Blank(c: char) {
    c == ' ' || c == '\t' || c == '\n' || c == '\r' || c as int == 11 || c as int == 12
  }

  predicate AllBlank(s: string) {
    forall i | 0 <= i < |s| :: Blank(s[i])
  }

  /** c is s without the blanks around it. */
  ghost predicate IsCore(s: string, c: string) {
    exists before, after :: s == before + c + after && AllBlank(before) && AllBlank(after)
                            && (c == "" || (!Blank(c[0]) && !Blank(c[|c|-1])))
  }

  /** Equal, or one an upper-case and the other the lower-case form of an ASCII letter. */
  predicate SameLetter(a: char, b: char) {
    || a == b
    || ('A' <= a <= 'Z' && b as int == a as int + 32)
    || ('A' <= b <= 'Z' && a as int == b as int + 32)
  }

  predicate SameLetters(a: string, b: string) {
    |a| == |b| && forall i | 0 <= i < |a| :: SameLetter(a[i], b[i])
  }

  predicate NoUpperCase(s: string) {
    forall i | 0 <= i < |s| :: !('A' <= s[i] <= 'Z')
  }

  /** y is x without surrounding blanks and in lower case. */
  ghost predicate Folded(x: string, y: string) {
    NoUpperCase(y) && exists c :: IsCore(x, c) && SameLetters(c, y)
  }

  /** The two differ only in the case of letters and in surrounding blanks. */
  ghost predicate Alike(a: string, b: string) {
    exists c, d :: IsCore(a, c) && IsCore(b, d) && SameLetters(c, d)
  }

  /** The two differ only in surrounding blanks. */
  ghost predicate SameCore(a: string, b: string) {
    exists c :: IsCore(a, c) && IsCore(b, c)
  }

  // ---- Trimming and folding compute it ----

  lemma {:induction false} TrimLeftSplits(s: string) returns (before: string)
    ensures s == before + TrimLeft(s) && AllBlank(before)
  {
    if s != "" && IsSpace(s[0]) {
      var rest := TrimLeftSplits(s[1..]);
      before := [s[0]] + rest;
      assert s == [s[0]] + s[1..];
    } else {
      before := "";
    }
  }

  lemma {:induction false} TrimRightSplits(s: string) returns (after: string)
    ensures s == TrimRight(s) + after && AllBlank(after)
  {
    if s != "" && IsSpace(s[|s|-1]) {
      var rest := TrimRightSplits(s[..|s|-1]);
      after := rest + [s[|s|-1]];
      assert s == s[..|s|-1] + [s[|s|-1]];
    } else {
      after := "";
    }
  }

  lemma TrimIsCore(s: string)
    ensures IsCore(s, TrimSpace(s))
  {
    var before := TrimLeftSplits(s);
    var after := TrimRightSplits(TrimLeft(s));
    TrimLeftShape(s);
    TrimRightShape(TrimLeft(s));
    assert s == before + TrimSpace(s) + after;
  }

  lemma CoreUnique(s: string, c: string, d: string)
    requires IsCore(s, c) && IsCore(s, d)
    ensures c == d
  {
    var b1, a1 :| s == b1 + c + a1 && AllBlank(b1) && AllBlank(a1) && (c == "" || (!Blank(c[0]) && !Blank(c[|c|-1])));
    var b2, a2 :| s == b2 + d + a2 && AllBlank(b2) && AllBlank(a2) && (d == "" || (!Blank(d[0]) && !Blank(d[|d|-1])));
    if c == "" {
      EmptyCore(s, b1, a1, d, b2, a2);
    } else if d == "" {
      EmptyCore(s, b2, a2, c, b1, a1);
    } else {
      CoreStart(s, b1, c, a1, b2, d, a2);
    }
  }

  lemma EmptyCore(s: string, b: string, a: string, d: string, b2: string, a2: string)
    requires s == b + "" + a && AllBlank(b) && AllBlank(a) && s == b2 + d + a2
    requires d == "" || !Blank(d[0])
    ensures d == ""
  {
    assert s == b + a;
    assert forall i | 0 <= i < |s| :: Blank(s[i]);
    assert forall i | 0 <= i < |d| :: s[|b2| + i] == d[i];
  }

  lemma NotInPrefix(s: string, before: string, rest: string, k: nat)
    requires s == before + rest && AllBlank(before) && k < |s| && !Blank(s[k])
    ensures k >= |before|
  {
    assert forall i | 0 <= i < |before| :: s[i] == before[i];
  }

  lemma NotInSuffix(s: string, rest: string, after: string, k: nat)
    requires s == rest + after && AllBlank(after) && k < |s| && !Blank(s[k])
    ensures k < |rest|
  {
    assert forall i | |rest| <= i < |s| :: s[i] == after[i - |rest|];
  }

  lemma CoreStart(s: string, b1: string, c: string, a1: string, b2: string, d: string, a2: string)
    requires s == b1 + c + a1 && AllBlank(b1) && AllBlank(a1) && c != "" && !Blank(c[0]) && !Blank(c[|c|-1])
    requires s == b2 + d + a2 && AllBlank(b2) && AllBlank(a2) && d != "" && !Blank(d[0]) && !Blank(d[|d|-1])
    ensures c == d
  {
    assert s[|b1|] == c[0] && s[|b2|] == d[0];
    assert s[|b1| + |c| - 1] == c[|c|-1] && s[|b2| + |d| - 1] == d[|d|-1];
    assert s == b1 + (c + a1) && s == b2 + (d + a2);
    NotInPrefix(s, b1, c + a1, |b2|);
    NotInPrefix(s, b2, d + a2, |b1|);
    NotInSuffix(s, b1 + c, a1, |b2| + |d| - 1);
    NotInSuffix(s, b2 + d, a2, |b1| + |c| - 1);
    assert c == s[|b1|..|b1| + |c|] && d == s[|b2|..|b2| + |d|];
  }

  lemma FoldMeans(a: string, b: string)
    ensures ToLower(a) == ToLower(b) <==> SameLetters(a, b)
    ensures NoUpperCase(ToLower(a)) && SameLetters(a, ToLower(a))
  {
    if ToLower(a) == ToLower(b) {
      forall i | 0 <= i < |a| ensures SameLetter(a[i], b[i]) {
        assert ToLower(a)[i] == ToLower(b)[i];
      }
    }
  }

  /** Normalising is exactly dropping the blanks around a part and the case of its letters. */
  lemma NormalizeMeans(a: string, b: string)
    ensures Normalize(a) == Normalize(b) <==> Alike(a, b)
    ensures forall y :: Folded(a, y) <==> y == Normalize(a)
  {
    TrimIsCore(a);
    TrimIsCore(b);
    FoldMeans(TrimSpace(a), TrimSpace(b));
    if c, d :| IsCore(a, c) && IsCore(b, d) && SameLetters(c, d) {
      CoreUnique(a, c, TrimSpace(a));
      CoreUnique(b, d, TrimSpace(b));
    }
    forall y ensures Folded(a, y) <==> y == Normalize(a) {
      FoldedUnique(a, y);
    }
  }

  lemma FoldedUnique(x: string, y: string)
    ensures Folded(x, y) <==> y == Normalize(x)
  {
    TrimIsCore(x);
    FoldMeans(TrimSpace(x), y);
    if Folded(x, y) {
      var c :| IsCore(x, c) && SameLetters(c, y);
      CoreUnique(x, c, TrimSpace(x));
      assert ToLower(y) == y;
    }
  }

  lemma TrimMeans(a: string, b: string)
    ensures TrimSpace(a) == TrimSpace(b) <==> SameCore(a, b)
    ensures forall c :: IsCore(a, c) <==> c == TrimSpace(a)
  {
    TrimIsCore(a);
    TrimIsCore(b);
    if c :| IsCore(a, c) && IsCore(b, c) {
      CoreUnique(a, c, TrimSpace(a));
      CoreUnique(b, c, TrimSpace(b));
    }
    forall c ensures IsCore(a, c) <==> c == TrimSpace(a) {
      if IsCore(a, c) {
        CoreUnique(a, c, TrimSpace(a));
      }
    }
  }

  lemma BlankMeans(s: string)
    ensures TrimSpace(s) == "" <==> AllBlank(s)
  {
    TrimMeans(s, s);
    if AllBlank(s) {
      BlankHasEmptyCore(s);
    }
    if IsCore(s, "") {
      EmptyCoreIsBlank(s);
    }
  }

  lemma BlankHasEmptyCore(s: string)
    requires AllBlank(s)
    ensures IsCore(s, "")
  {
    var before, core, after := s, "", "";
    assert s == before + core + after;
    assert AllBlank(before) && AllBlank(after);
  }

  lemma EmptyCoreIsBlank(s: string)
    requires IsCore(s, "")
    ensures AllBlank(s)
  {
    var before, after :| s == before + "" + after && AllBlank(before) && AllBlank(after);
    assert s == before + after;
  }

  // ---- The key ----

  /** x is the text of a qualifier: its folded key, "=", and its value without the blanks around it. */
  ghost predicate QualifierText(k: string, v: string, x: string) {
    exists kk, vv :: Folded(k, kk) && IsCore(v, vv) && x == kk + "=" + vv
  }

  lemma PairMeans(k: string, v: string, x: string)
    ensures x == Pair(k, v) <==> QualifierText(k, v, x)
  {
    FoldedUnique(k, Normalize(k));
    TrimMeans(v, v);
    if QualifierText(k, v, x) {
      var kk, vv :| Folded(k, kk) && IsCore(v, vv) && x == kk + "=" + vv;
      FoldedUnique(k, kk);
    }
  }

  /**
   * The key of a subject, spelled out: the folded type; the folded scope, or "global" for a blank one;
   * then the texts of the qualifiers in byte order, each as often as qualifiers have it.
   */
  lemma KeyShape(s: Subject) returns (typ: string, scope: string, quals: seq<string>)
    ensures KeyOf(s) == Join([typ, scope] + quals)
    ensures Folded(s.typ, typ)
    ensures if AllBlank(s.scope) then scope == "global" else Folded(s.scope, scope)
    ensures forall i, j | 0 <= i < j < |quals| :: !Less(quals[j], quals[i])
    ensures forall x :: multiset(quals)[x] == |set k | k in s.qualifiers && QualifierText(k, s.qualifiers[k], x)|
  {
    typ, scope, quals := Normalize(s.typ), ScopeOf(s), Sort(PairList(s.qualifiers), Same);
    FoldedUnique(s.typ, typ);
    FoldedUnique(s.scope, Normalize(s.scope));
    BlankMeans(s.scope);
    assert Normalize(s.scope) == "" <==> TrimSpace(s.scope) == "";
    forall i, j | 0 <= i < j < |quals| ensures !Less(quals[j], quals[i]) {
      assert !Less(Same(quals[j]), Same(quals[i]));
    }
    forall x ensures multiset(quals)[x] == |set k | k in s.qualifiers && QualifierText(k, s.qualifiers[k], x)| {
      PairsCount(s.qualifiers, x);
      forall k | k in s.qualifiers ensures x == Pair(k, s.qualifiers[k]) <==> QualifierText(k, s.qualifiers[k], x) {
        PairMeans(k, s.qualifiers[k], x);
      }
      assert (set k | k in s.qualifiers && Pair(k, s.qualifiers[k]) == x)
          == (set k | k in s.qualifiers && QualifierText(k, s.qualifiers[k], x));
    }
  }

  /** The parts joined with colons. */
  lemma JoinMeans(x: string, rest: seq<string>)
    ensures Join([x]) == x
    ensures rest != [] ==> Join([x] + rest) == x + ":" + Join(rest)
  {
    assert rest != [] ==> ([x] + rest)[1..] == rest;
  }

  /** The qualifiers correspond one to one: keys up to case and blanks, values up to blanks. */
  ghost predicate Correspond(a: map<string, string>, b: map<string, string>, to: map<string, string>) {
    && to.Keys == a.Keys && to.Values == b.Keys
    && (forall j, k | j in to && k in to && to[j] == to[k] :: j == k)
    && (forall k | k in a :: k in to && to[k] in b && Alike(k, to[k]) && SameCore(a[k], b[to[k]]))
  }

  lemma {:induction false} ImageSize(keys: set<string>, to: map<string, string>)
    requires keys <= to.Keys && forall j, k | j in to && k in to && to[j] == to[k] :: j == k
    ensures |set k | k in keys :: to[k]| == |keys|
  {
    var image := set k | k in keys :: to[k];
    if keys == {} {
      assert image == {};
    } else {
      var k :| k in keys;
      ImageSize(keys - {k}, to);
      var rest := set j | j in keys - {k} :: to[j];
      assert to[k] !in rest;
      assert image == rest + {to[k]};
    }
  }

  lemma CorrespondingCarriers(a: map<string, string>, b: map<string, string>, to: map<string, string>, x: string)
    requires to.Keys == a.Keys && to.Values == b.Keys
    requires forall j, k | j in to && k in to && to[j] == to[k] :: j == k
    requires forall k | k in a :: a[k] == b[to[k]]
    ensures |Carriers(a.Keys, x, a)| == |Carriers(b.Keys, x, b)|
  {
    var ka, kb := Carriers(a.Keys, x, a), Carriers(b.Keys, x, b);
    ImageSize(ka, to);
    var image := set k | k in ka :: to[k];
    forall k | k in kb ensures k in image {
      assert k in to.Values;
      var j :| j in to && to[j] == k;
      assert j in ka;
    }
    assert kb == image;
  }

  lemma LabelsCorrespond(a: map<string, string>, b: map<string, string>, to: map<string, string>,
                         la: map<string, string>, lb: map<string, string>)
    requires la == Labels(a) && lb == Labels(b) && to.Keys == a.Keys && to.Values == b.Keys
    requires forall j, k | j in to && k in to && to[j] == to[k] :: j == k
    requires forall k | k in a :: k in to && to[k] in b && Pair(k, a[k]) == Pair(to[k], b[to[k]])
    ensures Pairs(a) == Pairs(b)
  {
    assert la.Keys == a.Keys && lb.Keys == b.Keys;
    forall k | k in la ensures la[k] == lb[to[k]] {
    }
    SameCounts(la, lb, to);
  }

  lemma SameCounts(la: map<string, string>, lb: map<string, string>, to: map<string, string>)
    requires to.Keys == la.Keys && to.Values == lb.Keys
    requires forall j, k | j in to && k in to && to[j] == to[k] :: j == k
    requires forall k | k in la :: k in to && to[k] in lb && la[k] == lb[to[k]]
    ensures Printed(la.Keys, la) == Printed(lb.Keys, lb)
  {
    var pa, pb := Printed(la.Keys, la), Printed(lb.Keys, lb);
    forall x ensures pa[x] == pb[x] {
      PrintedCount(la.Keys, x, la);
      PrintedCount(lb.Keys, x, lb);
      CorrespondingCarriers(la, lb, to, x);
    }
  }

  lemma CorrespondingPairs(a: map<string, string>, b: map<string, string>, to: map<string, string>)
    requires Correspond(a, b, to)
    ensures Pairs(a) == Pairs(b)
  {
    forall k | k in a ensures Pair(k, a[k]) == Pair(to[k], b[to[k]]) {
      NormalizeMeans(k, to[k]);
      TrimMeans(a[k], b[to[k]]);
    }
    LabelsCorrespond(a, b, to, Labels(a), Labels(b));
  }

  /** Subjects that differ only in case and blanks, but for the case of qualifier values, share a key. */
  lemma CaseAndBlanksIgnored(a: Subject, b: Subject, to: map<string, string>)
    requires Alike(a.typ, b.typ) && Alike(a.scope, b.scope) && Correspond(a.qualifiers, b.qualifiers, to)
    ensures KeyOf(a) == KeyOf(b)
  {
    NormalizeMeans(a.typ, b.typ);
    NormalizeMeans(a.scope, b.scope);
    CorrespondingPairs(a.qualifiers, b.qualifiers, to);
    SortedUnique(Sort(PairList(a.qualifiers), Same), Sort(PairList(b.qualifiers), Same), Same);
    assert Parts(a) == Parts(b);
  }

  /** Qualifier values keep their case: values that differ in more than blanks give different keys. */
  lemma ValuesStayApart(typ: string, scope: string, k: string, v: string, w: string)
    requires !SameCore(v, w)
    ensures KeyOf(Subject(typ, scope, map[k := v])) != KeyOf(Subject(typ, scope, map[k := w]))
  {
    TrimMeans(v, w);
    KeyOneQualifier(typ, scope, k, v);
    KeyOneQualifier(typ, scope, k, w);
    var blank := Subject(typ, scope, map[]);
    SamePrefix(Normalize(typ) + ":", ScopeOf(blank) + ":", Normalize(k) + "=", TrimSpace(v), TrimSpace(w));
  }

  lemma SamePrefix(a: string, b: string, c: string, x: string, y: string)
    requires x != y
    ensures a + (b + (c + x)) != a + (b + (c + y))
  {
    Cancel(c, x, y);
    Cancel(b, c + x, c + y);
    Cancel(a, b + (c + x), b + (c + y));
  }

  lemma Cancel(a: string, x: string, y: string)
    ensures x != y ==> a + x != a + y
  {
    assert (a + x)[|a|..] == x && (a + y)[|a|..] == y;
  }

  /** Without qualifiers a blank scope ends the key in "global". */
  lemma BlankScope(s: Subject)
    requires AllBlank(s.scope) && s.qualifiers == map[]
    ensures exists typ :: Folded(s.typ, typ) && KeyOf(s) == typ + ":" + "global"
  {
    KeyNoQualifiers(s.typ, s.scope);
    BlankMeans(s.scope);
    FoldedUnique(s.typ, Normalize(s.typ));
    assert s == Subject(s.typ, s.scope, map[]);
  }
}
