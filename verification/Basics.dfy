/** Types every other module uses, and Go's byte-wise string order with the sort built on it. */
module Basics {

  type Id = nat

  datatype Option<+T> = None | Some(value: T)

  /** Strict lexicographic order, as Go's `<` on strings. */
  predicate Less(a: string, b: string) {
    if b == [] then false
    else if a == [] then true
    else a[0] < b[0] || (a[0] == b[0] && Less(a[1..], b[1..]))
  }

  lemma {:induction false} LessTotal(a: string, b: string)
    ensures Less(a, b) || a == b || Less(b, a)
    ensures !(Less(a, b) && Less(b, a))
    ensures a == b ==> !Less(a, b)
  {
    if a != [] && b != [] {
      LessTotal(a[1..], b[1..]);
      assert a == [a[0]] + a[1..] && b == [b[0]] + b[1..];
    }
  }

  lemma {:induction false} LessTransitive(a: string, b: string, c: string)
    requires Less(a, b) && Less(b, c)
    ensures Less(a, c)
  {
    if a != [] {
      if a[0] == b[0] == c[0] {
        LessTransitive(a[1..], b[1..], c[1..]);
      }
    }
  }

  /** Less, spelled out: a proper prefix comes first, otherwise the first difference decides. */
  lemma {:induction false} LessMeans(a: string, b: string)
    ensures Less(a, b) <==>
              exists n :: 0 <= n <= |a| && n < |b| && a[..n] == b[..n] && (n == |a| || a[n] < b[n])
  {
    assert forall n | 0 < n <= |a| && n <= |b| && a[..n] == b[..n] :: a[..n][0] == b[..n][0];
    if a != [] && b != [] && a[0] == b[0] {
      LessMeans(a[1..], b[1..]);
      assert a == [a[0]] + a[1..] && b == [b[0]] + b[1..];
      if Less(a, b) {
        var n :| 0 <= n <= |a[1..]| && n < |b[1..]| && a[1..][..n] == b[1..][..n]
                 && (n == |a[1..]| || a[1..][n] < b[1..][n]);
        assert a[..n + 1] == [a[0]] + a[1..][..n] && b[..n + 1] == [b[0]] + b[1..][..n];
      }
      if n :| 0 <= n <= |a| && n < |b| && a[..n] == b[..n] && (n == |a| || a[n] < b[n]) {
        assert n > 0;
        assert a[1..][..n - 1] == a[..n][1..] && b[1..][..n - 1] == b[..n][1..];
      }
    } else if b != [] && Less(a, b) {
      assert a[..0] == b[..0];
    }
  }

  /** No later element has a smaller key: what sort.Slice and sort.Strings leave behind. */
  ghost predicate SortedBy<T>(s: seq<T>, key: T -> string) {
    forall i, j | 0 <= i < j < |s| :: !Less(key(s[j]), key(s[i]))
  }

  function Insert<T(==)>(x: T, s: seq<T>, key: T -> string): (r: seq<T>)
    requires SortedBy(s, key)
    ensures SortedBy(r, key)
    ensures multiset(r) == multiset{x} + multiset(s)
  {
    if s == [] then [x]
    else if Less(key(s[0]), key(x)) then
      assert s == [s[0]] + s[1..];
      var t := Insert(x, s[1..], key);
      InsertBelow(x, s, t, key);
      [s[0]] + t
    else
      InsertFront(x, s, key);
      [x] + s
  }

  lemma InsertFront<T>(x: T, s: seq<T>, key: T -> string)
    requires SortedBy(s, key) && s != [] && !Less(key(s[0]), key(x))
    ensures SortedBy([x] + s, key)
  {
    forall j | 0 <= j < |s| ensures !Less(key(s[j]), key(x)) {
      LessTotal(key(s[0]), key(x));
      LessTotal(key(s[0]), key(s[j]));
      if Less(key(s[j]), key(x)) && Less(key(x), key(s[0])) {
        LessTransitive(key(s[j]), key(x), key(s[0]));
      }
    }
  }

  lemma InsertBelow<T>(x: T, s: seq<T>, t: seq<T>, key: T -> string)
    requires SortedBy(s, key) && s != [] && Less(key(s[0]), key(x))
    requires SortedBy(t, key) && multiset(t) == multiset{x} + multiset(s[1..])
    ensures SortedBy([s[0]] + t, key)
  {
    LessTotal(key(s[0]), key(x));
    forall j | 0 <= j < |t| ensures !Less(key(t[j]), key(s[0])) {
      assert t[j] in multiset(t);
      assert t[j] == x || t[j] in s[1..];
    }
  }

  /** The sort package: any order with equal keys would do, see SortedUnique. */
  function Sort<T(==)>(s: seq<T>, key: T -> string): (r: seq<T>)
    ensures SortedBy(r, key)
    ensures multiset(r) == multiset(s)
  {
    if s == [] then []
    else
      assert s == [s[0]] + s[1..];
      Insert(s[0], Sort(s[1..], key), key)
  }

  lemma SortedHeads<T>(a: seq<T>, b: seq<T>, key: T -> string)
    requires SortedBy(a, key) && SortedBy(b, key)
    requires multiset(a) == multiset(b) && a != [] && b != []
    ensures b[0] in a && !Less(key(a[0]), key(b[0])) && !Less(key(b[0]), key(a[0]))
  {
    assert a[0] in multiset(b) && b[0] in multiset(a);
    var i :| 0 <= i < |b| && b[i] == a[0];
    var j :| 0 <= j < |a| && a[j] == b[0];
    LessTotal(key(a[0]), key(b[0]));
  }

  lemma SameTails<T>(a: seq<T>, b: seq<T>)
    requires a != [] && b != [] && a[0] == b[0] && multiset(a) == multiset(b)
    ensures multiset(a[1..]) == multiset(b[1..])
  {
    assert a == [a[0]] + a[1..] && b == [b[0]] + b[1..];
    assert multiset(a[1..]) == multiset(a) - multiset{a[0]};
    assert multiset(b[1..]) == multiset(b) - multiset{b[0]};
  }

  /** When equal keys mean equal elements, sorting has only one possible result. */
  lemma {:induction false} SortedUnique<T>(a: seq<T>, b: seq<T>, key: T -> string)
    requires SortedBy(a, key) && SortedBy(b, key)
    requires multiset(a) == multiset(b)
    requires forall x, y | x in a && y in a && key(x) == key(y) :: x == y
    ensures a == b
  {
    assert |a| == |multiset(a)| == |multiset(b)| == |b|;
    if a != [] {
      SortedHeads(a, b, key);
      LessTotal(key(a[0]), key(b[0]));
      assert a[0] == b[0];
      SameTails(a, b);
      forall x, y | x in a[1..] && y in a[1..] && key(x) == key(y) ensures x == y {
        assert x in a && y in a;
      }
      SortedUnique(a[1..], b[1..], key);
      assert a == [a[0]] + a[1..] && b == [b[0]] + b[1..];
    }
  }
}
