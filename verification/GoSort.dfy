/** Go's order on strings (bytes, lexicographically) and `sort` up to what it promises: some
    sorted permutation, with no promise about equal keys.
 */
module GoSort {

  predicate Leq(a: string, b: string) {
    a == "" || (b != "" && (a[0] < b[0] || (a[0] == b[0] && Leq(a[1..], b[1..]))))
  }

  lemma {:induction false} LeqTotal(a: string, b: string)
    ensures Leq(a, b) || Leq(b, a)
  {
    if a != "" && b != "" { LeqTotal(a[1..], b[1..]); }
  }

  lemma {:induction false} LeqTransitive(a: string, b: string, c: string)
    requires Leq(a, b) && Leq(b, c)
    ensures Leq(a, c)
  {
    if a != "" && a[0] == b[0] == c[0] { LeqTransitive(a[1..], b[1..], c[1..]); }
  }

  lemma {:induction false} LeqAntisymmetric(a: string, b: string)
    requires Leq(a, b) && Leq(b, a)
    ensures a == b
  {
    if a != "" {
      LeqAntisymmetric(a[1..], b[1..]);
      assert a == [a[0]] + a[1..] && b == [b[0]] + b[1..];
    }
  }

  /** A text comes before its extensions. */
  lemma {:induction false} PrefixLeq(a: string, b: string)
    requires a <= b
    ensures Leq(a, b)
  {
    if a != "" { PrefixLeq(a[1..], b[1..]); }
  }

  ghost predicate SortedBy<T>(key: T -> string, s: seq<T>) {
    forall i, j :: 0 <= i < j < |s| ==> Leq(key(s[i]), key(s[j]))
  }

  /** Puts x behind the elements of s that are not greater. */
  function Insert<T>(key: T -> string, x: T, s: seq<T>): (r: seq<T>)
    ensures multiset(r) == multiset(s) + multiset{x}
  {
    if s == [] || !Leq(key(s[0]), key(x)) then
      assert multiset([x] + s) == multiset{x} + multiset(s);
      [x] + s
    else
      assert s == [s[0]] + s[1..];
      [s[0]] + Insert(key, x, s[1..])
  }

  lemma {:induction false} InsertSorted<T>(key: T -> string, x: T, s: seq<T>)
    requires SortedBy(key, s)
    ensures SortedBy(key, Insert(key, x, s))
  {
    var r := Insert(key, x, s);
    if s == [] || !Leq(key(s[0]), key(x)) {
      forall i | 0 <= i < |s| ensures Leq(key(x), key(s[i])) {
        LeqTotal(key(s[0]), key(x));
        if i > 0 { LeqTransitive(key(x), key(s[0]), key(s[i])); }
      }
    } else {
      var t := Insert(key, x, s[1..]);
      InsertSorted(key, x, s[1..]);
      forall j | 0 <= j < |t| ensures Leq(key(s[0]), key(t[j])) {
        assert t[j] in multiset(t);
        assert t[j] in s[1..] || t[j] == x;
      }
      assert r == [s[0]] + t;
    }
  }

  method SortSlice<T>(key: T -> string, s: seq<T>) returns (r: seq<T>)
    ensures SortedBy(key, r)
    ensures multiset(r) == multiset(s)
  {
    r := [];
    for i := 0 to |s|
      invariant SortedBy(key, r)
      invariant multiset(r) == multiset(s[..i])
    {
      InsertSorted(key, s[i], r);
      r := Insert(key, s[i], r);
      assert s[..i + 1] == s[..i] + [s[i]];
    }
    assert s[..|s|] == s;
  }

  lemma FirstLeast<T>(key: T -> string, x: seq<T>, v: T)
    requires SortedBy(key, x) && v in multiset(x)
    ensures Leq(key(x[0]), key(v))
  {
    var k :| 0 <= k < |x| && x[k] == v;
    if k == 0 { LeqTotal(key(v), key(v)); }
  }

  ghost predicate DistinctBy<T>(key: T -> string, x: seq<T>) {
    forall i, j :: 0 <= i < j < |x| ==> key(x[i]) != key(x[j])
  }

  lemma SameFirst<T>(key: T -> string, x: seq<T>, y: seq<T>)
    requires SortedBy(key, x) && SortedBy(key, y) && multiset(x) == multiset(y) && DistinctBy(key, x)
    requires x != [] && y != []
    ensures x[0] == y[0]
  {
    assert x[0] in multiset(y) && y[0] in multiset(x);
    FirstLeast(key, x, y[0]);
    FirstLeast(key, y, x[0]);
    LeqAntisymmetric(key(x[0]), key(y[0]));
    var k :| 0 <= k < |x| && x[k] == y[0];
  }

  lemma TailOf<T>(key: T -> string, x: seq<T>)
    requires x != []
    ensures multiset(x[1..]) == multiset(x) - multiset{x[0]} && x == [x[0]] + x[1..]
    ensures SortedBy(key, x) ==> SortedBy(key, x[1..])
    ensures DistinctBy(key, x) ==> DistinctBy(key, x[1..])
  {
    assert x == [x[0]] + x[1..];
  }

  /** Distinct keys have one sorted listing. */
  lemma {:induction false} SortedUnique<T>(key: T -> string, x: seq<T>, y: seq<T>)
    requires SortedBy(key, x) && SortedBy(key, y) && multiset(x) == multiset(y) && DistinctBy(key, x)
    ensures x == y
    decreases |x|
  {
    hide SortedBy, DistinctBy;
    assert |x| == |multiset(x)| == |multiset(y)| == |y|;
    if x != [] {
      SameFirst(key, x, y);
      TailOf(key, x);
      TailOf(key, y);
      SortedUnique(key, x[1..], y[1..]);
    }
  }
}
