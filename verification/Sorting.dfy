/** Stands for Go's sort package: any comparison that is a weak order, no promise on ties. */
module Sorting {

  /** Names three values so that transitivity is applied to them and to nothing else. */
  ghost predicate Triple<T>(a: T, b: T, c: T) { true }

  ghost predicate WeakOrder<T(!new)>(less: (T, T) -> bool) {
    && (forall a, b :: less(a, b) ==> !less(b, a))
    && (forall a, b, c {:trigger Triple(a, b, c)} :: !less(b, a) && !less(c, b) ==> !less(c, a))
  }

  ghost predicate SortedBy<T>(s: seq<T>, less: (T, T) -> bool) {
    forall i, j :: 0 <= i < j < |s| ==> !less(s[j], s[i])
  }

  lemma SortedInsert<T>(s: seq<T>, x: T, k: nat, less: (T, T) -> bool)
    requires SortedBy(s, less) && k <= |s|
    requires forall i :: 0 <= i < k ==> !less(x, s[i])
    requires forall i :: k <= i < |s| ==> !less(s[i], x)
    ensures SortedBy(s[..k] + [x] + s[k..], less)
  {
    var r := s[..k] + [x] + s[k..];
    forall i, j | 0 <= i < j < |r| ensures !less(r[j], r[i]) {
      assert r[i] == (if i < k then s[i] else if i == k then x else s[i - 1]);
      assert r[j] == (if j < k then s[j] else if j == k then x else s[j - 1]);
    }
  }

  method Insert<T(!new)>(s: seq<T>, x: T, less: (T, T) -> bool) returns (r: seq<T>)
    requires WeakOrder(less) && SortedBy(s, less)
    ensures multiset(r) == multiset(s) + multiset{x} && SortedBy(r, less)
  {
    var k := |s|;
    while k > 0 && less(x, s[k - 1])
      invariant 0 <= k <= |s|
      invariant forall i :: k <= i < |s| ==> !less(s[i], x)
    {
      k := k - 1;
    }
    forall i | 0 <= i < k ensures !less(x, s[i]) {
      assert Triple(s[i], s[k - 1], x);
    }
    assert s == s[..k] + s[k..];
    r := s[..k] + [x] + s[k..];
    SortedInsert(s, x, k, less);
  }

  method Sort<T(!new)>(s: seq<T>, less: (T, T) -> bool) returns (r: seq<T>)
    requires WeakOrder(less)
    ensures multiset(r) == multiset(s) && SortedBy(r, less)
  {
    r := [];
    for n := 0 to |s|
      invariant multiset(r) == multiset(s[..n]) && SortedBy(r, less)
    {
      assert s[..n + 1] == s[..n] + [s[n]];
      r := Insert(r, s[n], less);
    }
    assert s[..|s|] == s;
  }

  /** Byte-wise order of Go strings. */
  predicate StringLess(a: string, b: string) {
    b != [] && (a == [] || a[0] < b[0] || (a[0] == b[0] && StringLess(a[1..], b[1..])))
  }

  lemma {:induction false} StringLessAsym(a: string, b: string)
    requires StringLess(a, b)
    ensures !StringLess(b, a)
  {
    if a != [] && a[0] == b[0] { StringLessAsym(a[1..], b[1..]); }
  }

  lemma {:induction false} StringLessTotal(a: string, b: string)
    ensures a == b || StringLess(a, b) || StringLess(b, a)
  {
    if a != [] && b != [] && a[0] == b[0] {
      StringLessTotal(a[1..], b[1..]);
      assert a == [a[0]] + a[1..] && b == [b[0]] + b[1..];
    }
  }

  lemma {:induction false} StringLessTrans(a: string, b: string, c: string)
    requires StringLess(a, b) && StringLess(b, c)
    ensures StringLess(a, c)
  {
    if a != [] && a[0] == b[0] && b[0] == c[0] { StringLessTrans(a[1..], b[1..], c[1..]); }
  }

  lemma StringLessWeak(a: string, b: string, c: string)
    requires !StringLess(b, a) && !StringLess(c, b)
    ensures !StringLess(c, a)
  {
    StringLessTotal(a, b);
    StringLessTotal(b, c);
    if a != b && b != c {
      StringLessTrans(a, b, c);
      StringLessAsym(a, c);
    }
  }

  lemma StringLessWeakOrder()
    ensures WeakOrder(StringLess)
  {
    forall a, b | StringLess(a, b) ensures !StringLess(b, a) { StringLessAsym(a, b); }
    forall a, b, c | !StringLess(b, a) && !StringLess(c, b) ensures !StringLess(c, a) { StringLessWeak(a, b, c); }
  }
}
