/** How often a value occurs in a sequence, as a set of indices. */
module Counting {

  ghost function Where<T>(s: seq<T>, x: T): (r: set<int>) {
    set i | 0 <= i < |s| && s[i] == x
  }

  lemma {:induction false} WhereSize<T>(s: seq<T>, x: T)
    ensures |Where(s, x)| == multiset(s)[x]
  {
    if s == [] {
      assert Where(s, x) == {};
    } else {
      var k := |s| - 1;
      WhereSize(s[..k], x);
      assert s == s[..k] + [s[k]];
      assert Where(s, x) == if s[k] == x then Where(s[..k], x) + {k} else Where(s[..k], x);
    }
  }

  /** Leaving out one element of a sequence. */
  lemma RemoveAt<T>(s: seq<T>, j: nat)
    requires j < |s|
    ensures multiset(s[..j] + s[j + 1..]) == multiset(s) - multiset{s[j]}
  {
    assert s == s[..j] + [s[j]] + s[j + 1..];
  }

  ghost predicate Distinct<T>(s: seq<T>) {
    forall i, j :: 0 <= i < j < |s| ==> s[i] != s[j]
  }

  /** The elements at the positions `ids`. */
  ghost function Select<T>(s: seq<T>, ids: seq<int>): (r: seq<T>)
    requires forall k :: 0 <= k < |ids| ==> 0 <= ids[k] < |s|
    ensures |r| == |ids| && forall k :: 0 <= k < |ids| ==> r[k] == s[ids[k]]
  {
    seq(|ids|, k requires 0 <= k < |ids| => s[ids[k]])
  }

  ghost function Image(f: seq<int>, s: set<int>): (r: set<int>)
    requires forall i :: i in s ==> 0 <= i < |f|
  {
    set i | i in s :: f[i]
  }

  /** Some element of a set, as a loop over a Go map takes it. */
  method Any<T(==)>(s: set<T>) returns (x: T)
    requires s != {}
    ensures x in s
  {
    x :| x in s;
  }

  /** The elements of a set in the arbitrary order of a loop over a Go map. */
  method Elements<T(==)>(s: set<T>) returns (list: seq<T>)
    ensures (forall x :: x in list <==> x in s) && forall i, j :: 0 <= i < j < |list| ==> list[i] != list[j]
  {
    list := [];
    var left := s;
    while left != {}
      invariant forall x :: x in s <==> x in left || x in list
      invariant forall x :: x in left ==> x !in list
      invariant forall i, j :: 0 <= i < j < |list| ==> list[i] != list[j]
      decreases left
    {
      var x := Any(left);
      left := left - {x};
      list := list + [x];
    }
  }

  lemma Pick<T>(s: set<T>) returns (x: T)
    requires s != {}
    ensures x in s
  {
    x :| x in s;
  }

  lemma {:induction false} ImageSize(f: seq<int>, s: set<int>)
    requires Distinct(f) && forall i :: i in s ==> 0 <= i < |f|
    ensures |Image(f, s)| == |s|
  {
    if s != {} {
      var x := Pick(s);
      ImageSize(f, s - {x});
      ImageSplit(f, s, x);
    } else {
      assert Image(f, s) == {};
    }
  }

  lemma ImageSplit(f: seq<int>, s: set<int>, x: int)
    requires Distinct(f) && x in s && forall i :: i in s ==> 0 <= i < |f|
    ensures Image(f, s) == Image(f, s - {x}) + {f[x]} && f[x] !in Image(f, s - {x})
  {
  }

  lemma {:induction false} SubsetSize<T>(a: set<T>, b: set<T>)
    requires a <= b
    ensures |a| <= |b|
    ensures |a| == |b| ==> a == b
  {
    if a != {} {
      var x :| x in a;
      SubsetSize(a - {x}, b - {x});
      assert a == (a - {x}) + {x} && b == (b - {x}) + {x};
    }
  }

  ghost predicate PermutedBy<T>(s: seq<T>, t: seq<T>, f: seq<int>) {
    && |f| == |s| == |t| && Distinct(f)
    && forall i :: 0 <= i < |f| ==> 0 <= f[i] < |t| && s[i] == t[f[i]]
  }

  ghost function Indices(n: nat): (r: set<int>)
    ensures forall x :: x in r <==> 0 <= x < n
    ensures |r| == n
  {
    if n == 0 then {} else Indices(n - 1) + {n - 1}
  }

  lemma Surjective(f: seq<int>)
    requires Distinct(f) && forall i :: 0 <= i < |f| ==> 0 <= f[i] < |f|
    ensures forall x :: 0 <= x < |f| ==> x in f
  {
    hide Indices, Distinct;
    var all := Indices(|f|);
    var image := Image(f, all);
    ImageSize(f, all);
    ImageIn(f, all);
    hide Image;
    SubsetSize(image, all);
    forall x | 0 <= x < |f| ensures x in f {
      assert x in image;
    }
  }

  lemma ImageIn(f: seq<int>, s: set<int>)
    requires forall i :: i in s ==> 0 <= i < |f|
    ensures forall x :: x in Image(f, s) ==> x in f
  {
  }

  lemma PermutationSameElements<T(!new)>(s: seq<T>, t: seq<T>, f: seq<int>)
    requires PermutedBy(s, t, f)
    ensures multiset(s) == multiset(t)
  {
    Surjective(f);
    forall x ensures multiset(s)[x] == multiset(t)[x] {
      WhereSize(s, x);
      WhereSize(t, x);
      ImageSize(f, Where(s, x));
      assert Image(f, Where(s, x)) == Where(t, x) by {
        forall j | j in Where(t, x) ensures j in Image(f, Where(s, x)) {
          assert j in f;
          var i :| 0 <= i < |f| && f[i] == j;
          assert i in Where(s, x);
        }
      }
    }
  }

  /** An index of `t` that holds the next value of `s` and was not used before. */
  lemma UnusedIndex<T>(s: seq<T>, t: seq<T>, f: seq<int>) returns (p: int)
    requires multiset(s) == multiset(t) && |f| < |s| && Distinct(f)
    requires forall i :: 0 <= i < |f| ==> 0 <= f[i] < |t| && s[i] == t[f[i]]
    ensures 0 <= p < |t| && t[p] == s[|f|] && p !in f
  {
    var k, x := |f|, s[|f|];
    var before := Where(s[..k], x);
    WhereSize(s, x);
    WhereSize(t, x);
    ImageSize(f, before);
    assert k in Where(s, x) && k !in before && before <= Where(s, x);
    SubsetSize(before, Where(s, x));
    if Where(t, x) <= Image(f, before) { SubsetSize(Where(t, x), Image(f, before)); }
    p :| p in Where(t, x) && p !in Image(f, before);
    forall i | 0 <= i < |f| ensures f[i] != p {
      assert s[..k][i] == x ==> i in before;
    }
  }

  lemma SameElementsPermutation<T>(s: seq<T>, t: seq<T>) returns (f: seq<int>)
    requires multiset(s) == multiset(t)
    ensures PermutedBy(s, t, f)
  {
    assert |multiset(s)| == |s| && |multiset(t)| == |t|;
    f := [];
    while |f| < |s|
      invariant |f| <= |s| && Distinct(f)
      invariant forall i :: 0 <= i < |f| ==> 0 <= f[i] < |t| && s[i] == t[f[i]]
    {
      var p := UnusedIndex(s, t, f);
      f := f + [p];
    }
  }

  lemma {:induction false} Once<T>(s: seq<T>, x: T)
    requires Distinct(s)
    ensures multiset(s)[x] == if x in s then 1 else 0
  {
    if s != [] {
      var rest, last := s[..|s| - 1], s[|s| - 1];
      assert s == rest + [last];
      Once(rest, x);
      assert last !in rest;
    }
  }

  /** Lists without repetition and with the same elements are permutations of each other. */
  lemma SameSet<T(!new)>(a: seq<T>, b: seq<T>)
    requires Distinct(a) && Distinct(b)
    requires forall x :: x in a <==> x in b
    ensures multiset(a) == multiset(b)
  {
    forall x ensures multiset(a)[x] == multiset(b)[x] {
      Once(a, x);
      Once(b, x);
    }
  }

  lemma SameDistinct<T(!new)>(a: seq<T>, b: seq<T>)
    requires multiset(a) == multiset(b) && Distinct(a)
    ensures Distinct(b)
    ensures forall x :: x in a <==> x in b
  {
    var f := SameElementsPermutation(b, a);
    forall i, j | 0 <= i < j < |b| ensures b[i] != b[j] {
      assert f[i] != f[j];
    }
    forall x ensures x in a <==> x in b {
      assert x in multiset(a) <==> x in multiset(b);
    }
  }

  /** Choosing in another order gives the same elements. */
  lemma SelectPermuted<T(!new)>(s: seq<T>, a: seq<int>, b: seq<int>)
    requires multiset(a) == multiset(b) && forall k :: 0 <= k < |b| ==> 0 <= b[k] < |s|
    ensures forall k :: 0 <= k < |a| ==> 0 <= a[k] < |s|
    ensures multiset(Select(s, a)) == multiset(Select(s, b))
  {
    var f := SameElementsPermutation(a, b);
    forall k | 0 <= k < |a| ensures 0 <= a[k] < |s| { assert a[k] == b[f[k]]; }
    PermutationSameElements(Select(s, a), Select(s, b), f);
  }
}
