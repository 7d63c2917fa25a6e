/** Locality: a history over many keys is linearizable exactly when the operations on each key are. */
module Locality {
  import opened Options
  import opened Linearizability

  /** The state of key `k`; a key never touched is in the initial state. */
  function Component<S, V, K>(m: Model<S, V>, st: map<K, S>, k: K): (r: S) {
    if k in st then st[k] else m.init
  }

  /** The store that runs one copy of `m` per key. */
  function Product<S, V, K>(m: Model<S, V>, key: V -> K): (r: Model<map<K, S>, V>) {
    Model(map[], (st: map<K, S>, i: V, o: V) =>
      var (ok, u) := m.step(Component(m, st, key(i)), i, o);
      (ok, st[key(i) := u]))
  }

  /** The operations on key `k`, in order. */
  function Sub<V, K(==)>(ops: seq<Operation<V>>, key: V -> K, k: K): (r: seq<Operation<V>>) {
    if ops == [] then []
    else if key(ops[|ops| - 1].input) == k then Sub(ops[..|ops| - 1], key, k) + [ops[|ops| - 1]]
    else Sub(ops[..|ops| - 1], key, k)
  }

  lemma {:induction false} SubElements<V, K>(ops: seq<Operation<V>>, key: V -> K, k: K, x: Operation<V>)
    ensures multiset(Sub(ops, key, k))[x] == if key(x.input) == k then multiset(ops)[x] else 0
  {
    if ops != [] {
      SubElements(ops[..|ops| - 1], key, k, x);
      assert ops == ops[..|ops| - 1] + [ops[|ops| - 1]];
    }
  }

  lemma SubMembers<V(!new), K>(ops: seq<Operation<V>>, key: V -> K, k: K)
    ensures forall x :: x in Sub(ops, key, k) <==> x in ops && key(x.input) == k
  {
    forall x ensures x in Sub(ops, key, k) <==> x in ops && key(x.input) == k {
      SubElements(ops, key, k, x);
      assert x in multiset(ops) <==> x in ops;
      assert x in multiset(Sub(ops, key, k)) <==> x in Sub(ops, key, k);
    }
  }

  lemma {:induction false} SubRealTime<V(!new), K>(ops: seq<Operation<V>>, key: V -> K, k: K)
    requires RealTime(ops)
    ensures RealTime(Sub(ops, key, k))
  {
    if ops != [] {
      var front := ops[..|ops| - 1];
      SubRealTime(front, key, k);
      SubMembers(front, key, k);
      var s := Sub(front, key, k);
      forall i | 0 <= i < |s| ensures !Precedes(ops[|ops| - 1], s[i]) {
        assert s[i] in front;
      }
    }
  }

  /** The store allows a sequence exactly when every key's own sequence is allowed, and the
      state of a key is what its own sequence leads to. */
  lemma {:induction false} RunProduct<S, V, K(!new)>(m: Model<S, V>, key: V -> K, ops: seq<Operation<V>>)
    ensures Run(Product(m, key), map[], ops).Some? <==> forall k :: Run(m, m.init, Sub(ops, key, k)).Some?
    ensures Run(Product(m, key), map[], ops).Some? ==> forall k ::
      Run(m, m.init, Sub(ops, key, k)) == Some(Component(m, Run(Product(m, key), map[], ops).value, k))
  {
    if ops == [] {
      forall k ensures Run(m, m.init, Sub(ops, key, k)) == Some(m.init) {}
    } else {
      var front, x := ops[..|ops| - 1], ops[|ops| - 1];
      var kx := key(x.input);
      RunProduct(m, key, front);
      forall k | k != kx ensures Sub(ops, key, k) == Sub(front, key, k) {}
      var s := Sub(ops, key, kx);
      assert s[..|s| - 1] == Sub(front, key, kx) && s[|s| - 1] == x;
      match Run(Product(m, key), map[], front) {
        case None =>
          var k :| Run(m, m.init, Sub(front, key, k)).None?;
          assert Run(m, m.init, Sub(ops, key, k)).None?;
        case Some(st) =>
          assert Run(m, m.init, Sub(front, key, kx)) == Some(Component(m, st, kx));
          var (ok, u) := m.step(Component(m, st, kx), x.input, x.output);
          assert Product(m, key).step(st, x.input, x.output) == (ok, st[kx := u]);
          assert Run(m, m.init, s) == if ok then Some(u) else None;
          assert Run(Product(m, key), map[], ops) == if ok then Some(st[kx := u]) else None;
          assert !ok ==> Run(m, m.init, Sub(ops, key, kx)).None?;
          forall k | ok ensures Run(m, m.init, Sub(ops, key, k)) == Some(Component(m, st[kx := u], k)) {
            assert k != kx ==> Sub(ops, key, k) == Sub(front, key, k);
          }
      }
    }
  }

  /** `a` may come before everything in `b`. */
  ghost predicate MayLead<V>(a: Operation<V>, b: seq<Operation<V>>) {
    forall i :: 0 <= i < |b| ==> !Precedes(b[i], a)
  }

  ghost function Merge<V>(a: seq<Operation<V>>, b: seq<Operation<V>>): (r: seq<Operation<V>>)
    decreases |a| + |b|
  {
    if a == [] then b else if b == [] then a
    else if MayLead(a[0], b) then [a[0]] + Merge(a[1..], b)
    else [b[0]] + Merge(a, b[1..])
  }

  lemma {:induction false} MergeElements<V>(a: seq<Operation<V>>, b: seq<Operation<V>>)
    ensures multiset(Merge(a, b)) == multiset(a) + multiset(b)
    decreases |a| + |b|
  {
    if a != [] && b != [] {
      assert a == [a[0]] + a[1..] && b == [b[0]] + b[1..];
      MergeElements(a[1..], b);
      MergeElements(a, b[1..]);
    }
  }

  /** Two heads can never both be blocked: each block would need an operation that returns
      before the other is called. */
  lemma OneMayLead<V>(a: seq<Operation<V>>, b: seq<Operation<V>>)
    requires RealTime(a) && RealTime(b) && Timed(a) && Timed(b) && a != [] && b != []
    ensures MayLead(a[0], b) || MayLead(b[0], a)
  {
    if !MayLead(a[0], b) {
      var y :| 0 <= y < |b| && Precedes(b[y], a[0]);
      assert y > 0 ==> !Precedes(b[y], b[0]);
      forall x | 0 <= x < |a| ensures !Precedes(a[x], b[0]) {
        assert x > 0 ==> !Precedes(a[x], a[0]);
      }
    }
  }

  lemma LeadRealTime<V>(x: Operation<V>, rest: seq<Operation<V>>)
    requires RealTime(rest) && MayLead(x, rest)
    ensures RealTime([x] + rest)
  {
  }

  lemma {:induction false} MergeRealTime<V>(a: seq<Operation<V>>, b: seq<Operation<V>>)
    requires RealTime(a) && RealTime(b) && Timed(a) && Timed(b)
    ensures RealTime(Merge(a, b))
    decreases |a| + |b|
  {
    if a != [] && b != [] {
      OneMayLead(a, b);
      var fromA := MayLead(a[0], b);
      var x := if fromA then a[0] else b[0];
      var rest := if fromA then Merge(a[1..], b) else Merge(a, b[1..]);
      if fromA { MergeRealTime(a[1..], b); MergeElements(a[1..], b); }
      else { MergeRealTime(a, b[1..]); MergeElements(a, b[1..]); }
      forall i | 0 <= i < |rest| ensures !Precedes(rest[i], x) {
        assert rest[i] in multiset(rest);
        if fromA {
          assert rest[i] in multiset(a[1..]) || rest[i] in multiset(b);
          assert rest[i] in a[1..] || rest[i] in b;
        } else {
          assert rest[i] in multiset(a) || rest[i] in multiset(b[1..]);
          assert rest[i] in a || rest[i] in b[1..];
        }
      }
      LeadRealTime(x, rest);
    }
  }

  lemma {:induction false} SubConcat<V, K>(a: seq<Operation<V>>, b: seq<Operation<V>>, key: V -> K, k: K)
    ensures Sub(a + b, key, k) == Sub(a, key, k) + Sub(b, key, k)
  {
    if b == [] {
      assert a + b == a;
    } else {
      assert (a + b)[..|a + b| - 1] == a + b[..|b| - 1];
      SubConcat(a, b[..|b| - 1], key, k);
    }
  }

  lemma SubFirst<V, K>(a: seq<Operation<V>>, key: V -> K, k: K)
    requires a != []
    ensures Sub(a, key, k) == (if key(a[0].input) == k then [a[0]] else []) + Sub(a[1..], key, k)
  {
    assert a == [a[0]] + a[1..] && [a[0]][..0] == [];
    SubConcat([a[0]], a[1..], key, k);
  }

  ghost predicate Off<V, K>(a: seq<Operation<V>>, key: V -> K, k: K) {
    forall i :: 0 <= i < |a| ==> key(a[i].input) != k
  }

  lemma {:induction false} SubOff<V, K>(a: seq<Operation<V>>, key: V -> K, k: K)
    requires Off(a, key, k)
    ensures Sub(a, key, k) == []
  {
    if a != [] { SubOff(a[..|a| - 1], key, k); }
  }

  /** Merging two sequences on different keys leaves each key's own sequence as it was. */
  lemma {:induction false} SubMerge<V, K>(a: seq<Operation<V>>, b: seq<Operation<V>>, key: V -> K, k: K)
    ensures Off(a, key, k) ==> Sub(Merge(a, b), key, k) == Sub(b, key, k)
    ensures Off(b, key, k) ==> Sub(Merge(a, b), key, k) == Sub(a, key, k)
    decreases |a| + |b|
  {
    if a == [] {
      if Off(b, key, k) { SubOff(b, key, k); }
    } else if b == [] {
      if Off(a, key, k) { SubOff(a, key, k); }
    } else {
      var x := Merge(a, b);
      SubFirst(x, key, k);
      if MayLead(a[0], b) {
        assert x[1..] == Merge(a[1..], b);
        SubFirst(a, key, k);
        SubMerge(a[1..], b, key, k);
      } else {
        assert x[1..] == Merge(a, b[1..]);
        SubFirst(b, key, k);
        SubMerge(a, b[1..], key, k);
      }
    }
  }

  ghost function MergeAll<V>(lins: seq<seq<Operation<V>>>): (r: seq<Operation<V>>) {
    if lins == [] then [] else Merge(MergeAll(lins[..|lins| - 1]), lins[|lins| - 1])
  }

  /** `lins[i]` holds operations on `keys[i]` only, and the keys are distinct. */
  ghost predicate PerKey<V, K>(lins: seq<seq<Operation<V>>>, key: V -> K, keys: seq<K>) {
    && |lins| == |keys|
    && (forall i, j :: 0 <= i < j < |keys| ==> keys[i] != keys[j])
    && (forall i :: 0 <= i < |lins| ==> forall x: Operation<V> :: x in lins[i] ==> key(x.input) == keys[i])
  }

  /** `lin` holds `lins[i]` as its operations on `keys[i]`, and nothing on any other key. */
  ghost predicate Merged<V, K(!new)>(lin: seq<Operation<V>>, lins: seq<seq<Operation<V>>>, key: V -> K, keys: seq<K>) {
    && |lins| == |keys|
    && (forall i :: 0 <= i < |keys| ==> Sub(lin, key, keys[i]) == lins[i])
    && (forall k :: k !in keys ==> Off(lin, key, k))
  }

  lemma {:induction false} MergeAllCorrect<V(!new), K(!new)>(lins: seq<seq<Operation<V>>>, key: V -> K, keys: seq<K>)
    requires PerKey(lins, key, keys)
    requires forall i :: 0 <= i < |lins| ==> RealTime(lins[i]) && Timed(lins[i])
    ensures RealTime(MergeAll(lins)) && Timed(MergeAll(lins)) && Merged(MergeAll(lins), lins, key, keys)
  {
    if lins != [] {
      hide Sub, Merge, RealTime, Timed, Off, PerKey, Merged;
      var n := |lins| - 1;
      LastKey(lins, key, keys);
      assert lins == lins[..n] + [lins[n]] && keys == keys[..n] + [keys[n]];
      MergeAllCorrect(lins[..n], key, keys[..n]);
      MergedOff(MergeAll(lins[..n]), lins[..n], key, keys[..n], keys[n]);
      MergeOne(MergeAll(lins[..n]), lins[n], key, keys[n]);
      MergedMore(MergeAll(lins), MergeAll(lins[..n]), lins[..n], lins[n], key, keys[..n], keys[n]);
    }
  }

  lemma MergedOff<V, K(!new)>(lin: seq<Operation<V>>, lins: seq<seq<Operation<V>>>, key: V -> K, keys: seq<K>, k: K)
    requires Merged(lin, lins, key, keys) && k !in keys
    ensures Off(lin, key, k)
  {
  }

  lemma LastKey<V, K>(lins: seq<seq<Operation<V>>>, key: V -> K, keys: seq<K>)
    requires PerKey(lins, key, keys) && lins != []
    ensures |lins| == |keys| && PerKey(lins[..|lins| - 1], key, keys[..|lins| - 1])
    ensures keys[|lins| - 1] !in keys[..|lins| - 1]
    ensures forall x :: x in lins[|lins| - 1] ==> key(x.input) == keys[|lins| - 1]
  {
  }

  lemma MergedMore<V, K(!new)>(lin: seq<Operation<V>>, a: seq<Operation<V>>, lins: seq<seq<Operation<V>>>,
      b: seq<Operation<V>>,
    key: V -> K, keys: seq<K>, last: K)
    requires Merged(a, lins, key, keys) && last !in keys && Sub(lin, key, last) == b
    requires forall k :: k != last ==> Sub(lin, key, k) == Sub(a, key, k)
    requires forall k :: k != last && Off(a, key, k) ==> Off(lin, key, k)
    ensures Merged(lin, lins + [b], key, keys + [last])
  {
    hide Sub, Off;
    forall k | k !in keys + [last] ensures Off(lin, key, k) {
      assert (keys + [last])[|keys|] == last;
      assert forall i :: 0 <= i < |keys| ==> (keys + [last])[i] == keys[i];
    }
  }

  /** Merging in the sequence of one further key. */
  lemma MergeOne<V(!new), K(!new)>(a: seq<Operation<V>>, b: seq<Operation<V>>, key: V -> K, kb: K)
    requires RealTime(a) && RealTime(b) && Timed(a) && Timed(b) && Off(a, key, kb)
    requires forall x :: x in b ==> key(x.input) == kb
    ensures RealTime(Merge(a, b)) && Timed(Merge(a, b))
    ensures Sub(Merge(a, b), key, kb) == b
    ensures forall k :: k != kb ==> Sub(Merge(a, b), key, k) == Sub(a, key, k)
    ensures forall k :: k != kb && Off(a, key, k) ==> Off(Merge(a, b), key, k)
  {
    hide Sub, Merge, RealTime;
    MergeRealTime(a, b);
    MergeFrom(a, b);
    forall k ensures k != kb ==> Sub(Merge(a, b), key, k) == Sub(a, key, k) {
      SubMerge(a, b, key, k);
      assert forall j :: 0 <= j < |b| ==> b[j] in b;
    }
    SubMerge(a, b, key, kb);
    AllOn(b, key, kb);
  }

  lemma MergeFrom<V>(a: seq<Operation<V>>, b: seq<Operation<V>>)
    ensures forall i :: 0 <= i < |Merge(a, b)| ==> Merge(a, b)[i] in a || Merge(a, b)[i] in b
  {
    hide Merge;
    var r := Merge(a, b);
    MergeElements(a, b);
    forall i | 0 <= i < |r| ensures r[i] in a || r[i] in b {
      assert r[i] in multiset(r);
      assert r[i] in multiset(a) || r[i] in multiset(b);
    }
  }

  lemma {:induction false} AllOn<V, K>(a: seq<Operation<V>>, key: V -> K, k: K)
    requires forall x :: x in a ==> key(x.input) == k
    ensures Sub(a, key, k) == a
  {
    if a != [] {
      AllOn(a[..|a| - 1], key, k);
      assert a[|a| - 1] in a;
    }
  }

  /** `parts` splits `ops` by key, as the partition function of a keyed model does. */
  ghost predicate Partitions<V, K>(parts: seq<seq<Operation<V>>>, ops: seq<Operation<V>>, key: V -> K, keys: seq<K>) {
    && |parts| == |keys|
    && (forall i, j :: 0 <= i < j < |keys| ==> keys[i] != keys[j])
    && (forall i :: 0 <= i < |keys| ==> parts[i] == Sub(ops, key, keys[i]))
    && (forall i :: 0 <= i < |ops| ==> key(ops[i].input) in keys)
  }

  lemma {:induction false} Collect<S, V(!new)>(m: Model<S, V>, parts: seq<seq<Operation<V>>>)
      returns (lins: seq<seq<Operation<V>>>)
    requires forall i :: 0 <= i < |parts| ==> Linearizable(m, parts[i])
    ensures |lins| == |parts| && forall i :: 0 <= i < |parts| ==> IsLinearization(m, parts[i], lins[i])
  {
    lins := [];
    if parts != [] {
      lins := Collect(m, parts[..|parts| - 1]);
      var lin :| IsLinearization(m, parts[|parts| - 1], lin);
      lins := lins + [lin];
    }
  }

  lemma {:induction false} SplitLinearization<S, V(!new), K(!new)>(m: Model<S, V>, ops: seq<Operation<V>>,
      key: V -> K, k: K)
    requires Linearizable(Product(m, key), ops)
    ensures Linearizable(m, Sub(ops, key, k))
  {
    var lin :| IsLinearization(Product(m, key), ops, lin);
    RunProduct(m, key, lin);
    SubRealTime(lin, key, k);
    forall x ensures multiset(Sub(lin, key, k))[x] == multiset(Sub(ops, key, k))[x] {
      SubElements(lin, key, k, x);
      SubElements(ops, key, k, x);
    }
    assert IsLinearization(m, Sub(ops, key, k), Sub(lin, key, k));
  }

  lemma LegalPerKey<S, V(!new), K(!new)>(m: Model<S, V>, lin: seq<Operation<V>>, lins: seq<seq<Operation<V>>>,
    parts: seq<seq<Operation<V>>>, key: V -> K, keys: seq<K>)
    requires |lins| == |keys| == |parts|
    requires forall i :: 0 <= i < |lins| ==> IsLinearization(m, parts[i], lins[i])
    requires Merged(lin, lins, key, keys)
    ensures forall k :: Run(m, m.init, Sub(lin, key, k)).Some?
  {
    forall k ensures Run(m, m.init, Sub(lin, key, k)).Some? {
      if k in keys {
        var i :| 0 <= i < |keys| && keys[i] == k;
        assert IsLinearization(m, parts[i], lins[i]);
      } else {
        SubOff(lin, key, k);
      }
    }
  }

  lemma SameElements<V(!new), K(!new)>(lin: seq<Operation<V>>, lins: seq<seq<Operation<V>>>,
    parts: seq<seq<Operation<V>>>, ops: seq<Operation<V>>, key: V -> K, keys: seq<K>)
    requires Partitions(parts, ops, key, keys) && |lins| == |keys|
    requires forall i :: 0 <= i < |lins| ==> multiset(lins[i]) == multiset(parts[i])
    requires Merged(lin, lins, key, keys)
    ensures multiset(lin) == multiset(ops)
  {
    forall x ensures multiset(lin)[x] == multiset(ops)[x] {
      var k := key(x.input);
      SubElements(lin, key, k, x);
      SubElements(ops, key, k, x);
      if k in keys {
        var i :| 0 <= i < |keys| && keys[i] == k;
        assert multiset(lins[i])[x] == multiset(parts[i])[x];
      } else {
        SubOff(lin, key, k);
        assert x in multiset(ops) ==> x in ops;
      }
    }
  }

  lemma {:induction false} JoinLinearizations<S, V(!new), K(!new)>(
    m: Model<S, V>, parts: seq<seq<Operation<V>>>, ops: seq<Operation<V>>, key: V -> K, keys: seq<K>)
    requires Timed(ops) && Partitions(parts, ops, key, keys)
    requires forall i :: 0 <= i < |parts| ==> Linearizable(m, parts[i])
    ensures Linearizable(Product(m, key), ops)
  {
    var lins := Collect(m, parts);
    forall i | 0 <= i < |lins|
      ensures Timed(lins[i]) && forall x: Operation<V> :: x in lins[i] ==> key(x.input) == keys[i]
    {
      SubMembers(ops, key, keys[i]);
      forall x: Operation<V> | x in lins[i] ensures x in ops && key(x.input) == keys[i] {
        assert x in multiset(lins[i]);
        assert x in multiset(parts[i]);
      }
      forall j | 0 <= j < |lins[i]| ensures lins[i][j].call <= lins[i][j].ret {
        assert lins[i][j] in ops;
      }
    }
    MergeAllCorrect(lins, key, keys);
    var lin := MergeAll(lins);
    SameElements(lin, lins, parts, ops, key, keys);
    LegalPerKey(m, lin, lins, parts, key, keys);
    RunProduct(m, key, lin);
    assert IsLinearization(Product(m, key), ops, lin);
  }

  /** The contract of a partition function: the whole history is linearizable over the store
      if and only if every part is linearizable over the model of a single key. */
  lemma Locality<S, V(!new), K(!new)>(
    m: Model<S, V>, parts: seq<seq<Operation<V>>>, ops: seq<Operation<V>>, key: V -> K, keys: seq<K>)
    requires Timed(ops) && Partitions(parts, ops, key, keys)
    ensures Linearizable(Product(m, key), ops) <==> forall i :: 0 <= i < |parts| ==> Linearizable(m, parts[i])
  {
    if Linearizable(Product(m, key), ops) {
      forall i | 0 <= i < |parts| ensures Linearizable(m, parts[i]) {
        SplitLinearization(m, ops, key, keys[i]);
      }
    }
    if forall i :: 0 <= i < |parts| ==> Linearizable(m, parts[i]) {
      JoinLinearizations(m, parts, ops, key, keys);
    }
  }
}
