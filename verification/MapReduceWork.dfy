/** The loops of the sequential program and of the workers. */
module MapReduceWork {
  import opened Counting
  import opened Sorting
  import opened MapReduce

  predicate ByKey(a: KeyValue, b: KeyValue) {
    StringLess(a.key, b.key)
  }

  lemma ByKeyWeakOrder()
    ensures WeakOrder(ByKey)
  {
    forall a, b | ByKey(a, b) ensures !ByKey(b, a) { StringLessAsym(a.key, b.key); }
    forall a, b, c | !ByKey(b, a) && !ByKey(c, b) ensures !ByKey(c, a) { StringLessWeak(a.key, b.key, c.key); }
  }

  lemma {:induction false} ValuesConcat(a: seq<KeyValue>, b: seq<KeyValue>, key: string)
    ensures Values(a + b, key) == Values(a, key) + Values(b, key)
  {
    if b == [] {
      assert a + b == a;
    } else {
      var rest, last := b[..|b| - 1], b[|b| - 1];
      ValuesConcat(a, rest, key);
      assert (a + b)[..|a + b| - 1] == a + rest && (a + b)[|a + b| - 1] == last;
      if last.key == key {
        assert Values(a, key) + (Values(rest, key) + [last.value]) == Values(a, key) + Values(rest, key) + [last.value];
      }
    }
  }

  lemma {:induction false} NoValues(kvs: seq<KeyValue>, key: string)
    requires !HasKey(kvs, key)
    ensures Values(kvs, key) == []
  {
    if kvs != [] {
      var rest, last := kvs[..|kvs| - 1], kvs[|kvs| - 1];
      assert kvs == rest + [last];
      HasKeyMore(rest, last, key);
      NoValues(rest, key);
    }
  }

  /** One more group of equal keys, behind all the keys so far, makes one more line. */
  lemma GroupMore(f: (string, seq<string>) -> string, a: seq<KeyValue>, b: seq<KeyValue>, key: string, lines: seq<Line>)
    requires IsOutput(f, a, lines) && b != [] && (forall i :: 0 <= i < |b| ==> b[i].key == key)
    requires forall i :: 0 <= i < |a| ==> StringLess(a[i].key, key)
    ensures IsOutput(f, a + b, lines + [Line(key, f(key, Values(b, key)))])
  {
    var last := Line(key, f(key, Values(b, key)));
    var more := lines + [last];
    forall i | 0 <= i < |lines| ensures StringLess(lines[i].key, key) {
      assert lines[i] in lines;
      assert HasKey(a, lines[i].key);
    }
    assert Increasing(more);
    forall line ensures line in more <==> IsLineOf(f, a + b, line) {
      ValuesConcat(a, b, line.key);
      HasKeyConcat(a, b, line.key);
      if line.key == key {
        assert b[0].key == key;
        NotBelow(a, key);
        NoValues(a, key);
        assert [] + Values(b, key) == Values(b, key);
        assert line in more <==> line == last;
      } else {
        NoValues(b, line.key);
        assert Values(a, line.key) + [] == Values(a, line.key);
        assert line in more <==> line in lines;
      }
    }
  }

  lemma NotBelow(a: seq<KeyValue>, key: string)
    requires forall i :: 0 <= i < |a| ==> StringLess(a[i].key, key)
    ensures !HasKey(a, key)
  {
    forall i | 0 <= i < |a| ensures a[i].key != key {
      StringLessAsym(a[i].key, key);
    }
  }

  lemma HasKeyConcat(a: seq<KeyValue>, b: seq<KeyValue>, key: string)
    ensures HasKey(a + b, key) <==> HasKey(a, key) || HasKey(b, key)
  {
    var c := a + b;
    if HasKey(a, key) {
      var i :| 0 <= i < |a| && a[i].key == key;
      assert c[i].key == key;
    }
    if HasKey(b, key) {
      var i :| 0 <= i < |b| && b[i].key == key;
      assert c[|a| + i].key == key;
    }
  }

  /** The sequential program: sort all pairs by key, and reduce each run of equal keys. The sort is not stable, so
      the values of a key may come in any order. */
  method Sequential(intermediate: seq<KeyValue>, reducef: (string, seq<string>) -> string)
      returns (lines: seq<Line>, ghost order: seq<KeyValue>)
    ensures multiset(order) == multiset(intermediate) && IsOutput(reducef, order, lines)
    ensures OrderInsensitive(reducef) ==> IsOutput(reducef, intermediate, lines)
  {
    ByKeyWeakOrder();
    var sorted := Sort(intermediate, ByKey);
    order := sorted;
    lines := [];
    var i := 0;
    while i < |sorted|
      invariant 0 <= i <= |sorted| && IsOutput(reducef, sorted[..i], lines)
      invariant forall p, q :: 0 <= p < i <= q < |sorted| ==> StringLess(sorted[p].key, sorted[q].key)
    {
      hide IsOutput, OrderInsensitive, SortedBy;
      var j, values := CollectRun(sorted, i);
      RunEnds(sorted, i, j);
      GroupMore(reducef, sorted[..i], sorted[i..j], sorted[i].key, lines);
      assert sorted[..i] + sorted[i..j] == sorted[..j];
      lines := lines + [Line(sorted[i].key, reducef(sorted[i].key, values))];
      i := j;
    }
    assert sorted[..i] == sorted;
    if OrderInsensitive(reducef) { SameOutput(reducef, sorted, intermediate, lines); }
  }

  lemma ValuesMore(kvs: seq<KeyValue>, i: nat, k: nat)
    requires i <= k < |kvs|
    ensures Values(kvs[i..k + 1], kvs[k].key) == Values(kvs[i..k], kvs[k].key) + [kvs[k].value]
  {
    var more := kvs[i..k + 1];
    assert more[..|more| - 1] == kvs[i..k] && more[|more| - 1] == kvs[k];
  }

  /** The run of pairs with the key at `i`, and its values. */
  method CollectRun(sorted: seq<KeyValue>, i: nat) returns (j: nat, values: seq<string>)
    requires i < |sorted|
    ensures i < j <= |sorted| && (forall k :: i <= k < j ==> sorted[k].key == sorted[i].key)
    ensures j < |sorted| ==> sorted[j].key != sorted[i].key
    ensures values == Values(sorted[i..j], sorted[i].key)
  {
    var key := sorted[i].key;
    j := i + 1;
    while j < |sorted| && sorted[j].key == key
      invariant i < j <= |sorted| && forall k :: i <= k < j ==> sorted[k].key == key
    {
      j := j + 1;
    }
    values := [];
    for k := i to j
      invariant values == Values(sorted[i..k], key)
    {
      hide Values;
      ValuesMore(sorted, i, k);
      values := values + [sorted[k].value];
    }
  }

  /** Behind a run of equal keys in sorted pairs all keys are greater. */
  lemma RunEnds(sorted: seq<KeyValue>, i: nat, j: nat)
    requires i < j <= |sorted| && SortedBy(sorted, ByKey) && forall k :: i <= k < j ==> sorted[k].key == sorted[i].key
    requires j < |sorted| ==> sorted[j].key != sorted[i].key
    requires forall p, q :: 0 <= p < i <= q < |sorted| ==> StringLess(sorted[p].key, sorted[q].key)
    ensures forall p, q :: 0 <= p < j <= q < |sorted| ==> StringLess(sorted[p].key, sorted[q].key)
  {
    forall p, q | 0 <= p < j <= q < |sorted| ensures StringLess(sorted[p].key, sorted[q].key) {
      if p >= i {
        assert !ByKey(sorted[j], sorted[p]);
        StringLessTotal(sorted[p].key, sorted[j].key);
        if q > j {
          assert !ByKey(sorted[q], sorted[j]);
          StringLessTotal(sorted[j].key, sorted[q].key);
          if sorted[j].key != sorted[q].key { StringLessTrans(sorted[p].key, sorted[j].key, sorted[q].key); }
        }
      }
    }
  }

  /** The loop that appends each value to the list of its key. */
  method GroupByKey(kvs: seq<KeyValue>) returns (groups: map<string, seq<string>>)
    ensures forall key :: key in groups <==> HasKey(kvs, key)
    ensures forall key :: key in groups ==> groups[key] == Values(kvs, key)
  {
    hide HasKey, Values;
    groups := map[];
    NothingGrouped();
    for n := 0 to |kvs|
      invariant forall key :: key in groups <==> HasKey(kvs[..n], key)
      invariant forall key :: key in groups ==> groups[key] == Values(kvs[..n], key)
    {
      var kv := kvs[n];
      OneMore(kvs, n);
      groups := groups[kv.key := (if kv.key in groups then groups[kv.key] else []) + [kv.value]];
    }
    assert kvs[..|kvs|] == kvs;
  }

  lemma NothingGrouped()
    ensures forall key :: !HasKey([], key)
  {
  }

  lemma OneMore(kvs: seq<KeyValue>, n: nat)
    requires n < |kvs|
    ensures forall key :: HasKey(kvs[..n + 1], key) <==> HasKey(kvs[..n], key) || key == kvs[n].key
    ensures forall key ::
      Values(kvs[..n + 1], key) == Values(kvs[..n], key) + if key == kvs[n].key then [kvs[n].value] else []
    ensures !HasKey(kvs[..n], kvs[n].key) ==> Values(kvs[..n], kvs[n].key) == []
  {
    assert kvs[..n + 1] == kvs[..n] + [kvs[n]];
    forall key
      ensures HasKey(kvs[..n + 1], key) <==> HasKey(kvs[..n], key) || key == kvs[n].key
    {
      HasKeyMore(kvs[..n], kvs[n], key);
    }
    if !HasKey(kvs[..n], kvs[n].key) { NoValues(kvs[..n], kvs[n].key); }
  }

  /** A reduce worker: group what it has read, and reduce the keys in increasing order. */
  method ReduceLines(kvs: seq<KeyValue>, reducef: (string, seq<string>) -> string) returns (lines: seq<Line>)
    ensures IsOutput(reducef, kvs, lines)
  {
    var mulKeyValue := GroupByKey(kvs);
    var unsorted := Elements(mulKeyValue.Keys);
    StringLessWeakOrder();
    var keys := Sort(unsorted, StringLess);
    SameDistinct(unsorted, keys);
    hide HasKey, Values, IsOutput, StringLess;
    lines := ReduceKeys(keys, mulKeyValue, reducef);
    LinesOfKeys(reducef, kvs, keys, lines);
  }

  method ReduceKeys(keys: seq<string>, groups: map<string, seq<string>>, reducef: (string, seq<string>) -> string)
      returns (lines: seq<Line>)
    requires forall key :: key in keys ==> key in groups
    ensures |lines| == |keys|
    ensures forall j :: 0 <= j < |lines| ==> lines[j] == Line(keys[j], reducef(keys[j], groups[keys[j]]))
  {
    lines := [];
    for i := 0 to |keys|
      invariant |lines| == i && forall j :: 0 <= j < i ==> lines[j] == Line(keys[j], reducef(keys[j], groups[keys[j]]))
    {
      lines := lines + [Line(keys[i], reducef(keys[i], groups[keys[i]]))];
    }
  }

  lemma LinesOfKeys(f: (string, seq<string>) -> string, kvs: seq<KeyValue>, keys: seq<string>, lines: seq<Line>)
    requires SortedBy(keys, StringLess) && Distinct(keys)
    requires forall key :: key in keys <==> HasKey(kvs, key)
    requires |lines| == |keys|
    requires forall j :: 0 <= j < |lines| ==> lines[j] == Line(keys[j], f(keys[j], Values(kvs, keys[j])))
    ensures IsOutput(f, kvs, lines)
  {
    hide HasKey, Values;
    forall i, j | 0 <= i < j < |lines| ensures StringLess(lines[i].key, lines[j].key) {
      StringLessTotal(keys[i], keys[j]);
    }
    forall line ensures line in lines <==> IsLineOf(f, kvs, line) {
      if line in lines {
        var j :| 0 <= j < |lines| && lines[j] == line;
        assert keys[j] in keys;
      }
      if IsLineOf(f, kvs, line) {
        var j :| 0 <= j < |keys| && keys[j] == line.key;
        assert lines[j] == line;
      }
    }
  }

  function Pairs(key: string, values: seq<string>): (r: seq<KeyValue>) {
    if values == [] then [] else Pairs(key, values[..|values| - 1]) + [KeyValue(key, values[|values| - 1])]
  }

  lemma {:induction false} PairsCount(key: string, values: seq<string>, kv: KeyValue)
    ensures multiset(Pairs(key, values))[kv] == if kv.key == key then multiset(values)[kv.value] else 0
  {
    if values != [] {
      PairsCount(key, values[..|values| - 1], kv);
      assert values == values[..|values| - 1] + [values[|values| - 1]];
    }
  }

  lemma {:induction false} BucketCount(job: Job, kvs: seq<KeyValue>, r: nat, kv: KeyValue)
    requires job.nReduce > 0
    ensures multiset(Bucket(job, kvs, r))[kv] == if TaskOf(job, kv.key) == r then multiset(kvs)[kv] else 0
  {
    hide TaskOf;
    if kvs != [] {
      BucketCount(job, kvs[..|kvs| - 1], r, kv);
      assert kvs == kvs[..|kvs| - 1] + [kvs[|kvs| - 1]];
    }
  }

  /** Bucket `r` holds the pairs of the finished keys that go to `r`. */
  ghost predicate Filled(job: Job, kvs: seq<KeyValue>, buckets: seq<seq<KeyValue>>, left: set<string>)
    requires job.nReduce > 0
  {
    && |buckets| == job.nReduce
    && forall r, kv: KeyValue :: 0 <= r < |buckets| ==>
      multiset(buckets[r])[kv] == if kv.key !in left && TaskOf(job, kv.key) == r then multiset(kvs)[kv] else 0
  }

  /** A map worker: sort, group by key, and write the pairs of each key to the bucket of its reduce task. */
  method MapBuckets(job: Job, i: nat) returns (buckets: seq<seq<KeyValue>>)
    requires job.nReduce > 0 && i < |job.mapped|
    ensures |buckets| == job.nReduce
    ensures forall r :: 0 <= r < |buckets| ==> multiset(buckets[r]) == multiset(Piece(job, i, r))
  {
    ByKeyWeakOrder();
    var kva := Sort(job.mapped[i], ByKey);
    var keyGroup := GroupByKey(kva);
    buckets := seq(job.nReduce, _ => []);
    var left := keyGroup.Keys;
    NoneFilled(job, kva, buckets, left);
    while left != {}
      invariant left <= keyGroup.Keys && Filled(job, kva, buckets, left)
      decreases left
    {
      hide Filled, HasKey, Values, ByKey;
      var key := Any(left);
      var r := TaskOf(job, key);
      Sized(job, kva, buckets, left);
      ghost var was := buckets;
      var pairs: seq<KeyValue> := [];
      for n := 0 to |keyGroup[key]|
        invariant pairs == Pairs(key, keyGroup[key][..n])
      {
        pairs := pairs + [KeyValue(key, keyGroup[key][n])];
        assert keyGroup[key][..n + 1][..n] == keyGroup[key][..n];
      }
      assert keyGroup[key][..|keyGroup[key]|] == keyGroup[key];
      buckets := buckets[r := buckets[r] + pairs];
      FillOne(job, kva, was, left, key);
      left := left - {key};
    }
    AllFilled(job, kva, job.mapped[i], buckets, i);
  }

  lemma NoneFilled(job: Job, kvs: seq<KeyValue>, buckets: seq<seq<KeyValue>>, left: set<string>)
    requires job.nReduce > 0 && |buckets| == job.nReduce && (forall r :: 0 <= r < |buckets| ==> buckets[r] == [])
    requires forall key :: key in left <==> HasKey(kvs, key)
    ensures Filled(job, kvs, buckets, left)
  {
    forall kv: KeyValue ensures multiset(kvs)[kv] > 0 ==> kv.key in left { InKeys(kvs, kv); }
    hide HasKey, TaskOf;
  }

  lemma InKeys(kvs: seq<KeyValue>, kv: KeyValue)
    ensures multiset(kvs)[kv] > 0 ==> HasKey(kvs, kv.key)
  {
    assert kv in multiset(kvs) <==> kv in kvs;
  }

  lemma Sized(job: Job, kvs: seq<KeyValue>, buckets: seq<seq<KeyValue>>, left: set<string>)
    requires job.nReduce > 0 && Filled(job, kvs, buckets, left)
    ensures |buckets| == job.nReduce
  {
  }

  lemma FillOne(job: Job, kvs: seq<KeyValue>, buckets: seq<seq<KeyValue>>, left: set<string>, key: string)
    requires job.nReduce > 0 && Filled(job, kvs, buckets, left) && key in left
    ensures var r := TaskOf(job, key);
      Filled(job, kvs, buckets[r := buckets[r] + Pairs(key, Values(kvs, key))], left - {key})
  {
    hide TaskOf, Pairs, Values;
    var t := TaskOf(job, key);
    var pairs := Pairs(key, Values(kvs, key));
    var more := buckets[t := buckets[t] + pairs];
    forall r, kv: KeyValue | 0 <= r < |more|
      ensures multiset(more[r])[kv] ==
        if kv.key !in left - {key} && TaskOf(job, kv.key) == r then multiset(kvs)[kv] else 0
    {
      PairsOf(kvs, key, kv);
      assert multiset(buckets[r])[kv] == if kv.key !in left && TaskOf(job, kv.key) == r then multiset(kvs)[kv] else 0;
      if r == t { assert multiset(buckets[t] + pairs)[kv] == multiset(buckets[t])[kv] + multiset(pairs)[kv]; }
    }
  }

  lemma PairsOf(kvs: seq<KeyValue>, key: string, kv: KeyValue)
    ensures multiset(Pairs(key, Values(kvs, key)))[kv] == if kv.key == key then multiset(kvs)[kv] else 0
  {
    PairsCount(key, Values(kvs, key), kv);
    ValuesCount(kvs, key, kv.value);
  }

  lemma AllFilled(job: Job, kva: seq<KeyValue>, kvs: seq<KeyValue>, buckets: seq<seq<KeyValue>>, i: nat)
    requires job.nReduce > 0 && Filled(job, kva, buckets, {}) && multiset(kva) == multiset(kvs) && i < |job.mapped|
    requires kvs == job.mapped[i]
    ensures |buckets| == job.nReduce
    ensures forall r :: 0 <= r < |buckets| ==> multiset(buckets[r]) == multiset(Piece(job, i, r))
  {
    forall r | 0 <= r < |buckets| ensures multiset(buckets[r]) == multiset(Piece(job, i, r)) {
      forall kv ensures multiset(buckets[r])[kv] == multiset(Piece(job, i, r))[kv] { BucketCount(job, kvs, r, kv); }
    }
  }
}
