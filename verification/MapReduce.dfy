/** The data path of MapReduce: what the sequential program computes, and the pieces the workers compute. */
module MapReduce {
  import opened Counting
  import opened Sorting

  datatype KeyValue = KeyValue(key: string, value: string)

  /** One line of output. */
  datatype Line = Line(key: string, output: string)

  /** A job: what Map gives for each input file, what Reduce does, and how keys are spread over reduce tasks. */
  datatype Job = Job(mapped: seq<seq<KeyValue>>, reducef: (string, seq<string>) -> string, hash: string -> nat,
    nReduce: nat)

  /** Reduce does not depend on the order of the values. */
  ghost predicate OrderInsensitive(f: (string, seq<string>) -> string) {
    forall k, a, b :: multiset(a) == multiset(b) ==> f(k, a) == f(k, b)
  }

  function Values(kvs: seq<KeyValue>, key: string): (r: seq<string>) {
    if kvs == [] then []
    else
      var last := kvs[|kvs| - 1];
      Values(kvs[..|kvs| - 1], key) + if last.key == key then [last.value] else []
  }

  ghost predicate HasKey(kvs: seq<KeyValue>, key: string) {
    exists i :: 0 <= i < |kvs| && kvs[i].key == key
  }

  /** The lines that a list of pairs makes: one for each key. */
  ghost predicate IsLineOf(f: (string, seq<string>) -> string, kvs: seq<KeyValue>, line: Line) {
    HasKey(kvs, line.key) && line.output == f(line.key, Values(kvs, line.key))
  }

  ghost predicate Increasing(lines: seq<Line>) {
    forall i, j :: 0 <= i < j < |lines| ==> StringLess(lines[i].key, lines[j].key)
  }

  /** The output of a list of pairs: its lines, in the order of the keys. */
  ghost predicate IsOutput(f: (string, seq<string>) -> string, kvs: seq<KeyValue>, lines: seq<Line>) {
    Increasing(lines) && forall line :: line in lines <==> IsLineOf(f, kvs, line)
  }

  lemma {:induction false} ValuesCount(kvs: seq<KeyValue>, key: string, value: string)
    ensures multiset(Values(kvs, key))[value] == multiset(kvs)[KeyValue(key, value)]
  {
    if kvs != [] {
      ValuesCount(kvs[..|kvs| - 1], key, value);
      assert kvs == kvs[..|kvs| - 1] + [kvs[|kvs| - 1]];
    }
  }

  /** Lists with the same pairs make the same lines. */
  lemma LinesPermuted(f: (string, seq<string>) -> string, a: seq<KeyValue>, b: seq<KeyValue>, line: Line)
    requires OrderInsensitive(f) && multiset(a) == multiset(b)
    ensures IsLineOf(f, a, line) <==> IsLineOf(f, b, line)
  {
    forall v ensures multiset(Values(a, line.key))[v] == multiset(Values(b, line.key))[v] {
      ValuesCount(a, line.key, v);
      ValuesCount(b, line.key, v);
    }
    assert multiset(Values(a, line.key)) == multiset(Values(b, line.key));
    HasKeyPermuted(a, b, line.key);
    HasKeyPermuted(b, a, line.key);
  }

  lemma HasKeyPermuted(a: seq<KeyValue>, b: seq<KeyValue>, key: string)
    requires multiset(a) == multiset(b)
    ensures HasKey(a, key) ==> HasKey(b, key)
  {
    if HasKey(a, key) {
      var i :| 0 <= i < |a| && a[i].key == key;
      assert a[i] in multiset(b);
      assert a[i] in b;
    }
  }

  lemma SameOutput(f: (string, seq<string>) -> string, a: seq<KeyValue>, b: seq<KeyValue>, lines: seq<Line>)
    requires OrderInsensitive(f) && multiset(a) == multiset(b) && IsOutput(f, a, lines)
    ensures IsOutput(f, b, lines)
  {
    hide IsLineOf, Increasing, OrderInsensitive;
    forall line ensures line in lines <==> IsLineOf(f, b, line) { LinesPermuted(f, a, b, line); }
  }

  // ---- spreading keys over reduce tasks ------------------------------------------

  function TaskOf(job: Job, key: string): (r: nat)
    requires job.nReduce > 0
    ensures r < job.nReduce
  {
    job.hash(key) % job.nReduce
  }

  /** The pairs that go to reduce task `r`. */
  function Bucket(job: Job, kvs: seq<KeyValue>, r: nat): (b: seq<KeyValue>)
    requires job.nReduce > 0
  {
    if kvs == [] then []
    else
      var last := kvs[|kvs| - 1];
      Bucket(job, kvs[..|kvs| - 1], r) + if TaskOf(job, last.key) == r then [last] else []
  }

  lemma NoKeys(key: string)
    ensures !HasKey([], key)
  {
  }

  lemma {:induction false} BucketValues(job: Job, kvs: seq<KeyValue>, r: nat, key: string)
    requires job.nReduce > 0
    ensures Values(Bucket(job, kvs, r), key) == if TaskOf(job, key) == r then Values(kvs, key) else []
    ensures HasKey(Bucket(job, kvs, r), key) <==> TaskOf(job, key) == r && HasKey(kvs, key)
  {
    hide TaskOf, HasKey;
    if kvs == [] {
      assert !HasKey(kvs, key) by { NoKeys(key); }
    } else {
      var rest, last := kvs[..|kvs| - 1], kvs[|kvs| - 1];
      BucketValues(job, rest, r, key);
      HasKeyMore(rest, last, key);
      assert kvs == rest + [last];
      var b := Bucket(job, rest, r);
      if TaskOf(job, last.key) == r {
        assert Bucket(job, kvs, r) == b + [last];
        HasKeyMore(b, last, key);
        assert (b + [last])[..|b|] == b;
      } else {
        assert Bucket(job, kvs, r) == b;
      }
    }
  }

  lemma HasKeyMore(kvs: seq<KeyValue>, last: KeyValue, key: string)
    ensures HasKey(kvs + [last], key) <==> HasKey(kvs, key) || last.key == key
  {
    var more := kvs + [last];
    if HasKey(kvs, key) {
      var i :| 0 <= i < |kvs| && kvs[i].key == key;
      assert more[i].key == key;
    }
    if last.key == key { assert more[|kvs|].key == key; }
  }

  /** The lines of the buckets are the lines of the whole, each in the bucket of its key. */
  lemma LinesOfBuckets(job: Job, kvs: seq<KeyValue>, r: nat, line: Line)
    requires job.nReduce > 0
    ensures IsLineOf(job.reducef, Bucket(job, kvs, r), line) <==>
      TaskOf(job, line.key) == r && IsLineOf(job.reducef, kvs, line)
  {
    BucketValues(job, kvs, r, line.key);
  }

  lemma {:induction false} BucketConcat(job: Job, a: seq<KeyValue>, b: seq<KeyValue>, r: nat)
    requires job.nReduce > 0
    ensures Bucket(job, a + b, r) == Bucket(job, a, r) + Bucket(job, b, r)
  {
    hide TaskOf;
    if b == [] {
      assert a + b == a;
    } else {
      var rest, last := b[..|b| - 1], b[|b| - 1];
      BucketConcat(job, a, rest, r);
      assert (a + b)[..|a + b| - 1] == a + rest && (a + b)[|a + b| - 1] == last;
      assert Bucket(job, a, r) + (Bucket(job, rest, r) + [last]) == Bucket(job, a, r) + Bucket(job, rest, r) + [last];
    }
  }

  function Flatten(parts: seq<seq<KeyValue>>): (r: seq<KeyValue>) {
    if parts == [] then [] else Flatten(parts[..|parts| - 1]) + parts[|parts| - 1]
  }

  /** The part of map task `i` in reduce task `r`. */
  function Piece(job: Job, i: nat, r: nat): (b: seq<KeyValue>)
    requires job.nReduce > 0
  {
    if i < |job.mapped| then Bucket(job, job.mapped[i], r) else []
  }

  /** All pieces of reduce task `r`, for the listed map tasks. */
  ghost function Pieces(job: Job, list: seq<nat>, r: nat): (m: multiset<KeyValue>)
    requires job.nReduce > 0
  {
    if list == [] then multiset{}
    else Pieces(job, list[..|list| - 1], r) + multiset(Piece(job, list[|list| - 1], r))
  }

  lemma {:induction false} PiecesConcat(job: Job, a: seq<nat>, b: seq<nat>, r: nat)
    requires job.nReduce > 0
    ensures Pieces(job, a + b, r) == Pieces(job, a, r) + Pieces(job, b, r)
  {
    hide Piece;
    if b == [] {
      assert a + b == a;
    } else {
      var rest, last := b[..|b| - 1], b[|b| - 1];
      PiecesConcat(job, a, rest, r);
      assert (a + b)[..|a + b| - 1] == a + rest && (a + b)[|a + b| - 1] == last;
      var p, q, s := Pieces(job, a, r), Pieces(job, rest, r), multiset(Piece(job, last, r));
      assert Pieces(job, a + b, r) == (p + q) + s;
      assert Pieces(job, b, r) == q + s;
      hide Pieces;
      assert (p + q) + s == p + (q + s);
    }
  }

  lemma {:induction false} PiecesPermuted(job: Job, a: seq<nat>, b: seq<nat>, r: nat)
    requires job.nReduce > 0 && multiset(a) == multiset(b)
    ensures Pieces(job, a, r) == Pieces(job, b, r)
  {
    hide Piece;
    if a == [] {
      assert |multiset(b)| == 0;
    } else {
      var n := |a| - 1;
      assert a[n] in multiset(b);
      var j :| 0 <= j < |b| && b[j] == a[n];
      RemoveAt(a, n);
      RemoveAt(b, j);
      assert a[..n] + a[n + 1..] == a[..n];
      PiecesPermuted(job, a[..n], b[..j] + b[j + 1..], r);
      PiecesWithout(job, b, j, r);
    }
  }

  lemma PiecesWithout(job: Job, list: seq<nat>, j: nat, r: nat)
    requires job.nReduce > 0 && j < |list|
    ensures Pieces(job, list, r) == Pieces(job, list[..j] + list[j + 1..], r) + multiset(Piece(job, list[j], r))
  {
    hide Piece;
    var before, after := list[..j], list[j + 1..];
    assert list == before + [list[j]] + after;
    PiecesConcat(job, before, after, r);
    PiecesConcat(job, before, [list[j]], r);
    PiecesConcat(job, before + [list[j]], after, r);
    assert Pieces(job, [list[j]], r) == multiset(Piece(job, list[j], r)) by { assert [list[j]][..0] == []; }
  }

  function UpTo(n: nat): (r: seq<nat>)
    ensures |r| == n && forall i :: 0 <= i < n ==> r[i] == i
  {
    seq(n, i => i)
  }

  lemma PiecesMore(job: Job, n: nat, r: nat)
    requires job.nReduce > 0
    ensures Pieces(job, UpTo(n + 1), r) == Pieces(job, UpTo(n), r) + multiset(Piece(job, n, r))
  {
    assert UpTo(n + 1)[..n] == UpTo(n) && UpTo(n + 1)[n] == n;
  }

  lemma FlattenMore(parts: seq<seq<KeyValue>>, n: nat)
    requires n < |parts|
    ensures Flatten(parts[..n + 1]) == Flatten(parts[..n]) + parts[n]
  {
    assert parts[..n + 1][..n] == parts[..n];
  }

  /** All pieces of a reduce task together are the bucket of all pairs. */
  lemma {:induction false} PiecesAreBucket(job: Job, n: nat, r: nat)
    requires job.nReduce > 0 && n <= |job.mapped|
    ensures Pieces(job, UpTo(n), r) == multiset(Bucket(job, Flatten(job.mapped[..n]), r))
  {
    if n == 0 {
      assert UpTo(n) == [] && Flatten(job.mapped[..n]) == [];
    } else {
      hide Pieces, Flatten, Bucket, UpTo;
      PiecesAreBucket(job, n - 1, r);
      PiecesMore(job, n - 1, r);
      FlattenMore(job.mapped, n - 1);
      BucketConcat(job, Flatten(job.mapped[..n - 1]), job.mapped[n - 1], r);
    }
  }

  /** A reduce task that has read every map task's piece, in any order, has the bucket of all pairs. */
  lemma AllPieces(job: Job, list: seq<nat>, r: nat)
    requires job.nReduce > 0 && multiset(list) == multiset(UpTo(|job.mapped|))
    ensures Pieces(job, list, r) == multiset(Bucket(job, Flatten(job.mapped), r))
  {
    PiecesPermuted(job, list, UpTo(|job.mapped|), r);
    PiecesAreBucket(job, |job.mapped|, r);
    assert job.mapped[..|job.mapped|] == job.mapped;
  }
}
