/** From timed operations to event histories. */
module Entries {
  import opened Linearizability
  import opened Histories
  import opened Sorting
  import opened Counting

  /** By time, and calls before returns at the same time. */
  predicate ByTime<V>(a: Entry<V>, b: Entry<V>) {
    if a.time != b.time then a.time < b.time else !a.isReturn && b.isReturn
  }

  function CallOf<V>(ops: seq<Operation<V>>, i: nat): (r: Entry<V>)
    requires i < |ops|
  {
    Entry(false, ops[i].input, i, ops[i].call, ops[i].clientId)
  }

  function ReturnOf<V>(ops: seq<Operation<V>>, i: nat): (r: Entry<V>)
    requires i < |ops|
  {
    Entry(true, ops[i].output, i, ops[i].ret, ops[i].clientId)
  }

  /** Exactly one call and one return event for each operation. */
  ghost predicate Lists<V>(entries: seq<Entry<V>>, ops: seq<Operation<V>>) {
    && |entries| == 2 * |ops|
    && (forall k :: 0 <= k < |entries| ==>
      && 0 <= entries[k].id < |ops|
      && entries[k] == if entries[k].isReturn then ReturnOf(ops, entries[k].id) else CallOf(ops, entries[k].id))
    && (forall i :: 0 <= i < |ops| ==> CallOf(ops, i) in entries && ReturnOf(ops, i) in entries)
    && (forall j, k :: 0 <= j < k < |entries| ==> entries[j] != entries[k])
  }

  method MakeEntries<V(!new)>(history: seq<Operation<V>>) returns (entries: seq<Entry<V>>)
    ensures Lists(entries, history) && SortedBy(entries, ByTime)
  {
    entries := [];
    var id := 0;
    for i := 0 to |history|
      invariant id == i && |entries| == 2 * i
      invariant forall k :: 0 <= k < i ==>
        entries[2 * k] == CallOf(history, k) && entries[2 * k + 1] == ReturnOf(history, k)
    {
      entries := entries + [CallOf(history, id)];
      entries := entries + [ReturnOf(history, id)];
      id := id + 1;
    }
    Unsorted(entries, history);
    var sorted := Sort(entries, ByTime);
    ListsPermuted(entries, sorted, history);
    entries := sorted;
  }

  lemma Unsorted<V>(entries: seq<Entry<V>>, ops: seq<Operation<V>>)
    requires |entries| == 2 * |ops|
    requires forall k :: 0 <= k < |ops| ==> entries[2 * k] == CallOf(ops, k) && entries[2 * k + 1] == ReturnOf(ops, k)
    ensures Lists(entries, ops)
  {
    forall k | 0 <= k < |entries|
      ensures 0 <= entries[k].id < |ops| && k == 2 * entries[k].id + if entries[k].isReturn then 1 else 0
      ensures entries[k] == if entries[k].isReturn then ReturnOf(ops, entries[k].id) else CallOf(ops, entries[k].id)
    {
      assert k == 2 * (k / 2) || k == 2 * (k / 2) + 1;
      assert entries[2 * (k / 2)] == CallOf(ops, k / 2);
    }
    forall i | 0 <= i < |ops| ensures CallOf(ops, i) in entries && ReturnOf(ops, i) in entries {
      assert entries[2 * i] == CallOf(ops, i);
    }
  }

  lemma ListsPermuted<V(!new)>(a: seq<Entry<V>>, b: seq<Entry<V>>, ops: seq<Operation<V>>)
    requires Lists(a, ops) && multiset(a) == multiset(b)
    ensures Lists(b, ops)
  {
    var f := SameElementsPermutation(b, a);
    assert |b| == |a|;
    forall k | 0 <= k < |b| ensures 0 <= f[k] < |a| && b[k] == a[f[k]] {}
    forall x | x in a ensures x in b {
      assert x in multiset(a);
      assert x in multiset(b);
    }
    forall j, k | 0 <= j < k < |b| ensures b[j] != b[k] {
      assert f[j] != f[k];
    }
  }

  lemma FindAt<V>(entries: seq<Entry<V>>, ops: seq<Operation<V>>, k: nat)
    requires Lists(entries, ops) && k < |entries|
    ensures k == Find(entries, entries[k].id, entries[k].isReturn)
  {
    hide CallOf, ReturnOf;
    FindFirst(entries, entries[k].id, entries[k].isReturn);
    var r := Find(entries, entries[k].id, entries[k].isReturn);
    assert r <= k;
    assert entries[r] == entries[k];
  }

  /** Where the events of operation `i` are. */
  lemma Positions<V>(entries: seq<Entry<V>>, ops: seq<Operation<V>>, i: nat)
    requires Lists(entries, ops) && i < |ops|
    ensures CallPos(entries, i) < |entries| && entries[CallPos(entries, i)] == CallOf(ops, i)
    ensures RetPos(entries, i) < |entries| && entries[RetPos(entries, i)] == ReturnOf(ops, i)
  {
    var c :| 0 <= c < |entries| && entries[c] == CallOf(ops, i);
    var r :| 0 <= r < |entries| && entries[r] == ReturnOf(ops, i);
    FindAt(entries, ops, c);
    FindAt(entries, ops, r);
  }

  /** However ties are sorted, a return stands before a call exactly when its time is earlier. */
  lemma OrderIsTime<V>(entries: seq<Entry<V>>, ops: seq<Operation<V>>, i: nat, j: nat)
    requires Lists(entries, ops) && SortedBy(entries, ByTime) && i < |ops| && j < |ops|
    ensures RetPos(entries, i) < CallPos(entries, j) <==> Precedes(ops[i], ops[j])
    ensures RetPos(entries, i) != CallPos(entries, j)
  {
    Positions(entries, ops, i);
    Positions(entries, ops, j);
    var r, c := RetPos(entries, i), CallPos(entries, j);
    assert r < c ==> !ByTime(entries[c], entries[r]);
    assert c < r ==> !ByTime(entries[r], entries[c]);
  }

  lemma SortedWellFormed<V>(entries: seq<Entry<V>>, ops: seq<Operation<V>>)
    requires Lists(entries, ops) && SortedBy(entries, ByTime) && Timed(ops)
    ensures WellFormed(entries, |ops|)
  {
    forall k | 0 <= k < |entries| ensures k == Find(entries, entries[k].id, entries[k].isReturn) {
      FindAt(entries, ops, k);
    }
    forall i | 0 <= i < |ops| ensures CallPos(entries, i) < RetPos(entries, i) < |entries| {
      OrderIsTime(entries, ops, i, i);
      Positions(entries, ops, i);
    }
  }

  lemma {:induction false} SameRun<S, V>(m: Model<S, V>, entries: seq<Entry<V>>, ops: seq<Operation<V>>, ids: seq<int>)
    requires Lists(entries, ops) && WellFormed(entries, |ops|)
    requires forall k :: 0 <= k < |ids| ==> 0 <= ids[k] < |ops|
    ensures RunIds(m, entries, |ops|, ids) == Run(m, m.init, Select(ops, ids))
  {
    hide Lists, WellFormed, Find;
    if ids != [] {
      var k := |ids| - 1;
      SameRun(m, entries, ops, ids[..k]);
      assert Select(ops, ids)[..k] == Select(ops, ids[..k]);
      Positions(entries, ops, ids[k]);
    }
  }

  /** A complete order of the events is a linearization of the operations. */
  lemma CompleteIsLinearization<S, V(!new)>(m: Model<S, V>, entries: seq<Entry<V>>, ops: seq<Operation<V>>,
      ids: seq<int>)
    requires Lists(entries, ops) && SortedBy(entries, ByTime) && WellFormed(entries, |ops|)
    requires Partial(m, entries, |ops|, ids) && |ids| == |ops|
    ensures IsLinearization(m, ops, Select(ops, ids))
  {
    hide Lists, SortedBy, WellFormed;
    var lin := Select(ops, ids);
    PartialDistinct(m, entries, |ops|, ids);
    SameRun(m, entries, ops, ids);
    PermutationSameElements(lin, ops, ids);
    forall i, j | 0 <= i < j < |lin| ensures !Precedes(lin[j], lin[i]) {
      NotBefore(m, entries, |ops|, ids, i, j);
      OrderIsTime(entries, ops, ids[j], ids[i]);
    }
  }

  lemma PartialDistinct<S, V>(m: Model<S, V>, h: seq<Entry<V>>, n: nat, ids: seq<int>)
    requires WellFormed(h, n) && Partial(m, h, n, ids)
    ensures Distinct(ids) && forall k :: 0 <= k < |ids| ==> 0 <= ids[k] < n
  {
    forall i, j | 0 <= i < j < |ids| ensures ids[i] != ids[j] {
      assert Ready(h, n, IdSet(ids[..j]), ids[j]);
      assert ids[..j][i] in IdSet(ids[..j]);
    }
  }

  lemma NotBefore<S, V>(m: Model<S, V>, h: seq<Entry<V>>, n: nat, ids: seq<int>, i: nat, j: nat)
    requires WellFormed(h, n) && Partial(m, h, n, ids) && i < j < |ids|
    ensures CallPos(h, ids[i]) < RetPos(h, ids[j])
  {
    hide WellFormed;
    PartialDistinct(m, h, n, ids);
    assert Ready(h, n, IdSet(ids[..i]), ids[i]);
    assert ids[j] !in IdSet(ids[..i]);
  }

  /** A linearization of the operations, as numbers, is a complete order of the events. */
  lemma LinearizationIsComplete<S, V>(m: Model<S, V>, entries: seq<Entry<V>>, ops: seq<Operation<V>>, ids: seq<int>)
    requires Lists(entries, ops) && SortedBy(entries, ByTime) && WellFormed(entries, |ops|)
    requires |ids| == |ops| && Distinct(ids) && forall k :: 0 <= k < |ids| ==> 0 <= ids[k] < |ops|
    requires RealTime(Select(ops, ids)) && Run(m, m.init, Select(ops, ids)).Some?
    ensures Partial(m, entries, |ops|, ids)
  {
    hide Lists, SortedBy, WellFormed, Find, Ready, RealTime;
    SameRun(m, entries, ops, ids);
    forall i | 0 <= i < |ids| ensures Ready(entries, |ops|, IdSet(ids[..i]), ids[i]) {
      ReadyByTime(entries, ops, ids, i);
    }
  }

  lemma ReadyByTime<V>(entries: seq<Entry<V>>, ops: seq<Operation<V>>, ids: seq<int>, i: nat)
    requires Lists(entries, ops) && SortedBy(entries, ByTime) && WellFormed(entries, |ops|) && i < |ids|
    requires |ids| == |ops| && Distinct(ids) && forall k :: 0 <= k < |ids| ==> 0 <= ids[k] < |ops|
    requires RealTime(Select(ops, ids))
    ensures Ready(entries, |ops|, IdSet(ids[..i]), ids[i])
  {
    hide Lists, SortedBy, Find;
    Surjective(ids);
    NotYet(ids, i);
    forall q | 0 <= q < |ops| && q !in IdSet(ids[..i]) ensures CallPos(entries, ids[i]) < RetPos(entries, q) {
      assert q in ids;
      var j :| 0 <= j < |ids| && ids[j] == q;
      OrderIsTime(entries, ops, q, ids[i]);
      assert i < j ==> !Precedes(Select(ops, ids)[j], Select(ops, ids)[i]);
    }
  }

  lemma NotYet(ids: seq<int>, i: nat)
    requires Distinct(ids) && i < |ids|
    ensures forall j :: 0 <= j < |ids| ==> (ids[j] in IdSet(ids[..i]) <==> j < i)
  {
    forall j | 0 <= j < |ids| ensures ids[j] in IdSet(ids[..i]) <==> j < i {
      assert j < i ==> ids[..i][j] == ids[j];
    }
  }

  /** The event history has a complete order exactly when the operations are linearizable. */
  lemma EntriesFaithful<S, V(!new)>(m: Model<S, V>, entries: seq<Entry<V>>, ops: seq<Operation<V>>)
    requires Lists(entries, ops) && SortedBy(entries, ByTime) && Timed(ops)
    ensures WellFormed(entries, |ops|)
    ensures HasLinearization(m, entries, |ops|) <==> Linearizable(m, ops)
  {
    hide Lists, SortedBy, WellFormed, Partial;
    SortedWellFormed(entries, ops);
    if HasLinearization(m, entries, |ops|) {
      var ids :| Partial(m, entries, |ops|, ids) && |ids| == |ops|;
      CompleteIsLinearization(m, entries, ops, ids);
    }
    if Linearizable(m, ops) {
      var lin :| IsLinearization(m, ops, lin);
      var ids := SameElementsPermutation(lin, ops);
      assert Select(ops, ids) == lin;
      LinearizationIsComplete(m, entries, ops, ids);
    }
  }
}
