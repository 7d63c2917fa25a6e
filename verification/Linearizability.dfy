/** Histories of operations and what it means for one to be linearizable. */
module Linearizability {
  import opened Options

  /** `step` says whether the system can take an operation with this input and output,
      and in which state it is afterwards. */
  datatype Model<!S, !V> = Model(init: S, step: (S, V, V) -> (bool, S))

  datatype Operation<V> = Operation(clientId: int, input: V, call: int, output: V, ret: int)

  ghost predicate Precedes<V>(a: Operation<V>, b: Operation<V>) {
    a.ret < b.call
  }

  /** No operation comes after one that was called only when it had returned. */
  ghost predicate RealTime<V>(ops: seq<Operation<V>>) {
    forall i, j :: 0 <= i < j < |ops| ==> !Precedes(ops[j], ops[i])
  }

  /** The state after taking the operations in order, if the model allows every one of them. */
  ghost function Run<S, V>(m: Model<S, V>, s: S, ops: seq<Operation<V>>): (r: Option<S>) {
    if ops == [] then Some(s) else
    match Run(m, s, ops[..|ops| - 1])
    case None => None
    case Some(t) =>
      var (ok, u) := m.step(t, ops[|ops| - 1].input, ops[|ops| - 1].output);
      if ok then Some(u) else None
  }

  ghost predicate IsLinearization<S, V>(m: Model<S, V>, ops: seq<Operation<V>>, lin: seq<Operation<V>>) {
    multiset(lin) == multiset(ops) && RealTime(lin) && Run(m, m.init, lin).Some?
  }

  ghost predicate Linearizable<S, V(!new)>(m: Model<S, V>, ops: seq<Operation<V>>) {
    exists lin :: IsLinearization(m, ops, lin)
  }

  /** Every operation is called no later than it returns. */
  ghost predicate Timed<V>(ops: seq<Operation<V>>) {
    forall i :: 0 <= i < |ops| ==> ops[i].call <= ops[i].ret
  }
}

/** Histories as lists of call and return events, numbered by operation. */
module Histories {
  import opened Options
  import opened Linearizability

  datatype Entry<V> = Entry(isReturn: bool, value: V, id: int, time: int, clientId: int)

  /** Where the call (or return) of operation `id` stands, or |h| if it is missing. */
  ghost function Find<V>(h: seq<Entry<V>>, id: int, isReturn: bool): (r: nat)
    ensures r <= |h|
  {
    if h == [] || (h[0].id == id && h[0].isReturn == isReturn) then 0
    else Find(h[1..], id, isReturn) + 1
  }

  lemma {:induction false} FindFirst<V>(h: seq<Entry<V>>, id: int, isReturn: bool)
    ensures var r := Find(h, id, isReturn);
      && (r < |h| ==> h[r].id == id && h[r].isReturn == isReturn)
      && (forall i :: 0 <= i < r ==> !(h[i].id == id && h[i].isReturn == isReturn))
  {
    if h != [] && !(h[0].id == id && h[0].isReturn == isReturn) {
      FindFirst(h[1..], id, isReturn);
      assert forall i :: 0 < i < |h| ==> h[i] == h[1..][i - 1];
    }
  }

  ghost function CallPos<V>(h: seq<Entry<V>>, id: int): (r: nat) { Find(h, id, false) }
  ghost function RetPos<V>(h: seq<Entry<V>>, id: int): (r: nat) { Find(h, id, true) }

  /** Operations 0..n-1 each have one call and one later return. */
  ghost predicate WellFormed<V>(h: seq<Entry<V>>, n: nat) {
    && |h| == 2 * n
    && (forall i :: 0 <= i < |h| ==> 0 <= h[i].id < n && i == Find(h, h[i].id, h[i].isReturn))
    && (forall id :: 0 <= id < n ==> CallPos(h, id) < RetPos(h, id) < |h|)
  }

  /** Operation `p` may come next once exactly those in `done` are taken: nothing else that is
      left returned before it was called. */
  ghost predicate Ready<V>(h: seq<Entry<V>>, n: nat, done: set<int>, p: int) {
    && 0 <= p < n && p !in done
    && forall q :: 0 <= q < n && q !in done ==> CallPos(h, p) < RetPos(h, q)
  }

  ghost function IdSet(ids: seq<int>): (r: set<int>) { set i | 0 <= i < |ids| :: ids[i] }

  /** The state after taking the operations `ids` in order, if the model allows it. */
  ghost function RunIds<S, V>(m: Model<S, V>, h: seq<Entry<V>>, n: nat, ids: seq<int>): (r: Option<S>)
    requires WellFormed(h, n) && forall i :: 0 <= i < |ids| ==> 0 <= ids[i] < n
  {
    if ids == [] then Some(m.init) else
    match RunIds(m, h, n, ids[..|ids| - 1])
    case None => None
    case Some(t) =>
      var p := ids[|ids| - 1];
      var (ok, u) := m.step(t, h[CallPos(h, p)].value, h[RetPos(h, p)].value);
      if ok then Some(u) else None
  }

  /** A legal order of some of the operations that could be the start of a linearization. */
  ghost predicate Partial<S, V>(m: Model<S, V>, h: seq<Entry<V>>, n: nat, ids: seq<int>)
    requires WellFormed(h, n)
  {
    && (forall i :: 0 <= i < |ids| ==> Ready(h, n, IdSet(ids[..i]), ids[i]))
    && RunIds(m, h, n, ids).Some?
  }

  ghost predicate HasLinearization<S, V>(m: Model<S, V>, h: seq<Entry<V>>, n: nat)
    requires WellFormed(h, n)
  {
    exists ids :: Partial(m, h, n, ids) && |ids| == n
  }

  /** Each recorded sequence is a legal start of a linearization that contains its operation. */
  ghost predicate LegalRecords<S, V>(m: Model<S, V>, h: seq<Entry<V>>, n: nat, longest: seq<Option<seq<int>>>)
    requires WellFormed(h, n)
  {
    |longest| == n && forall i :: 0 <= i < n && longest[i].Some? ==>
      Partial(m, h, n, longest[i].value) && i in longest[i].value
  }

  /** No legal start of a linearization that contains `i` is longer than what is recorded for `i`. */
  ghost predicate LongestRecords<S, V>(m: Model<S, V>, h: seq<Entry<V>>, n: nat, longest: seq<Option<seq<int>>>)
    requires WellFormed(h, n)
  {
    forall ids, i :: Partial(m, h, n, ids) && 0 <= i < |longest| && i in ids ==>
      longest[i].Some? && |longest[i].value| >= |ids|
  }
}
