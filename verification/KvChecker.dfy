/** The key/value model and the check of a whole history, partition by partition. */
module KvModel {
  import opened Linearizability
  import opened Locality
  import opened Sorting
  import opened Counting
  import opened Writes

  /** Inputs and outputs of operations; op 0 is get, 1 put, 2 append, anything else an append
      that returns the old value. */
  datatype Value = Nil | Input(op: nat, key: string, value: string) | Output(value: string)

  function Init(): (r: string) { "" }

  /** Values of another type than expected are refused; the source stops with a type error there. */
  function Step(state: string, input: Value, output: Value): (r: (bool, string)) {
    if !input.Input? || !output.Output? then (false, state)
    else if input.op == 0 then (output.value == state, state)
    else if input.op == 1 then (true, input.value)
    else if input.op == 2 then (true, state + input.value)
    else (output.value == state, state + input.value)
  }

  function KvModel(): (r: Model<string, Value>) { Model(Init(), Step) }

  function KeyOf(v: Value): (r: string) { if v.Input? then v.key else "" }

  // ---- what the model accepts ----------------------------------------------------

  ghost function WriteOf(x: Operation<Value>): (r: Write) {
    if !x.input.Input? || x.input.op == 0 then Nothing
    else if x.input.op == 1 then Replace(x.input.key, x.input.value)
    else Extend(x.input.key, x.input.value)
  }

  ghost function WritesOf(ops: seq<Operation<Value>>): (r: seq<Write>)
    ensures |r| == |ops|
  {
    seq(|ops|, i requires 0 <= i < |ops| => WriteOf(ops[i]))
  }

  predicate IsRead(x: Operation<Value>)
    requires x.input.Input?
  {
    x.input.op == 0 || x.input.op > 2
  }

  /** Every get, and every append that returns a value, returns the value of the last put on its key before it
      followed by all that was appended to the key since, in order. */
  ghost predicate ReadsWritten(ops: seq<Operation<Value>>) {
    forall i :: 0 <= i < |ops| ==>
      && ops[i].input.Input? && ops[i].output.Output?
      && (IsRead(ops[i]) ==> ops[i].output.value == Written(WritesOf(ops)[..i], ops[i].input.key))
  }

  /** The operations can be put in an order that respects real time and in which every read is right. */
  ghost predicate Explained(history: seq<Operation<Value>>) {
    exists lin :: multiset(lin) == multiset(history) && RealTime(lin) && ReadsWritten(lin)
  }

  lemma WritesMore(ops: seq<Operation<Value>>, x: Operation<Value>)
    ensures WritesOf(ops + [x]) == WritesOf(ops) + [WriteOf(x)]
  {
  }

  lemma ReadsMore(ops: seq<Operation<Value>>, x: Operation<Value>)
    ensures ReadsWritten(ops + [x]) <==>
      && ReadsWritten(ops) && x.input.Input? && x.output.Output?
      && (IsRead(x) ==> x.output.value == Written(WritesOf(ops), x.input.key))
  {
    hide Written, IsRead;
    var all := ops + [x];
    WritesMore(ops, x);
    hide WritesOf;
    assert WritesOf(all)[..|ops|] == WritesOf(ops) && all[|ops|] == x;
    forall i | 0 <= i < |ops| ensures WritesOf(all)[..i] == WritesOf(ops)[..i] && all[i] == ops[i] {}
  }

  /** One step of the model: it accepts exactly the value written so far, and then holds what is written. */
  lemma StepIsWrite(ws: seq<Write>, x: Operation<Value>)
    requires x.input.Input? && x.output.Output?
    ensures var (ok, next) := Step(Written(ws, x.input.key), x.input, x.output);
      && (ok <==> (IsRead(x) ==> x.output.value == Written(ws, x.input.key)))
      && next == Written(ws + [WriteOf(x)], x.input.key)
  {
    hide Written;
    WrittenMore(ws, WriteOf(x), x.input.key);
  }

  /** The model accepts a sequence of operations on one key exactly if every read in it is right. */
  lemma {:induction false} AcceptsOneKey(ops: seq<Operation<Value>>, key: string)
    requires forall i :: 0 <= i < |ops| ==> ops[i].input.Input? && ops[i].input.key == key
    ensures Run(KvModel(), "", ops).Some? <==> ReadsWritten(ops)
    ensures Run(KvModel(), "", ops).Some? ==> Run(KvModel(), "", ops).value == Written(WritesOf(ops), key)
  {
    hide Written;
    if ops == [] {
      NothingWritten(key);
    } else {
      hide ReadsWritten, WritesOf, IsRead, WriteOf;
      var front, x := ops[..|ops| - 1], ops[|ops| - 1];
      assert ops == front + [x];
      AcceptsOneKey(front, key);
      ReadsMore(front, x);
      WritesMore(front, x);
      if x.output.Output? {
        StepIsWrite(WritesOf(front), x);
        hide Step;
      }
    }
  }

  lemma OtherKeys(ws: seq<Write>, x: Operation<Value>, key: string)
    requires x.input.Input? && x.input.key != key
    ensures Written(ws + [WriteOf(x)], key) == Written(ws, key)
  {
    hide Written;
    WrittenMore(ws, WriteOf(x), key);
  }

  /** The store of all keys. */
  function AllKeys(): (r: Model<map<string, string>, Value>) { Product(KvModel(), KeyOf) }

  ghost predicate Holds(store: map<string, string>, ws: seq<Write>) {
    forall key :: Component(KvModel(), store, key) == Written(ws, key)
  }

  lemma HoldsMore(store: map<string, string>, ws: seq<Write>, x: Operation<Value>, value: string)
    requires Holds(store, ws) && x.input.Input? && value == Written(ws + [WriteOf(x)], x.input.key)
    ensures Holds(store[x.input.key := value], ws + [WriteOf(x)])
  {
    hide Written, WriteOf;
    var next := store[x.input.key := value];
    forall key ensures Component(KvModel(), next, key) == Written(ws + [WriteOf(x)], key) {
      if key != x.input.key {
        OtherKeys(ws, x, key);
        assert Component(KvModel(), store, key) == Written(ws, key);
      }
    }
  }

  lemma StepOfAll(store: map<string, string>, x: Operation<Value>)
    ensures var (ok, value) := Step(Component(KvModel(), store, KeyOf(x.input)), x.input, x.output);
      AllKeys().step(store, x.input, x.output) == (ok, store[KeyOf(x.input) := value])
  {
    hide Step;
  }

  lemma StoreStep(store: map<string, string>, ws: seq<Write>, x: Operation<Value>)
    requires Holds(store, ws)
    ensures var (ok, next) := AllKeys().step(store, x.input, x.output);
      && (ok <==> x.input.Input? && x.output.Output? && (IsRead(x) ==> x.output.value == Written(ws, x.input.key)))
      && (ok ==> Holds(next, ws + [WriteOf(x)]))
  {
    hide Written, WriteOf, AllKeys;
    StepOfAll(store, x);
    if x.input.Input? && x.output.Output? {
      assert Component(KvModel(), store, x.input.key) == Written(ws, x.input.key);
      hide Component, Holds;
      StepIsWrite(ws, x);
      HoldsMore(store, ws, x, Step(Written(ws, x.input.key), x.input, x.output).1);
      hide Step;
    }
  }

  lemma NothingHeld()
    ensures Holds(map[], [])
  {
    forall key ensures Component(KvModel(), map[], key) == Written([], key) { NothingWritten(key); }
  }

  /** The store of all keys accepts a sequence of operations exactly if every read in it is right. */
  lemma {:induction false} AcceptsAllKeys(ops: seq<Operation<Value>>)
    ensures Run(AllKeys(), map[], ops).Some? <==> ReadsWritten(ops)
    ensures Run(AllKeys(), map[], ops).Some? ==> Holds(Run(AllKeys(), map[], ops).value, WritesOf(ops))
  {
    hide AllKeys, Holds, Written;
    if ops == [] {
      NothingHeld();
    } else {
      var front, x := ops[..|ops| - 1], ops[|ops| - 1];
      assert ops == front + [x];
      AcceptsAllKeys(front);
      ReadsMore(front, x);
      WritesMore(front, x);
      hide ReadsWritten, WritesOf;
      if Run(AllKeys(), map[], front).Some? {
        StoreStep(Run(AllKeys(), map[], front).value, WritesOf(front), x);
      }
    }
  }

  lemma LinearizableIsExplained(history: seq<Operation<Value>>)
    ensures Linearizable(Product(KvModel(), KeyOf), history) <==> Explained(history)
  {
    hide ReadsWritten, Run;
    if Linearizable(Product(KvModel(), KeyOf), history) {
      var lin :| IsLinearization(Product(KvModel(), KeyOf), history, lin);
      AcceptsAllKeys(lin);
    }
    if lin :| multiset(lin) == multiset(history) && RealTime(lin) && ReadsWritten(lin) {
      AcceptsAllKeys(lin);
      assert IsLinearization(Product(KvModel(), KeyOf), history, lin);
    }
  }

  // ---- partitions ----------------------------------------------------------------

  ghost predicate Grouped(m: map<string, seq<Operation<Value>>>, history: seq<Operation<Value>>) {
    && (forall k :: k in m <==> exists j :: 0 <= j < |history| && KeyOf(history[j].input) == k)
    && (forall k :: k in m ==> m[k] == Sub(history, KeyOf, k))
  }

  method Group(history: seq<Operation<Value>>) returns (m: map<string, seq<Operation<Value>>>)
    ensures Grouped(m, history)
  {
    m := map[];
    for i := 0 to |history|
      invariant Grouped(m, history[..i])
    {
      var key := KeyOf(history[i].input);
      ghost var was := m;
      m := m[key := (if key in m then m[key] else []) + [history[i]]];
      assert history[..i + 1][..i] == history[..i];
      GroupMore(was, m, history[..i + 1]);
    }
    assert history[..|history|] == history;
  }

  lemma GroupMore(was: map<string, seq<Operation<Value>>>, m: map<string, seq<Operation<Value>>>,
      h: seq<Operation<Value>>)
    requires h != [] && Grouped(was, h[..|h| - 1])
    requires var x := h[|h| - 1]; var key := KeyOf(x.input);
      m == was[key := (if key in was then was[key] else []) + [x]]
    ensures Grouped(m, h)
  {
    hide KeyOf;
    var front, x := h[..|h| - 1], h[|h| - 1];
    var key := KeyOf(x.input);
    if key !in was {
      assert Off(front, KeyOf, key);
      SubOff(front, KeyOf, key);
    }
    forall k ensures k in m <==> exists j :: 0 <= j < |h| && KeyOf(h[j].input) == k {
      if k in was {
        var j :| 0 <= j < |front| && KeyOf(front[j].input) == k;
        assert h[j] == front[j];
      }
      if j :| 0 <= j < |h| && KeyOf(h[j].input) == k {
        assert j < |front| ==> front[j] == h[j];
      }
    }
  }

  /** Splits a history by key. */
  method Partition(history: seq<Operation<Value>>) returns (ret: seq<seq<Operation<Value>>>, ghost keys: seq<string>)
    ensures Partitions(ret, history, KeyOf, keys) && SortedBy(keys, StringLess)
  {
    var m := Group(history);
    var unsorted := Elements(m.Keys);
    StringLessWeakOrder();
    var sorted := Sort(unsorted, StringLess);
    SameDistinct(unsorted, sorted);
    ret := [];
    for i := 0 to |sorted|
      invariant |ret| == i && forall j :: 0 <= j < i ==> ret[j] == m[sorted[j]]
    {
      assert sorted[i] in m;
      ret := ret + [m[sorted[i]]];
    }
    keys := sorted;
  }
}

/** Checking several partitions at once. */
module ParallelChecker {
  import opened Options
  import opened Linearizability
  import opened Histories
  import opened Locality
  import opened Entries
  import opened Checker
  import opened KvModel
  import opened Sorting
  import opened Counting

  datatype CheckResult = Unknown | Ok | Illegal

  /** What the collecting loop receives next: the result of one partition, or the timeout. */
  datatype Arrival = Result(partition: nat) | TimedOut

  /** Without a timeout every partition reports exactly once. */
  ghost predicate Schedule(events: seq<Arrival>, n: nat) {
    && (forall i :: 0 <= i < |events| && events[i].Result? ==> events[i].partition < n)
    && (forall i, j :: 0 <= i < j < |events| && events[i].Result? ==> events[i] != events[j])
    && (TimedOut in events || |events| == n)
  }

  /** Every listed order is a legal start of a linearization of the history. */
  ghost predicate AllPartial<S, V>(m: Model<S, V>, h: seq<Entry<V>>, partials: seq<seq<int>>)
    requires WellFormed(h, |h| / 2)
  {
    forall p :: p in partials ==> Partial(m, h, |h| / 2, p)
  }

  /** For every operation of a legal start of a linearization, one that is as long and has it is listed. */
  ghost predicate Exhaustive<S, V>(m: Model<S, V>, h: seq<Entry<V>>, partials: seq<seq<int>>)
    requires WellFormed(h, |h| / 2)
  {
    forall ids, i :: Partial(m, h, |h| / 2, ids) && i in ids ==> exists p :: p in partials && i in p && |p| >= |ids|
  }

  /** The orders that are recorded for some operation. */
  method UniquePartials(longest: seq<Option<seq<int>>>) returns (partials: seq<seq<int>>)
    ensures Distinct(partials) && forall p :: p in partials <==> Some(p) in longest
  {
    partials := [];
    for i := 0 to |longest|
      invariant Distinct(partials) && forall p :: p in partials <==> Some(p) in longest[..i]
    {
      assert longest[..i + 1] == longest[..i] + [longest[i]];
      if longest[i].Some? && longest[i].value !in partials {
        partials := partials + [longest[i].value];
      }
    }
    assert longest[..|longest|] == longest;
  }

  lemma RecordsArePartial<S, V>(m: Model<S, V>, h: seq<Entry<V>>, longest: seq<Option<seq<int>>>,
      partials: seq<seq<int>>)
    requires WellFormed(h, |h| / 2) && LegalRecords(m, h, |h| / 2, longest)
    requires forall p :: p in partials <==> Some(p) in longest
    ensures AllPartial(m, h, partials)
    ensures LongestRecords(m, h, |h| / 2, longest) ==> Exhaustive(m, h, partials)
  {
    hide Partial, WellFormed;
    forall p | p in partials ensures Partial(m, h, |h| / 2, p) {
      var i :| 0 <= i < |longest| && longest[i] == Some(p);
    }
    if LongestRecords(m, h, |h| / 2, longest) {
      forall ids, i | Partial(m, h, |h| / 2, ids) && i in ids
        ensures exists p :: p in partials && i in p && |p| >= |ids|
      {
        PartialIds(m, h, ids, i);
        var p := longest[i].value;
        assert longest[i] in longest;
        assert p in partials && i in p;
      }
    }
  }

  lemma PartialIds<S, V>(m: Model<S, V>, h: seq<Entry<V>>, ids: seq<int>, i: int)
    requires WellFormed(h, |h| / 2) && Partial(m, h, |h| / 2, ids) && i in ids
    ensures 0 <= i < |h| / 2
  {
    hide WellFormed, RunIds;
    var j :| 0 <= j < |ids| && ids[j] == i;
    assert Ready(h, |h| / 2, IdSet(ids[..j]), ids[j]);
  }

  /** What the search of partition `i` has recorded; it is all there is to know unless the search was killed. */
  ghost predicate Recorded<S, V>(m: Model<S, V>, h: seq<Entry<V>>, longest: seq<Option<seq<int>>>, whole: bool)
    requires WellFormed(h, |h| / 2)
  {
    LegalRecords(m, h, |h| / 2, longest) && (whole ==> LongestRecords(m, h, |h| / 2, longest))
  }

  /** The timeout came after `j` results, not all of them, and none of them was bad. */
  ghost predicate StoppedAt<S, V>(m: Model<S, V>, history: seq<seq<Entry<V>>>, events: seq<Arrival>, j: int)
    requires forall i :: 0 <= i < |history| ==> WellFormed(history[i], |history[i]| / 2)
  {
    && 0 <= j < |events| && j < |history| && events[j].TimedOut?
    && forall i :: 0 <= i < j ==>
         && events[i].Result? && events[i].partition < |history|
         && HasLinearization(m, history[events[i].partition], |history[events[i].partition]| / 2)
  }

  /** A result that is received was computed while the kill flag was down, since the flag is only raised when the
      loop stops receiving. With `computeInfo` the searches that are still running are then waited for; `kills`
      says when each of them sees the flag. */
  method CheckParallel<S(==, !new), V(0, !new)>(model: Model<S, V>, history: seq<seq<Entry<V>>>, computeInfo: bool,
      events: seq<Arrival>, kills: nat -> nat -> bool) returns (result: CheckResult, info: seq<seq<seq<int>>>)
    requires forall i :: 0 <= i < |history| ==> WellFormed(history[i], |history[i]| / 2)
    requires history != [] && Schedule(events, |history|)
    ensures result == Ok ==> forall i :: 0 <= i < |history| ==> HasLinearization(model, history[i], |history[i]| / 2)
    ensures result == Illegal ==>
      exists i :: 0 <= i < |history| && !HasLinearization(model, history[i], |history[i]| / 2)
    ensures result == Unknown ==> exists j :: StoppedAt(model, history, events, j)
    ensures |info| == if computeInfo then |history| else 0
    ensures forall i :: 0 <= i < |info| ==> AllPartial(model, history[i], info[i])
    ensures TimedOut !in events ==> forall i :: 0 <= i < |info| ==> Exhaustive(model, history[i], info[i])
  {
    hide WellFormed, HasLinearization, IsComplete, LegalRecords, LongestRecords, Recorded, AllPartial, Exhaustive,
      StoppedAt;
    var ok, timedOut := true, false;
    var count := 0;
    ghost var seen: seq<int> := [];
    var longest: map<nat, seq<Option<seq<int>>>> := map[];
    while true
      invariant count == |seen| < |history| && count <= |events| && !timedOut
      invariant forall i :: 0 <= i < count ==> events[i].Result? && seen[i] == events[i].partition < |history|
      invariant Distinct(seen) && longest.Keys == set p | p in seen
      invariant ok ==>
        forall p :: p in seen ==> 0 <= p < |history| && HasLinearization(model, history[p], |history[p]| / 2)
      invariant !ok ==> exists i :: 0 <= i < |history| && !HasLinearization(model, history[i], |history[i]| / 2)
      invariant forall p :: p in longest ==> p < |history| && Recorded(model, history[p], longest[p], computeInfo)
      decreases |history| - count
    {
      assert count < |events|;
      if events[count].Result? {
        var i := events[count].partition;
        var single, records, _ := CheckSingle(model, history[i], computeInfo, _ => false);
        Decided(model, history[i], single);
        Records(model, history[i], records, computeInfo);
        longest := longest[i := records];
        seen := seen + [i];
        count := count + 1;
        ok := ok && single;
        if !ok && !computeInfo { break; }
        if count >= |history| {
          Surjective(seen);
          forall p | 0 <= p < |history|
            ensures p in longest && (ok ==> HasLinearization(model, history[p], |history[p]| / 2))
          {
            assert p in seen;
          }
          break;
        }
      } else {
        timedOut := true;
        assert ok ==> StoppedAt(model, history, events, count) by { SeenGood(model, history, events, seen); }
        break;
      }
    }
    info := [];
    if computeInfo {
      info := Collect(model, history, longest, TimedOut !in events, kills);
    }
    if !ok { result := Illegal; } else if timedOut { result := Unknown; } else { result := Ok; }
  }

  lemma SeenGood<S, V>(m: Model<S, V>, history: seq<seq<Entry<V>>>, events: seq<Arrival>, seen: seq<int>)
    requires forall i :: 0 <= i < |history| ==> WellFormed(history[i], |history[i]| / 2)
    requires |seen| < |history| && |seen| < |events| && events[|seen|].TimedOut?
    requires forall i :: 0 <= i < |seen| ==> events[i].Result? && seen[i] == events[i].partition < |history|
    ensures (forall p :: p in seen ==> 0 <= p < |history| && HasLinearization(m, history[p], |history[p]| / 2))
      ==> StoppedAt(m, history, events, |seen|)
  {
    hide WellFormed, HasLinearization;
    forall i | 0 <= i < |seen| ensures events[i].partition in seen { assert seen[i] in seen; }
  }

  lemma Records<S, V>(m: Model<S, V>, h: seq<Entry<V>>, longest: seq<Option<seq<int>>>, whole: bool)
    requires WellFormed(h, |h| / 2) && LegalRecords(m, h, |h| / 2, longest)
    requires whole ==> LongestRecords(m, h, |h| / 2, longest)
    ensures Recorded(m, h, longest, whole)
  {
  }

  /** Waits for the searches that have not reported, and lists what each has recorded. */
  method Collect<S(==, !new), V(0, !new)>(model: Model<S, V>, history: seq<seq<Entry<V>>>,
      longest: map<nat, seq<Option<seq<int>>>>, ghost all: bool, kills: nat -> nat -> bool)
      returns (info: seq<seq<seq<int>>>)
    requires forall i :: 0 <= i < |history| ==> WellFormed(history[i], |history[i]| / 2)
    requires forall p :: p in longest ==> p < |history| && Recorded(model, history[p], longest[p], true)
    requires all ==> forall p :: 0 <= p < |history| ==> p in longest
    ensures |info| == |history| && forall i :: 0 <= i < |info| ==> AllPartial(model, history[i], info[i])
    ensures all ==> forall i :: 0 <= i < |info| ==> Exhaustive(model, history[i], info[i])
  {
    hide WellFormed, HasLinearization, IsComplete, LegalRecords, LongestRecords, AllPartial, Exhaustive;
    info := [];
    for i := 0 to |history|
      invariant |info| == i && forall j :: 0 <= j < i ==> AllPartial(model, history[j], info[j])
      invariant all ==> forall j :: 0 <= j < i ==> Exhaustive(model, history[j], info[j])
    {
      var records;
      if i in longest {
        records := longest[i];
      } else {
        var _, recorded, _ := CheckSingle(model, history[i], true, kills(i));
        records := recorded;
      }
      var partials := UniquePartials(records);
      RecordsArePartial(model, history[i], records, partials);
      info := info + [partials];
    }
  }

  lemma Decided<S, V>(m: Model<S, V>, h: seq<Entry<V>>, ok: bool)
    requires WellFormed(h, |h| / 2) && (ok ==> exists ids :: IsComplete(m, h, |h| / 2, ids))
    requires !ok ==> !HasLinearization(m, h, |h| / 2)
    ensures ok <==> HasLinearization(m, h, |h| / 2)
  {
    hide WellFormed, Partial;
    if ok {
      var ids :| IsComplete(m, h, |h| / 2, ids);
      assert Partial(m, h, |h| / 2, ids);
    }
  }

  /** The check of a key/value history: Ok exactly if some order of the operations explains every value read. */
  method CheckOperations(history: seq<Operation<Value>>, computeInfo: bool, events: nat -> seq<Arrival>,
      kills: nat -> nat -> bool) returns (result: CheckResult, info: seq<seq<seq<int>>>)
    requires Timed(history) && history != [] && forall n: nat :: Schedule(events(n), n)
    ensures result == Ok ==> Explained(history)
    ensures result == Illegal ==> !Explained(history)
    ensures result == Unknown ==> exists n: nat :: TimedOut in events(n)
  {
    hide WellFormed, HasLinearization, Linearizable, Partitions, Schedule, Lists, SortedBy, Explained;
    var model := KvModel.KvModel();
    var parts, keys := Partition(history);
    PartsTimed(parts, history, keys);
    SomePart(parts, history, keys);
    var l: seq<seq<Entry<Value>>> := [];
    for i := 0 to |parts|
      invariant |l| == i
      invariant forall j :: 0 <= j < i ==> |l[j]| / 2 == |parts[j]| && WellFormed(l[j], |l[j]| / 2)
      invariant forall j :: 0 <= j < i ==>
        (HasLinearization(model, l[j], |l[j]| / 2) <==> Linearizable(model, parts[j]))
    {
      var entries := MakeEntries(parts[i]);
      EntriesFaithful(model, entries, parts[i]);
      HalfLength(entries, parts[i]);
      l := l + [entries];
    }
    result, info := CheckParallel(model, l, computeInfo, events(|l|), kills);
    assert result == Unknown ==> TimedOut in events(|l|);
    Locality.Locality(model, parts, history, KeyOf, keys);
    LinearizableIsExplained(history);
  }

  lemma HalfLength<V>(entries: seq<Entry<V>>, ops: seq<Operation<V>>)
    requires Lists(entries, ops)
    ensures |entries| / 2 == |ops|
  {
  }

  lemma SomePart(parts: seq<seq<Operation<Value>>>, history: seq<Operation<Value>>, keys: seq<string>)
    requires history != [] && Partitions(parts, history, KeyOf, keys)
    ensures parts != []
  {
    assert KeyOf(history[0].input) in keys;
  }

  lemma PartsTimed(parts: seq<seq<Operation<Value>>>, history: seq<Operation<Value>>, keys: seq<string>)
    requires Timed(history) && Partitions(parts, history, KeyOf, keys)
    ensures forall i :: 0 <= i < |parts| ==> Timed(parts[i])
  {
    forall i, j | 0 <= i < |parts| && 0 <= j < |parts[i]| ensures parts[i][j].call <= parts[i][j].ret {
      SubMembers(history, KeyOf, keys[i]);
      assert parts[i][j] in Sub(history, KeyOf, keys[i]);
    }
  }
}
