/** What the tests check of the replicated service: the history of its clerks is linearizable. */
module KvRaftHistory {
  import opened Options
  import opened Linearizability
  import opened Locality
  import opened Counting
  import VersionedMap
  import opened PutOutcomes

  /** An input or an output of an operation. */
  datatype Observed = In(op: VersionedMap.Op) | Out(reply: VersionedMap.Reply)

  /** The model that histories are checked against, for one key. */
  function ClerkModel(): (r: Model<VersionedMap.Entry, Observed>) {
    Model(VersionedMap.Entry("", 0), (s: VersionedMap.Entry, i: Observed, o: Observed) =>
      if i.In? && o.Out? then VersionedMap.ModelStep(s, i.op, o.reply) else (false, s))
  }

  function KeyOf(v: Observed): (r: string) {
    if v.In? then v.op.key else ""
  }

  // ---- what the model accepts ----------------------------------------------------

  ghost predicate Typed(ops: seq<Operation<Observed>>) {
    forall i :: 0 <= i < |ops| ==> ops[i].input.In? && ops[i].output.Out?
  }

  /** The operations with the answers that are right in this order. */
  ghost function RightLog(ops: seq<Operation<Observed>>): (r: seq<VersionedMap.Exchange>)
    requires Typed(ops)
    ensures |r| == |ops| && forall i :: 0 <= i < |ops| ==> r[i].op == ops[i].input.op
    ensures VersionedMap.AllRight(r)
  {
    if ops == [] then []
    else
      var front, op := RightLog(ops[..|ops| - 1]), ops[|ops| - 1].input.op;
      var x := VersionedMap.Exchange(op, VersionedMap.RightAnswer(front, op));
      VersionedMap.AllRightMore(front, x);
      front + [x]
  }

  /** What a caller may be told: the value for a Get, and for a Put whether it was accepted, or ErrMaybe. */
  predicate Agrees(x: VersionedMap.Exchange, told: VersionedMap.Reply) {
    match x.op
    case Get(_) => told.value == x.reply.value
    case Put(_, _, _) => told.err == x.reply.err || told.err == VersionedMap.ErrMaybe
  }

  ghost predicate ToldRight(ops: seq<Operation<Observed>>) {
    Typed(ops) && forall i :: 0 <= i < |ops| ==> Agrees(RightLog(ops)[i], ops[i].output.reply)
  }

  /** The operations can be put in an order that respects real time and in which every caller was told right. */
  ghost predicate Explained(history: seq<Operation<Observed>>) {
    exists lin :: multiset(lin) == multiset(history) && RealTime(lin) && ToldRight(lin)
  }

  /** A step of the model of one key is the right answer, up to what callers may be told. */
  lemma StepIsRight(store: VersionedMap.Store, log: seq<VersionedMap.Exchange>, op: VersionedMap.Op,
      told: VersionedMap.Reply)
    requires VersionedMap.HoldsAt(store, log, op.key)
    ensures var x := VersionedMap.Exchange(op, VersionedMap.RightAnswer(log, op));
      && x.reply == VersionedMap.Answer(store, op)
      && VersionedMap.ModelStep(VersionedMap.Project(store, op.key), op, told)
           == (Agrees(x, told), VersionedMap.Project(VersionedMap.After(store, op), op.key))
  {
    VersionedMap.AnswerIsRight(store, log, op);
  }

  /** The store of all keys. */
  function AllKeys(): (r: Model<map<string, VersionedMap.Entry>, Observed>) { Product(ClerkModel(), KeyOf) }

  lemma StepOfAll(st: map<string, VersionedMap.Entry>, x: Operation<Observed>)
    requires x.input.In? && x.output.Out?
    ensures var op := x.input.op;
      var (ok, e) := VersionedMap.ModelStep(Component(ClerkModel(), st, op.key), op, x.output.reply);
      AllKeys().step(st, x.input, x.output) == (ok, st[op.key := e])
  {
    hide VersionedMap.ModelStep;
    var was := Component(ClerkModel(), st, KeyOf(x.input));
    assert ClerkModel().step(was, x.input, x.output) == VersionedMap.ModelStep(was, x.input.op, x.output.reply);
  }

  lemma ShowsMore(st: map<string, VersionedMap.Entry>, store: VersionedMap.Store, op: VersionedMap.Op)
    requires Shows(st, store)
    ensures Shows(st[op.key := VersionedMap.Project(VersionedMap.After(store, op), op.key)],
                  VersionedMap.After(store, op))
  {
    var now := VersionedMap.After(store, op);
    var next := st[op.key := VersionedMap.Project(now, op.key)];
    forall k ensures Component(ClerkModel(), next, k) == VersionedMap.Project(now, k) {
      if k != op.key { assert Component(ClerkModel(), st, k) == VersionedMap.Project(store, k); }
    }
  }

  ghost function StoreFor(ops: seq<Operation<Observed>>): (r: VersionedMap.Store)
    requires Typed(ops)
  {
    if ops == [] then map[] else VersionedMap.After(StoreFor(ops[..|ops| - 1]), ops[|ops| - 1].input.op)
  }

  lemma {:induction false} StoreForHolds(ops: seq<Operation<Observed>>)
    requires Typed(ops)
    ensures VersionedMap.Holds(StoreFor(ops), RightLog(ops))
  {
    hide VersionedMap.Holds, VersionedMap.Answer, VersionedMap.After, VersionedMap.RightAnswer, VersionedMap.AllRight;
    if ops == [] {
      VersionedMap.NothingStored();
    } else {
      var front, op := ops[..|ops| - 1], ops[|ops| - 1].input.op;
      StoreForHolds(front);
      VersionedMap.HeldAt(StoreFor(front), RightLog(front), op.key);
      VersionedMap.AnswerIsRight(StoreFor(front), RightLog(front), op);
      VersionedMap.HoldsMore(StoreFor(front), RightLog(front), op);
    }
  }

  lemma ToldMore(front: seq<Operation<Observed>>, x: Operation<Observed>)
    ensures ToldRight(front + [x]) <==>
      && ToldRight(front) && x.input.In? && x.output.Out?
      && (var op := x.input.op;
          Agrees(VersionedMap.Exchange(op, VersionedMap.RightAnswer(RightLog(front), op)), x.output.reply))
  {
    hide VersionedMap.RightAnswer, VersionedMap.AllRight, Agrees;
    var all := front + [x];
    assert all[..|front|] == front && all[|front|] == x;
    assert forall i :: 0 <= i < |front| ==> all[i] == front[i];
  }

  /** The model of the tests accepts a sequence of operations exactly if every caller was told right. */
  lemma {:induction false} ModelAccepts(ops: seq<Operation<Observed>>)
    ensures Run(AllKeys(), map[], ops).Some? <==> ToldRight(ops)
    ensures Run(AllKeys(), map[], ops).Some? ==> Shows(Run(AllKeys(), map[], ops).value, StoreFor(ops))
  {
    if ops == [] {
      assert Shows(map[], map[]);
    } else {
      var front, x := ops[..|ops| - 1], ops[|ops| - 1];
      assert ops == front + [x];
      ModelAccepts(front);
      ToldMore(front, x);
      if Run(AllKeys(), map[], front).Some? && x.input.In? && x.output.Out? {
        var st, op := Run(AllKeys(), map[], front).value, x.input.op;
        StoreForHolds(front);
        AcceptsStep(st, front, x);
        hide AllKeys, Shows, RightLog;
      } else {
        hide Shows, RightLog;
      }
    }
  }

  lemma AcceptsStep(st: map<string, VersionedMap.Entry>, front: seq<Operation<Observed>>, x: Operation<Observed>)
    requires ToldRight(front) && x.input.In? && x.output.Out? && Shows(st, StoreFor(front))
    ensures var (ok, next) := AllKeys().step(st, x.input, x.output);
      var op := x.input.op;
      && (ok <==> Agrees(VersionedMap.Exchange(op, VersionedMap.RightAnswer(RightLog(front), op)), x.output.reply))
      && Shows(next, VersionedMap.After(StoreFor(front), op))
  {
    hide AllKeys, VersionedMap.Holds, VersionedMap.RightAnswer, VersionedMap.ModelStep, VersionedMap.After, Agrees,
      RightLog;
    var op := x.input.op;
    StoreForHolds(front);
    VersionedMap.HeldAt(StoreFor(front), RightLog(front), op.key);
    StepOfAll(st, x);
    assert Component(ClerkModel(), st, op.key) == VersionedMap.Project(StoreFor(front), op.key);
    hide Component;
    StepIsRight(StoreFor(front), RightLog(front), op, x.output.reply);
    ShowsMore(st, StoreFor(front), op);
  }

  lemma LinearizableIsExplained(history: seq<Operation<Observed>>)
    ensures Linearizable(AllKeys(), history) <==> Explained(history)
  {
    hide ToldRight, Run;
    if Linearizable(AllKeys(), history) {
      var lin :| IsLinearization(AllKeys(), history, lin);
      ModelAccepts(lin);
    }
    if lin :| multiset(lin) == multiset(history) && RealTime(lin) && ToldRight(lin) {
      ModelAccepts(lin);
      assert IsLinearization(AllKeys(), history, lin);
    }
  }

  // ---- the history ---------------------------------------------------------------

  /** A call that has not returned counts if it has changed the store. */
  ghost predicate Counts(y: System, n: nat)
    requires Inv(y) && n < |y.calls|
  {
    y.calls[n].outcome.Returned? || exists i: nat :: TookEffect(y, n, i)
  }

  /** What the caller is told, when, and how long the log is then. A call that has not returned but counts is
      completed by an OK now. */
  function ReplyOf(y: System, n: nat): (r: VersionedMap.Reply)
    requires n < |y.calls|
  {
    if y.calls[n].outcome.Returned? then y.calls[n].outcome.reply else VersionedMap.PutErr(VersionedMap.OK)
  }

  function EndedOf(y: System, n: nat): (r: nat)
    requires n < |y.calls|
  {
    if y.calls[n].outcome.Returned? then y.calls[n].outcome.ended else y.clock
  }

  function AtOf(y: System, n: nat): (r: nat)
    requires n < |y.calls|
  {
    if y.calls[n].outcome.Returned? then y.calls[n].outcome.at else |y.log|
  }

  function OperationOf(y: System, n: nat): (r: Operation<Observed>)
    requires n < |y.calls|
  {
    Operation(y.calls[n].clerk, In(y.calls[n].op), y.calls[n].began, Out(ReplyOf(y, n)), EndedOf(y, n))
  }

  /** All calls that returned, and the pending ones that took effect, among the first `n`, in the order in which
      they began. */
  ghost function History(y: System, n: nat): (r: seq<Operation<Observed>>)
    requires Inv(y) && n <= |y.calls|
  {
    if n == 0 then [] else History(y, n - 1) + if Counts(y, n - 1) then [OperationOf(y, n - 1)] else []
  }

  /** No Put that was answered with ErrMaybe asked for a version above the one that its key had when it began. */
  ghost predicate NoneAbove(y: System)
    requires Inv(y)
  {
    forall n :: 0 <= n < |y.calls| ==> NotAbove(y, n)
  }

  ghost predicate NotAbove(y: System, n: nat)
    requires n < |y.calls|
  {
    var call := y.calls[n];
    call.op.Put? && call.outcome.Returned? && call.outcome.reply.err == VersionedMap.ErrMaybe ==>
      && call.from <= |y.log|
      && call.op.version <= VersionedMap.Version(StoreAt(y, call.from), call.op.key)
  }

  // ---- where the calls happen ----------------------------------------------------

  /** `p` is where call `n` happens. */
  ghost predicate IsPoint(y: System, n: nat, p: nat)
    requires Inv(y) && n < |y.calls|
  {
    && y.calls[n].from <= p < AtOf(y, n) && IsAttemptOf(y, n, p)
    && (var k := y.calls[n].op.key;
        VersionedMap.ModelStep(VersionedMap.Project(StoreAt(y, p), k), y.calls[n].op, ReplyOf(y, n))
          == (true, VersionedMap.Project(StoreAt(y, p + 1), k)))
    && forall i: nat :: TookEffect(y, n, i) ==> i == p
  }

  lemma PointOf(y: System, n: nat) returns (p: nat)
    requires Inv(y) && NoneAbove(y) && n < |y.calls| && Counts(y, n)
    ensures IsPoint(y, n, p)
  {
    assert CallOk(y, n) && NotAbove(y, n);
    hide NoneAbove;
    if y.calls[n].outcome.Returned? {
      hide Inv;
      p := Linearizes(y, n);
    } else {
      p :| TookEffect(y, n, p);
      assert EntryOk(y, p);
      PointIsStep(y, n, p, ReplyOf(y, n));
      OnlyEffect(y, n, p);
    }
  }

  /** A point for each call that counts, and -1 for the others. */
  ghost predicate ArePoints(y: System, ps: seq<int>)
    requires Inv(y) && |ps| <= |y.calls|
  {
    forall n :: 0 <= n < |ps| ==> if Counts(y, n) then ps[n] >= 0 && IsPoint(y, n, ps[n]) else ps[n] == -1
  }

  lemma {:induction false} Points(y: System, n: nat) returns (ps: seq<int>)
    requires Inv(y) && NoneAbove(y) && n <= |y.calls|
    ensures |ps| == n && ArePoints(y, ps)
  {
    hide Inv, NoneAbove, IsPoint, Counts;
    if n == 0 {
      ps := [];
    } else {
      ps := Points(y, n - 1);
      if Counts(y, n - 1) {
        var p := PointOf(y, n - 1);
        ps := ps + [p];
      } else {
        ps := ps + [-1];
      }
    }
  }

  /** The call whose attempt is entry `i`. */
  ghost function CallAt(y: System, i: nat): (r: nat)
    requires Inv(y) && i < |y.log|
    ensures r < |y.calls|
  {
    assert EntryOk(y, i);
    y.attempts[y.log[i].attempt].call
  }

  /** The calls that happen in the first `i` entries, in the order of their points. */
  ghost function Order(y: System, ps: seq<int>, i: nat): (r: seq<int>)
    requires Inv(y) && |ps| == |y.calls| && i <= |y.log|
    ensures forall j :: 0 <= j < |r| ==> 0 <= r[j] < |ps|
  {
    if i == 0 then []
    else
      var n := CallAt(y, i - 1);
      Order(y, ps, i - 1) + if ps[n] == i - 1 then [n] else []
  }

  /** `ids` are the calls with a point below `i`, in the order of their points. */
  ghost predicate Ordered(ps: seq<int>, ids: seq<int>, i: nat) {
    && (forall j :: 0 <= j < |ids| ==> 0 <= ids[j] < |ps| && 0 <= ps[ids[j]] < i)
    && (forall a, b :: 0 <= a < b < |ids| ==> ps[ids[a]] < ps[ids[b]])
    && (forall n :: 0 <= n < |ps| && 0 <= ps[n] < i ==> n in ids)
  }

  lemma OrderedNone(ps: seq<int>)
    ensures Ordered(ps, [], 0)
  {
  }

  lemma OrderedMore(ps: seq<int>, ids: seq<int>, i: nat, n: nat)
    requires Ordered(ps, ids, i) && n < |ps| && forall m :: 0 <= m < |ps| && ps[m] == i ==> m == n
    ensures Ordered(ps, ids + if ps[n] == i then [n] else [], i + 1)
  {
    var more := ids + if ps[n] == i then [n] else [];
    forall m | 0 <= m < |ps| && 0 <= ps[m] < i + 1 ensures m in more {
      if m == n && ps[n] == i { assert more[|ids|] == n; } else { assert m in ids; }
    }
  }

  lemma {:induction false} OrderFacts(y: System, ps: seq<int>, i: nat)
    requires Inv(y) && |ps| == |y.calls| && ArePoints(y, ps) && i <= |y.log|
    ensures Ordered(ps, Order(y, ps, i), i)
  {
    hide Inv, ArePoints, CallAt, Ordered;
    if i == 0 {
      OrderedNone(ps);
    } else {
      OrderFacts(y, ps, i - 1);
      OnlyCall(y, ps, i - 1);
      OrderedMore(ps, Order(y, ps, i - 1), i - 1, CallAt(y, i - 1));
    }
  }

  /** The entry at a point is an attempt of the call whose point it is. */
  lemma OnlyCall(y: System, ps: seq<int>, i: nat)
    requires Inv(y) && |ps| == |y.calls| && ArePoints(y, ps) && i < |y.log|
    ensures IsAttemptOf(y, CallAt(y, i), i)
    ensures forall m :: 0 <= m < |ps| && ps[m] == i ==> m == CallAt(y, i)
  {
    assert EntryOk(y, i);
    forall m | 0 <= m < |ps| && ps[m] == i ensures m == CallAt(y, i) { assert IsPoint(y, m, ps[m]); }
  }

  // ---- the model follows ---------------------------------------------------------

  /** The states of all keys are those of the store. */
  ghost predicate Shows(st: map<string, VersionedMap.Entry>, store: VersionedMap.Store) {
    forall k :: Component(ClerkModel(), st, k) == VersionedMap.Project(store, k)
  }

  /** An entry that is nobody's point changes nothing. */
  lemma OffPoint(y: System, ps: seq<int>, n: nat, i: nat)
    requires Inv(y) && |ps| == |y.calls| && ArePoints(y, ps) && n < |ps| && IsAttemptOf(y, n, i) && ps[n] != i
    ensures StoreAt(y, i + 1) == StoreAt(y, i)
  {
    assert !TookEffect(y, n, i) by {
      if Counts(y, n) { assert IsPoint(y, n, ps[n]); }
    }
    StoreStep(y, i);
    assert EntryOk(y, i);
    hide StoreOf;
  }

  /** At its point a call is a step of the model. */
  lemma OnPoint(y: System, n: nat, p: nat, st: map<string, VersionedMap.Entry>)
    requires Inv(y) && n < |y.calls| && IsPoint(y, n, p) && Shows(st, StoreAt(y, p))
    ensures var (ok, next) := AllKeys().step(st, In(y.calls[n].op), Out(ReplyOf(y, n)));
      ok && Shows(next, StoreAt(y, p + 1))
  {
    var op, key := y.calls[n].op, y.calls[n].op.key;
    assert EntryOk(y, p);
    StoreStep(y, p);
    hide StoreOf, Inv, StoreAt;
    var was, now := StoreAt(y, p), StoreAt(y, p + 1);
    assert now == VersionedMap.After(was, op);
    var (ok, next) := AllKeys().step(st, In(op), Out(ReplyOf(y, n)));
    assert KeyOf(In(op)) == key && Component(ClerkModel(), st, key) == VersionedMap.Project(was, key);
    assert ok && next == st[key := VersionedMap.Project(now, key)];
    hide IsPoint, VersionedMap.ModelStep;
    forall k ensures Component(ClerkModel(), next, k) == VersionedMap.Project(now, k) {
      if k != key { assert Component(ClerkModel(), st, k) == VersionedMap.Project(was, k); }
    }
  }

  function Calls(y: System): (r: seq<Operation<Observed>>)
    ensures |r| == |y.calls| && forall n :: 0 <= n < |r| ==> r[n] == OperationOf(y, n)
  {
    seq(|y.calls|, n requires 0 <= n < |y.calls| => OperationOf(y, n))
  }

  /** The model takes the calls `ids` and is then in state `st`. */
  ghost predicate Takes(y: System, ids: seq<int>, st: map<string, VersionedMap.Entry>)
    requires forall j :: 0 <= j < |ids| ==> 0 <= ids[j] < |y.calls|
  {
    Run(AllKeys(), map[], Select(Calls(y), ids)) == Some(st)
  }

  lemma {:induction false} RunsAlong(y: System, ps: seq<int>, i: nat) returns (st: map<string, VersionedMap.Entry>)
    requires Inv(y) && |ps| == |y.calls| && ArePoints(y, ps) && i <= |y.log|
    ensures Takes(y, Order(y, ps, i), st) && Shows(st, StoreAt(y, i))
  {
    hide Inv, ArePoints, CallAt, StoreAt, IsPoint, IsAttemptOf, Takes, Shows;
    if i == 0 {
      st := map[];
      Empty(y);
    } else {
      var was := RunsAlong(y, ps, i - 1);
      OnlyCall(y, ps, i - 1);
      var n := CallAt(y, i - 1);
      if ps[n] == i - 1 {
        PointFact(y, ps, n);
        st := AtPoint(y, Order(y, ps, i - 1), n, i - 1, was);
      } else {
        OffPoint(y, ps, n, i - 1);
        st := was;
        assert Order(y, ps, i) == Order(y, ps, i - 1);
      }
    }
  }

  lemma PointFact(y: System, ps: seq<int>, n: nat)
    requires Inv(y) && |ps| == |y.calls| && ArePoints(y, ps) && n < |ps| && ps[n] >= 0
    ensures IsPoint(y, n, ps[n])
  {
  }

  lemma AtPoint(y: System, ids: seq<int>, n: nat, p: nat, was: map<string, VersionedMap.Entry>)
      returns (st: map<string, VersionedMap.Entry>)
    requires Inv(y) && n < |y.calls| && IsPoint(y, n, p) && forall j :: 0 <= j < |ids| ==> 0 <= ids[j] < |y.calls|
    requires Takes(y, ids, was) && Shows(was, StoreAt(y, p))
    ensures Takes(y, ids + [n], st) && Shows(st, StoreAt(y, p + 1))
  {
    hide Inv, IsPoint, StoreAt, Shows, ReplyOf;
    OnPoint(y, n, p, was);
    st := AllKeys().step(was, In(y.calls[n].op), Out(ReplyOf(y, n))).1;
    hide ClerkModel, Product;
    Longer(Calls(y), ids, n, was);
  }

  lemma Empty(y: System)
    ensures Takes(y, [], map[]) && Shows(map[], StoreAt(y, 0))
  {
  }

  lemma Longer(ops: seq<Operation<Observed>>, ids: seq<int>, n: int, st: map<string, VersionedMap.Entry>)
    requires (forall j :: 0 <= j < |ids| ==> 0 <= ids[j] < |ops|) && 0 <= n < |ops|
    requires var m := AllKeys();
      Run(m, map[], Select(ops, ids)) == Some(st) && m.step(st, ops[n].input, ops[n].output).0
    ensures var m := AllKeys();
      Run(m, map[], Select(ops, ids + [n])) == Some(m.step(st, ops[n].input, ops[n].output).1)
  {
    var longer := Select(ops, ids + [n]);
    assert longer[..|longer| - 1] == Select(ops, ids);
  }

  lemma OrderRealTime(y: System, ps: seq<int>, ids: seq<int>)
    requires Inv(y) && |ps| == |y.calls| && ArePoints(y, ps) && Ordered(ps, ids, |y.log|)
    ensures RealTime(Select(Calls(y), ids))
  {
    var lin := Select(Calls(y), ids);
    forall a, b | 0 <= a < b < |lin| ensures !Precedes(lin[b], lin[a]) {
      PointFact(y, ps, ids[a]);
      PointFact(y, ps, ids[b]);
      hide AttemptsOk, EntryOk, ClerkOk, CallOk, IsAttemptOf, StoreAt, ArePoints;
      assert TimesOk(y);
    }
  }

  // ---- the linearization is an order of the history -------------------------------

  ghost function Counted(y: System, n: nat): (r: seq<int>)
    requires Inv(y) && n <= |y.calls|
    ensures forall j :: 0 <= j < |r| ==> 0 <= r[j] < n
  {
    if n == 0 then [] else Counted(y, n - 1) + if Counts(y, n - 1) then [n - 1] else []
  }

  lemma {:induction false} CountedFacts(y: System, n: nat)
    requires Inv(y) && n <= |y.calls|
    ensures History(y, n) == Select(Calls(y), Counted(y, n))
    ensures Distinct(Counted(y, n)) && forall m :: m in Counted(y, n) <==> 0 <= m < n && Counts(y, m)
  {
    hide Inv, Counts;
    if n > 0 {
      CountedFacts(y, n - 1);
      var ids := Counted(y, n - 1);
      if Counts(y, n - 1) {
        assert Select(Calls(y), ids + [n - 1]) == Select(Calls(y), ids) + [OperationOf(y, n - 1)];
        hide History, Counted, OperationOf;
        forall m ensures m in ids + [n - 1] <==> 0 <= m < n && Counts(y, m) {}
      }
    }
  }

  lemma OrderAll(y: System, ps: seq<int>, ids: seq<int>)
    requires Inv(y) && |ps| == |y.calls| && ArePoints(y, ps) && Ordered(ps, ids, |y.log|)
    ensures multiset(Select(Calls(y), ids)) == multiset(History(y, |y.calls|))
  {
    CountedFacts(y, |y.calls|);
    var all := Counted(y, |y.calls|);
    forall n ensures n in ids <==> n in all {
      if 0 <= n < |ps| && Counts(y, n) {
        assert IsPoint(y, n, ps[n]) && CallOk(y, n);
      }
    }
    hide Inv, ArePoints, Counted, Counts;
    SameSet(ids, all);
    SelectPermuted(Calls(y), ids, all);
  }

  lemma {:induction false} HistoryTimed(y: System, n: nat)
    requires Inv(y) && n <= |y.calls|
    ensures Timed(History(y, n))
  {
    if n > 0 {
      HistoryTimed(y, n - 1);
      assert TimesOk(y);
    }
  }

  /** In whatever state the service is, unless an ErrMaybe went to a Put whose version was above the current one,
      the history of all clerks is linearizable against the model of the tests. */
  lemma HistoryLinearizable(y: System)
    requires Inv(y) && NoneAbove(y)
    ensures var history := History(y, |y.calls|);
      Timed(history) && Linearizable(AllKeys(), history) && Explained(history)
  {
    HistoryTimed(y, |y.calls|);
    var ps := Points(y, |y.calls|);
    OrderFacts(y, ps, |y.log|);
    var ids := Order(y, ps, |y.log|);
    var st := RunsAlong(y, ps, |y.log|);
    OrderRealTime(y, ps, ids);
    OrderAll(y, ps, ids);
    hide ArePoints, NoneAbove, Order, StoreAt, History;
    assert IsLinearization(AllKeys(), History(y, |y.calls|), Select(Calls(y), ids));
    LinearizableIsExplained(History(y, |y.calls|));
  }

  /** The same for every state of every run. */
  lemma RunsAreLinearizable(run: seq<System>, events: seq<Event>, t: nat)
    requires IsRun(run, events) && t < |run|
    ensures Inv(run[t])
    ensures NoneAbove(run[t]) ==> Explained(History(run[t], |run[t].calls|))
  {
    Reachable(run, events, t);
    hide Inv, NoneAbove, History;
    if NoneAbove(run[t]) { HistoryLinearizable(run[t]); }
  }
}
