/** The replicated key/value service: the state machine that every replica executes. */
module KvRaft {
  import opened VersionedMap

  class KVServer {
    var keyValue: Store

    constructor ()
      ensures keyValue == map[]
    {
      keyValue := map[];
    }

    method DoOp(req: Op) returns (reply: Reply)
      modifies this
      ensures keyValue == After(old(keyValue), req) && reply == Answer(old(keyValue), req)
    {
      match req
      case Get(key) =>
        if key !in keyValue {
          reply := Reply(ErrNoKey, "", 0);
        } else {
          reply := Reply(OK, keyValue[key].value, keyValue[key].version);
        }
      case Put(key, value, version) =>
        if key !in keyValue {
          if version == 0 {
            keyValue := keyValue[key := Entry(value, 1)];
            reply := PutErr(OK);
          } else {
            reply := PutErr(ErrVersion);
          }
        } else {
          if version != keyValue[key].version {
            reply := PutErr(ErrVersion);
          } else {
            keyValue := keyValue[key := Entry(value, keyValue[key].version + 1)];
            reply := PutErr(OK);
          }
        }
    }
  }
}

/** Clerks that resend until they hear from the replicated log. A request may reach the log long after the
    clerk gave up on it, at a slot (index, term) of its own; slots are executed in the order of their index. */
module PutOutcomes {
  import opened Options
  import opened VersionedMap

  datatype Slot = Slot(index: nat, term: nat)

  datatype Attempt = Attempt(call: nat, slot: Option<Slot>)

  datatype Executed = Executed(term: nat, attempt: nat, op: Op, reply: Reply)

  datatype Outcome = Pending | Returned(reply: Reply, at: nat, ended: nat)

  /** `from` and `at` are the lengths of the executed log when the call began and returned, `began` and
      `ended` the times. */
  datatype Call = Call(clerk: nat, op: Op, from: nat, began: nat, outcome: Outcome)

  datatype Clerk = Idle | Busy(call: nat, resend: bool, waiting: Option<nat>)

  /** Every step takes one tick of the clock. */
  datatype System = System(log: seq<Executed>, attempts: seq<Attempt>, calls: seq<Call>, clerks: seq<Clerk>, clock: nat)

  datatype Event =
    | Invoke(c: nat, op: Op)
    | Send(c: nat)
    | Fail(c: nat)
    | Hear(c: nat)
    | Propose(a: nat, slot: Slot)
    | Execute(a: nat)

  /** The store after a log. */
  ghost function StoreOf(log: seq<Executed>): (r: Store) {
    if log == [] then map[] else After(StoreOf(log[..|log| - 1]), log[|log| - 1].op)
  }

  ghost predicate Enabled(y: System, e: Event) {
    match e
    case Invoke(c, _) => c < |y.clerks| && y.clerks[c].Idle?
    case Send(c) => c < |y.clerks| && y.clerks[c].Busy? && y.clerks[c].waiting.None?
    case Fail(c) => c < |y.clerks| && y.clerks[c].Busy? && y.clerks[c].waiting.Some?
    case Hear(c) =>
      && c < |y.clerks| && y.clerks[c].Busy? && y.clerks[c].waiting.Some?
      && var a := y.clerks[c].waiting.value; var call := y.clerks[c].call;
         && a < |y.attempts| && call < |y.calls| && y.attempts[a].slot.Some?
         && var s := y.attempts[a].slot.value;
            s.index < |y.log| && y.log[s.index].term == s.term
    case Propose(a, slot) =>
      a < |y.attempts| && y.attempts[a].slot.None? && forall b :: 0 <= b < |y.attempts| ==>
        y.attempts[b].slot != Some(slot)
    case Execute(a) =>
      && a < |y.attempts| && y.attempts[a].slot.Some? && y.attempts[a].slot.value.index == |y.log|
      && y.attempts[a].call < |y.calls|
  }

  /** What the clerk tells its caller. */
  function Told(resend: bool, op: Op, reply: Reply): (r: Reply) {
    if resend && op.Put? && reply.err == ErrVersion then PutErr(ErrMaybe) else reply
  }

  ghost function Next(y: System, e: Event): (r: System)
    requires Enabled(y, e)
  {
    Change(y, e).(clock := y.clock + 1)
  }

  ghost function Change(y: System, e: Event): (r: System)
    requires Enabled(y, e)
  {
    match e
    case Invoke(c, op) =>
      y.(calls := y.calls + [Call(c, op, |y.log|, y.clock, Pending)],
         clerks := y.clerks[c := Busy(|y.calls|, false, None)])
    case Send(c) =>
      y.(attempts := y.attempts + [Attempt(y.clerks[c].call, None)],
         clerks := y.clerks[c := y.clerks[c].(waiting := Some(|y.attempts|))])
    case Fail(c) => y.(clerks := y.clerks[c := y.clerks[c].(resend := true, waiting := None)])
    case Hear(c) =>
      var k := y.clerks[c];
      var reply := y.log[y.attempts[k.waiting.value].slot.value.index].reply;
      var call := y.calls[k.call];
      y.(calls := y.calls[k.call := call.(outcome := Returned(Told(k.resend, call.op, reply), |y.log|, y.clock))],
         clerks := y.clerks[c := Idle])
    case Propose(a, slot) => y.(attempts := y.attempts[a := y.attempts[a].(slot := Some(slot))])
    case Execute(a) =>
      var op := y.calls[y.attempts[a].call].op;
      y.(log := y.log + [Executed(y.attempts[a].slot.value.term, a, op, Answer(StoreOf(y.log), op))])
  }

  ghost predicate Initial(y: System) {
    y.clock == 0 && y.log == [] && y.attempts == [] && y.calls == [] && forall c :: 0 <= c < |y.clerks| ==>
      y.clerks[c] == Idle
  }

  // ---- the invariant -------------------------------------------------------------

  ghost predicate AttemptsOk(y: System) {
    && (forall a :: 0 <= a < |y.attempts| ==> y.attempts[a].call < |y.calls|)
    && (forall a, b :: 0 <= a < b < |y.attempts| && y.attempts[a].slot.Some? ==>
          y.attempts[a].slot != y.attempts[b].slot)
  }

  ghost predicate EntryOk(y: System, i: nat)
    requires i < |y.log|
  {
    var e := y.log[i];
    && e.attempt < |y.attempts| && y.attempts[e.attempt].slot == Some(Slot(i, e.term))
    && y.attempts[e.attempt].call < |y.calls|
    && e.op == y.calls[y.attempts[e.attempt].call].op && y.calls[y.attempts[e.attempt].call].from <= i
    && e.reply == Answer(StoreOf(y.log[..i]), e.op)
  }

  ghost predicate ClerkOk(y: System, c: nat)
    requires c < |y.clerks|
  {
    var k := y.clerks[c];
    k.Busy? ==>
      && k.call < |y.calls| && y.calls[k.call].clerk == c && y.calls[k.call].outcome.Pending?
      && (k.waiting.Some? ==> k.waiting.value < |y.attempts| && y.attempts[k.waiting.value].call == k.call)
      && (!k.resend ==> forall a :: 0 <= a < |y.attempts| && y.attempts[a].call == k.call ==> k.waiting == Some(a))
      && (k.resend ==> exists a: nat :: a < |y.attempts| && y.attempts[a].call == k.call && k.waiting != Some(a))
  }

  /** The call has no other attempt. */
  ghost predicate Sole(y: System, n: nat, a: nat) {
    forall b :: 0 <= b < |y.attempts| && y.attempts[b].call == n ==> b == a
  }

  /** The call was answered by the execution of attempt `a`. */
  ghost predicate AnsweredBy(y: System, n: nat, a: nat)
    requires n < |y.calls| && y.calls[n].outcome.Returned?
  {
    var o := y.calls[n].outcome;
    && a < |y.attempts| && y.attempts[a].call == n && y.attempts[a].slot.Some?
    && var i := y.attempts[a].slot.value.index;
       && i < o.at && i < |y.log| && y.log[i].attempt == a
       && (if y.calls[n].op.Put? && y.log[i].reply.err == ErrVersion && !Sole(y, n, a)
           then o.reply == PutErr(ErrMaybe) else o.reply == y.log[i].reply)
  }

  ghost predicate CallOk(y: System, n: nat)
    requires n < |y.calls|
  {
    && y.calls[n].from <= |y.log|
    && (y.calls[n].outcome.Returned? ==> y.calls[n].outcome.at <= |y.log| && exists a: nat :: AnsweredBy(y, n, a))
  }

  /** The log grows with time: a call that ended before another began saw no longer a log. */
  ghost predicate TimesOk(y: System) {
    && (forall n :: 0 <= n < |y.calls| ==> y.calls[n].began < y.clock)
    && (forall n :: 0 <= n < |y.calls| && y.calls[n].outcome.Returned? ==>
          y.calls[n].began <= y.calls[n].outcome.ended < y.clock)
    && (forall m, n :: 0 <= m < |y.calls| && 0 <= n < |y.calls|
          && y.calls[m].outcome.Returned? && y.calls[m].outcome.ended < y.calls[n].began
          ==> y.calls[m].outcome.at <= y.calls[n].from)
  }

  ghost predicate Inv(y: System) {
    && AttemptsOk(y) && TimesOk(y)
    && (forall i :: 0 <= i < |y.log| ==> EntryOk(y, i))
    && (forall c :: 0 <= c < |y.clerks| ==> ClerkOk(y, c))
    && (forall n :: 0 <= n < |y.calls| ==> CallOk(y, n))
  }

  /** What later states keep of earlier ones: the log and the attempts grow, slots and calls stay. */
  ghost predicate Extends(y: System, z: System) {
    && y.log <= z.log && |y.attempts| <= |z.attempts| && |y.calls| <= |z.calls|
    && (forall a :: 0 <= a < |y.attempts| ==> z.attempts[a].call == y.attempts[a].call)
    && (forall a :: 0 <= a < |y.attempts| && y.attempts[a].slot.Some? ==> z.attempts[a].slot == y.attempts[a].slot)
    && (forall n :: 0 <= n < |y.calls| ==>
          z.calls[n].op == y.calls[n].op && z.calls[n].from == y.calls[n].from && z.calls[n].clerk == y.calls[n].clerk)
    && (forall n :: 0 <= n < |y.calls| && y.calls[n].outcome.Returned? ==> z.calls[n] == y.calls[n])
  }

  lemma EntriesKept(y: System, z: System)
    requires Inv(y) && Extends(y, z)
    ensures forall i :: 0 <= i < |y.log| ==> EntryOk(z, i)
  {
    forall i | 0 <= i < |y.log| ensures EntryOk(z, i) {
      assert EntryOk(y, i);
      assert z.log[..i] == y.log[..i];
    }
  }

  /** A returned call gets no further attempts: nobody works on it. */
  lemma CallKept(y: System, z: System, n: nat)
    requires Inv(y) && Extends(y, z) && n < |y.calls| && y.calls[n].outcome.Returned?
    requires forall a :: |y.attempts| <= a < |z.attempts| ==> z.attempts[a].call != n
    ensures CallOk(z, n)
  {
    assert CallOk(y, n);
    var a: nat :| AnsweredBy(y, n, a);
    assert AnsweredBy(z, n, a);
  }

  lemma TimesStep(y: System, e: Event)
    requires Inv(y) && Enabled(y, e)
    ensures TimesOk(Next(y, e))
  {
    hide AttemptsOk, EntryOk, StoreOf;
    var z := Next(y, e);
    if e.Invoke? {
      forall n | 0 <= n < |y.calls| && y.calls[n].outcome.Returned?
        ensures y.calls[n].outcome.at <= |y.log|
      {
        assert CallOk(y, n);
      }
      hide CallOk;
    } else if e.Hear? {
      assert ClerkOk(y, e.c);
      hide CallOk, ClerkOk;
    } else {
      assert z.calls == y.calls;
      hide CallOk, ClerkOk;
    }
  }

  lemma InvokeStep(y: System, c: nat, op: Op)
    requires Inv(y) && Enabled(y, Invoke(c, op))
    ensures Inv(Next(y, Invoke(c, op)))
  {
    TimesStep(y, Invoke(c, op));
    hide TimesOk;
    var z := Next(y, Invoke(c, op));
    EntriesKept(y, z);
    forall n | 0 <= n < |z.calls| ensures CallOk(z, n) {
      if n < |y.calls| {
        assert CallOk(y, n);
        if y.calls[n].outcome.Returned? { CallKept(y, z, n); }
      }
    }
    forall d | 0 <= d < |z.clerks| ensures ClerkOk(z, d) { assert ClerkOk(y, d); }
  }

  lemma SendStep(y: System, c: nat)
    requires Inv(y) && Enabled(y, Send(c))
    ensures Inv(Next(y, Send(c)))
  {
    TimesStep(y, Send(c));
    hide TimesOk;
    var z := Next(y, Send(c));
    assert ClerkOk(y, c);
    EntriesKept(y, z);
    forall n | 0 <= n < |z.calls| ensures CallOk(z, n) {
      assert CallOk(y, n);
      if y.calls[n].outcome.Returned? { CallKept(y, z, n); }
    }
    forall d | 0 <= d < |z.clerks| ensures ClerkOk(z, d) { assert ClerkOk(y, d); }
  }

  lemma FailStep(y: System, c: nat)
    requires Inv(y) && Enabled(y, Fail(c))
    ensures Inv(Next(y, Fail(c)))
  {
    TimesStep(y, Fail(c));
    hide TimesOk;
    var z := Next(y, Fail(c));
    EntriesKept(y, z);
    forall n | 0 <= n < |z.calls| ensures CallOk(z, n) {
      assert CallOk(y, n);
      if y.calls[n].outcome.Returned? { CallKept(y, z, n); }
    }
    forall d | 0 <= d < |z.clerks| ensures ClerkOk(z, d) { assert ClerkOk(y, d); }
  }

  lemma ProposeStep(y: System, a: nat, slot: Slot)
    requires Inv(y) && Enabled(y, Propose(a, slot))
    ensures Inv(Next(y, Propose(a, slot)))
  {
    TimesStep(y, Propose(a, slot));
    hide TimesOk;
    var z := Next(y, Propose(a, slot));
    EntriesKept(y, z);
    forall n | 0 <= n < |z.calls| ensures CallOk(z, n) {
      assert CallOk(y, n);
      if y.calls[n].outcome.Returned? { CallKept(y, z, n); }
    }
    forall d | 0 <= d < |z.clerks| ensures ClerkOk(z, d) { assert ClerkOk(y, d); }
  }

  lemma ExecuteStep(y: System, a: nat)
    requires Inv(y) && Enabled(y, Execute(a))
    ensures Inv(Next(y, Execute(a)))
  {
    TimesStep(y, Execute(a));
    hide TimesOk;
    var z := Next(y, Execute(a));
    EntriesKept(y, z);
    assert EntryOk(z, |y.log|) by {
      assert z.log[..|y.log|] == y.log;
      assert CallOk(y, y.attempts[a].call);
    }
    forall n | 0 <= n < |z.calls| ensures CallOk(z, n) {
      assert CallOk(y, n);
      if y.calls[n].outcome.Returned? { CallKept(y, z, n); }
    }
    forall d | 0 <= d < |z.clerks| ensures ClerkOk(z, d) { assert ClerkOk(y, d); }
  }

  /** The entry with the expected index and term is the one that this attempt put there. */
  lemma MatchIsOwn(y: System, a: nat)
    requires Inv(y) && a < |y.attempts| && y.attempts[a].slot.Some?
    requires var s := y.attempts[a].slot.value; s.index < |y.log| && y.log[s.index].term == s.term
    ensures y.log[y.attempts[a].slot.value.index].attempt == a
  {
    assert EntryOk(y, y.attempts[a].slot.value.index);
  }

  lemma HearStep(y: System, c: nat)
    requires Inv(y) && Enabled(y, Hear(c))
    ensures Inv(Next(y, Hear(c)))
  {
    TimesStep(y, Hear(c));
    hide TimesOk;
    var z, k := Next(y, Hear(c)), y.clerks[c];
    assert ClerkOk(y, c);
    var a := k.waiting.value;
    MatchIsOwn(y, a);
    EntriesKept(y, z);
    forall n | 0 <= n < |z.calls| ensures CallOk(z, n) {
      assert CallOk(y, n);
      if n == k.call {
        assert EntryOk(y, y.attempts[a].slot.value.index);
        assert AnsweredBy(z, n, a);
      } else if y.calls[n].outcome.Returned? {
        CallKept(y, z, n);
      }
    }
    forall d | 0 <= d < |z.clerks| ensures ClerkOk(z, d) { assert ClerkOk(y, d); }
  }

  lemma Step(y: System, e: Event)
    requires Inv(y) && Enabled(y, e)
    ensures Inv(Next(y, e))
  {
    hide Inv, Next;
    match e
    case Invoke(c, op) => InvokeStep(y, c, op);
    case Send(c) => SendStep(y, c);
    case Fail(c) => FailStep(y, c);
    case Hear(c) => HearStep(y, c);
    case Propose(a, slot) => ProposeStep(y, a, slot);
    case Execute(a) => ExecuteStep(y, a);
  }

  // ---- what an outcome means -----------------------------------------------------

  /** Entry `i` of the log is an attempt of call `n`. */
  ghost predicate IsAttemptOf(y: System, n: nat, i: nat)
    requires Inv(y)
  {
    i < |y.log| && EntryOk(y, i) && y.attempts[y.log[i].attempt].call == n
  }

  /** Call `n`, a Put, changed the store at entry `i`. */
  ghost predicate TookEffect(y: System, n: nat, i: nat)
    requires Inv(y)
  {
    IsAttemptOf(y, n, i) && y.log[i].op.Put? && y.log[i].reply.err == OK
  }

  ghost function StoreAt(y: System, i: nat): (r: Store)
    requires i <= |y.log|
  {
    StoreOf(y.log[..i])
  }

  lemma StoreStep(y: System, i: nat)
    requires i < |y.log|
    ensures StoreAt(y, i + 1) == After(StoreAt(y, i), y.log[i].op)
  {
    assert y.log[..i + 1][..i] == y.log[..i];
  }

  lemma {:induction false} VersionGrows(y: System, i: nat, j: nat, k: string)
    requires i <= j <= |y.log|
    ensures Version(StoreAt(y, i), k) <= Version(StoreAt(y, j), k)
  {
    if i < j {
      VersionGrows(y, i, j - 1, k);
      StoreStep(y, j - 1);
    }
  }

  /** No call has two effects. */
  lemma AtMostOnce(y: System, n: nat, i: nat, j: nat)
    requires Inv(y) && TookEffect(y, n, i) && TookEffect(y, n, j)
    ensures i == j
  {
    if i < j { EffectTwice(y, n, i, j); }
    if j < i { EffectTwice(y, n, j, i); }
  }

  lemma EffectTwice(y: System, n: nat, i: nat, j: nat)
    requires Inv(y) && TookEffect(y, n, i) && i < j
    ensures !TookEffect(y, n, j)
  {
    if IsAttemptOf(y, n, j) {
      StoreStep(y, i);
      VersionGrows(y, i + 1, j, y.log[i].op.key);
    }
  }

  /** The call was sent more than once. */
  ghost predicate Resent(y: System, n: nat) {
    exists a: nat :: a < |y.attempts| && y.attempts[a].call == n && !Sole(y, n, a)
  }

  /** An attempt of the call was refused before it returned, for another version. */
  ghost predicate WasRefused(y: System, n: nat)
    requires Inv(y) && n < |y.calls| && y.calls[n].outcome.Returned?
  {
    exists i: nat :: i < y.calls[n].outcome.at && IsAttemptOf(y, n, i) && y.log[i].reply.err == ErrVersion
  }

  /** OK: exactly one effect, before the return. ErrVersion: none, ever; the call was sent once and refused. ErrMaybe:
      it was sent again and an attempt was refused; it had at most one effect, and none after the return if the version
      was not above the current one when the call began. */
  lemma OutcomeOfPut(y: System, n: nat)
    requires Inv(y) && n < |y.calls| && y.calls[n].op.Put? && y.calls[n].outcome.Returned?
    ensures y.calls[n].from <= |y.log|
    ensures y.calls[n].outcome.reply.err in {OK, ErrVersion, ErrMaybe}
    ensures y.calls[n].outcome.reply.err == OK ==> exists i: nat :: i < y.calls[n].outcome.at && TookEffect(y, n, i)
    ensures y.calls[n].outcome.reply.err == ErrVersion ==> forall i: nat :: !TookEffect(y, n, i)
    ensures y.calls[n].outcome.reply.err == ErrVersion ==> !Resent(y, n) && WasRefused(y, n)
    ensures y.calls[n].outcome.reply.err == ErrMaybe ==> Resent(y, n) && WasRefused(y, n)
    ensures
      && y.calls[n].outcome.reply.err == ErrMaybe
      && y.calls[n].op.version <= Version(StoreAt(y, y.calls[n].from), y.calls[n].op.key)
      ==> forall i: nat :: TookEffect(y, n, i) ==> i < y.calls[n].outcome.at
  {
    assert CallOk(y, n);
    var a: nat :| AnsweredBy(y, n, a);
    var p := y.attempts[a].slot.value.index;
    assert EntryOk(y, p) && IsAttemptOf(y, n, p);
    var o, op := y.calls[n].outcome, y.calls[n].op;
    if o.reply.err == OK {
      assert TookEffect(y, n, p);
    } else if o.reply.err == ErrVersion {
      forall i: nat ensures !TookEffect(y, n, i) {
        if IsAttemptOf(y, n, i) { assert y.log[i].attempt == a && i == p; }
      }
    } else if op.version <= Version(StoreAt(y, y.calls[n].from), op.key) {
      forall i: nat | TookEffect(y, n, i) ensures i < o.at {
        if p < i {
          VersionGrows(y, y.calls[n].from, p, op.key);
          VersionGrows(y, p, i, op.key);
        }
      }
    }
  }

  lemma {:induction false} AlwaysVersioned(log: seq<Executed>)
    ensures Versioned(StoreOf(log))
  {
    if log != [] { AlwaysVersioned(log[..|log| - 1]); }
  }

  /** Every returned call has a point between its beginning and its return at which the one-key model takes
      it with the answer the caller got; a Put has no effect elsewhere. For ErrMaybe this needs a version
      that was not above the current one. */
  lemma Linearizes(y: System, n: nat) returns (p: nat)
    requires Inv(y) && n < |y.calls| && y.calls[n].outcome.Returned? && y.calls[n].from <= |y.log|
    requires y.calls[n].op.Put? && y.calls[n].outcome.reply.err == ErrMaybe ==>
      y.calls[n].op.version <= Version(StoreAt(y, y.calls[n].from), y.calls[n].op.key)
    ensures y.calls[n].from <= p < y.calls[n].outcome.at && IsAttemptOf(y, n, p)
    ensures var k := y.calls[n].op.key;
      ModelStep(Project(StoreAt(y, p), k), y.calls[n].op, y.calls[n].outcome.reply)
        == (true, Project(StoreAt(y, p + 1), k))
    ensures forall i: nat :: TookEffect(y, n, i) ==> i == p
    ensures y.calls[n].op.Get? ==> y.calls[n].outcome.reply == y.log[p].reply
  {
    assert CallOk(y, n);
    var a: nat :| AnsweredBy(y, n, a);
    p := y.attempts[a].slot.value.index;
    assert EntryOk(y, p) && IsAttemptOf(y, n, p);
    if q: nat :| TookEffect(y, n, q) {
      OutcomeOfPut(y, n);
      if y.calls[n].outcome.reply.err == OK { AtMostOnce(y, n, p, q); }
      p := q;
      OnlyEffect(y, n, q);
    }
    hide StoreAt, ModelStep, Project;
    PointIsStep(y, n, p, y.calls[n].outcome.reply);
  }

  lemma OnlyEffect(y: System, n: nat, q: nat)
    requires Inv(y) && TookEffect(y, n, q)
    ensures forall i: nat :: TookEffect(y, n, i) ==> i == q
  {
    forall i: nat | TookEffect(y, n, i) ensures i == q { AtMostOnce(y, n, i, q); }
  }

  lemma PointIsStep(y: System, n: nat, p: nat, told: Reply)
    requires Inv(y) && n < |y.calls| && IsAttemptOf(y, n, p)
    requires told == y.log[p].reply || (y.calls[n].op.Put? && told.err == ErrMaybe)
    ensures var k := y.calls[n].op.key;
      ModelStep(Project(StoreAt(y, p), k), y.calls[n].op, told) == (true, Project(StoreAt(y, p + 1), k))
  {
    AlwaysVersioned(y.log[..p]);
    StoreStep(y, p);
    Refines(StoreAt(y, p), y.calls[n].op, y.calls[n].op.key);
  }

  ghost predicate IsRun(run: seq<System>, events: seq<Event>) {
    && |run| == |events| + 1 && Initial(run[0])
    && forall i :: 0 <= i < |events| ==> Enabled(run[i], events[i]) && run[i + 1] == Next(run[i], events[i])
  }

  lemma {:induction false} Reachable(run: seq<System>, events: seq<Event>, i: nat)
    requires IsRun(run, events) && i < |run|
    ensures Inv(run[i])
  {
    hide Next, Enabled;
    if i > 0 {
      Reachable(run, events, i - 1);
      hide Inv;
      Step(run[i - 1], events[i - 1]);
    }
  }

  // ---- what the answers mean -----------------------------------------------------

  ghost function ExchangesOf(log: seq<Executed>): (r: seq<Exchange>)
    ensures |r| == |log|
  {
    seq(|log|, i requires 0 <= i < |log| => Exchange(log[i].op, log[i].reply))
  }

  /** Every entry has the answer that the entries before it give. */
  ghost predicate AnsweredFrom(log: seq<Executed>) {
    forall i :: 0 <= i < |log| ==> log[i].reply == Answer(StoreOf(log[..i]), log[i].op)
  }

  lemma {:induction false} LogIsRight(log: seq<Executed>)
    requires AnsweredFrom(log)
    ensures Holds(StoreOf(log), ExchangesOf(log)) && AllRight(ExchangesOf(log))
  {
    hide Holds, AllRight, Answer, After, RightAnswer;
    if log == [] {
      NothingStored();
      assert ExchangesOf(log) == [];
    } else {
      var front, e := log[..|log| - 1], log[|log| - 1];
      assert AnsweredFrom(front) by {
        forall i | 0 <= i < |front| ensures front[i].reply == Answer(StoreOf(front[..i]), front[i].op) {
          assert front[..i] == log[..i];
        }
      }
      LogIsRight(front);
      HeldAt(StoreOf(front), ExchangesOf(front), e.op.key);
      AnswerIsRight(StoreOf(front), ExchangesOf(front), e.op);
      HoldsMore(StoreOf(front), ExchangesOf(front), e.op);
      AllRightMore(ExchangesOf(front), Exchange(e.op, e.reply));
      assert ExchangesOf(log) == ExchangesOf(front) + [Exchange(e.op, e.reply)];
    }
  }

  /** In every run every executed operation got the right answer: a Get the value and the number of the accepted Puts
      on its key so far, and a Put was accepted exactly if its version was that number. */
  lemma AnswersAreRight(run: seq<System>, events: seq<Event>, t: nat)
    requires IsRun(run, events) && t < |run|
    ensures AllRight(ExchangesOf(run[t].log))
  {
    Reachable(run, events, t);
    var y := run[t];
    hide AllRight, IsRun;
    forall i | 0 <= i < |y.log| ensures y.log[i].reply == Answer(StoreOf(y.log[..i]), y.log[i].op) {
      assert EntryOk(y, i);
    }
    LogIsRight(y.log);
  }

  // ---- no call is stuck ----------------------------------------------------------

  lemma {:induction false} FreshTerm(attempts: seq<Attempt>) returns (term: nat)
    ensures forall b :: 0 <= b < |attempts| && attempts[b].slot.Some? ==> attempts[b].slot.value.term < term
  {
    if attempts == [] {
      term := 0;
    } else {
      var front, a := attempts[..|attempts| - 1], attempts[|attempts| - 1];
      term := FreshTerm(front);
      if a.slot.Some? && a.slot.value.term >= term { term := a.slot.value.term + 1; }
      assert forall b :: 0 <= b < |attempts| ==> attempts[b] == if b < |front| then front[b] else a;
    }
  }

  ghost predicate IsPath(states: seq<System>, events: seq<Event>) {
    && |states| == |events| + 1
    && forall i :: 0 <= i < |events| ==> Enabled(states[i], events[i]) && states[i + 1] == Next(states[i], events[i])
  }

  /** A new attempt that is proposed, executed and heard of ends the call. */
  lemma AttemptReturns(y: System, c: nat) returns (on: seq<System>, more: seq<Event>)
    requires c < |y.clerks| && y.clerks[c].Busy? && y.clerks[c].waiting.None? && y.clerks[c].call < |y.calls|
    ensures IsPath(on, more) && on[0] == y && |more| == 4
    ensures var z := on[4]; |z.calls| == |y.calls| && z.calls[y.clerks[c].call].outcome.Returned?
  {
    hide StoreOf, Answer;
    var a := |y.attempts|;
    var u := Next(y, Send(c));
    var term := FreshTerm(u.attempts);
    var slot := Slot(|y.log|, term);
    var v := Next(u, Propose(a, slot));
    var w := Next(v, Execute(a));
    var z := Next(w, Hear(c));
    on, more := [y, u, v, w, z], [Send(c), Propose(a, slot), Execute(a), Hear(c)];
  }

  /** In every reachable state every call can still return. */
  lemma CanReturn(run: seq<System>, events: seq<Event>, t: nat, c: nat) returns (on: seq<System>, more: seq<Event>)
    requires IsRun(run, events) && t < |run| && c < |run[t].clerks| && run[t].clerks[c].Busy?
    ensures IsPath(on, more) && on[0] == run[t] && |more| <= 5
    ensures var n, z := run[t].clerks[c].call, on[|more|]; n < |z.calls| && z.calls[n].outcome.Returned?
  {
    Reachable(run, events, t);
    var y := run[t];
    assert ClerkOk(y, c);
    hide Inv, IsRun, StoreOf;
    if y.clerks[c].waiting.None? {
      on, more := AttemptReturns(y, c);
    } else {
      var u := Next(y, Fail(c));
      on, more := AttemptReturns(u, c);
      hide Next, Enabled;
      assert forall i :: 0 <= i < 5 ==> ([Fail(c)] + more)[i] == if i == 0 then Fail(c) else more[i - 1];
      assert forall i :: 0 <= i < 6 ==> ([y] + on)[i] == if i == 0 then y else on[i - 1];
      on, more := [y] + on, [Fail(c)] + more;
    }
  }
}
