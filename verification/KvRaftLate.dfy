/** Why the meaning of ErrMaybe needs a version that is not above the current one: a request that the clerk gave
    up on can wait until other clerks have raised the version to the one it asks for. */
module LateEffect {
  import opened Options
  import opened VersionedMap
  import opened PutOutcomes

  function End(run: seq<System>): (r: System)
    requires run != []
  {
    run[|run| - 1]
  }

  lemma Do(run: seq<System>, events: seq<Event>, e: Event) returns (longer: seq<System>, more: seq<Event>)
    requires run != [] && IsRun(run, events) && Enabled(End(run), e)
    ensures longer != [] && IsRun(longer, more) && End(longer) == Next(End(run), e)
  {
    hide Next, Enabled;
    longer, more := run + [Next(End(run), e)], events + [e];
  }

  /** Two idle clerks, every slot in use executed, and key `k` at version `now`. */
  ghost predicate Calm(y: System, k: string, now: nat) {
    && y.clerks == [Idle, Idle] && Version(StoreOf(y.log), k) == now
    && (forall b :: 0 <= b < |y.attempts| && y.attempts[b].slot.Some? ==> y.attempts[b].slot.value.index < |y.log|)
  }

  /** Nothing recorded in `y` has changed in `z`. */
  ghost predicate Kept(y: System, z: System) {
    y.log <= z.log && y.attempts <= z.attempts && y.calls <= z.calls
  }

  lemma Executing(y: System, a: nat)
    requires Enabled(y, Execute(a))
    ensures StoreOf(Next(y, Execute(a)).log) == After(StoreOf(y.log), y.calls[y.attempts[a].call].op)
  {
    var z := Next(y, Execute(a));
    assert z.log[..|y.log|] == y.log;
  }

  lemma Starts() returns (run: seq<System>, events: seq<Event>)
    ensures run != [] && IsRun(run, events)
    ensures forall k :: Calm(End(run), k, 0)
  {
    run, events := [System([], [], [], [Idle, Idle], 0)], [];
  }

  /** Clerk `c` has begun `op` and its only attempt stands at the end of the log, about to be executed. */
  ghost predicate Asking(y: System, z: System, c: nat, op: Op, resend: bool) {
    && z.log == y.log && Kept(y, z) && |y.calls| < |z.calls| && |y.attempts| < |z.attempts| && c < 2
    && var n, a := |y.calls|, |z.attempts| - 1;
       && |z.calls| == n + 1 && z.calls[n].op == op && z.calls[n].from == |y.log|
       && z.clerks == [Idle, Idle][c := Busy(n, resend, Some(a))] && z.attempts[a] == Attempt(n, Some(Slot(|y.log|, 0)))
       && (forall b :: 0 <= b < a && z.attempts[b].slot.Some? ==> z.attempts[b].slot.value.index < |y.log|)
  }

  /** The attempt is executed and the clerk hears of it. */
  lemma Finish(run: seq<System>, events: seq<Event>, y: System, c: nat, op: Op, resend: bool, k: string)
      returns (longer: seq<System>, more: seq<Event>)
    requires run != [] && IsRun(run, events) && Asking(y, End(run), c, op, resend)
    ensures longer != [] && IsRun(longer, more) && Calm(End(longer), k, Version(After(StoreOf(y.log), op), k))
    ensures Kept(y, End(longer))
    ensures |End(longer).calls| == |y.calls| + 1 && |End(longer).log| == |y.log| + 1
    ensures End(longer).attempts == End(run).attempts
    ensures var call := End(longer).calls[|y.calls|];
      && call.op == op && call.from == |y.log| && call.outcome.Returned?
      && call.outcome.reply == Told(resend, op, Answer(StoreOf(y.log), op)) && call.outcome.at == |y.log| + 1
  {
    hide IsRun, StoreOf;
    var a := |End(run).attempts| - 1;
    Executing(End(run), a);
    longer, more := Do(run, events, Execute(a));
    longer, more := Do(longer, more, Hear(c));
  }

  /** The second clerk raises the version by one. */
  lemma Raise(run: seq<System>, events: seq<Event>, k: string, now: nat) returns (longer: seq<System>, more: seq<Event>)
    requires run != [] && IsRun(run, events) && Calm(End(run), k, now)
    ensures longer != [] && IsRun(longer, more) && Calm(End(longer), k, now + 1) && Kept(End(run), End(longer))
  {
    hide IsRun, StoreOf;
    var y := End(run);
    var op := Put(k, "y", now);
    longer, more := Do(run, events, Invoke(1, op));
    longer, more := Do(longer, more, Send(1));
    longer, more := Do(longer, more, Propose(|y.attempts|, Slot(|y.log|, 0)));
    assert Asking(y, End(longer), 1, op, false);
    longer, more := Finish(longer, more, y, 1, op, false, k);
  }

  lemma {:induction false} RaiseTo(run: seq<System>, events: seq<Event>, k: string, now: nat, goal: nat)
      returns (longer: seq<System>, more: seq<Event>)
    requires run != [] && IsRun(run, events) && Calm(End(run), k, now) && now <= goal
    ensures longer != [] && IsRun(longer, more) && Calm(End(longer), k, goal) && Kept(End(run), End(longer))
    decreases goal
  {
    hide IsRun, Calm;
    if now == goal {
      longer, more := run, events;
    } else {
      longer, more := RaiseTo(run, events, k, now, goal - 1);
      var middle := End(longer);
      longer, more := Raise(longer, more, k, goal - 1);
      KeptTwice(End(run), middle, End(longer));
    }
  }

  lemma KeptTwice(x: System, y: System, z: System)
    requires Kept(x, y) && Kept(y, z)
    ensures Kept(x, z)
  {
  }

  /** The first clerk gives up on a request, sends again, and is told ErrMaybe; the first request is still under way. */
  ghost predicate GaveUp(y: System, z: System, k: string, v: nat) {
    && |y.calls| < |z.calls| && |y.attempts| < |z.attempts| && y.log <= z.log
    && z.attempts[|y.attempts|] == Attempt(|y.calls|, None)
    && var call := z.calls[|y.calls|];
       && call.op == Put(k, "x", v) && call.from == |y.log| && call.outcome.Returned?
       && call.outcome.reply == PutErr(ErrMaybe) && call.outcome.at == |y.log| + 1
  }

  lemma SendTwice(run: seq<System>, events: seq<Event>, k: string, v: nat, now: nat)
      returns (longer: seq<System>, more: seq<Event>)
    requires run != [] && IsRun(run, events) && Calm(End(run), k, now)
    ensures longer != [] && IsRun(longer, more) && Asking(End(run), End(longer), 0, Put(k, "x", v), true)
    ensures End(longer).attempts[|End(run).attempts|] == Attempt(|End(run).calls|, None)
    ensures |End(longer).attempts| == |End(run).attempts| + 2
  {
    hide IsRun, StoreOf;
    var y := End(run);
    longer, more := Do(run, events, Invoke(0, Put(k, "x", v)));
    longer, more := Do(longer, more, Send(0));
    longer, more := Do(longer, more, Fail(0));
    longer, more := Do(longer, more, Send(0));
    longer, more := Do(longer, more, Propose(|y.attempts| + 1, Slot(|y.log|, 0)));
  }

  lemma GiveUp(run: seq<System>, events: seq<Event>, k: string, v: nat, now: nat)
      returns (longer: seq<System>, more: seq<Event>)
    requires run != [] && IsRun(run, events) && Calm(End(run), k, now) && now < v
    ensures longer != [] && IsRun(longer, more) && Calm(End(longer), k, now) && GaveUp(End(run), End(longer), k, v)
  {
    hide IsRun, StoreOf;
    longer, more := SendTwice(run, events, k, v, now);
    longer, more := Finish(longer, more, End(run), 0, Put(k, "x", v), true, k);
  }

  /** For every key, every current version and every greater one there is a run in which a Put of the greater
      version, begun when the key has the current one, takes effect after its caller was told ErrMaybe. */
  lemma EffectAfterReturn(k: string, now: nat, v: nat) returns (run: seq<System>, events: seq<Event>, n: nat, i: nat)
    requires now < v
    ensures run != [] && IsRun(run, events) && Inv(End(run)) && n < |End(run).calls|
    ensures var call := End(run).calls[n];
      && call.op == Put(k, "x", v) && call.from <= |End(run).log| && Version(StoreAt(End(run), call.from), k) == now
      && call.outcome.Returned? && call.outcome.reply == PutErr(ErrMaybe)
      && i >= call.outcome.at && TookEffect(End(run), n, i)
  {
    hide IsRun;
    run, events := Starts();
    run, events := RaiseTo(run, events, k, 0, now);
    var y := End(run);
    run, events := GiveUp(run, events, k, v, now);
    run, events := RaiseTo(run, events, k, now, v);
    n, i := |y.calls|, |End(run).log|;
    assert End(run).log[..|y.log|] == y.log;
    run, events := Late(run, events, k, v, n, |y.attempts|);
    assert End(run).log[..|y.log|] == y.log;
  }

  lemma Late(run: seq<System>, events: seq<Event>, k: string, v: nat, n: nat, a: nat)
      returns (longer: seq<System>, more: seq<Event>)
    requires run != [] && IsRun(run, events) && Calm(End(run), k, v)
    requires n < |End(run).calls| && a < |End(run).attempts| && End(run).attempts[a] == Attempt(n, None)
    requires End(run).calls[n].op == Put(k, "x", v)
    ensures longer != [] && IsRun(longer, more) && Inv(End(longer)) && TookEffect(End(longer), n, |End(run).log|)
    ensures End(longer).calls == End(run).calls && End(run).log <= End(longer).log
  {
    var i := |End(run).log|;
    longer, more := Do(run, events, Propose(a, Slot(i, 0)));
    longer, more := Do(longer, more, Execute(a));
    Reachable(longer, more, |longer| - 1);
    hide IsRun;
    assert EntryOk(End(longer), i);
  }
}
