/** When a job is done: exactly when all its tasks are, and that it can always get there. */
module MapReduceProgress {
  import opened MapReduce
  import opened MapReduceRun
  import opened Sorting

  ghost predicate AllFinished(c: Coordinator, from: nat, to: nat)
    requires to <= |c.tasks|
  {
    forall i :: from <= i < to ==> c.tasks[i] == Finished
  }

  /** In the map phase nobody reduces. */
  ghost predicate OnlyMaps(job: Job, y: System) {
    && (forall w :: 0 <= w < |y.workers| ==> y.workers[w].Free? || y.workers[w].Mapping?)
    && (forall m :: m in y.reports ==> m.MapReport?)
  }

  predicate WorkerInRange(job: Job, k: Worker) {
    match k
    case Free => true
    case Mapping(i, _, _, _) => i < |job.mapped|
    case Assigned(r) => r < job.nReduce
    case Opening(r, _, _, _) => r < job.nReduce
    case Writing(r, _, _) => r < job.nReduce
    case Deleting(r) => r < job.nReduce
  }

  predicate ReportInRange(job: Job, m: Report) {
    match m
    case MapReport(i) => i < |job.mapped|
    case ReduceReport(r) => r < job.nReduce
  }

  ghost predicate InRange(job: Job, y: System) {
    && (forall w :: 0 <= w < |y.workers| ==> WorkerInRange(job, y.workers[w]))
    && (forall m :: m in y.reports ==> ReportInRange(job, m))
  }

  /** What the phase says of the tasks. */
  ghost predicate PhaseInv(job: Job, y: System) {
    var c, nMap, n := y.coordinator, |job.mapped|, |job.mapped| + job.nReduce;
    && |c.tasks| == n && InRange(job, y)
    && (match c.phase
        case MapPhase =>
          && (nMap > 0 ==> !AllFinished(c, 0, nMap)) && OnlyMaps(job, y)
          && (forall i :: nMap <= i < n ==> c.tasks[i] != Finished)
        case ReducePhase => AllFinished(c, 0, nMap) && !AllFinished(c, nMap, n)
        case DonePhase => AllFinished(c, 0, n))
  }

  lemma WorkStep(job: Job, y: System, e: Event)
    requires job.nReduce > 0 && PhaseInv(job, y) && Enabled(job, y, e)
    requires !e.AskMap? && !e.AskReduce? && !e.Deliver?
    ensures PhaseInv(job, Next(job, y, e)) && Next(job, y, e).coordinator == y.coordinator
  {
    hide AreBuckets, IsOutput, AllFinished;
  }

  lemma AskMapStep(job: Job, y: System, e: Event)
    requires job.nReduce > 0 && PhaseInv(job, y) && Enabled(job, y, e) && e.AskMap?
    ensures PhaseInv(job, Next(job, y, e))
  {
    hide AreBuckets;
    var z := Next(job, y, e);
    assert z.coordinator.tasks[e.i] == Running;
  }

  lemma AskReduceStep(job: Job, y: System, e: Event)
    requires job.nReduce > 0 && PhaseInv(job, y) && Enabled(job, y, e) && e.AskReduce?
    ensures PhaseInv(job, Next(job, y, e))
  {
    var z := Next(job, y, e);
    assert z.coordinator.tasks[|job.mapped| + e.r] == Running;
  }

  lemma ReportStep(job: Job, y: System, e: Event)
    requires job.nReduce > 0 && PhaseInv(job, y) && Enabled(job, y, e) && e.Deliver?
    ensures PhaseInv(job, Next(job, y, e))
  {
    var z, nMap := Next(job, y, e), |job.mapped|;
    var c, d := y.coordinator, z.coordinator;
    assert d.tasks == c.tasks[Index(job, e.report) := Finished];
    if c.phase == MapPhase {
      assert e.report.MapReport?;
      assert d.phase == ReducePhase ==> d.tasks[nMap] != Finished;
    }
  }

  lemma PhaseStep(job: Job, y: System, e: Event)
    requires job.nReduce > 0 && PhaseInv(job, y) && Enabled(job, y, e)
    ensures PhaseInv(job, Next(job, y, e))
  {
    hide PhaseInv, Next, Enabled;
    if e.AskMap? {
      AskMapStep(job, y, e);
    } else if e.AskReduce? {
      AskReduceStep(job, y, e);
    } else if e.Deliver? {
      ReportStep(job, y, e);
    } else {
      WorkStep(job, y, e);
    }
  }

  lemma {:induction false} Always(job: Job, run: seq<System>, events: seq<Event>, t: nat)
    requires job.nReduce > 0 && IsRun(job, run, events) && t < |run|
    ensures PhaseInv(job, run[t])
  {
    if t == 0 {
      InitialPhase(job, run[0]);
    } else {
      hide PhaseInv, Next, Enabled, Initial;
      Always(job, run, events, t - 1);
      PhaseStep(job, run[t - 1], events[t - 1]);
    }
  }

  lemma InitialPhase(job: Job, y: System)
    requires job.nReduce > 0 && Initial(job, y)
    ensures PhaseInv(job, y)
  {
    if |job.mapped| > 0 { assert y.coordinator.tasks[0] == Idle; }
  }

  /** In every reachable state a job with a map task is done exactly if all its tasks are finished. */
  lemma DoneExactly(job: Job, run: seq<System>, events: seq<Event>, t: nat)
    requires job.nReduce > 0 && IsRun(job, run, events) && t < |run|
    ensures |run[t].coordinator.tasks| == |job.mapped| + job.nReduce
    ensures |job.mapped| > 0 ==>
      (run[t].coordinator.phase == DonePhase <==> AllFinished(run[t].coordinator, 0, |job.mapped| + job.nReduce))
  {
    Always(job, run, events, t);
  }

  lemma NoReports(job: Job, y: System)
    requires PhaseInv(job, y) && y.coordinator.phase == MapPhase && job.mapped == []
    ensures y.reports == {}
  {
    assert forall m :: m in y.reports ==> ReportInRange(job, m) && m.MapReport?;
  }

  /** A job without a map task never ends: nobody reports, and phases end on reports only. */
  lemma {:induction false} NeverDone(job: Job, run: seq<System>, events: seq<Event>, t: nat)
    requires job.nReduce > 0 && IsRun(job, run, events) && t < |run| && job.mapped == []
    ensures run[t].coordinator.phase == MapPhase
  {
    if t > 0 {
      hide PhaseInv, Next, Enabled, Initial;
      NeverDone(job, run, events, t - 1);
      Always(job, run, events, t - 1);
      NoReports(job, run[t - 1]);
      SamePhase(job, run[t - 1], events[t - 1]);
    }
  }

  lemma SamePhase(job: Job, y: System, e: Event)
    requires job.nReduce > 0 && Enabled(job, y, e) && y.reports == {}
    ensures Next(job, y, e).coordinator.phase == y.coordinator.phase
  {
    hide AreBuckets, IsOutput, OnReport;
  }

  // ---- paths ---------------------------------------------------------------------

  ghost predicate IsPath(job: Job, states: seq<System>, events: seq<Event>)
    requires job.nReduce > 0
  {
    && |states| == |events| + 1
    && forall i :: 0 <= i < |events| ==>
         Enabled(job, states[i], events[i]) && states[i + 1] == Next(job, states[i], events[i])
  }

  ghost function End(states: seq<System>): (r: System)
    requires |states| > 0
  {
    states[|states| - 1]
  }

  /** A path from `y` that keeps what the phase says. */
  ghost predicate Path(job: Job, y: System, states: seq<System>, events: seq<Event>)
    requires job.nReduce > 0
  {
    && |states| > 0 && IsPath(job, states, events) && states[0] == y && PhaseInv(job, End(states))
    && |End(states).workers| == |y.workers|
  }

  lemma Stand(job: Job, y: System) returns (states: seq<System>, events: seq<Event>)
    requires job.nReduce > 0 && PhaseInv(job, y)
    ensures Path(job, y, states, events) && End(states) == y
  {
    states, events := [y], [];
  }

  lemma Do(job: Job, y: System, states: seq<System>, events: seq<Event>, e: Event)
      returns (longer: seq<System>, more: seq<Event>)
    requires job.nReduce > 0 && Path(job, y, states, events) && Enabled(job, End(states), e)
    ensures Path(job, y, longer, more) && End(longer) == Next(job, End(states), e)
  {
    hide PhaseInv, AreBuckets, IsOutput;
    PhaseStep(job, End(states), e);
    longer, more := states + [Next(job, End(states), e)], events + [e];
    hide Enabled, OnReport, Started;
  }

  lemma Join(job: Job, y: System, states: seq<System>, events: seq<Event>, on: seq<System>, more: seq<Event>)
    requires job.nReduce > 0 && Path(job, y, states, events) && Path(job, End(states), on, more)
    ensures Path(job, y, states + on[1..], events + more) && End(states + on[1..]) == End(on)
  {
    hide PhaseInv, Next, Enabled;
    var all, es := states + on[1..], events + more;
    forall i | 0 <= i < |es| ensures Enabled(job, all[i], es[i]) && all[i + 1] == Next(job, all[i], es[i]) {
      if i >= |events| {
        var j := i - |events|;
        assert all[i] == on[j] && all[i + 1] == on[j + 1] && es[i] == more[j];
      }
    }
  }

  // ---- map tasks -----------------------------------------------------------------

  /** The worker gets all its buckets a name, whoever was there before. */
  lemma {:induction false} NameAll(job: Job, y: System, w: nat) returns (states: seq<System>, events: seq<Event>)
    requires job.nReduce > 0 && PhaseInv(job, y) && w < |y.workers|
    requires var k := y.workers[w]; k.Mapping? && !k.clear && |k.buckets| == job.nReduce && k.next <= job.nReduce
    ensures Path(job, y, states, events)
    ensures End(states).coordinator == y.coordinator
    ensures End(states).workers[w] == Mapping(y.workers[w].i, y.workers[w].buckets, job.nReduce, false)
    decreases job.nReduce - y.workers[w].next
  {
    var k := y.workers[w];
    states, events := Stand(job, y);
    hide PhaseInv, IsPath;
    if k.next < job.nReduce {
      assert Enabled(job, y, LookMid(w)) by { Sized(job, y); }
      states, events := Do(job, y, states, events, LookMid(w));
      if Name(k.i, k.next) !in y.files.mid {
        assert Enabled(job, End(states), RenameMid(w)) by { Sized(job, End(states)); }
        states, events := Do(job, y, states, events, RenameMid(w));
      }
      var on, more := NameAll(job, End(states), w);
      Join(job, y, states, events, on, more);
      states, events := states + on[1..], events + more;
    }
  }

  lemma Sized(job: Job, y: System)
    requires PhaseInv(job, y)
    ensures |y.coordinator.tasks| == |job.mapped| + job.nReduce
  {
  }

  lemma MapOne(job: Job, y: System, w: nat, i: nat) returns (states: seq<System>, events: seq<Event>)
    requires job.nReduce > 0 && PhaseInv(job, y) && w < |y.workers| && y.workers[w].Free? && i < |job.mapped|
    requires y.coordinator.phase == MapPhase && y.coordinator.tasks[i] != Finished
    ensures Path(job, y, states, events) && End(states).workers[w].Free?
    ensures End(states).coordinator.tasks == y.coordinator.tasks[i := Finished]
  {
    var buckets := seq(job.nReduce, r requires 0 <= r < job.nReduce => Piece(job, i, r));
    assert AreBuckets(job, i, buckets);
    Sized(job, y);
    states, events := Stand(job, y);
    states, events := Do(job, y, states, events, AskMap(w, i, buckets));
    hide PhaseInv, IsPath, AreBuckets;
    var on, more := NameAll(job, End(states), w);
    Join(job, y, states, events, on, more);
    states, events := states + on[1..], events + more;
    Sized(job, End(states));
    states, events := Do(job, y, states, events, EndMap(w));
    states, events := Do(job, y, states, events, Deliver(w, MapReport(i)));
  }

  lemma {:induction false} MapAll(job: Job, y: System, w: nat, j: nat) returns (states: seq<System>, events: seq<Event>)
    requires job.nReduce > 0 && PhaseInv(job, y) && w < |y.workers| && y.workers[w].Free? && 0 < |job.mapped|
    requires j <= |job.mapped| && (y.coordinator.phase == MapPhase ==> AllFinished(y.coordinator, 0, j))
    ensures Path(job, y, states, events) && End(states).workers[w].Free? && End(states).coordinator.phase != MapPhase
    decreases |job.mapped| - j
  {
    states, events := Stand(job, y);
    if y.coordinator.phase == MapPhase {
      assert j < |job.mapped|;
      if y.coordinator.tasks[j] != Finished {
        states, events := MapOne(job, y, w, j);
      }
      var on, more := MapAll(job, End(states), w, j + 1);
      hide PhaseInv, IsPath;
      Join(job, y, states, events, on, more);
      states, events := states + on[1..], events + more;
    }
  }

  // ---- reduce tasks --------------------------------------------------------------

  /** A line among others, by its key. */
  lemma {:induction false} InsertLine(lines: seq<Line>, x: Line) returns (r: seq<Line>)
    requires Increasing(lines) && forall i :: 0 <= i < |lines| ==> lines[i].key != x.key
    ensures Increasing(r) && forall line :: line in r <==> line in lines || line == x
    decreases |lines|
  {
    if lines == [] || StringLess(x.key, lines[0].key) {
      r := [x] + lines;
      forall j | 0 < j < |lines| && StringLess(x.key, lines[0].key) ensures StringLess(x.key, lines[j].key) {
        StringLessTrans(x.key, lines[0].key, lines[j].key);
      }
    } else {
      StringLessTotal(x.key, lines[0].key);
      var rest := InsertLine(lines[1..], x);
      r := [lines[0]] + rest;
      forall j | 0 <= j < |rest| ensures StringLess(lines[0].key, rest[j].key) {
        assert rest[j] in rest;
        if rest[j] != x { var i :| 0 <= i < |lines[1..]| && lines[1..][i] == rest[j]; }
      }
      forall line ensures line in r <==> line in lines || line == x {
        assert lines == [lines[0]] + lines[1..];
        assert line in r <==> line == lines[0] || line in rest;
        assert line in lines <==> line == lines[0] || line in lines[1..];
      }
    }
  }

  /** Whatever Reduce is, a list of pairs has an output. */
  lemma {:induction false} LinesFor(f: (string, seq<string>) -> string, kvs: seq<KeyValue>, keys: set<string>)
      returns (lines: seq<Line>)
    ensures Increasing(lines)
    ensures forall line :: line in lines <==> line.key in keys && line.output == f(line.key, Values(kvs, line.key))
  {
    hide Values;
    if keys == {} {
      lines := [];
    } else {
      var key :| key in keys;
      var rest := LinesFor(f, kvs, keys - {key});
      assert forall i :: 0 <= i < |rest| ==> rest[i] in rest;
      lines := InsertLine(rest, Line(key, f(key, Values(kvs, key))));
    }
  }

  lemma HasOutput(f: (string, seq<string>) -> string, kvs: seq<KeyValue>) returns (lines: seq<Line>)
    ensures IsOutput(f, kvs, lines)
  {
    hide Values, Increasing;
    var keys := set i | 0 <= i < |kvs| :: kvs[i].key;
    assert forall key :: key in keys <==> HasKey(kvs, key);
    lines := LinesFor(f, kvs, keys);
  }

  lemma {:induction false} Enumerate(s: set<nat>) returns (list: seq<nat>)
    ensures forall i :: i in list <==> i in s
    ensures forall i, j :: 0 <= i < j < |list| ==> list[i] != list[j]
  {
    if s == {} {
      list := [];
    } else {
      var x :| x in s;
      var rest := Enumerate(s - {x});
      list := rest + [x];
      assert forall i :: 0 <= i < |rest| ==> rest[i] in rest;
    }
  }

  lemma {:induction false} OpenAll(job: Job, y: System, w: nat) returns (states: seq<System>, events: seq<Event>)
    requires job.nReduce > 0 && PhaseInv(job, y) && w < |y.workers| && y.workers[w].Opening?
    requires var k := y.workers[w];
      k.next <= |k.list| && forall i :: 0 <= i < |k.list| ==> Name(k.list[i], k.r) in y.files.mid
    ensures Path(job, y, states, events) && End(states).coordinator == y.coordinator
    ensures var k := End(states).workers[w]; k.Opening? && k.next == |k.list| && k.r == y.workers[w].r
    decreases |y.workers[w].list| - y.workers[w].next
  {
    var k := y.workers[w];
    states, events := Stand(job, y);
    Sized(job, y);
    hide PhaseInv, IsPath;
    if k.next < |k.list| {
      states, events := Do(job, y, states, events, Open(w));
      var on, more := OpenAll(job, End(states), w);
      Join(job, y, states, events, on, more);
      states, events := states + on[1..], events + more;
    }
  }

  lemma Lists(job: Job, y: System, w: nat) returns (states: seq<System>, events: seq<Event>)
    requires job.nReduce > 0 && PhaseInv(job, y) && w < |y.workers| && y.workers[w].Assigned?
    ensures Path(job, y, states, events) && End(states).coordinator == y.coordinator
    ensures var k := End(states).workers[w]; k.Opening? && k.next == |k.list| && k.r == y.workers[w].r
  {
    var r := y.workers[w].r;
    var there := set n | n in y.files.mid.Keys && n.reduce == r :: n.map_;
    var list := Enumerate(there);
    assert forall i :: i in list <==> Name(i, r) in y.files.mid by {
      forall i ensures i in there <==> Name(i, r) in y.files.mid {
        assert Name(i, r) in y.files.mid ==> Name(i, r).map_ in there;
      }
    }
    states, events := Stand(job, y);
    Sized(job, y);
    hide PhaseInv, IsPath;
    states, events := Do(job, y, states, events, List(w, list));
    assert forall i :: 0 <= i < |list| ==> list[i] in list;
    var on, more := OpenAll(job, End(states), w);
    Join(job, y, states, events, on, more);
    states, events := states + on[1..], events + more;
  }

  lemma Writes(job: Job, y: System, w: nat) returns (states: seq<System>, events: seq<Event>)
    requires job.nReduce > 0 && PhaseInv(job, y) && w < |y.workers|
    requires var k := y.workers[w]; k.Opening? && k.next == |k.list|
    ensures Path(job, y, states, events) && End(states).coordinator == y.coordinator
    ensures End(states).workers[w] == Deleting(y.workers[w].r)
  {
    var lines := HasOutput(job.reducef, y.workers[w].kvs);
    states, events := Stand(job, y);
    Sized(job, y);
    hide PhaseInv, IsPath, IsOutput;
    states, events := Do(job, y, states, events, Write(w, lines));
    states, events := Do(job, y, states, events, LookOut(w));
    if y.workers[w].r !in y.files.out {
      states, events := Do(job, y, states, events, RenameOut(w));
    }
  }

  /** From an assigned task to its end. */
  lemma Reduces(job: Job, y: System, w: nat) returns (states: seq<System>, events: seq<Event>)
    requires job.nReduce > 0 && PhaseInv(job, y) && w < |y.workers| && y.workers[w].Assigned?
    ensures Path(job, y, states, events) && End(states).coordinator == y.coordinator
    ensures End(states).workers[w] == Deleting(y.workers[w].r)
  {
    hide PhaseInv, Path;
    states, events := Lists(job, y, w);
    PathEnd(job, y, states, events);
    var on, more := Writes(job, End(states), w);
    PathEnd(job, End(states), on, more);
    Join(job, y, states, events, on, more);
    states, events := states + on[1..], events + more;
  }

  lemma PathEnd(job: Job, y: System, states: seq<System>, events: seq<Event>)
    requires job.nReduce > 0 && Path(job, y, states, events)
    ensures |states| > 0 && PhaseInv(job, End(states)) && |End(states).workers| == |y.workers|
  {
    hide PhaseInv, IsPath;
  }

  lemma ReduceOne(job: Job, y: System, w: nat, r: nat) returns (states: seq<System>, events: seq<Event>)
    requires job.nReduce > 0 && PhaseInv(job, y) && w < |y.workers| && y.workers[w].Free? && r < job.nReduce
    requires y.coordinator.phase == ReducePhase && y.coordinator.tasks[|job.mapped| + r] != Finished
    ensures Path(job, y, states, events) && End(states).workers[w].Free? && End(states).coordinator.phase != MapPhase
    ensures End(states).coordinator.tasks == y.coordinator.tasks[|job.mapped| + r := Finished]
  {
    Sized(job, y);
    states, events := Stand(job, y);
    hide PhaseInv, IsPath;
    states, events := Do(job, y, states, events, AskReduce(w, r));
    var on, more := Reduces(job, End(states), w);
    Join(job, y, states, events, on, more);
    states, events := states + on[1..], events + more;
    Sized(job, End(states));
    states, events := Do(job, y, states, events, EndReduce(w));
    states, events := Do(job, y, states, events, Deliver(w, ReduceReport(r)));
  }

  lemma {:induction false} ReduceAll(job: Job, y: System, w: nat, j: nat)
      returns (states: seq<System>, events: seq<Event>)
    requires job.nReduce > 0 && PhaseInv(job, y) && w < |y.workers| && y.workers[w].Free? && j <= job.nReduce
    requires y.coordinator.phase != MapPhase
    requires y.coordinator.phase == ReducePhase ==> AllFinished(y.coordinator, |job.mapped|, |job.mapped| + j)
    ensures Path(job, y, states, events) && End(states).coordinator.phase == DonePhase
    decreases job.nReduce - j
  {
    states, events := Stand(job, y);
    if y.coordinator.phase == ReducePhase {
      assert j < job.nReduce;
      if y.coordinator.tasks[|job.mapped| + j] != Finished {
        states, events := ReduceOne(job, y, w, j);
      }
      var on, more := ReduceAll(job, End(states), w, j + 1);
      hide PhaseInv, IsPath;
      Join(job, y, states, events, on, more);
      states, events := states + on[1..], events + more;
    }
  }

  /** From every reachable state of a job with a map task, one worker can bring the job to its end, whatever the others
      have left behind. */
  lemma CanFinish(job: Job, run: seq<System>, events: seq<Event>, t: nat, w: nat)
      returns (states: seq<System>, more: seq<Event>)
    requires job.nReduce > 0 && IsRun(job, run, events) && t < |run| && w < |run[t].workers| && 0 < |job.mapped|
    ensures |states| > 0 && IsPath(job, states, more) && states[0] == run[t]
    ensures End(states).coordinator.phase == DonePhase
  {
    Always(job, run, events, t);
    var y := run[t];
    Sized(job, y);
    states, more := Stand(job, y);
    states, more := Do(job, y, states, more, Crash(w));
    var on, es := MapAll(job, End(states), w, 0);
    hide PhaseInv, IsPath, IsRun;
    Join(job, y, states, more, on, es);
    states, more := states + on[1..], more + es;
    on, es := ReduceAll(job, End(states), w, 0);
    Join(job, y, states, more, on, es);
    states, more := states + on[1..], more + es;
  }
}
