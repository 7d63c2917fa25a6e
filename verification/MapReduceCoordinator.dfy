/** The coordinator's loop: handing out tasks on heartbeats and ending phases on reports. */
module MapReduceCoordinator {
  import opened MapReduceRun

  datatype Kind = MapJob | ReduceJob | WaitJob | CompleteJob

  datatype Task = Task(status: Status, startTime: int)

  /** A task that a heartbeat at `now` may get: not started, or started more than ten seconds ago. */
  predicate Ready(t: Task, now: int) {
    t.status == Idle || t.status == Paused || (t.status == Running && now - t.startTime > 10)
  }

  /** The first task from `from` on that is ready is the one at `from + index`. */
  ghost predicate FirstReadyAt(tasks: seq<Task>, from: nat, index: nat, now: int) {
    && from + index < |tasks| && Ready(tasks[from + index], now)
    && forall j :: from <= j < from + index ==> !Ready(tasks[j], now)
  }

  /** A task that a worker got is its own for ten seconds, and then anybody's until it is finished. */
  lemma GivenForTenSeconds(tasks: seq<Task>, id: nat, now: int, later: int)
    requires id < |tasks| && FirstReadyAt(tasks, 0, id, now) && now <= later
    ensures var given := tasks[id := Task(Running, now)];
      && (Ready(given[id], later) <==> later > now + 10)
      && !Ready(given[id].(status := Finished), later)
      && (forall j :: 0 <= j < id ==> !Ready(given[j], now))
  {
  }

  class Master {
    const nMap: nat
    const nReduce: nat
    var phase: Phase
    var tasks: seq<Task>

    constructor (nMap: nat, nReduce: nat, now: int)
      ensures this.nMap == nMap && this.nReduce == nReduce && Valid()
      ensures Value() == Coordinator(MapPhase, seq(nMap + nReduce, _ => Idle))
    {
      this.nMap, this.nReduce := nMap, nReduce;
      phase := MapPhase;
      tasks := seq(nMap + nReduce, _ => Task(Idle, now));
    }

    predicate Valid()
      reads this
    {
      |tasks| == nMap + nReduce
    }

    function Value(): (r: Coordinator)
      reads this
    {
      Coordinator(phase, seq(|tasks|, i requires 0 <= i < |tasks| reads this => tasks[i].status))
    }

    /** The first task of a range that is ready, if any. */
    method FirstReady(from: nat, count: nat, now: int) returns (index: nat)
      requires Valid() && from + count <= |tasks|
      ensures index <= count && (forall j :: from <= j < from + index ==> !Ready(tasks[j], now))
      ensures index < count ==> Ready(tasks[from + index], now)
    {
      index := 0;
      while index < count
        invariant index <= count && forall j :: from <= j < from + index ==> !Ready(tasks[j], now)
      {
        var t := tasks[from + index];
        if t.status == Idle || t.status == Paused {
          return;
        } else if t.status == Running {
          if now - t.startTime > 10 {
            return;
          }
        }
        index := index + 1;
      }
    }

    /** The answer to a heartbeat: the first task of the phase that is ready, which is then running; otherwise
        wait. A finished task is never given out again. */
    method HeartBeat(now: int) returns (kind: Kind, id: nat)
      requires Valid()
      modifies this
      ensures Valid()
      ensures kind == CompleteJob <==> old(phase) == DonePhase
      ensures kind == MapJob ==>
        && phase == old(phase) == MapPhase && id < nMap && FirstReadyAt(old(tasks), 0, id, now)
        && tasks == old(tasks)[id := Task(Running, now)] && Value() == Started(old(Value()), id)
      ensures kind == ReduceJob ==>
        && phase == old(phase) == ReducePhase && id < nReduce && FirstReadyAt(old(tasks), nMap, id, now)
        && tasks == old(tasks)[nMap + id := Task(Running, now)] && Value() == Started(old(Value()), nMap + id)
      ensures kind == WaitJob && phase == MapPhase ==> forall i :: 0 <= i < nMap ==> !Ready(tasks[i], now)
      ensures kind == WaitJob && phase == ReducePhase ==>
        forall i :: nMap <= i < nMap + nReduce ==> !Ready(tasks[i], now)
      ensures kind == WaitJob || kind == CompleteJob ==> tasks == old(tasks) && phase == old(phase)
    {
      if phase == DonePhase {
        return CompleteJob, 0;
      }
      var from, count := if phase == MapPhase then 0 else nMap, if phase == MapPhase then nMap else nReduce;
      id := FirstReady(from, count, now);
      if id == count {
        return WaitJob, 0;
      }
      tasks := tasks[from + id := Task(Running, now)];
      kind := if phase == MapPhase then MapJob else ReduceJob;
    }

    predicate AllDone(from: nat, to: nat)
      requires to <= |tasks|
      reads this
    {
      forall i :: from <= i < to ==> tasks[i].status == Finished
    }

    /** A finished task, and the end of a phase when it was the last one. */
    method Report(task: nat)
      requires Valid() && task < |tasks|
      modifies this
      ensures Valid() && Value() == OnReport(old(Value()), nMap, nReduce, task)
      ensures tasks == old(tasks)[task := Task(Finished, old(tasks)[task].startTime)]
      ensures phase == DonePhase <==>
        old(phase) == DonePhase || (old(phase) == ReducePhase && AllDone(nMap, nMap + nReduce))
      ensures phase == MapPhase <==> old(phase) == MapPhase && !AllDone(0, nMap)
    {
      tasks := tasks[task := tasks[task].(status := Finished)];
      ghost var marked := old(Value().tasks)[task := Finished];
      assert Value().tasks == marked;
      assert forall i :: 0 <= i < |tasks| ==> marked[i] == tasks[i].status;
      if phase == ReducePhase {
        var all := AllFinished(nMap, nMap + nReduce);
        if all {
          phase := DonePhase;
        }
      }
      if phase == MapPhase {
        var all := AllFinished(0, nMap);
        if all {
          phase := ReducePhase;
        }
      }
      assert Value().tasks == marked;
    }

    method AllFinished(from: nat, to: nat) returns (all: bool)
      requires from <= to <= |tasks|
      ensures all <==> AllDone(from, to)
    {
      for i := from to to
        invariant forall j :: from <= j < i ==> tasks[j].status == Finished
      {
        if tasks[i].status != Finished {
          return false;
        }
      }
      all := true;
    }
  }
}
