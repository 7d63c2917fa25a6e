/** A whole job: the coordinator, any number of workers that may be slow, repeated or crash at any point, and a
    file system in which a rename is atomic but looking first and renaming afterwards is not. A worker's temporary
    files are its own. A reduce worker lists its files and then opens them one by one; a file is complete when it
    gets its name, so what the worker reads is fixed when it opens the file, whatever becomes of the name. A file
    that has gone when it is to be opened ends the worker. */
module MapReduceRun {
  import opened Counting
  import opened MapReduce

  datatype Status = Idle | Paused | Running | Finished
  datatype Phase = MapPhase | ReducePhase | DonePhase

  /** `tasks` are the map tasks followed by the reduce tasks. */
  datatype Coordinator = Coordinator(phase: Phase, tasks: seq<Status>)

  datatype Name = Name(map_: nat, reduce: nat)

  /** `mid` are the files mr-out-i-r and `out` the files mr-out-r. */
  datatype Files = Files(mid: map<Name, seq<KeyValue>>, out: map<nat, seq<Line>>)

  /** `clear`: the worker has looked and the target was not there. */
  datatype Worker =
    | Free
    | Mapping(i: nat, buckets: seq<seq<KeyValue>>, next: nat, clear: bool)
    | Assigned(r: nat)
    | Opening(r: nat, list: seq<nat>, next: nat, kvs: seq<KeyValue>)
    | Writing(r: nat, lines: seq<Line>, clear: bool)
    | Deleting(r: nat)

  datatype Report = MapReport(i: nat) | ReduceReport(r: nat)

  datatype System = System(coordinator: Coordinator, files: Files, workers: seq<Worker>, reports: set<Report>)

  datatype Event =
    | AskMap(w: nat, i: nat, buckets: seq<seq<KeyValue>>)
    | LookMid(w: nat)
    | RenameMid(w: nat)
    | EndMap(w: nat)
    | AskReduce(w: nat, r: nat)
    | List(w: nat, list: seq<nat>)
    | Open(w: nat)
    | Write(w: nat, lines: seq<Line>)
    | LookOut(w: nat)
    | RenameOut(w: nat)
    | Delete(w: nat, i: nat)
    | EndReduce(w: nat)
    | Crash(w: nat)
    | Deliver(w: nat, report: Report)

  /** What a map worker may have written: the pieces of its task, each in some order. */
  ghost predicate AreBuckets(job: Job, i: nat, buckets: seq<seq<KeyValue>>)
    requires job.nReduce > 0
  {
    |buckets| == job.nReduce && forall r :: 0 <= r < |buckets| ==> multiset(buckets[r]) == multiset(Piece(job, i, r))
  }

  ghost predicate Enabled(job: Job, y: System, e: Event)
    requires job.nReduce > 0
  {
    var nMap := |job.mapped|;
    && |y.coordinator.tasks| == nMap + job.nReduce && e.w < |y.workers|
    && var k := y.workers[e.w];
       match e
       case AskMap(w, i, buckets) =>
         && k.Free? && y.coordinator.phase == MapPhase && i < nMap && y.coordinator.tasks[i] != Finished
         && AreBuckets(job, i, buckets)
       case LookMid(w) => k.Mapping? && !k.clear && k.next < job.nReduce
       case RenameMid(w) => k.Mapping? && k.clear && k.next < |k.buckets|
       case EndMap(w) => k.Mapping? && k.next >= job.nReduce
       case AskReduce(w, r) =>
         k.Free? && y.coordinator.phase == ReducePhase && r < job.nReduce && y.coordinator.tasks[nMap + r] != Finished
       case List(w, list) =>
         && k.Assigned? && (forall i :: i in list <==> Name(i, k.r) in y.files.mid)
         && (forall i, j :: 0 <= i < j < |list| ==> list[i] != list[j])
       case Open(w) => k.Opening? && k.next < |k.list| && Name(k.list[k.next], k.r) in y.files.mid
       case Write(w, lines) => k.Opening? && k.next == |k.list| && IsOutput(job.reducef, k.kvs, lines)
       case LookOut(w) => k.Writing? && !k.clear
       case RenameOut(w) => k.Writing? && k.clear
       case Delete(w, i) => k.Deleting?
       case EndReduce(w) => k.Deleting?
       case Crash(w) => true
       case Deliver(w, report) => report in y.reports && Index(job, report) < nMap + job.nReduce
  }

  function Index(job: Job, report: Report): (r: nat) {
    match report
    case MapReport(i) => i
    case ReduceReport(r) => |job.mapped| + r
  }

  /** The coordinator on a report: the task is finished, and a finished phase ends. */
  function OnReport(c: Coordinator, nMap: nat, nReduce: nat, task: nat): (r: Coordinator)
    requires task < |c.tasks| == nMap + nReduce
  {
    var tasks := c.tasks[task := Finished];
    var ended := c.phase == ReducePhase && forall i :: nMap <= i < nMap + nReduce ==> tasks[i] == Finished;
    var mapped := c.phase == MapPhase && forall i :: 0 <= i < nMap ==> tasks[i] == Finished;
    Coordinator(if ended then DonePhase else if mapped then ReducePhase else c.phase, tasks)
  }

  function With(y: System, w: nat, k: Worker): (r: System)
    requires w < |y.workers|
  {
    y.(workers := y.workers[w := k])
  }

  function Started(c: Coordinator, task: nat): (r: Coordinator)
    requires task < |c.tasks|
  {
    c.(tasks := c.tasks[task := Running])
  }

  ghost function Next(job: Job, y: System, e: Event): (r: System)
    requires job.nReduce > 0 && Enabled(job, y, e)
  {
    var nMap, k := |job.mapped|, y.workers[e.w];
    match e
    case AskMap(w, i, buckets) => With(y, w, Mapping(i, buckets, 0, false)).(coordinator := Started(y.coordinator, i))
    case LookMid(w) =>
      With(y, w, if Name(k.i, k.next) in y.files.mid then Mapping(k.i, k.buckets, k.next + 1, false)
                 else Mapping(k.i, k.buckets, k.next, true))
    case RenameMid(w) =>
      var mid := y.files.mid[Name(k.i, k.next) := k.buckets[k.next]];
      With(y, w, Mapping(k.i, k.buckets, k.next + 1, false)).(files := y.files.(mid := mid))
    case EndMap(w) => With(y, w, Free).(reports := y.reports + {MapReport(k.i)})
    case AskReduce(w, r) => With(y, w, Assigned(r)).(coordinator := Started(y.coordinator, nMap + r))
    case List(w, list) => With(y, w, Opening(k.r, list, 0, []))
    case Open(w) => With(y, w, Opening(k.r, k.list, k.next + 1, k.kvs + y.files.mid[Name(k.list[k.next], k.r)]))
    case Write(w, lines) => With(y, w, Writing(k.r, lines, false))
    case LookOut(w) => With(y, w, if k.r in y.files.out then Deleting(k.r) else Writing(k.r, k.lines, true))
    case RenameOut(w) => With(y, w, Deleting(k.r)).(files := y.files.(out := y.files.out[k.r := k.lines]))
    case Delete(w, i) => y.(files := y.files.(mid := y.files.mid - {Name(i, k.r)}))
    case EndReduce(w) => With(y, w, Free).(reports := y.reports + {ReduceReport(k.r)})
    case Crash(w) => With(y, w, Free)
    case Deliver(w, report) => y.(coordinator := OnReport(y.coordinator, nMap, job.nReduce, Index(job, report)))
  }

  ghost predicate Initial(job: Job, y: System) {
    && y.coordinator == Coordinator(MapPhase, seq(|job.mapped| + job.nReduce, _ => Idle))
    && y.files == Files(map[], map[]) && y.reports == {} && forall w :: 0 <= w < |y.workers| ==> y.workers[w] == Free
  }

  // ---- the invariant -------------------------------------------------------------

  /** What mr-out-r must hold. */
  ghost predicate Right(job: Job, r: nat, lines: seq<Line>)
    requires job.nReduce > 0
  {
    IsOutput(job.reducef, Bucket(job, Flatten(job.mapped), r), lines)
  }

  ghost predicate FilesOk(job: Job, f: Files)
    requires job.nReduce > 0
  {
    && (forall n :: n in f.mid ==>
          n.map_ < |job.mapped| && multiset(f.mid[n]) == multiset(Piece(job, n.map_, n.reduce)))
    && (forall r :: r in f.out ==> Right(job, r, f.out[r]))
  }

  /** Map task `i` has delivered its first `n` files. */
  ghost predicate Delivered(f: Files, i: nat, n: nat) {
    forall r :: 0 <= r < n ==> Name(i, r) in f.mid
  }

  /** All pieces of reduce task `r` are there. */
  ghost predicate Complete(job: Job, f: Files, r: nat) {
    forall i :: 0 <= i < |job.mapped| ==> Name(i, r) in f.mid
  }

  ghost predicate PhaseOk(job: Job, y: System)
    requires job.nReduce > 0
  {
    var c, nMap := y.coordinator, |job.mapped|;
    && |c.tasks| == nMap + job.nReduce
    && (if c.phase == MapPhase
        then forall i :: 0 <= i < nMap && c.tasks[i] == Finished ==> Delivered(y.files, i, job.nReduce)
        else forall r :: 0 <= r < job.nReduce ==> r in y.files.out || Complete(job, y.files, r))
    && (forall i :: nMap <= i < |c.tasks| && c.tasks[i] == Finished ==> i - nMap in y.files.out)
    && (c.phase == DonePhase ==> forall i :: nMap <= i < |c.tasks| ==> c.tasks[i] == Finished)
  }

  /** A reduce worker has every piece or comes too late. */
  ghost predicate WorkerOk(job: Job, phase: Phase, f: Files, k: Worker)
    requires job.nReduce > 0
  {
    match k
    case Free => true
    case Mapping(i, buckets, next, clear) =>
      && i < |job.mapped| && AreBuckets(job, i, buckets) && next <= job.nReduce && (clear ==> next < job.nReduce)
      && (phase == MapPhase ==> Delivered(f, i, next))
    case Assigned(r) => phase != MapPhase && r < job.nReduce
    case Opening(r, list, next, kvs) =>
      && phase != MapPhase && r < job.nReduce && next <= |list|
      && multiset(kvs) == Pieces(job, list[..next], r)
      && (r in f.out || multiset(list) == multiset(UpTo(|job.mapped|)))
    case Writing(r, lines, clear) =>
      phase != MapPhase && r < job.nReduce && (r in f.out || Right(job, r, lines)) && (clear ==> Right(job, r, lines))
    case Deleting(r) => phase != MapPhase && r in f.out && r < job.nReduce
  }

  ghost predicate ReportOk(job: Job, phase: Phase, f: Files, report: Report) {
    match report
    case MapReport(i) => i < |job.mapped| && (phase == MapPhase ==> Delivered(f, i, job.nReduce))
    case ReduceReport(r) => phase != MapPhase && r < job.nReduce && r in f.out
  }

  ghost predicate Inv(job: Job, y: System)
    requires job.nReduce > 0
  {
    && FilesOk(job, y.files) && PhaseOk(job, y)
    && (forall w :: 0 <= w < |y.workers| ==> WorkerOk(job, y.coordinator.phase, y.files, y.workers[w]))
    && (forall m :: m in y.reports ==> ReportOk(job, y.coordinator.phase, y.files, m))
  }

  // ---- steps ---------------------------------------------------------------------

  /** A step of one worker that leaves the files and the coordinator alone. */
  lemma WorkerStep(job: Job, y: System, w: nat, k: Worker, more: set<Report>)
    requires job.nReduce > 0 && Inv(job, y) && w < |y.workers| && WorkerOk(job, y.coordinator.phase, y.files, k)
    requires forall m :: m in more ==> ReportOk(job, y.coordinator.phase, y.files, m)
    ensures Inv(job, With(y, w, k).(reports := y.reports + more))
  {
    hide WorkerOk, ReportOk, FilesOk, Delivered, Complete;
  }

  /** A worker gets a task that is not finished. */
  lemma AskStep(job: Job, y: System, w: nat, k: Worker, task: nat)
    requires job.nReduce > 0 && Inv(job, y) && w < |y.workers| && WorkerOk(job, y.coordinator.phase, y.files, k)
    requires task < |y.coordinator.tasks| && y.coordinator.phase != DonePhase
    ensures Inv(job, With(y, w, k).(coordinator := Started(y.coordinator, task)))
  {
    hide WorkerOk, ReportOk, FilesOk, Delivered, Complete;
  }

  /** More files are there than before, and none has gone. */
  ghost predicate Grows(f: Files, g: Files) {
    f.mid.Keys <= g.mid.Keys && f.out.Keys <= g.out.Keys
  }

  lemma GrowStep(job: Job, y: System, g: Files)
    requires job.nReduce > 0 && Inv(job, y) && Grows(y.files, g) && FilesOk(job, g)
    ensures Inv(job, y.(files := g))
  {
    forall w | 0 <= w < |y.workers| ensures WorkerOk(job, y.coordinator.phase, g, y.workers[w]) {
      WorkerGrows(job, y.coordinator.phase, y.files, g, y.workers[w]);
    }
    hide WorkerOk, FilesOk;
    PhaseGrows(job, y, g);
    hide PhaseOk;
    forall m | m in y.reports
      ensures ReportOk(job, y.coordinator.phase, g, m)
    {
      assert ReportOk(job, y.coordinator.phase, y.files, m);
    }
    hide ReportOk;
  }

  lemma PhaseGrows(job: Job, y: System, g: Files)
    requires job.nReduce > 0 && PhaseOk(job, y) && Grows(y.files, g)
    ensures PhaseOk(job, y.(files := g))
  {
  }

  lemma WorkerGrows(job: Job, phase: Phase, f: Files, g: Files, k: Worker)
    requires job.nReduce > 0 && WorkerOk(job, phase, f, k) && Grows(f, g)
    ensures WorkerOk(job, phase, g, k)
  {
    hide Right, AreBuckets, Pieces;
  }

  /** After the map phase only outputs matter to those who work. */
  lemma WorkerLate(job: Job, f: Files, g: Files, phase: Phase, later: Phase, k: Worker)
    requires job.nReduce > 0 && WorkerOk(job, phase, f, k) && g.out == f.out && later != MapPhase
    ensures WorkerOk(job, later, g, k)
  {
    hide Right, AreBuckets, Pieces;
  }

  /** Deleting a piece of a reduce task that has its output. */
  lemma DeleteKeeps(job: Job, y: System, r: nat, i: nat)
    requires job.nReduce > 0 && Inv(job, y) && r in y.files.out && y.coordinator.phase != MapPhase
    ensures Inv(job, y.(files := y.files.(mid := y.files.mid - {Name(i, r)})))
  {
    var g := y.files.(mid := y.files.mid - {Name(i, r)});
    var z := y.(files := g);
    assert FilesOk(job, g) by { hide Right, Piece, PhaseOk; }
    assert PhaseOk(job, z) by { PhaseShrinks(job, y, r, i); }
    hide FilesOk, PhaseOk;
    forall v | 0 <= v < |y.workers| ensures WorkerOk(job, y.coordinator.phase, g, y.workers[v]) {
      WorkerLate(job, y.files, g, y.coordinator.phase, y.coordinator.phase, y.workers[v]);
    }
    hide WorkerOk;
    forall m | m in y.reports ensures ReportOk(job, y.coordinator.phase, g, m) {
      assert ReportOk(job, y.coordinator.phase, y.files, m);
    }
    hide ReportOk;
  }

  lemma PhaseShrinks(job: Job, y: System, r: nat, i: nat)
    requires job.nReduce > 0 && PhaseOk(job, y) && r in y.files.out && y.coordinator.phase != MapPhase
    ensures PhaseOk(job, y.(files := y.files.(mid := y.files.mid - {Name(i, r)})))
  {
    var g := y.files.(mid := y.files.mid - {Name(i, r)});
    forall s | 0 <= s < job.nReduce && s !in g.out ensures Complete(job, g, s) {
      assert Complete(job, y.files, s);
    }
  }

  lemma PhaseDeliver(job: Job, y: System, report: Report)
    requires job.nReduce > 0 && PhaseOk(job, y) && ReportOk(job, y.coordinator.phase, y.files, report)
    ensures Index(job, report) < |job.mapped| + job.nReduce
    ensures PhaseOk(job, y.(coordinator := OnReport(y.coordinator, |job.mapped|, job.nReduce, Index(job, report))))
  {
    var c := OnReport(y.coordinator, |job.mapped|, job.nReduce, Index(job, report));
    if y.coordinator.phase == MapPhase && c.phase != MapPhase {
      forall i | 0 <= i < |job.mapped| ensures Delivered(y.files, i, job.nReduce) {
        assert c.tasks[i] == Finished;
        assert i != Index(job, report) ==> y.coordinator.tasks[i] == Finished;
      }
      forall r | 0 <= r < job.nReduce ensures Complete(job, y.files, r) {
        forall i | 0 <= i < |job.mapped|
          ensures Name(i, r) in y.files.mid
        {
          assert Delivered(y.files, i, job.nReduce);
        }
      }
    }
  }

  /** The last map report opens the reduce phase with every piece in place. */
  lemma DeliverKeeps(job: Job, y: System, report: Report)
    requires job.nReduce > 0 && Inv(job, y) && report in y.reports
    requires |y.coordinator.tasks| == |job.mapped| + job.nReduce
    requires Index(job, report) < |y.coordinator.tasks|
    ensures Inv(job, y.(coordinator := OnReport(y.coordinator, |job.mapped|, job.nReduce, Index(job, report))))
  {
    var c := OnReport(y.coordinator, |job.mapped|, job.nReduce, Index(job, report));
    assert c.phase == y.coordinator.phase || c.phase != MapPhase;
    PhaseDeliver(job, y, report);
    hide PhaseOk, FilesOk, OnReport;
    forall v | 0 <= v < |y.workers| ensures WorkerOk(job, c.phase, y.files, y.workers[v]) {
      if c.phase != MapPhase { WorkerLate(job, y.files, y.files, y.coordinator.phase, c.phase, y.workers[v]); }
    }
    hide WorkerOk;
    forall m | m in y.reports ensures ReportOk(job, c.phase, y.files, m) {
      assert ReportOk(job, y.coordinator.phase, y.files, m);
    }
    hide ReportOk;
  }

  /** What the invariant says of one worker, of the files and of the phase. */
  lemma Facts(job: Job, y: System, w: nat)
    requires job.nReduce > 0 && Inv(job, y) && w < |y.workers|
    ensures WorkerOk(job, y.coordinator.phase, y.files, y.workers[w]) && FilesOk(job, y.files) && PhaseOk(job, y)
  {
    hide WorkerOk, FilesOk, PhaseOk, ReportOk;
  }

  /** A worker that lists the pieces has them all, or the output is there already. */
  lemma ListOk(job: Job, y: System, w: nat, list: seq<nat>)
    requires job.nReduce > 0 && Inv(job, y) && w < |y.workers| && y.workers[w].Assigned?
    requires forall i :: i in list <==> Name(i, y.workers[w].r) in y.files.mid
    requires forall i, j :: 0 <= i < j < |list| ==> list[i] != list[j]
    ensures WorkerOk(job, y.coordinator.phase, y.files, Opening(y.workers[w].r, list, 0, []))
  {
    hide Inv, Right, Piece;
    var r := y.workers[w].r;
    Facts(job, y, w);
    if r !in y.files.out {
      assert Complete(job, y.files, r);
      forall i: nat ensures i in list <==> i in UpTo(|job.mapped|) {
        assert i in UpTo(|job.mapped|) <==> i < |job.mapped| by {
          if i < |job.mapped| { assert UpTo(|job.mapped|)[i] == i; }
        }
        assert i in list <==> Name(i, r) in y.files.mid;
      }
      SameSet(list, UpTo(|job.mapped|));
    }
  }

  lemma OpenOk(job: Job, y: System, w: nat)
    requires job.nReduce > 0 && Inv(job, y) && w < |y.workers| && y.workers[w].Opening?
    requires var k := y.workers[w]; k.next < |k.list| && Name(k.list[k.next], k.r) in y.files.mid
    ensures var k := y.workers[w];
      var after := Opening(k.r, k.list, k.next + 1, k.kvs + y.files.mid[Name(k.list[k.next], k.r)]);
      WorkerOk(job, y.coordinator.phase, y.files, after)
  {
    hide Inv, Right, Piece, PhaseOk;
    var k := y.workers[w];
    Facts(job, y, w);
    var content := y.files.mid[Name(k.list[k.next], k.r)];
    assert multiset(content) == multiset(Piece(job, k.list[k.next], k.r));
    hide FilesOk;
    PiecesMore(job, k.list, k.next, k.r);
    hide Pieces;
  }

  lemma PiecesMore(job: Job, list: seq<nat>, n: nat, r: nat)
    requires job.nReduce > 0 && n < |list|
    ensures Pieces(job, list[..n + 1], r) == Pieces(job, list[..n], r) + multiset(Piece(job, list[n], r))
  {
    assert list[..n + 1][..n] == list[..n];
  }

  /** What a worker writes that has read all pieces is right. */
  lemma WriteOk(job: Job, y: System, w: nat, lines: seq<Line>)
    requires job.nReduce > 0 && OrderInsensitive(job.reducef) && Inv(job, y) && w < |y.workers| && y.workers[w].Opening?
    requires var k := y.workers[w]; k.next == |k.list| && IsOutput(job.reducef, k.kvs, lines)
    ensures WorkerOk(job, y.coordinator.phase, y.files, Writing(y.workers[w].r, lines, false))
  {
    hide Inv, IsOutput, OrderInsensitive, Pieces, PhaseOk, FilesOk;
    var k := y.workers[w];
    Facts(job, y, w);
    if k.r !in y.files.out {
      assert k.list[..k.next] == k.list;
      AllPieces(job, k.list, k.r);
      SameOutput(job.reducef, k.kvs, Bucket(job, Flatten(job.mapped), k.r), lines);
    }
  }

  lemma LookMidOk(job: Job, y: System, w: nat)
    requires job.nReduce > 0 && Inv(job, y) && w < |y.workers| && y.workers[w].Mapping?
    requires y.workers[w].next < job.nReduce
    ensures var k := y.workers[w]; WorkerOk(job, y.coordinator.phase, y.files, Mapping(k.i, k.buckets, k.next, true))
    ensures var k := y.workers[w]; Name(k.i, k.next) in y.files.mid ==>
      WorkerOk(job, y.coordinator.phase, y.files, Mapping(k.i, k.buckets, k.next + 1, false))
  {
    hide Inv, AreBuckets;
    Facts(job, y, w);
    hide FilesOk, PhaseOk;
  }

  lemma RenameMidKeeps(job: Job, y: System, w: nat)
    requires job.nReduce > 0 && Inv(job, y) && w < |y.workers| && y.workers[w].Mapping?
    requires y.workers[w].next < |y.workers[w].buckets|
    ensures var k := y.workers[w]; var n := Name(k.i, k.next);
      var mid := y.files.mid[n := k.buckets[k.next]];
      Inv(job, With(y, w, Mapping(k.i, k.buckets, k.next + 1, false)).(files := y.files.(mid := mid)))
  {
    hide Inv, Right, Piece;
    var k := y.workers[w];
    Facts(job, y, w);
    hide PhaseOk;
    var g := y.files.(mid := y.files.mid[Name(k.i, k.next) := k.buckets[k.next]]);
    var z := With(y, w, Mapping(k.i, k.buckets, k.next + 1, false)).(files := g);
    assert FilesOk(job, g);
    hide FilesOk, AreBuckets;
    GrowStep(job, y, g);
    WorkerStep(job, y.(files := g), w, z.workers[w], {});
    assert z == With(y.(files := g), w, z.workers[w]).(reports := y.reports + {});
  }

  lemma RenameOutKeeps(job: Job, y: System, w: nat)
    requires job.nReduce > 0 && Inv(job, y) && w < |y.workers| && y.workers[w].Writing? && y.workers[w].clear
    ensures var k := y.workers[w];
      Inv(job, With(y, w, Deleting(k.r)).(files := y.files.(out := y.files.out[k.r := k.lines])))
  {
    hide Inv, Right, Piece;
    var k := y.workers[w];
    Facts(job, y, w);
    hide PhaseOk;
    var g := y.files.(out := y.files.out[k.r := k.lines]);
    var z := With(y, w, Deleting(k.r)).(files := g);
    assert FilesOk(job, g);
    hide FilesOk;
    GrowStep(job, y, g);
    WorkerStep(job, y.(files := g), w, Deleting(k.r), {});
    assert z == With(y.(files := g), w, Deleting(k.r)).(reports := y.reports + {});
  }

  lemma MapStep(job: Job, y: System, e: Event)
    requires job.nReduce > 0 && Inv(job, y) && Enabled(job, y, e)
    requires (e.AskMap? || e.LookMid? || e.RenameMid? || e.EndMap?)
    ensures Inv(job, Next(job, y, e))
  {
    hide Inv, FilesOk, PhaseOk, AreBuckets, Delivered;
    var k := y.workers[e.w];
    Facts(job, y, e.w);
    if e.AskMap? {
      assert WorkerOk(job, MapPhase, y.files, Mapping(e.i, e.buckets, 0, false)) by { Nothing(y.files, e.i); }
      AskStep(job, y, e.w, Mapping(e.i, e.buckets, 0, false), e.i);
    } else if e.LookMid? {
      LookMidOk(job, y, e.w);
      hide WorkerOk;
      Same(y, e.w, Next(job, y, e).workers[e.w]);
      WorkerStep(job, y, e.w, Next(job, y, e).workers[e.w], {});
    } else if e.RenameMid? {
      RenameMidKeeps(job, y, e.w);
    } else {
      WorkerStep(job, y, e.w, Free, {MapReport(k.i)});
    }
  }

  lemma Nothing(f: Files, i: nat)
    ensures Delivered(f, i, 0)
  {
  }

  lemma Same(y: System, w: nat, k: Worker)
    requires w < |y.workers|
    ensures With(y, w, k).(reports := y.reports + {}) == With(y, w, k)
  {
  }

  lemma ReduceStep(job: Job, y: System, e: Event)
    requires job.nReduce > 0 && OrderInsensitive(job.reducef) && Inv(job, y) && Enabled(job, y, e)
    requires e.AskReduce? || e.List? || e.Open? || e.Write? || e.LookOut? || e.EndReduce?
    ensures Inv(job, Next(job, y, e))
  {
    hide Inv, FilesOk, PhaseOk, OrderInsensitive, Right, Pieces, IsOutput, AreBuckets;
    var k := y.workers[e.w];
    Facts(job, y, e.w);
    if e.AskReduce? {
      AskStep(job, y, e.w, Assigned(e.r), |job.mapped| + e.r);
    } else if e.EndReduce? {
      WorkerStep(job, y, e.w, Free, {ReduceReport(k.r)});
    } else {
      var next := Next(job, y, e).workers[e.w];
      assert WorkerOk(job, y.coordinator.phase, y.files, next) by {
        if e.List? { ListOk(job, y, e.w, e.list); hide WorkerOk; }
        else if e.Open? { OpenOk(job, y, e.w); hide WorkerOk; }
        else if e.Write? { WriteOk(job, y, e.w, e.lines); hide WorkerOk; }
      }
      hide WorkerOk;
      Same(y, e.w, next);
      WorkerStep(job, y, e.w, next, {});
    }
  }

  lemma Step(job: Job, y: System, e: Event)
    requires job.nReduce > 0 && OrderInsensitive(job.reducef) && Inv(job, y) && Enabled(job, y, e)
    ensures Inv(job, Next(job, y, e))
  {
    hide Inv, OrderInsensitive;
    if e.Crash? {
      WorkerStep(job, y, e.w, Free, {});
      Same(y, e.w, Free);
    } else if e.Delete? {
      Facts(job, y, e.w);
      DeleteKeeps(job, y, y.workers[e.w].r, e.i);
    } else if e.Deliver? {
      DeliverKeeps(job, y, e.report);
    } else if e.RenameOut? {
      RenameOutKeeps(job, y, e.w);
    } else if e.AskMap? || e.LookMid? || e.RenameMid? || e.EndMap? {
      hide Next, Enabled;
      MapStep(job, y, e);
    } else {
      hide Next, Enabled;
      ReduceStep(job, y, e);
    }
  }

  ghost predicate IsRun(job: Job, run: seq<System>, events: seq<Event>)
    requires job.nReduce > 0
  {
    && |run| == |events| + 1 && Initial(job, run[0])
    && forall i :: 0 <= i < |events| ==> Enabled(job, run[i], events[i]) && run[i + 1] == Next(job, run[i], events[i])
  }

  lemma {:induction false} Reachable(job: Job, run: seq<System>, events: seq<Event>, i: nat)
    requires job.nReduce > 0 && OrderInsensitive(job.reducef) && IsRun(job, run, events) && i < |run|
    ensures Inv(job, run[i])
  {
    hide Next, Enabled, OrderInsensitive;
    if i > 0 {
      Reachable(job, run, events, i - 1);
      hide Inv;
      Step(job, run[i - 1], events[i - 1]);
    }
  }

  /** In every run, when the job is done the output files hold exactly the lines of the sequential program,
      each in the file of its key and in the order of the keys. */
  lemma DoneIsSequential(job: Job, run: seq<System>, events: seq<Event>, t: nat, sequential: seq<Line>)
    requires job.nReduce > 0 && OrderInsensitive(job.reducef) && IsRun(job, run, events) && t < |run|
    requires run[t].coordinator.phase == DonePhase && IsOutput(job.reducef, Flatten(job.mapped), sequential)
    ensures forall r :: 0 <= r < job.nReduce ==> r in run[t].files.out && Increasing(run[t].files.out[r])
    ensures forall r, line :: 0 <= r < job.nReduce && line in run[t].files.out[r] ==>
      TaskOf(job, line.key) == r && line in sequential
    ensures forall line :: line in sequential ==> line in run[t].files.out[TaskOf(job, line.key)]
  {
    Reachable(job, run, events, t);
    var f := run[t].files;
    forall r | 0 <= r < job.nReduce ensures r in f.out && Right(job, r, f.out[r]) {
      assert run[t].coordinator.tasks[|job.mapped| + r] == Finished;
    }
    hide Inv, IsRun, OrderInsensitive, Bucket, TaskOf;
    forall r, line | 0 <= r < job.nReduce
      ensures line in f.out[r] <==> TaskOf(job, line.key) == r && line in sequential
    {
      LinesOfBuckets(job, Flatten(job.mapped), r, line);
    }
  }
}
