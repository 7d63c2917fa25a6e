/** The order in which a peer's service hears of things: every command comes directly behind what the service has
    already, counted from the snapshot that it was given last or restarted from. */
module RaftDelivery {
  import opened RaftNode
  import opened RaftCluster
  import RaftOrigin

  /** How far peer `i`'s service is after `t` steps, by what it was handed: a command moves it to the command's index, a
      snapshot to the snapshot's; its own snapshot does not move it back; after a crash it begins with the snapshot on
      the disk. */
  ghost function Position<C>(run: seq<System<C>>, events: seq<Event<C>>, i: nat, t: nat): (r: int)
    requires RaftCluster.IsRun(run, events) && t < |run|
  {
    if t == 0 then 0
    else
      var was, y, e := Position(run, events, i, t - 1), run[t - 1], events[t - 1];
      if e.i != i then was
      else
        var n := y.nodes[i];
        match e
        case Apply(_) => if CanApply(n) then n.lastApplied + 1 else was
        case Install(_, args) =>
          var handed := OnInstallSnapshot(n, args).1;
          if handed.Some? then handed.value.index else was
        case Trim(_, index, _) => Max(was, if index > n.lastIncludedIndex then index else was)
        case Crash(_) => Stored(n.disk).lastIncludedIndex
        case _ => was
  }

  lemma Moves<C>(n: Node<C>, me: nat, e: Input<C>)
    requires |n.logs| > 0 && Possible(n, me, e)
    ensures var m := After(n, me, e);
      match e
      case Apply => m.lastApplied == if CanApply(n) then n.lastApplied + 1 else n.lastApplied
      case InstallSnapshot(args) =>
        var handed := OnInstallSnapshot(n, args).1;
        m.lastApplied == if handed.Some? then handed.value.index else n.lastApplied
      case Snapshot(index, _) =>
        m.lastApplied == if index > n.lastIncludedIndex then Max(n.lastApplied, index) else n.lastApplied
      case Restart => m.lastApplied == Stored(n.disk).lastIncludedIndex
      case _ => m.lastApplied == n.lastApplied
  {
    hide Merge, Rejection, Trimmed, UpToDate;
  }

  lemma {:induction false} PositionIsApplied<C>(run: seq<System<C>>, events: seq<Event<C>>, i: nat, t: nat)
    requires RaftCluster.IsRun(run, events) && t < |run| && i < |run[0].nodes|
    ensures i < |run[t].nodes| && Position(run, events, i, t) == run[t].nodes[i].lastApplied
  {
    if t > 0 {
      PositionIsApplied(run, events, i, t - 1);
      var y, e := run[t - 1], events[t - 1];
      assert Enabled(y, e) && run[t] == Next(y, e);
      RaftOrigin.NextIsAfter(y, e);
      hide Next;
      if e.i == i {
        Moves(y.nodes[i], i, InputOf(e));
        hide After, OnInstallSnapshot, CanApply;
      }
    }
  }

  lemma {:induction false} SameSize<C>(run: seq<System<C>>, events: seq<Event<C>>, t: nat)
    requires RaftCluster.IsRun(run, events) && t < |run|
    ensures |run[t].nodes| == |run[0].nodes|
  {
    if t > 0 {
      SameSize(run, events, t - 1);
      assert Enabled(run[t - 1], events[t - 1]) && run[t] == Next(run[t - 1], events[t - 1]);
      RaftOrigin.NextIsAfter(run[t - 1], events[t - 1]);
      hide Next, Enabled, RaftNode.After;
    }
  }

  /** In every run a command that is handed to a service is the next one behind what the service has. */
  lemma InOrder<C>(run: seq<System<C>>, events: seq<Event<C>>, t: nat, index: int, entry: Entry<C>)
    requires RaftCluster.IsRun(run, events) && t < |events| && Applies(run[t], events[t], index, entry)
    ensures index == Position(run, events, events[t].i, t) + 1
  {
    SameSize(run, events, t);
    PositionIsApplied(run, events, events[t].i, t);
  }
}
