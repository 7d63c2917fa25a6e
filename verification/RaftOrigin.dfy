/** Where things come from: every entry that a peer applies was put at its index by a call of Start that named this
    index, and every snapshot that a peer keeps, sends or hands to its service is one that some service made. This holds
    in every run, whatever is lost, repeated or crashes. */
module RaftOrigin {
  import opened Options
  import opened RaftNode
  import opened RaftCluster

  /** `Started`: Start put this entry into a leader's log and named this index; `Made`: a service handed over its
      snapshot up to this index. */
  datatype Source<+C> = Started(index: int, entry: Entry<C>) | Made(index: int, data: string)

  /** What a step adds. */
  ghost function Adds<C>(y: System<C>, e: Event<C>): (r: set<Source<C>>)
    requires Enabled(y, e)
  {
    match e
    case Submit(i, command) =>
      if y.nodes[i].state == Leader
      then {Started(OnStart(y.nodes[i], i, command).1, Entry(y.nodes[i].currentTerm, Some(command)))} else {}
    case Trim(i, index, data) => {Made(index, data)}
    case _ => {}
  }

  ghost function Sources<C>(run: seq<System<C>>, events: seq<Event<C>>, t: nat): (r: set<Source<C>>)
    requires RaftCluster.IsRun(run, events) && t < |run|
  {
    if t == 0 then {} else Sources(run, events, t - 1) + Adds(run[t - 1], events[t - 1])
  }

  // ---- the invariant -------------------------------------------------------------

  /** Every entry behind the head was started at its index. */
  ghost predicate EntriesFrom<C>(src: set<Source<C>>, first: int, logs: seq<Entry<C>>) {
    forall k :: 1 <= k < |logs| ==> Started(first + k, logs[k]) in src
  }

  ghost predicate NodeFrom<C>(src: set<Source<C>>, n: Node<C>) {
    && Valid(n) && EntriesFrom(src, n.lastIncludedIndex, n.logs)
    && (n.lastIncludedIndex > 0 ==> Made(n.lastIncludedIndex, n.snapshot) in src)
  }

  ghost predicate MessageFrom<C>(src: set<Source<C>>, m: Message<C>) {
    match m
    case AppendRequest(_, a) =>
      forall k :: 0 <= k < |a.entries| ==> Started(a.prevLogIndex + 1 + k, a.entries[k]) in src
    case SnapshotRequest(_, s) => s.lastIncludedIndex > 0 && Made(s.lastIncludedIndex, s.data) in src
    case _ => true
  }

  ghost predicate From<C>(src: set<Source<C>>, y: System<C>) {
    && (forall i :: 0 <= i < |y.nodes| ==> NodeFrom(src, y.nodes[i]))
    && (forall m :: m in y.messages ==> MessageFrom(src, m))
  }

  // ---- handlers ------------------------------------------------------------------

  lemma {:induction false} MergeFrom<C>(src: set<Source<C>>, first: int, logs: seq<Entry<C>>, at: nat,
      entries: seq<Entry<C>>)
    requires EntriesFrom(src, first, logs) && 1 <= at <= |logs|
    requires forall k :: 0 <= k < |entries| ==> Started(first + at + k, entries[k]) in src
    ensures EntriesFrom(src, first, Merge(logs, at, entries))
    decreases |entries|
  {
    if entries != [] {
      if at < |logs| && logs[at].term == entries[0].term {
        forall k | 0 <= k < |entries| - 1 ensures Started(first + (at + 1) + k, entries[1..][k]) in src {
          assert entries[1..][k] == entries[k + 1];
          assert Started(first + at + (k + 1), entries[k + 1]) in src;
        }
        MergeFrom(src, first, logs, at + 1, entries[1..]);
      } else {
        var r := logs[..at] + entries;
        forall k | 1 <= k < |r| ensures Started(first + k, r[k]) in src {
          if k >= at { assert Started(first + at + (k - at), entries[k - at]) in src; }
        }
      }
    }
  }

  lemma AppendFrom<C>(src: set<Source<C>>, n: Node<C>, to: nat, args: AppendArgs<C>)
    requires NodeFrom(src, n) && MessageFrom(src, AppendRequest(to, args))
    ensures NodeFrom(src, OnAppendEntries(n, args).0)
  {
    AppendValid(n, args);
    hide Valid, Merge, Rejection, LogTerm;
    var m := SteppedDown(n, args.term);
    if args.term >= n.currentTerm && Matches(m, args) {
      var at := args.prevLogIndex - n.lastIncludedIndex + 1;
      forall k | 0 <= k < |args.entries| ensures Started(n.lastIncludedIndex + at + k, args.entries[k]) in src {
        assert Started(args.prevLogIndex + 1 + k, args.entries[k]) in src;
      }
      MergeFrom(src, n.lastIncludedIndex, n.logs, at, args.entries);
    }
    hide EntriesFrom;
  }

  lemma TrimmedFrom<C>(src: set<Source<C>>, n: Node<C>, index: int)
    requires EntriesFrom(src, n.lastIncludedIndex, n.logs) && n.lastIncludedIndex <= index <= Last(n)
    ensures EntriesFrom(src, index, Trimmed(n, index))
  {
    var at, logs := index - n.lastIncludedIndex, Trimmed(n, index);
    forall k | 1 <= k < |logs| ensures Started(index + k, logs[k]) in src {
      assert logs[k] == n.logs[at + k];
      assert Started(n.lastIncludedIndex + (at + k), n.logs[at + k]) in src;
    }
  }

  lemma InstallFrom<C>(src: set<Source<C>>, n: Node<C>, to: nat, args: SnapshotArgs)
    requires NodeFrom(src, n) && MessageFrom(src, SnapshotRequest(to, args))
    ensures var (m, handed) := OnInstallSnapshot(n, args);
      NodeFrom(src, m) && (handed.Some? ==> Made(handed.value.index, handed.value.data) in src)
  {
    InstallValid(n, args);
    var index := args.lastIncludedIndex;
    if n.lastIncludedIndex < index <= Last(n) { TrimmedFrom(src, n, index); }
    hide Valid, Trimmed, LogTerm;
    assert EntriesFrom(src, index, [Entry(args.lastIncludedTerm, None)]);
    var m := SteppedDown(n, args.term);
    if n.lastIncludedIndex < index <= Last(n) { SameTrim(n, m, index); }
    hide EntriesFrom;
  }

  lemma SameTrim<C>(n: Node<C>, m: Node<C>, index: int)
    requires n.logs == m.logs && n.lastIncludedIndex == m.lastIncludedIndex <= index <= Last(n)
    ensures Trimmed(n, index) == Trimmed(m, index)
  {
  }

  lemma TrimFrom<C>(src: set<Source<C>>, n: Node<C>, index: int, data: string)
    requires NodeFrom(src, n)
    ensures NodeFrom(src + {Made(index, data)}, OnSnapshot(n, index, data))
  {
    SnapshotValid(n, index, data);
    MoreFrom(src, {Made(index, data)}, n);
    hide Valid;
    var all := src + {Made(index, data)};
    if n.lastIncludedIndex < index <= Last(n) { TrimmedFrom(all, n, index); }
    hide Trimmed;
  }

  lemma MoreFrom<C>(src: set<Source<C>>, more: set<Source<C>>, n: Node<C>)
    requires NodeFrom(src, n)
    ensures NodeFrom(src + more, n)
  {
    hide Valid;
  }

  /** Start puts the command at the index that it names, and leaves everything before it alone. */
  lemma StartsAt<C>(n: Node<C>, me: nat, command: C)
    requires Valid(n) && me < |n.matchIndex|
    ensures var (m, index) := OnStart(n, me, command);
      if n.state == Leader
      then index == Last(m) && m.lastIncludedIndex == n.lastIncludedIndex
        && m.logs[index - m.lastIncludedIndex] == Entry(n.currentTerm, Some(command))
        && m.logs[..|n.logs|] == n.logs && |m.logs| == |n.logs| + 1
      else m == n && index == -1
  {
  }

  lemma StartFrom<C>(src: set<Source<C>>, n: Node<C>, me: nat, command: C)
    requires NodeFrom(src, n) && me < |n.matchIndex|
    ensures var (m, index) := OnStart(n, me, command);
      var more := if n.state == Leader then {Started(index, Entry(n.currentTerm, Some(command)))} else {};
      NodeFrom(src + more, m)
  {
    StaysValid(n, me, Start(command));
    StartsAt(n, me, command);
    hide Valid;
    var (m, index) := OnStart(n, me, command);
    if n.state == Leader {
      var all := src + {Started(index, Entry(n.currentTerm, Some(command)))};
      forall k | 1 <= k < |m.logs| ensures Started(m.lastIncludedIndex + k, m.logs[k]) in all {
        if k < |n.logs| {
          assert m.logs[k] == m.logs[..|n.logs|][k];
          assert Started(n.lastIncludedIndex + k, n.logs[k]) in src;
        }
      }
    }
  }

  /** Handlers that leave log and snapshot alone. */
  lemma SameFrom<C>(src: set<Source<C>>, n: Node<C>, m: Node<C>)
    requires NodeFrom(src, n) && Valid(m) && m.logs == n.logs && m.lastIncludedIndex == n.lastIncludedIndex
    requires m.snapshot == n.snapshot
    ensures NodeFrom(src, m)
  {
  }

  // ---- steps ---------------------------------------------------------------------

  lemma NextIsAfter<C>(y: System<C>, e: Event<C>)
    requires Enabled(y, e)
    ensures var n := y.nodes[e.i];
      Possible(n, e.i, InputOf(e)) && Next(y, e).nodes == y.nodes[e.i := After(n, e.i, InputOf(e))]
  {
    hide OnAppendEntries, OnInstallSnapshot, OnSnapshot, OnRequestVote, OnVoteReply, OnAppendReply, OnStart, OnSend,
      OnStartElection, OnSnapshotReply, OnApply, Boot, EndOf;
  }

  ghost predicate Plain<C>(e: Input<C>) {
    !e.Start? && !e.AppendEntries? && !e.Snapshot? && !e.InstallSnapshot?
  }

  lemma PlainKeeps<C>(n: Node<C>, me: nat, e: Input<C>)
    requires Valid(n) && Possible(n, me, e) && Plain(e)
    ensures var m := After(n, me, e);
      m.logs == n.logs && m.lastIncludedIndex == n.lastIncludedIndex && m.snapshot == n.snapshot
  {
  }

  lemma NodeFacts<C>(src: set<Source<C>>, y: System<C>, e: Event<C>)
    requires Enabled(y, e) && From(src, y)
    ensures e.i < |y.nodes| && NodeFrom(src, y.nodes[e.i])
    ensures e.Append? ==> MessageFrom(src, AppendRequest(e.i, e.a))
    ensures e.Install? ==> MessageFrom(src, SnapshotRequest(e.i, e.s))
  {
    hide NodeFrom, MessageFrom;
  }

  lemma SubmitStep<C>(src: set<Source<C>>, y: System<C>, e: Event<C>)
    requires Enabled(y, e) && From(src, y) && e.Submit?
    ensures |Next(y, e).nodes| == |y.nodes| && NodeFrom(src + Adds(y, e), Next(y, e).nodes[e.i])
  {
    NodeFacts(src, y, e);
    NextIsAfter(y, e);
    hide From, Next, NodeFrom, OnStart;
    StartFrom(src, y.nodes[e.i], e.i, e.command);
  }

  lemma TrimStep<C>(src: set<Source<C>>, y: System<C>, e: Event<C>)
    requires Enabled(y, e) && From(src, y) && e.Trim?
    ensures |Next(y, e).nodes| == |y.nodes| && NodeFrom(src + Adds(y, e), Next(y, e).nodes[e.i])
  {
    NodeFacts(src, y, e);
    NextIsAfter(y, e);
    hide From, Next, NodeFrom, OnSnapshot;
    TrimFrom(src, y.nodes[e.i], e.index, e.data);
  }

  lemma OtherStep<C>(src: set<Source<C>>, y: System<C>, e: Event<C>)
    requires Enabled(y, e) && From(src, y) && !e.Submit? && !e.Trim?
    ensures |Next(y, e).nodes| == |y.nodes| && NodeFrom(src + Adds(y, e), Next(y, e).nodes[e.i])
  {
    NodeFacts(src, y, e);
    NextIsAfter(y, e);
    hide Enabled, From, Next, NodeFrom, MessageFrom, OnAppendEntries, OnInstallSnapshot, OnSnapshot, OnRequestVote,
      OnVoteReply, OnAppendReply, OnStart, OnSend, OnStartElection, OnSnapshotReply, OnApply, Boot;
    assert src + Adds(y, e) == src;
    if e.Append? {
      AppendFrom(src, y.nodes[e.i], e.i, e.a);
    } else if e.Install? {
      InstallFrom(src, y.nodes[e.i], e.i, e.s);
    } else {
      hide After;
      PlainFrom(src, y.nodes[e.i], e.i, InputOf(e));
    }
  }

  lemma NodeStep<C>(src: set<Source<C>>, y: System<C>, e: Event<C>)
    requires Enabled(y, e) && From(src, y)
    ensures |Next(y, e).nodes| == |y.nodes| && NodeFrom(src + Adds(y, e), Next(y, e).nodes[e.i])
  {
    hide Enabled, From, Next, NodeFrom, Adds;
    if e.Submit? {
      SubmitStep(src, y, e);
    } else if e.Trim? {
      TrimStep(src, y, e);
    } else {
      OtherStep(src, y, e);
    }
  }

  lemma PlainFrom<C>(src: set<Source<C>>, n: Node<C>, me: nat, e: Input<C>)
    requires NodeFrom(src, n) && Possible(n, me, e) && Plain(e)
    ensures NodeFrom(src, After(n, me, e))
  {
    StaysValid(n, me, e);
    PlainKeeps(n, me, e);
    hide After, Possible;
    SameFrom(src, n, After(n, me, e));
  }

  /** What a leader offers is from its log or is its snapshot. */
  lemma SendFrom<C>(src: set<Source<C>>, n: Node<C>, me: nat, server: nat)
    requires NodeFrom(src, n) && server < |n.nextIndex|
    ensures forall m :: m in Outgoing(server, OnSend(n, me, server).1) ==> MessageFrom(src, m)
  {
    assert |n.logs| > 0;
    hide Valid, LogTerm;
    var first := n.lastIncludedIndex;
    var sending := OnSend(n, me, server).1;
    if sending.SendAppend? {
      var a := sending.a;
      var at := a.prevLogIndex + 1 - first;
      forall k | 0 <= k < |a.entries| ensures Started(a.prevLogIndex + 1 + k, a.entries[k]) in src {
        assert a.entries[k] == n.logs[at + k];
        assert Started(first + (at + k), n.logs[at + k]) in src;
      }
    }
  }

  lemma NewMessages<C>(src: set<Source<C>>, y: System<C>, e: Event<C>, m: Message<C>)
    requires Enabled(y, e) && From(src, y) && m in Next(y, e).messages && m !in y.messages
    ensures MessageFrom(src, m)
  {
    hide OnAppendEntries, OnInstallSnapshot, OnSnapshot, OnRequestVote, OnVoteReply, OnAppendReply, OnStart, OnSend,
      OnStartElection, OnSnapshotReply, OnApply, Boot, EndOf;
    if e.Offer? {
      assert NodeFrom(src, y.nodes[e.i]);
      SendFrom(src, y.nodes[e.i], e.i, e.server);
    }
  }

  lemma MessageMore<C>(src: set<Source<C>>, more: set<Source<C>>, m: Message<C>)
    requires MessageFrom(src, m)
    ensures MessageFrom(src + more, m)
  {
  }

  lemma FromStep<C>(src: set<Source<C>>, y: System<C>, e: Event<C>)
    requires Enabled(y, e) && From(src, y)
    ensures From(src + Adds(y, e), Next(y, e))
  {
    var z, more := Next(y, e), Adds(y, e);
    NodeStep(src, y, e);
    NextIsAfter(y, e);
    hide Next, Adds, NodeFrom, MessageFrom, After, Enabled;
    forall i | 0 <= i < |z.nodes| ensures NodeFrom(src + more, z.nodes[i]) {
      if i != e.i { MoreFrom(src, more, y.nodes[i]); }
    }
    forall m | m in z.messages ensures MessageFrom(src + more, m) {
      if m !in y.messages { NewMessages(src, y, e, m); }
      MessageMore(src, more, m);
    }
  }

  // ---- runs ----------------------------------------------------------------------

  lemma InitialFrom<C>(y: System<C>)
    requires Initial(y)
    ensures From({}, y)
  {
  }

  lemma {:induction false} Reachable<C>(run: seq<System<C>>, events: seq<Event<C>>, t: nat)
    requires RaftCluster.IsRun(run, events) && t < |run|
    ensures From(Sources(run, events, t), run[t])
  {
    hide From, Next, Enabled, Adds, Initial;
    if t == 0 {
      InitialFrom(run[0]);
    } else {
      Reachable(run, events, t - 1);
      FromStep(Sources(run, events, t - 1), run[t - 1], events[t - 1]);
    }
  }

  /** Before step `t` a service handed over this snapshot, up to this index. */
  ghost predicate WasMade<C>(events: seq<Event<C>>, t: int, index: int, data: string) {
    exists j :: 0 <= j < t && j < |events| && events[j].Trim? && events[j].index == index && events[j].data == data
  }

  /** Step `j` is a call of Start on a leader that named this index for this entry. */
  ghost predicate StartsEntry<C>(y: System<C>, e: Event<C>, index: int, entry: Entry<C>) {
    && e.Submit? && Sized(y) && e.i < |y.nodes| && y.nodes[e.i].state == Leader
    && OnStart(y.nodes[e.i], e.i, e.command).1 == index
    && entry == Entry(y.nodes[e.i].currentTerm, Some(e.command))
  }

  ghost predicate WasStarted<C>(run: seq<System<C>>, events: seq<Event<C>>, t: int, index: int, entry: Entry<C>) {
    exists j :: 0 <= j < t && j < |events| < |run| && StartsEntry(run[j], events[j], index, entry)
  }

  lemma {:induction false} MadeBefore<C>(run: seq<System<C>>, events: seq<Event<C>>, t: nat, index: int, data: string)
    requires RaftCluster.IsRun(run, events) && t < |run| && Made(index, data) in Sources(run, events, t)
    ensures WasMade(events, t, index, data)
  {
    hide Next, Enabled, OnStart, Initial;
    if Made(index, data) in Sources(run, events, t - 1) {
      MadeBefore(run, events, t - 1, index, data);
    } else {
      assert events[t - 1].Trim?;
    }
  }

  lemma {:induction false} StartedBefore<C>(run: seq<System<C>>, events: seq<Event<C>>, t: nat, index: int,
      entry: Entry<C>)
    requires RaftCluster.IsRun(run, events) && t < |run| && Started(index, entry) in Sources(run, events, t)
    ensures WasStarted(run, events, t, index, entry)
  {
    assert t > 0;
    if Started(index, entry) in Sources(run, events, t - 1) {
      hide Next, Enabled, StartsEntry, Initial;
      StartedBefore(run, events, t - 1, index, entry);
    } else {
      hide Next, OnStart, Initial;
      assert StartsEntry(run[t - 1], events[t - 1], index, entry);
    }
  }

  /** In every run the snapshot that a peer keeps, also over crashes, the snapshot in every message, and the snapshot
      that a peer hands to its service are what some service handed over for this index. */
  lemma SnapshotsWereMade<C>(run: seq<System<C>>, events: seq<Event<C>>, t: nat)
    requires RaftCluster.IsRun(run, events) && t < |run|
    ensures forall i :: 0 <= i < |run[t].nodes| && run[t].nodes[i].lastIncludedIndex > 0 ==>
      WasMade(events, t, run[t].nodes[i].lastIncludedIndex, run[t].nodes[i].snapshot)
    ensures forall to, s :: SnapshotRequest(to, s) in run[t].messages ==>
      s.lastIncludedIndex > 0 && WasMade(events, t, s.lastIncludedIndex, s.data)
    ensures forall i :: 0 <= i < |run[t].nodes| ==> |run[t].nodes[i].logs| > 0
    ensures t < |events| && events[t].Install? ==>
      var handed := OnInstallSnapshot(run[t].nodes[events[t].i], events[t].s).1;
      handed.Some? ==> WasMade(events, t, handed.value.index, handed.value.data)
  {
    var y, src := run[t], Sources(run, events, t);
    Reachable(run, events, t);
    assert forall i :: 0 <= i < |y.nodes| ==> NodeFrom(src, y.nodes[i]);
    hide WasMade, Sources, OnInstallSnapshot;
    forall i | 0 <= i < |y.nodes| && y.nodes[i].lastIncludedIndex > 0
      ensures WasMade(events, t, y.nodes[i].lastIncludedIndex, y.nodes[i].snapshot)
    {
      assert NodeFrom(src, y.nodes[i]);
      MadeBefore(run, events, t, y.nodes[i].lastIncludedIndex, y.nodes[i].snapshot);
    }
    forall to, s | SnapshotRequest(to, s) in y.messages
      ensures s.lastIncludedIndex > 0 && WasMade(events, t, s.lastIncludedIndex, s.data)
    {
      assert MessageFrom(src, SnapshotRequest(to, s));
      MadeBefore(run, events, t, s.lastIncludedIndex, s.data);
    }
    if t < |events| && events[t].Install? {
      var i, args := events[t].i, events[t].s;
      assert Enabled(y, events[t]);
      assert NodeFrom(src, y.nodes[i]) && MessageFrom(src, SnapshotRequest(i, args));
      InstallFrom(src, y.nodes[i], i, args);
      var handed := OnInstallSnapshot(y.nodes[i], args).1;
      if handed.Some? { MadeBefore(run, events, t, handed.value.index, handed.value.data); }
    }
  }

  /** In every run an entry that is applied at an index was put there by a call of Start that named this index. */
  lemma AppliedWasStarted<C>(run: seq<System<C>>, events: seq<Event<C>>, t: nat, index: int, entry: Entry<C>)
    requires RaftCluster.IsRun(run, events) && t < |events| && Applies(run[t], events[t], index, entry)
    ensures WasStarted(run, events, t, index, entry)
  {
    var n := run[t].nodes[events[t].i];
    Reachable(run, events, t);
    assert NodeFrom(Sources(run, events, t), n);
    hide From, RaftCluster.IsRun, WasStarted, Sources;
    assert Started(n.lastIncludedIndex + (index - n.lastIncludedIndex), entry) in Sources(run, events, t);
    StartedBefore(run, events, t, index, entry);
  }
}
