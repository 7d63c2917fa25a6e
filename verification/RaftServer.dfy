/** The Raft peer as an object: each handler changes the fields step by step, in the order of the
    source, and is shown to do what `RaftNode` says. */
module RaftServer {
  import opened Options
  import opened RaftNode
  import Counting
  import Sorting

  class Raft<C> {
    const me: nat
    const peers: nat
    var currentTerm: int
    var votedFor: int
    var logs: seq<Entry<C>>
    var state: Role
    var commitIndex: int
    var lastApplied: int
    var nextIndex: seq<int>
    var matchIndex: seq<int>
    var lastIncludedIndex: int
    var lastIncludedTerm: int
    var votes: set<int>
    var disk: Option<Image<C>>
    var snapshot: string

    function Value(): (r: Node<C>)
      reads this
    {
      Node(currentTerm, votedFor, logs, state, commitIndex, lastApplied, nextIndex, matchIndex,
           lastIncludedIndex, lastIncludedTerm, votes, disk, snapshot)
    }

    constructor (me: nat, peers: nat, disk: Option<Image<C>>, snapshot: string)
      requires me < peers
      ensures this.me == me && this.peers == peers && Value() == Boot(disk, snapshot, peers)
    {
      this.me := me;
      this.peers := peers;
      currentTerm, votedFor, state := 0, -1, Follower;
      logs := [Entry(0, None)];
      lastIncludedIndex, lastIncludedTerm := 0, 0;
      votes := {};
      this.disk, this.snapshot := disk, snapshot;
      nextIndex, matchIndex := [], [];
      commitIndex, lastApplied := 0, 0;
      new;
      FillIndices();
      ReadPersist();
      commitIndex := lastIncludedIndex;
      lastApplied := lastIncludedIndex;
    }

    method FillIndices()
      requires nextIndex == matchIndex == []
      modifies this`nextIndex, this`matchIndex
      ensures nextIndex == seq(peers, _ => 1) && matchIndex == seq(peers, _ => 0)
    {
      var i := 0;
      while i < peers
        invariant 0 <= i <= peers && nextIndex == seq(i, _ => 1) && matchIndex == seq(i, _ => 0)
      {
        nextIndex := nextIndex + [1];
        matchIndex := matchIndex + [0];
        i := i + 1;
      }
    }

    /** An empty disk leaves what the peer starts with. */
    method ReadPersist()
      requires disk.None? ==> ImageOf(Value()) == Stored(disk)
      modifies this`currentTerm, this`votedFor, this`logs, this`lastIncludedIndex, this`lastIncludedTerm
      ensures ImageOf(Value()) == Stored(disk)
    {
      if disk.Some? {
        currentTerm, votedFor, logs := disk.value.currentTerm, disk.value.votedFor, disk.value.logs;
        lastIncludedIndex, lastIncludedTerm := disk.value.lastIncludedIndex, disk.value.lastIncludedTerm;
      }
    }

    method Persist()
      modifies this`disk
      ensures Value() == Saved(old(Value()))
    {
      disk := Some(Image(currentTerm, votedFor, logs, lastIncludedIndex, lastIncludedTerm));
    }

    /** A later term makes the peer a follower that has not voted. */
    method StepDown(term: int)
      modifies this
      ensures Value() == SteppedDown(old(Value()), term)
    {
      currentTerm := term;
      state := Follower;
      votedFor := -1;
      Persist();
    }

    function GetLastLogIndex(): (r: int)
      reads this
      ensures r == Last(Value())
    {
      lastIncludedIndex + |logs| - 1
    }

    function GetLogTerm(raftIndex: int): (r: int)
      requires |logs| > 0
      reads this
      ensures r == LogTerm(Value(), raftIndex)
    {
      if raftIndex == lastIncludedIndex then logs[0].term
      else
        var sliceIndex := raftIndex - lastIncludedIndex;
        if sliceIndex < 0 || sliceIndex >= |logs| then -1 else logs[sliceIndex].term
    }

    method RequestVote(args: VoteArgs) returns (reply: VoteReply)
      requires |logs| > 0
      modifies this
      ensures (Value(), reply) == OnRequestVote(old(Value()), args)
    {
      hide LogTerm, ImageOf;
      var granted := false;
      if args.term >= currentTerm {
        if args.term > currentTerm {
          StepDown(args.term);
        }
        if votedFor == args.candidateId || votedFor == -1 {
          var lastLogIndex := GetLastLogIndex();
          var lastLogTerm := GetLogTerm(lastLogIndex);
          if || lastLogTerm < args.lastLogTerm
             || (lastLogTerm == args.lastLogTerm && lastLogIndex <= args.lastLogIndex) {
            granted := true;
            votedFor := args.candidateId;
            currentTerm := args.term;
            state := Follower;
            Persist();
          }
        }
      }
      reply := VoteReply(currentTerm, granted);
    }

    method AppendEntries(args: AppendArgs<C>) returns (reply: AppendReply)
      requires |logs| > 0
      modifies this
      ensures (Value(), reply) == OnAppendEntries(old(Value()), args)
    {
      hide Merge, Rejection;
      reply := AppendReply(currentTerm, false, 0, 0);
      if args.term < currentTerm {
        return;
      }
      StepDown(args.term);
      if Matches(Value(), args) {
        Accept(args);
        reply := reply.(success := true);
      } else {
        var index, term := Reject(args.prevLogIndex);
        reply := reply.(conflictLogIndex := index, conflictLogTerm := term);
      }
    }

    /** The two branches for a message whose previous entry is in the log: at its end, or before. */
    method Accept(args: AppendArgs<C>)
      requires |logs| > 0 && Matches(Value(), args) && disk == Some(ImageOf(Value()))
      modifies this`logs, this`disk, this`commitIndex
      ensures logs == Merge(old(logs), args.prevLogIndex - lastIncludedIndex + 1, args.entries)
      ensures commitIndex == Min(args.leaderCommit, args.prevLogIndex + |args.entries|)
      ensures disk == Some(ImageOf(Value()))
    {
      if args.prevLogIndex == GetLastLogIndex() {
        AtEnd(logs, args.entries);
        logs := logs + args.entries;
        Persist();
      } else {
        MergeEntries(args);
      }
      var indexOfLastNewEntry := args.prevLogIndex + |args.entries|;
      if args.leaderCommit < indexOfLastNewEntry {
        commitIndex := args.leaderCommit;
      } else {
        commitIndex := indexOfLastNewEntry;
      }
    }

    /** Where the leader should try next. */
    method Reject(prevLogIndex: int) returns (conflictLogIndex: int, conflictLogTerm: int)
      requires |logs| > 0
      ensures (conflictLogIndex, conflictLogTerm) == Rejection(Value(), prevLogIndex)
    {
      if lastIncludedIndex <= prevLogIndex <= GetLastLogIndex() {
        conflictLogTerm := GetLogTerm(prevLogIndex);
        var tempIndex := FindConflict(prevLogIndex - 1, conflictLogTerm);
        conflictLogIndex := tempIndex + 1;
      } else if prevLogIndex < lastIncludedIndex {
        conflictLogIndex, conflictLogTerm := lastIncludedIndex, GetLogTerm(lastIncludedIndex);
      } else {
        conflictLogIndex, conflictLogTerm := GetLastLogIndex() + 1, GetLogTerm(GetLastLogIndex());
      }
    }

    method Add(rest: seq<Entry<C>>)
      modifies this`logs, this`disk
      ensures logs == old(logs) + rest && disk == Some(ImageOf(Value()))
    {
      logs := logs + rest;
      Persist();
    }

    /** The loop that compares the leader's entries with the log one by one. */
    method MergeEntries(args: AppendArgs<C>)
      requires |logs| > 0 && lastIncludedIndex <= args.prevLogIndex <= Last(Value())
      requires disk == Some(ImageOf(Value()))
      modifies this`logs, this`disk
      ensures logs == Merge(old(logs), args.prevLogIndex - lastIncludedIndex + 1, args.entries)
      ensures disk == Some(ImageOf(Value()))
    {
      hide Merge, LogTerm;
      var insertIndex := args.prevLogIndex + 1;
      var entriesIndex := 0;
      assert args.entries[0..] == args.entries;
      ghost var merged := Merge(logs, insertIndex - lastIncludedIndex, args.entries);
      while entriesIndex < |args.entries|
        invariant 0 <= entriesIndex <= |args.entries| && insertIndex == args.prevLogIndex + 1 + entriesIndex
        invariant logs == old(logs) && disk == old(disk) && insertIndex - lastIncludedIndex <= |logs|
        invariant merged == Merge(logs, insertIndex - lastIncludedIndex, args.entries[entriesIndex..])
      {
        MergeStep(logs, insertIndex - lastIncludedIndex, args.entries, entriesIndex);
        if insertIndex > GetLastLogIndex() {
          assert logs[..insertIndex - lastIncludedIndex] == logs;
          Add(args.entries[entriesIndex..]);
          return;
        }
        if GetLogTerm(insertIndex) != args.entries[entriesIndex].term {
          logs := logs[..insertIndex - lastIncludedIndex];
          Add(args.entries[entriesIndex..]);
          return;
        }
        insertIndex := insertIndex + 1;
        entriesIndex := entriesIndex + 1;
      }
      MergeNothing(logs, insertIndex - lastIncludedIndex, args.entries[entriesIndex..]);
    }

    method FindConflict(from: int, term: int) returns (tempIndex: int)
      requires |logs| > 0
      ensures tempIndex + 1 == ConflictFrom(Value(), from, term)
    {
      tempIndex := from;
      while tempIndex > lastIncludedIndex
        invariant ConflictFrom(Value(), tempIndex, term) == ConflictFrom(Value(), from, term)
      {
        if GetLogTerm(tempIndex) < term {
          break;
        }
        tempIndex := tempIndex - 1;
      }
    }

    /** Keeps the log from `index` on; the entry at `index` becomes the dummy head. */
    method TrimTo(index: int)
      requires lastIncludedIndex <= index <= Last(Value())
      modifies this`logs
      ensures logs == Trimmed(old(Value()), index)
    {
      var relativeIndex := index - lastIncludedIndex;
      logs := logs[relativeIndex..];
      logs := logs[0 := logs[0].(command := None)];
    }

    /** What is handed to the service is sent when the lock is free again. */
    method InstallSnapshot(args: SnapshotArgs) returns (message: Option<Delivery>)
      requires |logs| > 0
      modifies this
      ensures (Value(), message) == OnInstallSnapshot(old(Value()), args)
    {
      hide Trimmed, LogTerm, ImageOf;
      message := None;
      if args.term < currentTerm {
        return;
      }
      if args.term > currentTerm {
        StepDown(args.term);
      }
      if args.lastIncludedIndex <= commitIndex {
        return;
      }
      ghost var n := Value();
      if MatchLog(args.lastIncludedIndex, args.lastIncludedTerm) {
        TrimTo(args.lastIncludedIndex);
      } else {
        logs := [Entry(args.lastIncludedTerm, None)];
      }
      Include(args);
      assert Value() == Included(n, args, logs);
      message := Some(Delivery(args.data, args.lastIncludedTerm, args.lastIncludedIndex));
    }

    /** Everything up to the snapshot counts as committed and applied; the log and the snapshot are saved
        together. */
    method Include(args: SnapshotArgs)
      modifies this
      ensures Value() == Included(old(Value()), args, logs) && logs == old(logs)
    {
      hide ImageOf;
      commitIndex := args.lastIncludedIndex;
      lastApplied := args.lastIncludedIndex;
      lastIncludedIndex := args.lastIncludedIndex;
      lastIncludedTerm := args.lastIncludedTerm;
      snapshot := args.data;
      Persist();
    }

    predicate MatchLog(index: int, term: int)
      requires |logs| > 0
      reads this
    {
      if index <= lastIncludedIndex || index > GetLastLogIndex() then false else GetLogTerm(index) == term
    }

    method Snapshot(index: int, data: string)
      requires |logs| > 0 && logs[0].term == lastIncludedTerm
      modifies this
      ensures Value() == OnSnapshot(old(Value()), index, data)
    {
      hide Trimmed, ImageOf;
      if index <= lastIncludedIndex {
        return;
      }
      if index - lastIncludedIndex < |logs| {
        var term := GetLogTerm(index);
        TrimTo(index);
        lastIncludedTerm := term;
      } else {
        logs := [Entry(lastIncludedTerm, None)];
      }
      SaveWith(index, data);
    }

    /** The commit and applied indices never move back; the log and the snapshot are saved together. */
    method SaveWith(index: int, data: string)
      modifies this
      ensures Value() == Saved(old(Value()).(lastIncludedIndex := index, commitIndex := Max(old(commitIndex), index),
        lastApplied := Max(old(lastApplied), index), snapshot := data))
    {
      hide ImageOf;
      lastIncludedIndex := index;
      if commitIndex < lastIncludedIndex {
        commitIndex := lastIncludedIndex;
      }
      if lastApplied < lastIncludedIndex {
        lastApplied := lastIncludedIndex;
      }
      snapshot := data;
      Persist();
    }

    method StartElection() returns (args: VoteArgs)
      requires |logs| > 0
      modifies this
      ensures (Value(), args) == OnStartElection(old(Value()), me)
    {
      hide LogTerm, ImageOf;
      state := Candidate;
      currentTerm := currentTerm + 1;
      votedFor := me;
      votes := {me};
      Persist();
      args := VoteArgs(currentTerm, me, GetLastLogIndex(), GetLogTerm(GetLastLogIndex()));
    }

    /** The new leader sends from the end of its log on, and knows of no log but its own. */
    method Lead()
      requires |nextIndex| == |matchIndex| == peers && me < peers
      modifies this`state, this`nextIndex, this`matchIndex
      ensures Value() == Elected(old(Value()), me)
    {
      state := Leader;
      var currentLastIndex := GetLastLogIndex();
      var j := 0;
      while j < peers
        invariant 0 <= j <= peers && |nextIndex| == |matchIndex| == peers
        invariant forall k :: 0 <= k < j ==> nextIndex[k] == currentLastIndex + 1 && matchIndex[k] == 0
        modifies this`nextIndex, this`matchIndex
      {
        nextIndex := nextIndex[j := currentLastIndex + 1];
        matchIndex := matchIndex[j := 0];
        j := j + 1;
      }
      matchIndex := matchIndex[me := currentLastIndex];
      assert nextIndex == seq(peers, _ => currentLastIndex + 1);
      assert matchIndex == seq(peers, k => if k == me then currentLastIndex else 0);
    }

    method ReceiveVote(server: nat, term: int, reply: VoteReply)
      requires |nextIndex| == |matchIndex| == peers && me < peers
      modifies this
      ensures Value() == OnVoteReply(old(Value()), me, server, term, reply)
    {
      if state != Candidate || currentTerm != term {
        return;
      }
      if reply.term > currentTerm {
        StepDown(reply.term);
        return;
      }
      if reply.granted {
        votes := votes + {server};
        if |votes| > peers / 2 {
          Lead();
        }
      }
    }

    method Start(command: C) returns (index: int, term: int, isLeader: bool)
      requires me < |matchIndex|
      modifies this
      ensures (Value(), index) == OnStart(old(Value()), me, command)
      ensures term == currentTerm && isLeader == (state == Leader)
    {
      index := -1;
      isLeader := state == Leader;
      term := currentTerm;
      if isLeader {
        index := GetLastLogIndex() + 1;
        logs := logs + [Entry(currentTerm, Some(command))];
        Persist();
        matchIndex := matchIndex[me := matchIndex[me] + 1];
      }
    }

    method ReceiveAppend(server: nat, args: AppendArgs<C>, reply: AppendReply) returns (ghost agreed: int)
      requires server < |nextIndex| == |matchIndex| && |logs| > 0
      modifies this
      ensures Value() == OnAppendReply(old(Value()), server, args, reply, agreed)
      ensures old(state) == Leader ==> AgreedAfter(old(Value()), server, args, reply, agreed)
    {
      agreed := 0;
      if reply.term > currentTerm {
        StepDown(reply.term);
        return;
      }
      if args.prevLogIndex != nextIndex[server] - 1 {
        return;
      }
      if reply.success {
        nextIndex := nextIndex[server := args.prevLogIndex + |args.entries| + 1];
        matchIndex := matchIndex[server := args.prevLogIndex + |args.entries|];
        if state == Leader {
          agreed := CommitAgreed();
        }
      } else {
        if reply.conflictLogIndex > 0 {
          if reply.conflictLogIndex < nextIndex[server] {
            nextIndex := nextIndex[server := reply.conflictLogIndex];
          }
        } else {
          nextIndex := nextIndex[server := 1];
        }
      }
    }

    /** Sorts what the peers are known to hold and looks at the middle. */
    method CommitAgreed() returns (ghost agreed: int)
      requires |matchIndex| > 0 && |logs| > 0
      modifies this`commitIndex
      ensures Agreed(matchIndex, agreed)
      ensures var advances := agreed > old(commitIndex) && LogTerm(Value(), agreed) == currentTerm;
        commitIndex == if advances then agreed else old(commitIndex)
    {
      var newMatchIndex := Sorting.Sort(matchIndex, (a: int, b: int) => a < b);
      var targetIndex := (|newMatchIndex| - 1) / 2;
      MiddleIsAgreed(matchIndex, newMatchIndex);
      agreed := newMatchIndex[targetIndex];
      if newMatchIndex[targetIndex] > commitIndex && GetLogTerm(newMatchIndex[targetIndex]) == currentTerm {
        commitIndex := newMatchIndex[targetIndex];
      }
    }

    method ReceiveSnapshot(server: nat, args: SnapshotArgs, term: int)
      requires server < |nextIndex| == |matchIndex|
      modifies this
      ensures Value() == OnSnapshotReply(old(Value()), server, args, term)
    {
      if term > currentTerm {
        StepDown(term);
      } else if args.lastIncludedIndex > matchIndex[server] {
        matchIndex := matchIndex[server := args.lastIncludedIndex];
        nextIndex := nextIndex[server := matchIndex[server] + 1];
      }
    }

    /** One turn of the applier: the entry it hands to the service, if any. */
    method Apply() returns (entry: Option<Entry<C>>)
      requires Valid(Value())
      modifies this
      ensures Value() == OnApply(old(Value()))
      ensures entry == if CanApply(old(Value())) then Some(logs[lastApplied - lastIncludedIndex]) else None
    {
      entry := None;
      if commitIndex > lastApplied {
        lastApplied := lastApplied + 1;
        entry := Some(logs[lastApplied - lastIncludedIndex]);
      }
    }

    /** What the leader sends to one peer. A slice cannot have a negative capacity. */
    method Send(server: nat) returns (r: Sending<C>)
      requires server < |nextIndex| && |logs| > 0
      modifies this`nextIndex
      ensures (Value(), r) == OnSend(old(Value()), me, server)
      ensures r.Panic? <==> state == Leader && nextIndex[server] > Last(Value()) + 1
    {
      if state != Leader {
        return Silent;
      }
      if nextIndex[server] <= 0 {
        nextIndex := nextIndex[server := 1];
      }
      assert nextIndex == old(nextIndex)[server := Max(old(nextIndex[server]), 1)];
      if nextIndex[server] > lastIncludedIndex {
        var endIndex := nextIndex[server] + 200;
        if endIndex > GetLastLogIndex() + 1 {
          endIndex := GetLastLogIndex() + 1;
        }
        var capacity := endIndex - nextIndex[server];
        if capacity < 0 {
          return Panic;
        }
        var entries := Collect(nextIndex[server], endIndex);
        assert capacity == Min(200, Last(Value()) + 1 - nextIndex[server]);
        var term := GetLogTerm(nextIndex[server] - 1);
        r := SendAppend(AppendArgs(currentTerm, me, nextIndex[server] - 1, term, commitIndex, entries));
      } else {
        r := SendSnapshot(SnapshotArgs(currentTerm, me, lastIncludedIndex, lastIncludedTerm, snapshot));
      }
    }

    method Collect(from: int, end: int) returns (entries: seq<Entry<C>>)
      requires lastIncludedIndex < from <= end <= Last(Value()) + 1
      ensures entries == logs[from - lastIncludedIndex..end - lastIncludedIndex]
    {
      entries := [];
      var j := from;
      while j < end
        invariant from <= j <= end && entries == logs[from - lastIncludedIndex..j - lastIncludedIndex]
      {
        entries := entries + [logs[j - lastIncludedIndex]];
        j := j + 1;
      }
    }
  }

  lemma MergeStep<C>(log: seq<Entry<C>>, at: nat, entries: seq<Entry<C>>, i: nat)
    requires at <= |log| && i < |entries|
    ensures Merge(log, at, entries[i..]) ==
      if at == |log| || log[at].term != entries[i].term then log[..at] + entries[i..]
      else Merge(log, at + 1, entries[i + 1..])
  {
    assert entries[i..][1..] == entries[i + 1..];
  }

  lemma MergeNothing<C>(log: seq<Entry<C>>, at: nat, entries: seq<Entry<C>>)
    requires at <= |log| && entries == []
    ensures Merge(log, at, entries) == log
  {
  }

  lemma AtEnd<C>(log: seq<Entry<C>>, entries: seq<Entry<C>>)
    ensures Merge(log, |log|, entries) == log + entries
  {
  }

  lemma {:induction false} HoldingPermuted(a: seq<int>, b: seq<int>, index: int)
    requires multiset(a) == multiset(b)
    ensures Holding(a, index) == Holding(b, index)
  {
    if a == [] {
      assert |multiset(b)| == 0;
    } else {
      var n := |a| - 1;
      assert a[n] in multiset(b);
      var j :| 0 <= j < |b| && b[j] == a[n];
      Counting.RemoveAt(a, n);
      Counting.RemoveAt(b, j);
      assert a[..n] + a[n + 1..] == a[..n];
      HoldingPermuted(a[..n], b[..j] + b[j + 1..], index);
      HoldingWithout(b, j, index);
    }
  }

  lemma HoldingWithout(s: seq<int>, j: nat, index: int)
    requires j < |s|
    ensures Holding(s, index) == Holding(s[..j] + s[j + 1..], index) + if s[j] >= index then 1 else 0
  {
    assert s == s[..j] + [s[j]] + s[j + 1..];
    HoldingConcat(s[..j] + [s[j]], s[j + 1..], index);
    HoldingConcat(s[..j], [s[j]], index);
    HoldingConcat(s[..j], s[j + 1..], index);
  }

  lemma {:induction false} HoldingConcat(a: seq<int>, b: seq<int>, index: int)
    ensures Holding(a + b, index) == Holding(a, index) + Holding(b, index)
  {
    if b == [] {
      assert a + b == a;
    } else {
      var n := |b| - 1;
      assert (a + b)[..|a + b| - 1] == a + b[..n];
      HoldingConcat(a, b[..n], index);
    }
  }

  lemma {:induction false} HoldingAll(a: seq<int>, index: int)
    ensures (forall i :: 0 <= i < |a| ==> a[i] >= index) ==> Holding(a, index) == |a|
    ensures (forall i :: 0 <= i < |a| ==> a[i] < index) ==> Holding(a, index) == 0
  {
    if a != [] { HoldingAll(a[..|a| - 1], index); }
  }

  /** The middle of the sorted indices is the highest one that a majority holds. */
  lemma MiddleIsAgreed(known: seq<int>, sorted: seq<int>)
    requires known != [] && multiset(sorted) == multiset(known)
    requires Sorting.SortedBy(sorted, (a: int, b: int) => a < b)
    ensures |sorted| == |known| && Agreed(known, sorted[(|sorted| - 1) / 2])
  {
    assert |multiset(sorted)| == |multiset(known)|;
    forall i, j | 0 <= i < j < |sorted| ensures sorted[i] <= sorted[j] {}
    forall i ensures Holding(known, i) > |known| / 2 <==> i <= sorted[(|sorted| - 1) / 2] {
      HoldingPermuted(known, sorted, i);
      HoldingSorted(sorted, (|sorted| - 1) / 2, i);
    }
  }

  lemma HoldingSorted(s: seq<int>, t: nat, index: int)
    requires t < |s| && forall i, j :: 0 <= i < j < |s| ==> s[i] <= s[j]
    ensures index <= s[t] ==> Holding(s, index) >= |s| - t
    ensures index > s[t] ==> Holding(s, index) < |s| - t
  {
    hide Holding;
    if index <= s[t] {
      HoldingConcat(s[..t], s[t..], index);
      HoldingAll(s[t..], index);
      assert s == s[..t] + s[t..];
    } else {
      HoldingConcat(s[..t + 1], s[t + 1..], index);
      HoldingAll(s[..t + 1], index);
      assert s == s[..t + 1] + s[t + 1..];
    }
  }
}
