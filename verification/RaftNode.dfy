/** One Raft peer: what each handler does to its state. */
module RaftNode {
  import opened Options

  datatype Role = Leader | Follower | Candidate

  datatype Entry<+C> = Entry(term: int, command: Option<C>)

  /** What a peer keeps on disk. */
  datatype Image<+C> = Image(currentTerm: int, votedFor: int, logs: seq<Entry<C>>,
    lastIncludedIndex: int, lastIncludedTerm: int)

  /** `logs[0]` stands for everything up to `lastIncludedIndex`. `votes` are the peers whose grant
      the current election has counted. `disk` is None before the first save; `snapshot` is on disk, too. */
  datatype Node<+C> = Node(currentTerm: int, votedFor: int, logs: seq<Entry<C>>, state: Role, commitIndex: int,
    lastApplied: int, nextIndex: seq<int>, matchIndex: seq<int>, lastIncludedIndex: int, lastIncludedTerm: int,
    votes: set<int>, disk: Option<Image<C>>, snapshot: string)

  datatype VoteArgs = VoteArgs(term: int, candidateId: int, lastLogIndex: int, lastLogTerm: int)
  datatype VoteReply = VoteReply(term: int, granted: bool)
  datatype AppendArgs<+C> = AppendArgs(term: int, leaderId: int, prevLogIndex: int, prevLogTerm: int,
    leaderCommit: int, entries: seq<Entry<C>>)
  datatype AppendReply = AppendReply(term: int, success: bool, conflictLogIndex: int, conflictLogTerm: int)
  datatype SnapshotArgs = SnapshotArgs(term: int, leaderId: int, lastIncludedIndex: int, lastIncludedTerm: int,
    data: string)

  /** A snapshot handed to the service. */
  datatype Delivery = Delivery(data: string, term: int, index: int)

  /** What a leader sends to one peer. */
  datatype Sending<+C> = Silent | SendAppend(a: AppendArgs<C>) | SendSnapshot(s: SnapshotArgs) | Panic

  function ImageOf<C>(n: Node<C>): (r: Image<C>) {
    Image(n.currentTerm, n.votedFor, n.logs, n.lastIncludedIndex, n.lastIncludedTerm)
  }

  function Saved<C>(n: Node<C>): (r: Node<C>) {
    n.(disk := Some(ImageOf(n)))
  }

  /** What a restart finds. */
  function Stored<C>(disk: Option<Image<C>>): (r: Image<C>) {
    if disk.Some? then disk.value else Image(0, -1, [Entry(0, None)], 0, 0)
  }

  function Last<C>(n: Node<C>): (r: int) {
    n.lastIncludedIndex + |n.logs| - 1
  }

  /** The term of an entry, or -1 for an index the log does not reach. */
  function LogTerm<C>(n: Node<C>, index: int): (r: int)
    requires |n.logs| > 0
  {
    if n.lastIncludedIndex <= index <= Last(n) then n.logs[index - n.lastIncludedIndex].term else -1
  }

  function Boot<C>(disk: Option<Image<C>>, snapshot: string, peers: nat): (r: Node<C>) {
    var i := Stored(disk);
    Node(i.currentTerm, i.votedFor, i.logs, Follower, i.lastIncludedIndex, i.lastIncludedIndex,
         seq(peers, _ => 1), seq(peers, _ => 0), i.lastIncludedIndex, i.lastIncludedTerm, {}, disk, snapshot)
  }

  function SteppedDown<C>(n: Node<C>, term: int): (r: Node<C>) {
    Saved(n.(currentTerm := term, state := Follower, votedFor := -1))
  }

  function UpToDate<C>(n: Node<C>, args: VoteArgs): (r: bool)
    requires |n.logs| > 0
  {
    var mine := LogTerm(n, Last(n));
    mine < args.lastLogTerm || (mine == args.lastLogTerm && Last(n) <= args.lastLogIndex)
  }

  function OnRequestVote<C>(n: Node<C>, args: VoteArgs): (r: (Node<C>, VoteReply))
    requires |n.logs| > 0
  {
    if args.term < n.currentTerm then (n, VoteReply(n.currentTerm, false))
    else
      var m := if args.term > n.currentTerm then SteppedDown(n, args.term) else n;
      if (m.votedFor == args.candidateId || m.votedFor == -1) && UpToDate(m, args)
      then (Saved(m.(votedFor := args.candidateId, state := Follower)), VoteReply(args.term, true))
      else (m, VoteReply(args.term, false))
  }

  /** The follower's log after a leader's entries from position `at` on: entries that agree in term are
      kept, the first disagreement cuts the log. */
  function Merge<C>(log: seq<Entry<C>>, at: nat, entries: seq<Entry<C>>): (r: seq<Entry<C>>)
    requires at <= |log|
    ensures |r| >= at + |entries| && r[..at] == log[..at]
    decreases |entries|
  {
    if entries == [] then log
    else if at == |log| || log[at].term != entries[0].term then log[..at] + entries
    else Merge(log, at + 1, entries[1..])
  }

  lemma CutBehind<C>(pre: seq<Entry<C>>, log: seq<Entry<C>>, at: nat, entries: seq<Entry<C>>)
    requires 0 < at <= |log|
    ensures (pre + log[1..])[..|pre| + at - 1] + entries == pre + (log[..at] + entries)[1..]
  {
    assert (pre + log[1..])[..|pre| + at - 1] == pre + log[1..][..at - 1];
    assert (log[..at] + entries)[1..] == log[1..][..at - 1] + entries;
  }

  /** Other entries may stand before those that are merged. */
  lemma {:induction false} MergeBehind<C>(pre: seq<Entry<C>>, log: seq<Entry<C>>, at: nat, entries: seq<Entry<C>>)
    requires 0 < at <= |log|
    ensures Merge(pre + log[1..], |pre| + at - 1, entries) == pre + Merge(log, at, entries)[1..]
    decreases |entries|
  {
    if entries != [] {
      assert at < |log| ==> (pre + log[1..])[|pre| + at - 1] == log[at];
      if at < |log| && log[at].term == entries[0].term {
        MergeBehind(pre, log, at + 1, entries[1..]);
      } else {
        CutBehind(pre, log, at, entries);
      }
    }
  }

  /** Where the run of entries of the conflicting term, or of later terms, begins. */
  function ConflictFrom<C>(n: Node<C>, index: int, term: int): (r: int)
    requires |n.logs| > 0
    decreases index - n.lastIncludedIndex
  {
    if index > n.lastIncludedIndex && LogTerm(n, index) >= term then ConflictFrom(n, index - 1, term) else index + 1
  }

  /** The leader is sent back to the first entry behind the last one of a smaller term. */
  lemma {:induction false} ConflictRange<C>(n: Node<C>, index: int, term: int)
    requires |n.logs| > 0 && n.lastIncludedIndex <= index <= Last(n)
    ensures var from := ConflictFrom(n, index, term);
      && n.lastIncludedIndex < from <= index + 1
      && (forall i :: from <= i <= index ==> LogTerm(n, i) >= term)
      && (from - 1 == n.lastIncludedIndex || LogTerm(n, from - 1) < term)
    decreases index - n.lastIncludedIndex
  {
    if index > n.lastIncludedIndex && LogTerm(n, index) >= term { ConflictRange(n, index - 1, term); }
  }

  predicate Matches<C>(n: Node<C>, args: AppendArgs<C>)
    requires |n.logs| > 0
  {
    n.lastIncludedIndex <= args.prevLogIndex <= Last(n) && args.prevLogTerm == LogTerm(n, args.prevLogIndex)
  }

  function Min(a: int, b: int): (r: int) {
    if a < b then a else b
  }

  function Rejection<C>(n: Node<C>, prev: int): (r: (int, int))
    requires |n.logs| > 0
  {
    if prev < n.lastIncludedIndex then (n.lastIncludedIndex, LogTerm(n, n.lastIncludedIndex))
    else if prev > Last(n) then (Last(n) + 1, LogTerm(n, Last(n)))
    else (ConflictFrom(n, prev - 1, LogTerm(n, prev)), LogTerm(n, prev))
  }

  function OnAppendEntries<C>(n: Node<C>, args: AppendArgs<C>): (r: (Node<C>, AppendReply))
    requires |n.logs| > 0
  {
    if args.term < n.currentTerm then (n, AppendReply(n.currentTerm, false, 0, 0))
    else
      var m := SteppedDown(n, args.term);
      if Matches(m, args) then
        (Saved(m.(logs := Merge(m.logs, args.prevLogIndex - m.lastIncludedIndex + 1, args.entries),
                  commitIndex := Min(args.leaderCommit, args.prevLogIndex + |args.entries|))),
         AppendReply(n.currentTerm, true, 0, 0))
      else
        var (index, term) := Rejection(m, args.prevLogIndex);
        (m, AppendReply(n.currentTerm, false, index, term))
  }

  /** The log from `index` on, with the entry at `index` turned into the dummy head. */
  function Trimmed<C>(n: Node<C>, index: int): (r: seq<Entry<C>>)
    requires n.lastIncludedIndex <= index <= Last(n)
  {
    var at := index - n.lastIncludedIndex;
    [Entry(n.logs[at].term, None)] + n.logs[at + 1..]
  }

  /** The peer after a leader's snapshot, and what it hands to the service. */
  function OnInstallSnapshot<C>(n: Node<C>, args: SnapshotArgs): (r: (Node<C>, Option<Delivery>))
    requires |n.logs| > 0
  {
    if args.term < n.currentTerm then (n, None)
    else
      var m := if args.term > n.currentTerm then SteppedDown(n, args.term) else n;
      var index := args.lastIncludedIndex;
      if index <= m.commitIndex then (m, None)
      else
        var logs := if m.lastIncludedIndex < index <= Last(m) && LogTerm(m, index) == args.lastIncludedTerm
          then Trimmed(m, index) else [Entry(args.lastIncludedTerm, None)];
        (Included(m, args, logs), Some(Delivery(args.data, args.lastIncludedTerm, index)))
  }

  function Included<C>(n: Node<C>, args: SnapshotArgs, logs: seq<Entry<C>>): (r: Node<C>) {
    var index := args.lastIncludedIndex;
    Saved(n.(logs := logs, commitIndex := index, lastApplied := index, lastIncludedIndex := index,
             lastIncludedTerm := args.lastIncludedTerm, snapshot := args.data))
  }

  function Max(a: int, b: int): (r: int) {
    if a < b then b else a
  }

  function OnSnapshot<C>(n: Node<C>, index: int, data: string): (r: Node<C>)
    requires |n.logs| > 0
  {
    if index <= n.lastIncludedIndex then n
    else
      var term := if index <= Last(n) then LogTerm(n, index) else n.lastIncludedTerm;
      var logs := if index <= Last(n) then Trimmed(n, index) else [Entry(term, None)];
      Saved(n.(logs := logs, lastIncludedIndex := index, lastIncludedTerm := term,
               commitIndex := Max(n.commitIndex, index), lastApplied := Max(n.lastApplied, index), snapshot := data))
  }

  function OnStartElection<C>(n: Node<C>, me: nat): (r: (Node<C>, VoteArgs))
    requires |n.logs| > 0
  {
    var m := Saved(n.(state := Candidate, currentTerm := n.currentTerm + 1, votedFor := me, votes := {me}));
    (m, VoteArgs(m.currentTerm, me, Last(m), LogTerm(m, Last(m))))
  }

  function OnVoteReply<C>(n: Node<C>, me: nat, server: nat, term: int, reply: VoteReply): (r: Node<C>) {
    if n.state != Candidate || n.currentTerm != term then n
    else if reply.term > n.currentTerm then SteppedDown(n, reply.term)
    else if !reply.granted then n
    else
      var m := n.(votes := n.votes + {server});
      if |m.votes| > |n.nextIndex| / 2 then Elected(m, me) else m
  }

  function Elected<C>(n: Node<C>, me: nat): (r: Node<C>) {
    var peers := |n.nextIndex|;
    n.(state := Leader, nextIndex := seq(peers, _ => Last(n) + 1),
       matchIndex := seq(peers, j => if j == me then Last(n) else 0))
  }

  function OnStart<C>(n: Node<C>, me: nat, command: C): (r: (Node<C>, int))
    requires me < |n.matchIndex|
  {
    if n.state != Leader then (n, -1)
    else
      var logs := n.logs + [Entry(n.currentTerm, Some(command))];
      (Saved(n.(logs := logs, matchIndex := n.matchIndex[me := n.matchIndex[me] + 1])), Last(n) + 1)
  }

  /** How many of the peers are known to hold everything up to `index`. */
  ghost function Holding(known: seq<int>, index: int): (r: nat)
    ensures r <= |known|
  {
    if known == [] then 0
    else Holding(known[..|known| - 1], index) + if known[|known| - 1] >= index then 1 else 0
  }

  /** `index` is the highest one that a majority is known to hold. */
  ghost predicate Agreed(known: seq<int>, index: int) {
    forall i :: Holding(known, i) > |known| / 2 <==> i <= index
  }

  /** The answer of a peer that took the entries offered to it at its next index. */
  predicate Moves<C>(n: Node<C>, server: nat, args: AppendArgs<C>, reply: AppendReply)
    requires server < |n.nextIndex|
  {
    reply.term <= n.currentTerm && args.prevLogIndex == n.nextIndex[server] - 1 && reply.success
  }

  /** `agreed` is what a majority then holds. */
  ghost predicate AgreedAfter<C>(n: Node<C>, server: nat, args: AppendArgs<C>, reply: AppendReply, agreed: int)
    requires server < |n.nextIndex| == |n.matchIndex|
  {
    Moves(n, server, args, reply) ==> Agreed(n.matchIndex[server := args.prevLogIndex + |args.entries|], agreed)
  }

  ghost function OnAppendReply<C>(n: Node<C>, server: nat, args: AppendArgs<C>, reply: AppendReply, agreed: int)
    : (r: Node<C>)
    requires server < |n.nextIndex| == |n.matchIndex| && |n.logs| > 0
  {
    if reply.term > n.currentTerm then SteppedDown(n, reply.term)
    else if args.prevLogIndex != n.nextIndex[server] - 1 then n
    else if reply.success then
      var held := args.prevLogIndex + |args.entries|;
      var m := n.(nextIndex := n.nextIndex[server := held + 1], matchIndex := n.matchIndex[server := held]);
      if m.state == Leader && agreed > m.commitIndex && LogTerm(m, agreed) == m.currentTerm
      then m.(commitIndex := agreed) else m
    else if reply.conflictLogIndex <= 0 then n.(nextIndex := n.nextIndex[server := 1])
    else n.(nextIndex := n.nextIndex[server := Min(reply.conflictLogIndex, n.nextIndex[server])])
  }

  function OnSnapshotReply<C>(n: Node<C>, server: nat, args: SnapshotArgs, term: int): (r: Node<C>)
    requires server < |n.nextIndex| == |n.matchIndex|
  {
    if term > n.currentTerm then SteppedDown(n, term)
    else if args.lastIncludedIndex <= n.matchIndex[server] then n
    else n.(matchIndex := n.matchIndex[server := args.lastIncludedIndex],
            nextIndex := n.nextIndex[server := args.lastIncludedIndex + 1])
  }

  /** What a leader sends to a peer: at most 200 entries from the peer's next index on, or its snapshot if it no
      longer has them. Beyond the end of the log it asks for a slice of negative capacity. */
  function OnSend<C>(n: Node<C>, me: nat, server: nat): (r: (Node<C>, Sending<C>))
    requires server < |n.nextIndex| && |n.logs| > 0
  {
    if n.state != Leader then (n, Silent)
    else
      var next := Max(n.nextIndex[server], 1);
      var m := n.(nextIndex := n.nextIndex[server := next]);
      if next <= n.lastIncludedIndex
      then (m, SendSnapshot(SnapshotArgs(n.currentTerm, me, n.lastIncludedIndex, n.lastIncludedTerm, n.snapshot)))
      else if next > Last(n) + 1 then (m, Panic)
      else
        var at := next - n.lastIncludedIndex;
        var entries := n.logs[at..at + Min(200, Last(n) + 1 - next)];
        (m, SendAppend(AppendArgs(n.currentTerm, me, next - 1, LogTerm(n, next - 1), n.commitIndex, entries)))
  }

  predicate CanApply<C>(n: Node<C>) {
    n.commitIndex > n.lastApplied
  }

  function OnApply<C>(n: Node<C>): (r: Node<C>) {
    if CanApply(n) then n.(lastApplied := n.lastApplied + 1) else n
  }

  /** What every handler keeps. */
  ghost predicate Valid<C>(n: Node<C>) {
    && Stored(n.disk) == ImageOf(n)
    && n.currentTerm >= 0
    && |n.logs| > 0 && n.logs[0].term == n.lastIncludedTerm
    && n.lastIncludedIndex <= n.lastApplied
    && n.commitIndex <= Last(n)
    && |n.nextIndex| == |n.matchIndex|
  }

  datatype Input<+C> =
    | RequestVote(v: VoteArgs)
    | AppendEntries(a: AppendArgs<C>)
    | InstallSnapshot(i: SnapshotArgs)
    | Snapshot(index: int, data: string)
    | StartElection
    | ReceiveVote(server: nat, term: int, vr: VoteReply)
    | Start(command: C)
    | ReceiveAppend(server: nat, a: AppendArgs<C>, ar: AppendReply, agreed: int)
    | ReceiveSnapshot(server: nat, i: SnapshotArgs, term: int)
    | Send(server: nat)
    | Apply
    | Restart

  ghost predicate Possible<C>(n: Node<C>, me: nat, e: Input<C>) {
    match e
    case Start(_) => me < |n.matchIndex|
    case ReceiveAppend(server, _, _, _) => server < |n.nextIndex| == |n.matchIndex|
    case ReceiveSnapshot(server, _, _) => server < |n.nextIndex| == |n.matchIndex|
    case Send(server) => server < |n.nextIndex|
    case _ => true
  }

  ghost function After<C>(n: Node<C>, me: nat, e: Input<C>): (r: Node<C>)
    requires |n.logs| > 0 && Possible(n, me, e)
  {
    match e
    case RequestVote(args) => OnRequestVote(n, args).0
    case AppendEntries(args) => OnAppendEntries(n, args).0
    case InstallSnapshot(args) => OnInstallSnapshot(n, args).0
    case Snapshot(index, data) => OnSnapshot(n, index, data)
    case StartElection => OnStartElection(n, me).0
    case ReceiveVote(server, term, reply) => OnVoteReply(n, me, server, term, reply)
    case Start(command) => OnStart(n, me, command).0
    case ReceiveAppend(server, args, reply, agreed) => OnAppendReply(n, server, args, reply, agreed)
    case ReceiveSnapshot(server, args, term) => OnSnapshotReply(n, server, args, term)
    case Send(server) => OnSend(n, me, server).0
    case Apply => OnApply(n)
    case Restart => Boot(n.disk, n.snapshot, |n.nextIndex|)
  }

  ghost predicate Keeps<C>(n: Node<C>, m: Node<C>) {
    Valid(m) && m.currentTerm >= n.currentTerm && |m.nextIndex| == |n.nextIndex|
  }

  /** Every handler, in whatever order they come, keeps the node valid and never lowers the term. */
  lemma StaysValid<C>(n: Node<C>, me: nat, e: Input<C>)
    requires Valid(n) && Possible(n, me, e)
    ensures Keeps(n, After(n, me, e))
  {
    hide OnAppendEntries, OnInstallSnapshot, OnSnapshot, OnRequestVote, OnVoteReply, OnAppendReply;
    match e
    case RequestVote(args) => VoteValid(n, args);
    case AppendEntries(args) => AppendValid(n, args);
    case InstallSnapshot(args) => InstallValid(n, args);
    case Snapshot(index, data) => SnapshotValid(n, index, data);
    case ReceiveVote(server, term, reply) => ReceiveVoteValid(n, me, server, term, reply);
    case ReceiveAppend(server, args, reply, agreed) => ReceiveAppendValid(n, server, args, reply, agreed);
    case _ =>
  }

  lemma VoteValid<C>(n: Node<C>, args: VoteArgs)
    requires Valid(n)
    ensures Keeps(n, OnRequestVote(n, args).0)
  {
  }

  lemma ReceiveVoteValid<C>(n: Node<C>, me: nat, server: nat, term: int, reply: VoteReply)
    requires Valid(n)
    ensures Keeps(n, OnVoteReply(n, me, server, term, reply))
  {
  }

  lemma ReceiveAppendValid<C>(n: Node<C>, server: nat, args: AppendArgs<C>, reply: AppendReply, agreed: int)
    requires Valid(n) && server < |n.nextIndex|
    ensures Keeps(n, OnAppendReply(n, server, args, reply, agreed))
  {
  }

  lemma InstallValid<C>(n: Node<C>, args: SnapshotArgs)
    requires Valid(n)
    ensures Keeps(n, OnInstallSnapshot(n, args).0)
  {
  }

  lemma SnapshotValid<C>(n: Node<C>, index: int, data: string)
    requires Valid(n)
    ensures Keeps(n, OnSnapshot(n, index, data))
  {
  }

  lemma AppendValid<C>(n: Node<C>, args: AppendArgs<C>)
    requires Valid(n)
    ensures Keeps(n, OnAppendEntries(n, args).0)
  {
    var m := SteppedDown(n, args.term);
    if args.term >= n.currentTerm && Matches(m, args) {
      var at := args.prevLogIndex - m.lastIncludedIndex + 1;
      assert Merge(m.logs, at, args.entries)[0] == Merge(m.logs, at, args.entries)[..at][0];
    }
  }

  ghost predicate IsRun<C>(me: nat, run: seq<Node<C>>, events: seq<Input<C>>) {
    && |run| == |events| + 1 && run[0] == Boot(None, "", |run[0].nextIndex|)
    && forall i :: 0 <= i < |events| ==>
      |run[i].logs| > 0 && Possible(run[i], me, events[i]) && run[i + 1] == After(run[i], me, events[i])
  }

  /** In every run of one peer: the disk always holds the term, vote and log in memory; the term never
      falls; and the entry that is applied next is in the log. */
  lemma {:induction false} NodeInvariant<C>(me: nat, run: seq<Node<C>>, events: seq<Input<C>>, i: nat)
    requires IsRun(me, run, events) && i < |run|
    ensures Valid(run[i])
    ensures i > 0 ==> run[i].currentTerm >= run[i - 1].currentTerm
    ensures CanApply(run[i]) ==> 0 < run[i].lastApplied + 1 - run[i].lastIncludedIndex < |run[i].logs|
  {
    hide After, Possible;
    if i > 0 {
      NodeInvariant(me, run, events, i - 1);
      StaysValid(run[i - 1], me, events[i - 1]);
    }
  }
}
