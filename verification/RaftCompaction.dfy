/** A peer that trims its log votes, answers and offers entries like one that keeps all of it, as long as nobody asks
    for what it has trimmed. */
module RaftCompaction {
  import opened Options
  import opened RaftNode

  /** `c` is `f` with everything up to `c.lastIncludedIndex` replaced by the dummy head. */
  ghost predicate Compacts<C>(c: Node<C>, f: Node<C>) {
    && f.lastIncludedIndex == 0 && 0 <= c.lastIncludedIndex < |f.logs| && f.logs[0].command == None
    && c.logs == Cut(f.logs, c.lastIncludedIndex)
    && c.currentTerm == f.currentTerm && c.votedFor == f.votedFor && c.state == f.state && c.votes == f.votes
    && c.nextIndex == f.nextIndex && c.matchIndex == f.matchIndex
  }

  ghost function Cut<C>(logs: seq<Entry<C>>, k: nat): (r: seq<Entry<C>>)
    requires k < |logs|
  {
    [Entry(logs[k].term, None)] + logs[k + 1..]
  }

  lemma SameTerms<C>(c: Node<C>, f: Node<C>)
    requires Compacts(c, f)
    ensures Last(c) == Last(f) && forall i :: c.lastIncludedIndex <= i <= Last(c) ==> LogTerm(c, i) == LogTerm(f, i)
  {
  }

  lemma MergeCut<C>(logs: seq<Entry<C>>, k: nat, at: nat, entries: seq<Entry<C>>)
    requires k < at <= |logs|
    ensures Merge(Cut(logs, k), at - k, entries) == Cut(Merge(logs, at, entries), k)
    ensures logs[0] == Merge(logs, at, entries)[0]
  {
    hide Merge;
    var c, m, r := Cut(logs, k), Merge(Cut(logs, k), at - k, entries), Merge(logs, at, entries);
    assert logs == logs[..k + 1] + c[1..];
    MergeBehind(logs[..k + 1], c, at - k, entries);
    assert m[0] == m[..at - k][0] == c[0];
    assert r[0] == r[..at][0] && r[k] == r[..at][k];
    assert r[k + 1..] == m[1..];
  }

  lemma AppendSame<C>(c: Node<C>, f: Node<C>, args: AppendArgs<C>)
    requires Compacts(c, f) && (args.term < c.currentTerm || c.lastIncludedIndex <= args.prevLogIndex)
    ensures var (a, p) := OnAppendEntries(c, args); var (b, q) := OnAppendEntries(f, args);
      Compacts(a, b) && p.success == q.success && p.term == q.term
  {
    hide Merge, LogTerm, Rejection, Cut;
    if args.term >= c.currentTerm {
      var m, g := SteppedDown(c, args.term), SteppedDown(f, args.term);
      SameTerms(m, g);
      assert Matches(m, args) == Matches(g, args);
      if Matches(m, args) {
        MergeCut(f.logs, c.lastIncludedIndex, args.prevLogIndex + 1, args.entries);
      }
    }
  }

  /** Behind its snapshot a peer refuses, whatever a full log would say. */
  lemma BelowSnapshotRefused<C>(c: Node<C>, args: AppendArgs<C>)
    requires |c.logs| > 0 && args.prevLogIndex < c.lastIncludedIndex
    ensures !OnAppendEntries(c, args).1.success && OnAppendEntries(c, args).0.logs == c.logs
  {
  }

  lemma VoteSame<C>(c: Node<C>, f: Node<C>, args: VoteArgs)
    requires Compacts(c, f)
    ensures var (a, p) := OnRequestVote(c, args); var (b, q) := OnRequestVote(f, args); Compacts(a, b) && p == q
  {
    SameTerms(c, f);
    SameTerms(SteppedDown(c, args.term), SteppedDown(f, args.term));
    hide LogTerm, Cut;
  }

  lemma ElectionSame<C>(c: Node<C>, f: Node<C>, me: nat)
    requires Compacts(c, f)
    ensures var (a, p) := OnStartElection(c, me); var (b, q) := OnStartElection(f, me); Compacts(a, b) && p == q
  {
    SameTerms(OnStartElection(c, me).0, OnStartElection(f, me).0);
    hide LogTerm, Cut;
  }

  lemma StartSame<C>(c: Node<C>, f: Node<C>, me: nat, command: C)
    requires Compacts(c, f) && me < |c.matchIndex|
    ensures var (a, p) := OnStart(c, me, command); var (b, q) := OnStart(f, me, command); Compacts(a, b) && p == q
  {
    SameTerms(c, f);
    var entry := Entry(c.currentTerm, Some(command));
    assert Cut(f.logs + [entry], c.lastIncludedIndex) == Cut(f.logs, c.lastIncludedIndex) + [entry];
    hide Cut;
  }

  /** Trimming at an entry of the log loses nothing, and trimming beyond it does. */
  lemma TrimSame<C>(c: Node<C>, f: Node<C>, index: int, data: string)
    requires Compacts(c, f)
    ensures Compacts(OnSnapshot(c, index, data), f) <==> index <= Last(c)
  {
    SameTerms(c, f);
    if c.lastIncludedIndex < index <= Last(c) {
      assert c.logs[index - c.lastIncludedIndex + 1..] == f.logs[index + 1..];
      assert c.logs[index - c.lastIncludedIndex] == f.logs[index];
    }
  }

  lemma ReceiveVoteSame<C>(c: Node<C>, f: Node<C>, me: nat, server: nat, term: int, reply: VoteReply)
    requires Compacts(c, f)
    ensures Compacts(OnVoteReply(c, me, server, term, reply), OnVoteReply(f, me, server, term, reply))
  {
    SameTerms(c, f);
    hide Cut, LogTerm;
  }

  lemma ReceiveAppendSame<C>(c: Node<C>, f: Node<C>, server: nat, args: AppendArgs<C>, reply: AppendReply, agreed: int)
    requires Compacts(c, f) && server < |c.nextIndex| == |c.matchIndex|
    ensures Compacts(OnAppendReply(c, server, args, reply, agreed), OnAppendReply(f, server, args, reply, agreed))
  {
    hide Cut, LogTerm;
  }

  lemma RepliesSame<C>(c: Node<C>, f: Node<C>, me: nat, e: Input<C>)
    requires Valid(c) && Valid(f) && Compacts(c, f) && Possible(c, me, e)
    requires e.ReceiveVote? || e.ReceiveAppend? || e.ReceiveSnapshot? || e.Apply? || e.Restart?
    ensures Compacts(After(c, me, e), After(f, me, e))
  {
    hide Cut, LogTerm, OnVoteReply, OnAppendReply;
    match e
    case ReceiveVote(server, term, reply) => ReceiveVoteSame(c, f, me, server, term, reply);
    case ReceiveAppend(server, args, reply, agreed) => ReceiveAppendSame(c, f, server, args, reply, agreed);
    case _ =>
  }

  /** A leader that still has what the peer needs offers the same entries. */
  lemma SendSame<C>(c: Node<C>, f: Node<C>, me: nat, server: nat)
    requires Compacts(c, f) && server < |c.nextIndex|
    requires c.state == Leader ==> Max(c.nextIndex[server], 1) > c.lastIncludedIndex
    ensures var (a, p) := OnSend(c, me, server); var (b, q) := OnSend(f, me, server);
      Compacts(a, b) && Uncommitted(p) == Uncommitted(q)
  {
    hide Cut, LogTerm;
    SameTerms(c, f);
    var next := Max(c.nextIndex[server], 1);
    if c.state == Leader && next <= Last(c) + 1 {
      SliceSame(c, f, next, next + Min(200, Last(c) + 1 - next));
    }
  }

  lemma SliceSame<C>(c: Node<C>, f: Node<C>, from: int, end: int)
    requires Compacts(c, f) && c.lastIncludedIndex < from <= end <= Last(c) + 1
    ensures Last(c) == Last(f) && c.logs[from - c.lastIncludedIndex..end - c.lastIncludedIndex] == f.logs[from..end]
  {
  }

  /** What is sent but for the leader's commit index, which trimming may move ahead. */
  function Uncommitted<C>(sending: Sending<C>): (r: Sending<C>) {
    if sending.SendAppend? then SendAppend(sending.a.(leaderCommit := 0)) else sending
  }

  /** What a step shows of the peer: its votes, whether it takes entries, its requests and offers, and the index of
      a new command. Not shown: the hints of a refusal, and the commit index. */
  datatype Seen<+C> =
    | Voted(v: VoteReply)
    | Appended(term: int, success: bool)
    | Stood(a: VoteArgs)
    | Started(index: int)
    | Offered(sending: Sending<C>)
    | Nothing

  ghost function Sees<C>(n: Node<C>, me: nat, e: Input<C>): (r: Seen<C>)
    requires |n.logs| > 0 && Possible(n, me, e)
  {
    match e
    case RequestVote(args) => Voted(OnRequestVote(n, args).1)
    case AppendEntries(args) => var reply := OnAppendEntries(n, args).1; Appended(reply.term, reply.success)
    case StartElection => Stood(OnStartElection(n, me).1)
    case Start(command) => Started(OnStart(n, me, command).1)
    case Send(server) => Offered(Uncommitted(OnSend(n, me, server).1))
    case _ => Nothing
  }

  /** The inputs in question: no snapshot from a leader, own snapshots of entries the log has, no
      AppendEntries from behind the snapshot, and no peer that needs entries from there. */
  ghost predicate Fits<C>(c: Node<C>, e: Input<C>) {
    match e
    case InstallSnapshot(_) => false
    case Snapshot(index, _) => index <= Last(c)
    case Send(server) =>
      c.state == Leader && server < |c.nextIndex| ==> Max(c.nextIndex[server], 1) > c.lastIncludedIndex
    case AppendEntries(args) => args.term < c.currentTerm || c.lastIncludedIndex <= args.prevLogIndex
    case _ => true
  }

  /** The full-log peer takes the same inputs but for snapshots. */
  ghost function FullAfter<C>(f: Node<C>, me: nat, e: Input<C>): (r: Node<C>)
    requires |f.logs| > 0 && Possible(f, me, e)
  {
    if e.Snapshot? then f else After(f, me, e)
  }

  lemma StepSame<C>(c: Node<C>, f: Node<C>, me: nat, e: Input<C>)
    requires Valid(c) && Valid(f) && Compacts(c, f) && Possible(c, me, e) && Fits(c, e)
    ensures Possible(f, me, e) && Sees(c, me, e) == Sees(f, me, e)
    ensures Compacts(After(c, me, e), FullAfter(f, me, e))
  {
    hide OnRequestVote, OnAppendEntries, OnStartElection, OnStart, OnSnapshot, OnVoteReply, OnAppendReply, OnSend, Cut;
    match e
    case RequestVote(args) => VoteSame(c, f, args);
    case AppendEntries(args) => AppendSame(c, f, args);
    case StartElection => ElectionSame(c, f, me);
    case Start(command) => StartSame(c, f, me, command);
    case Snapshot(index, data) => TrimSame(c, f, index, data);
    case Send(server) => SendSame(c, f, me, server);
    case _ => RepliesSame(c, f, me, e);
  }

  ghost predicate Twins<C>(me: nat, cs: seq<Node<C>>, fs: seq<Node<C>>, inputs: seq<Input<C>>) {
    && |cs| == |fs| == |inputs| + 1 && cs[0] == fs[0] == Boot(None, "", |cs[0].nextIndex|)
    && forall i :: 0 <= i < |inputs| ==>
      && |cs[i].logs| > 0 && |fs[i].logs| > 0 && Possible(cs[i], me, inputs[i]) && Possible(fs[i], me, inputs[i])
      && cs[i + 1] == After(cs[i], me, inputs[i]) && fs[i + 1] == FullAfter(fs[i], me, inputs[i])
      && Fits(cs[i], inputs[i])
  }

  /** Over any sequence of inputs, the trimming peer and the full-log peer hold the same entries behind the
      snapshot and show the same. */
  lemma {:induction false} Transparent<C>(me: nat, cs: seq<Node<C>>, fs: seq<Node<C>>, inputs: seq<Input<C>>, i: nat)
    requires Twins(me, cs, fs, inputs) && i < |cs|
    ensures Valid(cs[i]) && Valid(fs[i]) && Compacts(cs[i], fs[i])
    ensures i < |inputs| ==> Sees(cs[i], me, inputs[i]) == Sees(fs[i], me, inputs[i])
  {
    hide After, Possible, Sees, Fits, Valid, Compacts;
    if i == 0 {
      BootTwins<C>(|cs[0].nextIndex|);
    } else {
      Transparent(me, cs, fs, inputs, i - 1);
      StaysValid(cs[i - 1], me, inputs[i - 1]);
      if !inputs[i - 1].Snapshot? { StaysValid(fs[i - 1], me, inputs[i - 1]); }
      StepSame(cs[i - 1], fs[i - 1], me, inputs[i - 1]);
    }
    if i < |inputs| { StepSame(cs[i], fs[i], me, inputs[i]); }
  }

  lemma BootTwins<C>(peers: nat)
    ensures var n := Boot<C>(None, "", peers); Valid(n) && Compacts(n, n)
  {
  }
}
