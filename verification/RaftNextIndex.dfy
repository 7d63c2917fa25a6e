/** When a leader's send cannot panic: as long as leaders do not use answers to messages of an earlier term, the next
    index that a leader keeps for a peer is at most one behind the end of its log. */
module RaftNextIndex {
  import opened RaftNode
  import opened RaftCluster
  import RaftLogs

  ghost predicate Fine<C>(n: Node<C>) {
    && 0 <= n.lastIncludedIndex && |n.logs| > 0
    && (n.state == Leader ==> forall k :: 0 <= k < |n.nextIndex| ==> n.nextIndex[k] <= Last(n) + 1)
  }

  /** A peer that leads after the step has led before, and its log has not become shorter. */
  ghost predicate Onward<C>(n: Node<C>, m: Node<C>) {
    && Fine(m)
    && (m.state == Leader ==> n.state == Leader && m.currentTerm == n.currentTerm && Last(m) >= Last(n))
  }

  /** As long as `c` leads in `term`, its log reaches the index. */
  ghost predicate Reaches<C>(y: System<C>, c: int, term: int, index: int) {
    && 0 <= c < |y.nodes| && Stamp(c, term) in y.leaders
    && (y.nodes[c].state == Leader && y.nodes[c].currentTerm == term ==> index <= Last(y.nodes[c]))
  }

  ghost predicate ReachesAppend<C>(y: System<C>, a: AppendArgs<C>) {
    Reaches(y, a.leaderId, a.term, a.prevLogIndex + |a.entries|)
  }

  ghost predicate ReachesSnapshot<C>(y: System<C>, s: SnapshotArgs) {
    0 <= s.lastIncludedIndex && Reaches(y, s.leaderId, s.term, s.lastIncludedIndex)
  }

  ghost predicate MessageOk<C>(y: System<C>, m: Message<C>) {
    match m
    case AppendRequest(_, a) => ReachesAppend(y, a)
    case AppendAnswer(_, a, _) => ReachesAppend(y, a)
    case SnapshotRequest(i, s) => ReachesSnapshot(y, s) && s.leaderId != i
    case SnapshotAnswer(_, s) => ReachesSnapshot(y, s)
    case _ => true
  }

  ghost predicate NextInv<C>(y: System<C>) {
    && (forall i :: 0 <= i < |y.nodes| ==> Fine(y.nodes[i]))
    && (forall m :: m in y.messages ==> MessageOk(y, m))
  }

  lemma MessageKept<C>(y: System<C>, z: System<C>, i: nat, m: Message<C>)
    requires i < |y.nodes| == |z.nodes| && z.nodes == y.nodes[i := z.nodes[i]] && y.leaders <= z.leaders
    requires Onward(y.nodes[i], z.nodes[i]) || forall term :: Stamp(i, term) in y.leaders ==>
      term != z.nodes[i].currentTerm
    requires MessageOk(y, m)
    ensures MessageOk(z, m)
  {
  }

  lemma OnwardStep<C>(y: System<C>, z: System<C>, i: nat)
    requires NextInv(y) && i < |y.nodes| == |z.nodes| && z.nodes == y.nodes[i := z.nodes[i]] && z.leaders == y.leaders
    requires Onward(y.nodes[i], z.nodes[i])
    requires forall m :: m in z.messages && m !in y.messages ==> MessageOk(z, m)
    ensures NextInv(z)
  {
    hide MessageOk;
    forall m | m in z.messages ensures MessageOk(z, m) {
      if m in y.messages { MessageKept(y, z, i, m); }
    }
  }

  // ---- what the handlers do ------------------------------------------------------

  lemma VoteOnward<C>(n: Node<C>, args: VoteArgs)
    requires Fine(n)
    ensures Onward(n, OnRequestVote(n, args).0)
  {
  }

  lemma AppendOnward<C>(n: Node<C>, args: AppendArgs<C>)
    requires Fine(n)
    ensures Onward(n, OnAppendEntries(n, args).0)
  {
    hide Merge, Rejection;
  }

  lemma InstallOnward<C>(n: Node<C>, args: SnapshotArgs)
    requires Fine(n) && 0 <= args.lastIncludedIndex && (n.state == Leader ==> n.currentTerm != args.term)
    ensures Onward(n, OnInstallSnapshot(n, args).0)
  {
    hide LogTerm;
  }

  lemma TrimOnward<C>(n: Node<C>, index: int, data: string)
    requires Fine(n)
    ensures Onward(n, OnSnapshot(n, index, data))
  {
  }

  lemma LearnOnward<C>(n: Node<C>, server: nat, args: AppendArgs<C>, reply: AppendReply, agreed: int)
    requires Fine(n) && server < |n.nextIndex| == |n.matchIndex|
    requires n.state == Leader ==> args.prevLogIndex + |args.entries| <= Last(n)
    ensures Onward(n, OnAppendReply(n, server, args, reply, agreed))
  {
  }

  lemma LearnSnapshotOnward<C>(n: Node<C>, server: nat, args: SnapshotArgs, term: int)
    requires Fine(n) && server < |n.nextIndex| == |n.matchIndex|
    requires (n.state == Leader ==> args.lastIncludedIndex <= Last(n))
    ensures Onward(n, OnSnapshotReply(n, server, args, term))
  {
  }

  lemma SendOnward<C>(n: Node<C>, me: nat, server: nat)
    requires Fine(n) && server < |n.nextIndex|
    ensures var (m, sending) := OnSend(n, me, server);
      && Onward(n, m) && Last(m) == Last(n) && m.state == n.state && m.currentTerm == n.currentTerm
      && (sending.SendAppend? ==>
            && n.state == Leader && sending.a.leaderId == me && sending.a.term == n.currentTerm
            && sending.a.prevLogIndex + |sending.a.entries| <= Last(n))
      && (sending.SendSnapshot? ==>
            && n.state == Leader && sending.s.leaderId == me && sending.s.term == n.currentTerm
            && 0 <= sending.s.lastIncludedIndex <= Last(n))
      && !sending.Panic?
  {
  }

  // ---- what the events do --------------------------------------------------------

  lemma ElectionKeeps<C>(y: System<C>, i: nat)
    requires NextInv(y) && Enabled(y, Election(i))
    ensures NextInv(Next(y, Election(i)))
  {
    var z := Next(y, Election(i));
    assert Fine(y.nodes[i]);
    assert Onward(y.nodes[i], z.nodes[i]);
    hide EndOf, NextInv, Onward;
    OnwardStep(y, z, i);
  }

  lemma VoteKeeps<C>(y: System<C>, i: nat, args: VoteArgs)
    requires NextInv(y) && Enabled(y, Vote(i, args))
    ensures NextInv(Next(y, Vote(i, args)))
  {
    var z := Next(y, Vote(i, args));
    assert Fine(y.nodes[i]);
    VoteOnward(y.nodes[i], args);
    hide EndOf, NextInv, Onward, OnRequestVote;
    OnwardStep(y, z, i);
  }

  lemma CountKeeps<C>(y: System<C>, e: Event<C>)
    requires NextInv(y) && ElectionInv(y) && Enabled(y, e) && e.Count? && ElectionInv(Next(y, e))
    ensures NextInv(Next(y, e))
  {
    CountFacts(y, e.i, e.server, e.term, e.reply);
    var z, n, i := Next(y, e), y.nodes[e.i], e.i;
    assert Fine(n);
    CountFine(n, i, e.server, e.term, e.reply);
    hide Next, EndOf, OnVoteReply, MessageOk, Enabled;
    if n.state != Leader && z.nodes[i].state == Leader {
      RaftLogs.FirstWin(y, z, i);
      hide ElectionInv;
      forall m | m in z.messages ensures MessageOk(z, m) { MessageKept(y, z, i, m); }
    } else {
      hide ElectionInv, NextInv;
      OnwardStep(y, z, i);
    }
  }

  lemma CountFine<C>(n: Node<C>, me: nat, server: nat, term: int, reply: VoteReply)
    requires Fine(n) && me < |n.nextIndex| == |n.matchIndex|
    ensures var m := OnVoteReply(n, me, server, term, reply);
      Fine(m) && (n.state == Leader || m.state != Leader ==> Onward(n, m))
  {
  }

  lemma AppendKeeps<C>(y: System<C>, i: nat, args: AppendArgs<C>)
    requires NextInv(y) && Enabled(y, Append(i, args))
    ensures NextInv(Next(y, Append(i, args)))
  {
    AppendNext(y, i, args);
    AppendRecords(y, i, args);
    var z := Next(y, Append(i, args));
    assert Fine(y.nodes[i]) && MessageOk(y, AppendRequest(i, args));
    AppendOnward(y.nodes[i], args);
    hide Next, NextInv, Onward, OnAppendEntries, Enabled;
    MessageKept(y, z, i, AppendRequest(i, args));
    OnwardStep(y, z, i);
  }

  lemma AppendRecords<C>(y: System<C>, i: nat, args: AppendArgs<C>)
    requires Enabled(y, Append(i, args))
    ensures Next(y, Append(i, args)).leaders == y.leaders
  {
    hide OnAppendEntries;
  }

  lemma OfferKeeps<C>(y: System<C>, i: nat, server: nat)
    requires NextInv(y) && ElectionInv(y) && Enabled(y, Offer(i, server))
    ensures NextInv(Next(y, Offer(i, server)))
  {
    var z, n := Next(y, Offer(i, server)), y.nodes[i];
    assert Fine(n) && (n.state == Leader ==> Stamp(i, n.currentTerm) in y.leaders);
    SendOnward(n, i, server);
    hide NextInv, ElectionInv, Onward, OnSend;
    OnwardStep(y, z, i);
  }

  lemma InstallKeeps<C>(y: System<C>, i: nat, args: SnapshotArgs)
    requires NextInv(y) && ElectionInv(y) && Enabled(y, Install(i, args))
    ensures NextInv(Next(y, Install(i, args)))
  {
    var z := Next(y, Install(i, args));
    assert Fine(y.nodes[i]) && MessageOk(y, SnapshotRequest(i, args));
    assert RaftLogs.LedBy(y.leaders, args.term, i);
    RaftLogs.NotToLeader(y, i, args);
    InstallOnward(y.nodes[i], args);
    hide NextInv, ElectionInv, Onward, OnInstallSnapshot;
    MessageKept(y, z, i, SnapshotRequest(i, args));
    OnwardStep(y, z, i);
  }

  lemma TrimKeeps<C>(y: System<C>, i: nat, index: int, data: string)
    requires NextInv(y) && Enabled(y, Trim(i, index, data))
    ensures NextInv(Next(y, Trim(i, index, data)))
  {
    assert Fine(y.nodes[i]);
    TrimOnward(y.nodes[i], index, data);
    hide NextInv, Onward, OnSnapshot;
    OnwardStep(y, Next(y, Trim(i, index, data)), i);
  }

  lemma LearnKeeps<C>(y: System<C>, e: Event<C>)
    requires NextInv(y) && Enabled(y, e) && e.Learn? && NoOldAnswer(y, e)
    ensures NextInv(Next(y, e))
  {
    assert Fine(y.nodes[e.i]) && MessageOk(y, AppendAnswer(e.server, e.a, e.answer));
    LearnOnward(y.nodes[e.i], e.server, e.a, e.answer, e.agreed);
    hide NextInv, Onward, OnAppendReply, AgreedAfter;
    OnwardStep(y, Next(y, e), e.i);
  }

  lemma LearnSnapshotKeeps<C>(y: System<C>, e: Event<C>)
    requires NextInv(y) && Enabled(y, e) && e.LearnSnapshot? && NoOldAnswer(y, e)
    ensures NextInv(Next(y, e))
  {
    assert Fine(y.nodes[e.i]) && MessageOk(y, SnapshotAnswer(e.server, e.s));
    LearnSnapshotOnward(y.nodes[e.i], e.server, e.s, NO_TERM);
    hide NextInv, Onward, OnSnapshotReply;
    OnwardStep(y, Next(y, e), e.i);
  }

  lemma LocalKeeps<C>(y: System<C>, e: Event<C>)
    requires NextInv(y) && NodesOk(y) && Enabled(y, e) && (e.Submit? || e.Apply? || e.Crash?)
    ensures NextInv(Next(y, e))
  {
    assert Fine(y.nodes[e.i]) && NodeOk(y.nodes[e.i], |y.nodes|);
    assert Onward(y.nodes[e.i], Next(y, e).nodes[e.i]);
    hide NextInv, Onward, NodesOk;
    OnwardStep(y, Next(y, e), e.i);
  }

  lemma Step<C>(y: System<C>, e: Event<C>)
    requires NextInv(y) && ElectionInv(y) && Enabled(y, e) && ElectionInv(Next(y, e)) && NoOldAnswer(y, e)
    ensures NextInv(Next(y, e))
  {
    assert NodesOk(y);
    hide NextInv, ElectionInv, Next, NodesOk, NoOldAnswer;
    match e
    case Election(i) => ElectionKeeps(y, i);
    case Vote(i, args) => VoteKeeps(y, i, args);
    case Count(_, _, _, _) => CountKeeps(y, e);
    case Append(i, args) => AppendKeeps(y, i, args);
    case Offer(i, server) => OfferKeeps(y, i, server);
    case Install(i, args) => InstallKeeps(y, i, args);
    case Trim(i, index, data) => TrimKeeps(y, i, index, data);
    case Learn(_, _, _, _, _) => LearnKeeps(y, e);
    case LearnSnapshot(_, _, _) => LearnSnapshotKeeps(y, e);
    case _ => LocalKeeps(y, e);
  }

  ghost predicate NoOldAnswers<C>(run: seq<System<C>>, events: seq<Event<C>>)
    requires RaftCluster.IsRun(run, events)
  {
    forall i :: 0 <= i < |events| ==> NoOldAnswer(run[i], events[i])
  }

  lemma InitialOk<C>(y: System<C>)
    requires Initial(y)
    ensures NextInv(y)
  {
  }

  lemma {:induction false} Reachable<C>(run: seq<System<C>>, events: seq<Event<C>>, i: nat)
    requires RaftCluster.IsRun(run, events) && NoLateVotes(run, events) && NoOldAnswers(run, events) && i < |run|
    ensures NextInv(run[i])
  {
    hide NextInv, ElectionInv, Next, Initial, Enabled, NoLateVote, NoOldAnswer;
    if i == 0 {
      InitialOk(run[0]);
    } else {
      Reachable(run, events, i - 1);
      RaftCluster.Reachable(run, events, i - 1);
      RaftCluster.Reachable(run, events, i);
      Step(run[i - 1], events[i - 1]);
    }
  }

  /** In every run without late votes in which no answer to a message of an earlier term is used, no send panics. */
  lemma SendNeverPanics<C>(run: seq<System<C>>, events: seq<Event<C>>, t: nat, i: nat, server: nat)
    requires RaftCluster.IsRun(run, events) && NoLateVotes(run, events) && NoOldAnswers(run, events)
    requires t < |run| && i < |run[t].nodes| && server < |run[t].nodes[i].nextIndex|
    ensures |run[t].nodes[i].logs| > 0 && !OnSend(run[t].nodes[i], i, server).1.Panic?
  {
    Reachable(run, events, t);
    hide RaftCluster.IsRun;
    assert Fine(run[t].nodes[i]);
    SendOnward(run[t].nodes[i], i, server);
  }
}
