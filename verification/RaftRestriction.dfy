/** The election restriction: whoever wins has stood with a log at least as up to date as the logs with which a
    majority voted, and wins with the log it stood with. */
module RaftRestriction {
  import opened RaftNode
  import opened RaftCluster
  import RaftLogs

  /** The order of log ends: the later term, or the longer log of the same term. */
  ghost predicate NotAhead(a: Position, b: Position) {
    a.term < b.term || (a.term == b.term && a.index <= b.index)
  }

  /** The log with which `c` stood in `term` ended at `p`, or behind. */
  ghost predicate StoodBehind(stood: map<Stamp, Position>, c: int, term: int, p: Position) {
    0 <= c && Stamp(c, term) in stood && NotAhead(p, stood[Stamp(c, term)])
  }

  ghost predicate RequestsOk<C>(messages: set<Message<C>>, stood: map<Stamp, Position>) {
    forall m :: m in messages && m.VoteRequest? ==>
      && 0 <= m.v.candidateId && Stamp(m.v.candidateId, m.v.term) in stood
      && stood[Stamp(m.v.candidateId, m.v.term)] == Position(m.v.lastLogTerm, m.v.lastLogIndex)
  }

  ghost predicate CastOk(ballots: set<Ballot>, cast: map<Ballot, Position>, stood: map<Stamp, Position>) {
    forall b :: b in ballots ==> b in cast && StoodBehind(stood, b.candidate, b.term, cast[b])
  }

  ghost predicate StoodOk<C>(nodes: seq<Node<C>>, stood: map<Stamp, Position>) {
    forall s :: s in stood ==> s.peer < |nodes| && s.term <= nodes[s.peer].currentTerm
  }

  ghost predicate RestrictInv<C>(y: System<C>) {
    RequestsOk(y.messages, y.stood) && CastOk(y.ballots, y.cast, y.stood) && StoodOk(y.nodes, y.stood)
  }

  /** A step of peer `i` that starts no election and casts no ballot. */
  lemma QuietStep<C>(y: System<C>, z: System<C>, i: nat)
    requires RestrictInv(y) && i < |y.nodes| == |z.nodes| && z.nodes == y.nodes[i := z.nodes[i]]
    requires z.nodes[i].currentTerm >= y.nodes[i].currentTerm
    requires z.ballots == y.ballots && z.cast == y.cast && z.stood == y.stood
    requires forall m :: m in z.messages && m !in y.messages ==> !m.VoteRequest?
    ensures RestrictInv(z)
  {
  }

  /** Standing for election: nobody has asked or voted for this peer in the new term before. */
  lemma AsksWith<C>(n: Node<C>, i: nat)
    requires |n.logs| > 0
    ensures var (m, args) := OnStartElection(n, i);
      && args == VoteArgs(n.currentTerm + 1, i, EndOf(n).index, EndOf(n).term)
      && m.currentTerm == n.currentTerm + 1 && m.logs == n.logs
  {
  }

  lemma ElectionStep<C>(y: System<C>, i: nat)
    requires RestrictInv(y) && Enabled(y, Election(i))
    ensures RestrictInv(Next(y, Election(i))) && Stamp(i, y.nodes[i].currentTerm + 1) !in y.stood
  {
    hide EndOf, OnStartElection;
    AsksWith(y.nodes[i], i);
    var z := Next(y, Election(i));
    forall b | b in z.ballots ensures b in z.cast && StoodBehind(z.stood, b.candidate, b.term, z.cast[b]) {
      if b in y.ballots { assert StoodBehind(y.stood, b.candidate, b.term, y.cast[b]); }
    }
  }

  /** A vote is granted only to a candidate whose log is not behind the voter's, and in a new term to every such
      candidate that asks. */
  lemma GrantedNotAhead<C>(n: Node<C>, args: VoteArgs)
    requires |n.logs| > 0
    ensures var granted := OnRequestVote(n, args).1.granted;
      var behind := NotAhead(EndOf(n), Position(args.lastLogTerm, args.lastLogIndex));
      && (granted ==> behind)
      && (args.term > n.currentTerm ==> (granted <==> behind))
  {
  }

  lemma VoteStep<C>(y: System<C>, i: nat, args: VoteArgs)
    requires RestrictInv(y) && Enabled(y, Vote(i, args))
    ensures RestrictInv(Next(y, Vote(i, args)))
  {
    var z, n := Next(y, Vote(i, args)), y.nodes[i];
    var (m, reply) := OnRequestVote(n, args);
    assert m.currentTerm >= n.currentTerm;
    assert VoteRequest(args) in y.messages;
    if reply.granted { GrantedNotAhead(n, args); }
    hide OnRequestVote, EndOf, NotAhead;
    QuietStep(y, z.(ballots := y.ballots, cast := y.cast), i);
  }

  lemma Step<C>(y: System<C>, e: Event<C>)
    requires RestrictInv(y) && NodesOk(y) && Enabled(y, e)
    ensures RestrictInv(Next(y, e))
  {
    hide RestrictInv, NodesOk;
    if e.Election? {
      ElectionStep(y, e.i);
    } else if e.Vote? {
      VoteStep(y, e.i, e.v);
    } else if e.Count? {
      CountFacts(y, e.i, e.server, e.term, e.reply);
      hide Next;
      QuietStep(y, Next(y, e), e.i);
    } else if e.Append? {
      assert OnAppendEntries(y.nodes[e.i], e.a).0.currentTerm >= y.nodes[e.i].currentTerm;
      hide OnAppendEntries;
      QuietStep(y, Next(y, e), e.i);
    } else {
      OtherPassive(y, e);
      hide Next;
      QuietStep(y, Next(y, e), e.i);
    }
  }

  lemma {:induction false} Reachable<C>(run: seq<System<C>>, events: seq<Event<C>>, i: nat)
    requires RaftCluster.IsRun(run, events) && NoLateVotes(run, events) && i < |run|
    ensures RestrictInv(run[i])
  {
    hide RestrictInv, Next, Enabled, NoLateVote, Initial;
    if i == 0 {
      InitialOk(run[0]);
    } else {
      Reachable(run, events, i - 1);
      RaftCluster.Reachable(run, events, i - 1);
      Step(run[i - 1], events[i - 1]);
    }
  }

  lemma InitialOk<C>(y: System<C>)
    requires Initial(y)
    ensures RestrictInv(y) && WonInv(y)
  {
  }

  /** Voter `v` voted for the winner of `s`, and its log was then not ahead of the one the winner stood with. */
  ghost predicate BackedBy<C>(y: System<C>, s: Stamp, v: int) {
    0 <= v < |y.nodes| &&
    var b := Ballot(v, s.peer, s.term);
    b in y.ballots && b in y.cast && s in y.stood && NotAhead(y.cast[b], y.stood[s])
  }

  /** In every run without late votes, whoever was elected had the votes of a majority whose logs, when they
      voted, were not ahead of the log it stood with. */
  lemma ElectionRestriction<C>(run: seq<System<C>>, events: seq<Event<C>>, t: nat, s: Stamp) returns (q: set<int>)
    requires RaftCluster.IsRun(run, events) && NoLateVotes(run, events) && t < |run| && s in run[t].leaders
    ensures |q| > |run[t].nodes| / 2 && forall v :: v in q ==> BackedBy(run[t], s, v)
  {
    Reachable(run, events, t);
    RaftCluster.Reachable(run, events, t);
    hide RaftCluster.IsRun;
    var y := run[t];
    assert Won(y, s);
    q :| Supported(y, s.peer, s.term, q) && |q| > |y.nodes| / 2;
    hide NodesOk, NotAhead;
    forall v | v in q ensures BackedBy(y, s, v) {
      assert Ballot(v, s.peer, s.term) in y.ballots;
      assert StoodBehind(y.stood, s.peer, s.term, y.cast[Ballot(v, s.peer, s.term)]);
    }
  }

  // ---- from standing to winning --------------------------------------------------

  /** A candidate still has the log it stood with, or has lost the term. */
  ghost predicate Stands<C>(n: Node<C>, i: nat, stood: map<Stamp, Position>, leaders: set<Stamp>) {
    n.state == Candidate && |n.logs| > 0 ==>
      Stamp(i, n.currentTerm) in stood
      && (EndOf(n) == stood[Stamp(i, n.currentTerm)] || RaftLogs.LedBy(leaders, n.currentTerm, i))
  }

  ghost predicate WonAsStood(s: Stamp, stood: map<Stamp, Position>, winners: map<int, Position>) {
    s in stood && s.term in winners && winners[s.term] == stood[s]
  }

  ghost predicate WonInv<C>(y: System<C>) {
    && (forall i :: 0 <= i < |y.nodes| ==> Stands(y.nodes[i], i, y.stood, y.leaders))
    && (forall s :: s in y.leaders ==> WonAsStood(s, y.stood, y.winners))
  }

  /** The service takes snapshots of what is in the log only. */
  ghost predicate InLog<C>(y: System<C>, e: Event<C>)
    requires Enabled(y, e)
  {
    e.Trim? ==> e.index <= Last(y.nodes[e.i])
  }

  lemma QuietWin<C>(y: System<C>, z: System<C>, i: nat)
    requires WonInv(y) && i < |y.nodes| == |z.nodes| && z.nodes == y.nodes[i := z.nodes[i]] && |y.nodes[i].logs| > 0
    requires z.leaders == y.leaders && z.stood == y.stood && z.winners == y.winners
    requires var n, m := y.nodes[i], z.nodes[i];
      m.state == Candidate && |m.logs| > 0 ==>
        && n.state == Candidate && m.currentTerm == n.currentTerm
        && (EndOf(m) == EndOf(n) || RaftLogs.LedBy(y.leaders, n.currentTerm, i))
    ensures WonInv(z)
  {
    hide EndOf, WonAsStood, RaftLogs.LedBy;
    assert Stands(y.nodes[i], i, y.stood, y.leaders);
  }

  lemma ElectionWin<C>(y: System<C>, i: nat)
    requires WonInv(y) && RestrictInv(y) && Enabled(y, Election(i))
    ensures WonInv(Next(y, Election(i)))
  {
    ElectionStep(y, i);
    var z := Next(y, Election(i));
    SameEnd(y.nodes[i], z.nodes[i]);
    hide EndOf, RestrictInv, RaftLogs.LedBy;
    forall j | 0 <= j < |z.nodes| ensures Stands(z.nodes[j], j, z.stood, z.leaders) {
      assert Stands(y.nodes[j], j, y.stood, y.leaders);
    }
    forall s | s in z.leaders ensures WonAsStood(s, z.stood, z.winners) {
      assert WonAsStood(s, y.stood, y.winners);
    }
  }

  lemma SameEnd<C>(n: Node<C>, m: Node<C>)
    requires |n.logs| > 0 && RaftLogs.PieceOf(n) == RaftLogs.PieceOf(m)
    ensures EndOf(n) == EndOf(m)
  {
  }

  lemma NewWin<C>(y: System<C>, z: System<C>, i: nat)
    requires WonInv(y) && i < |y.nodes| == |z.nodes| && z.nodes == y.nodes[i := z.nodes[i]] && |y.nodes[i].logs| > 0
    requires y.nodes[i].state == Candidate && z.nodes[i].state == Leader && z.stood == y.stood
    requires var term := y.nodes[i].currentTerm;
      && (forall j: nat :: Stamp(j, term) !in y.leaders)
      && z.leaders == y.leaders + {Stamp(i, term)} && z.winners == y.winners[term := EndOf(y.nodes[i])]
    ensures WonInv(z)
  {
    hide EndOf;
    assert Stands(y.nodes[i], i, y.stood, y.leaders);
    forall s | s in z.leaders ensures WonAsStood(s, z.stood, z.winners) {
      if s in y.leaders { assert WonAsStood(s, y.stood, y.winners); }
    }
    forall j | 0 <= j < |z.nodes| ensures Stands(z.nodes[j], j, z.stood, z.leaders) {
      assert Stands(y.nodes[j], j, y.stood, y.leaders);
    }
  }

  /** The winner of a term is the only one, so it has not lost the term before. */
  lemma CountWin<C>(y: System<C>, e: Event<C>)
    requires WonInv(y) && ElectionInv(y) && Enabled(y, e) && e.Count? && ElectionInv(Next(y, e))
    ensures WonInv(Next(y, e))
  {
    CountFacts(y, e.i, e.server, e.term, e.reply);
    var z, n, i := Next(y, e), y.nodes[e.i], e.i;
    SameEnd(n, z.nodes[i]);
    CountRole(n, i, e.server, e.term, e.reply);
    hide Next, EndOf, OnVoteReply;
    if n.state != Leader && z.nodes[i].state == Leader {
      RaftLogs.FirstWin(y, z, i);
      hide ElectionInv, WonInv;
      NewWin(y, z, i);
    } else {
      hide ElectionInv;
      QuietWin(y, z, i);
    }
  }

  lemma CountRole<C>(n: Node<C>, me: nat, server: nat, term: int, reply: VoteReply)
    requires me < |n.nextIndex| == |n.matchIndex|
    ensures var m := OnVoteReply(n, me, server, term, reply);
      m.state == Candidate ==> n.state == Candidate && m.currentTerm == n.currentTerm
  {
  }

  lemma AppendWin<C>(y: System<C>, i: nat, args: AppendArgs<C>)
    requires WonInv(y) && Enabled(y, Append(i, args))
    ensures WonInv(Next(y, Append(i, args)))
  {
    var z, n := Next(y, Append(i, args)), y.nodes[i];
    assert z.nodes[i].state == Follower || z.nodes[i] == n;
    hide OnAppendEntries, WonInv, EndOf;
    QuietWin(y, z, i);
  }

  lemma SubmitWin<C>(y: System<C>, i: nat, command: C)
    requires WonInv(y) && Enabled(y, Submit(i, command))
    ensures WonInv(Next(y, Submit(i, command)))
  {
    hide WonInv, EndOf;
    QuietWin(y, Next(y, Submit(i, command)), i);
  }

  lemma OfferWin<C>(y: System<C>, i: nat, server: nat)
    requires WonInv(y) && Enabled(y, Offer(i, server))
    ensures WonInv(Next(y, Offer(i, server)))
  {
    RaftLogs.OfferRole(y.nodes[i], i, server);
    hide WonInv, OnSend;
    var z := Next(y, Offer(i, server));
    SameEnd(y.nodes[i], z.nodes[i]);
    hide EndOf;
    QuietWin(y, z, i);
  }

  lemma TrimWin<C>(y: System<C>, e: Event<C>)
    requires WonInv(y) && Enabled(y, e) && e.Trim? && InLog(y, e)
    ensures WonInv(Next(y, e))
  {
    hide WonInv;
    var z, n := Next(y, e), y.nodes[e.i];
    TrimEnd(n, e.index, e.data);
    hide OnSnapshot, EndOf;
    QuietWin(y, z, e.i);
  }

  lemma TrimEnd<C>(n: Node<C>, index: int, data: string)
    requires |n.logs| > 0 && index <= Last(n)
    ensures var m := OnSnapshot(n, index, data);
      m.state == n.state && m.currentTerm == n.currentTerm && |m.logs| > 0 && EndOf(m) == EndOf(n)
  {
  }

  /** The snapshot of the current term comes from another peer, which has won the term. */
  lemma InstallWin<C>(y: System<C>, i: nat, args: SnapshotArgs, pool: set<RaftLogs.Piece<C>>)
    requires WonInv(y) && RaftLogs.LogInv(y, pool) && Enabled(y, Install(i, args))
    ensures WonInv(Next(y, Install(i, args)))
  {
    assert RaftLogs.MessageOk(SnapshotRequest(i, args), pool, y.leaders);
    hide WonInv, RaftLogs.LogInv, RaftLogs.LedBy;
    var z, n := Next(y, Install(i, args)), y.nodes[i];
    InstallRole(n, args);
    hide OnInstallSnapshot, EndOf;
    QuietWin(y, z, i);
  }

  lemma InstallRole<C>(n: Node<C>, args: SnapshotArgs)
    requires |n.logs| > 0
    ensures var m := OnInstallSnapshot(n, args).0;
      m.state == Candidate ==>
        n.state == Candidate && m.currentTerm == n.currentTerm && (m == n || n.currentTerm == args.term)
  {
    hide Trimmed, LogTerm;
  }

  lemma IdleWin<C>(y: System<C>, e: Event<C>)
    requires WonInv(y) && NodesOk(y) && Enabled(y, e) && RaftLogs.Idle(e) && !e.Election?
    ensures WonInv(Next(y, e))
  {
    RaftLogs.IdleEvent(y, e);
    IdleRecords(y, e);
    hide WonInv, NodesOk, Next;
    SameEnd(y.nodes[e.i], Next(y, e).nodes[e.i]);
    hide EndOf;
    QuietWin(y, Next(y, e), e.i);
  }

  lemma IdleRecords<C>(y: System<C>, e: Event<C>)
    requires Enabled(y, e) && RaftLogs.Idle(e) && !e.Election?
    ensures var z := Next(y, e);
      && z.stood == y.stood && z.winners == y.winners && |z.nodes| == |y.nodes|
      && (z.nodes[e.i].state == Candidate ==>
            y.nodes[e.i].state == Candidate && z.nodes[e.i].currentTerm == y.nodes[e.i].currentTerm)
  {
    hide LogTerm, EndOf;
  }

  lemma WinStep<C>(y: System<C>, e: Event<C>, pool: set<RaftLogs.Piece<C>>)
    requires WonInv(y) && RestrictInv(y) && ElectionInv(y) && RaftLogs.LogInv(y, pool)
    requires Enabled(y, e) && ElectionInv(Next(y, e)) && InLog(y, e)
    ensures WonInv(Next(y, e))
  {
    assert NodesOk(y);
    hide WonInv, RestrictInv, ElectionInv, RaftLogs.LogInv, Next, NodesOk;
    match e
    case Election(i) => ElectionWin(y, i);
    case Count(_, _, _, _) => CountWin(y, e);
    case Append(i, args) => AppendWin(y, i, args);
    case Submit(i, command) => SubmitWin(y, i, command);
    case Offer(i, server) => OfferWin(y, i, server);
    case Trim(_, _, _) => TrimWin(y, e);
    case Install(i, args) => InstallWin(y, i, args, pool);
    case _ => IdleWin(y, e);
  }

  ghost predicate InLogs<C>(run: seq<System<C>>, events: seq<Event<C>>)
    requires RaftCluster.IsRun(run, events)
  {
    forall i :: 0 <= i < |events| ==> InLog(run[i], events[i])
  }

  lemma {:induction false} WonReachable<C>(run: seq<System<C>>, events: seq<Event<C>>, i: nat)
    requires RaftCluster.IsRun(run, events) && NoLateVotes(run, events) && InLogs(run, events) && i < |run|
    ensures WonInv(run[i])
  {
    hide WonInv, RestrictInv, ElectionInv, RaftLogs.LogInv, Next, Enabled, NoLateVote, InLog, Initial;
    if i == 0 {
      InitialOk(run[0]);
    } else {
      WonReachable(run, events, i - 1);
      Reachable(run, events, i - 1);
      RaftCluster.Reachable(run, events, i - 1);
      RaftCluster.Reachable(run, events, i);
      var pool := RaftLogs.Reachable(run, events, i - 1);
      WinStep(run[i - 1], events[i - 1], pool);
    }
  }

  /** In every run without late votes in which the service takes snapshots of what is in the log only, whoever was
      elected won with a log that ended where the log ended with which it stood. */
  lemma WinsAsItStood<C>(run: seq<System<C>>, events: seq<Event<C>>, t: nat, s: Stamp)
    requires RaftCluster.IsRun(run, events) && NoLateVotes(run, events) && InLogs(run, events)
    requires t < |run| && s in run[t].leaders
    ensures s in run[t].stood && s.term in run[t].winners && run[t].winners[s.term] == run[t].stood[s]
  {
    WonReachable(run, events, t);
    assert WonAsStood(s, run[t].stood, run[t].winners);
  }
}
