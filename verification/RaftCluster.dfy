/** A cluster of Raft peers over a network that loses, repeats and reorders messages, with crashes and
    restarts. The fields of `System` after `messages` only record what happened. */
module RaftCluster {
  import opened Options
  import opened RaftNode
  import Counting

  datatype Message<+C> =
    | VoteRequest(v: VoteArgs)
    | VoteAnswer(from: nat, to: nat, term: int, reply: VoteReply)
    | AppendRequest(to: nat, a: AppendArgs<C>)
    | AppendAnswer(from: nat, a: AppendArgs<C>, answer: AppendReply)
    | SnapshotRequest(to: nat, s: SnapshotArgs)
    | SnapshotAnswer(from: nat, s: SnapshotArgs)

  /** `voter` has voted for `candidate` in `term`. */
  datatype Ballot = Ballot(voter: nat, candidate: int, term: int)

  datatype Stamp = Stamp(peer: nat, term: int)

  /** The term and the index of the last entry of a log. */
  datatype Position = Position(term: int, index: int)

  /** `cast`: the end of the voter's log when it cast a ballot; `accepted`: who took AppendEntries of which term;
      `leaders`: who was elected in which term; `stood`: the end of a candidate's log when it stood; `winners`:
      the end of a term's leader's log when it won. */
  datatype System<+C(==)> = System(nodes: seq<Node<C>>, messages: set<Message<C>>, ballots: set<Ballot>,
    cast: map<Ballot, Position>, accepted: set<Stamp>, leaders: set<Stamp>, stood: map<Stamp, Position>,
    winners: map<int, Position>)

  function EndOf<C>(n: Node<C>): (r: Position)
    requires |n.logs| > 0
  {
    Position(LogTerm(n, Last(n)), Last(n))
  }

  /** `Trim`: the service hands over its snapshot; `Install`: a leader's snapshot arrives; `LearnSnapshot`: the
      leader hears that it did. */
  datatype Event<+C> =
    | Election(i: nat)
    | Vote(i: nat, v: VoteArgs)
    | Count(i: nat, server: nat, term: int, reply: VoteReply)
    | Submit(i: nat, command: C)
    | Offer(i: nat, server: nat)
    | Append(i: nat, a: AppendArgs<C>)
    | Learn(i: nat, server: nat, a: AppendArgs<C>, answer: AppendReply, agreed: int)
    | Trim(i: nat, index: int, data: string)
    | Install(i: nat, s: SnapshotArgs)
    | LearnSnapshot(i: nat, server: nat, s: SnapshotArgs)
    | Apply(i: nat)
    | Crash(i: nat)

  ghost predicate Sized<C>(y: System<C>) {
    forall i :: 0 <= i < |y.nodes| ==>
      |y.nodes[i].logs| > 0 && |y.nodes[i].nextIndex| == |y.nodes[i].matchIndex| == |y.nodes|
  }

  /** A leader whose send panics is gone: all that it can still do is to crash and come back. */
  ghost predicate Enabled<C>(y: System<C>, e: Event<C>) {
    && Sized(y) && e.i < |y.nodes|
    && match e
       case Vote(i, args) => VoteRequest(args) in y.messages && args.candidateId != i
       case Count(i, server, term, reply) => VoteAnswer(server, i, term, reply) in y.messages
       case Offer(i, server) => server < |y.nodes| && server != i && !OnSend(y.nodes[i], i, server).1.Panic?
       case Append(i, args) => AppendRequest(i, args) in y.messages
       case Learn(i, server, args, answer, agreed) =>
         && AppendAnswer(server, args, answer) in y.messages && server < |y.nodes| && args.leaderId == i
         && AgreedAfter(y.nodes[i], server, args, answer, agreed)
       case Install(i, args) => SnapshotRequest(i, args) in y.messages
       case LearnSnapshot(i, server, args) =>
         SnapshotAnswer(server, args) in y.messages && server < |y.nodes| && args.leaderId == i
       case _ => true
  }

  /** The answer to a snapshot carries no term: the source leaves it 0. */
  const NO_TERM := 0

  ghost function Next<C>(y: System<C>, e: Event<C>): (r: System<C>)
    requires Enabled(y, e)
  {
    var n := y.nodes[e.i];
    match e
    case Election(i) =>
      var (m, args) := OnStartElection(n, i);
      var b := Ballot(i, i, m.currentTerm);
      Set(y, i, m).(messages := y.messages + {VoteRequest(args)}, ballots := y.ballots + {b},
                    cast := y.cast[b := EndOf(n)], stood := y.stood[Stamp(i, m.currentTerm) := EndOf(n)])
    case Vote(i, args) =>
      var (m, reply) := OnRequestVote(n, args);
      var b := Ballot(i, args.candidateId, args.term);
      Set(y, i, m).(messages := y.messages + {VoteAnswer(i, Peer(args.candidateId), args.term, reply)},
                    ballots := if reply.granted then y.ballots + {b} else y.ballots,
                    cast := if reply.granted then y.cast[b := EndOf(n)] else y.cast)
    case Count(i, server, term, reply) =>
      var m := OnVoteReply(n, i, server, term, reply);
      if n.state != Leader && m.state == Leader
      then Set(y, i, m).(leaders := y.leaders + {Stamp(i, term)}, winners := y.winners[term := EndOf(n)])
      else Set(y, i, m)
    case Submit(i, command) => Set(y, i, OnStart(n, i, command).0)
    case Offer(i, server) =>
      var (m, sending) := OnSend(n, i, server);
      Set(y, i, m).(messages := y.messages + Outgoing(server, sending))
    case Append(i, args) =>
      var (m, answer) := OnAppendEntries(n, args);
      Set(y, i, m).(messages := y.messages + {AppendAnswer(i, args, answer)},
                    accepted := if args.term >= n.currentTerm then y.accepted + {Stamp(i, args.term)} else y.accepted)
    case Learn(i, server, args, answer, agreed) => Set(y, i, OnAppendReply(n, server, args, answer, agreed))
    case Trim(i, index, data) => Set(y, i, OnSnapshot(n, index, data))
    case Install(i, args) =>
      Set(y, i, OnInstallSnapshot(n, args).0).(messages := y.messages + {SnapshotAnswer(i, args)})
    case LearnSnapshot(i, server, args) => Set(y, i, OnSnapshotReply(n, server, args, NO_TERM))
    case Apply(i) => Set(y, i, OnApply(n))
    case Crash(i) => Set(y, i, Boot(n.disk, n.snapshot, |y.nodes|))
  }

  ghost function Outgoing<C>(server: nat, sending: Sending<C>): (r: set<Message<C>>) {
    match sending
    case SendAppend(args) => {AppendRequest(server, args)}
    case SendSnapshot(args) => {SnapshotRequest(server, args)}
    case _ => {}
  }

  lemma VoteNext<C>(y: System<C>, i: nat, args: VoteArgs)
    requires Sized(y) && i < |y.nodes| && VoteRequest(args) in y.messages && args.candidateId != i
    ensures Enabled(y, Vote(i, args))
    ensures var z, n, (m, reply) := Next(y, Vote(i, args)), y.nodes[i], OnRequestVote(y.nodes[i], args);
      && z.nodes == y.nodes[i := m] && z.accepted == y.accepted
      && z.messages == y.messages + {VoteAnswer(i, Peer(args.candidateId), args.term, reply)}
      && (NoLateVote(y, Vote(i, args)) <==> (reply.granted ==> Stamp(i, args.term) !in y.accepted))
  {
    hide OnRequestVote, EndOf;
  }

  lemma AppendNext<C>(y: System<C>, i: nat, args: AppendArgs<C>)
    requires Sized(y) && i < |y.nodes| && AppendRequest(i, args) in y.messages
    ensures Enabled(y, Append(i, args))
    ensures var z, n, (m, answer) := Next(y, Append(i, args)), y.nodes[i], OnAppendEntries(y.nodes[i], args);
      && z.nodes == y.nodes[i := m] && z.messages == y.messages + {AppendAnswer(i, args, answer)}
      && z.accepted == if args.term >= n.currentTerm then y.accepted + {Stamp(i, args.term)} else y.accepted
  {
    hide OnAppendEntries;
  }

  function Peer(id: int): (r: nat) {
    if id < 0 then 0 else id
  }

  ghost function Set<C>(y: System<C>, i: nat, m: Node<C>): (r: System<C>)
    requires i < |y.nodes|
  {
    y.(nodes := y.nodes[i := m])
  }

  /** The step grants no vote for a term whose AppendEntries the peer has already accepted. */
  ghost predicate NoLateVote<C>(y: System<C>, e: Event<C>)
    requires Enabled(y, e)
  {
    e.Vote? && OnRequestVote(y.nodes[e.i], e.v).1.granted ==> Stamp(e.i, e.v.term) !in y.accepted
  }

  /** The step does not use an answer to a message of an earlier term. */
  ghost predicate NoOldAnswer<C>(y: System<C>, e: Event<C>)
    requires Enabled(y, e)
  {
    && (e.Learn? ==> e.a.term == y.nodes[e.i].currentTerm)
    && (e.LearnSnapshot? ==> e.s.term == y.nodes[e.i].currentTerm)
  }

  /** No late vote, no old answer, and snapshots of what is applied. */
  ghost predicate Orderly<C>(y: System<C>, e: Event<C>)
    requires Enabled(y, e)
  {
    && NoLateVote(y, e) && NoOldAnswer(y, e)
    && (e.Trim? ==> e.index <= y.nodes[e.i].lastApplied)
  }

  ghost predicate Initial<C>(y: System<C>) {
    && (forall i :: 0 <= i < |y.nodes| ==> y.nodes[i] == Boot(None, "", |y.nodes|))
    && y.messages == {} && y.ballots == {} && y.cast == map[] && y.accepted == {} && y.leaders == {}
    && y.stood == map[] && y.winners == map[]
  }

  // ---- elections -----------------------------------------------------------------

  /** A ballot binds the voter for the rest of the term, unless it accepted the term's leader. */
  ghost predicate Binding<C>(y: System<C>, b: Ballot) {
    && b.voter < |y.nodes| && 0 <= b.candidate && y.nodes[b.voter].currentTerm >= b.term
    && (y.nodes[b.voter].currentTerm == b.term ==>
          y.nodes[b.voter].votedFor == b.candidate || Stamp(b.voter, b.term) in y.accepted)
  }

  ghost predicate BallotsOk<C>(y: System<C>) {
    && (forall b :: b in y.ballots ==> Binding(y, b))
    && (forall b, c :: b in y.ballots && c in y.ballots && b.voter == c.voter && b.term == c.term ==>
          b.candidate == c.candidate)
  }

  ghost predicate AnswersOk<C>(y: System<C>) {
    && (forall m :: m in y.messages && m.VoteAnswer? && m.reply.granted ==> Ballot(m.from, m.to, m.term) in y.ballots)
    && (forall m :: m in y.messages && m.VoteRequest? ==> m.v.candidateId >= 0)
  }

  ghost predicate Supported<C>(y: System<C>, i: nat, term: int, q: set<int>) {
    forall v :: v in q ==> 0 <= v < |y.nodes| && Ballot(v, i, term) in y.ballots
  }

  ghost predicate CandidatesOk<C>(y: System<C>) {
    forall i :: 0 <= i < |y.nodes| ==>
      var n := y.nodes[i];
      && (n.state == Candidate ==> n.currentTerm >= 1 && Supported(y, i, n.currentTerm, n.votes))
      && (n.state == Leader ==> Stamp(i, n.currentTerm) in y.leaders)
  }

  /** An elected peer had a majority, and does not stand again in the same term. */
  ghost predicate Won<C>(y: System<C>, s: Stamp) {
    && s.peer < |y.nodes| && 1 <= s.term <= y.nodes[s.peer].currentTerm
    && (y.nodes[s.peer].currentTerm == s.term ==> y.nodes[s.peer].state != Candidate)
    && exists q :: Supported(y, s.peer, s.term, q) && |q| > |y.nodes| / 2
  }

  ghost predicate LeadersOk<C>(y: System<C>) {
    forall s :: s in y.leaders ==> Won(y, s)
  }

  ghost predicate NodeOk<C>(n: Node<C>, peers: nat) {
    Valid(n) && |n.nextIndex| == peers
  }

  ghost predicate NodesOk<C>(y: System<C>) {
    forall i :: 0 <= i < |y.nodes| ==> NodeOk(y.nodes[i], |y.nodes|)
  }

  ghost predicate ElectionInv<C>(y: System<C>) {
    NodesOk(y) && BallotsOk(y) && AnswersOk(y) && CandidatesOk(y) && LeadersOk(y)
  }

  /** Two majorities share a voter, and a voter backs one candidate a term. */
  lemma ElectionSafety<C>(y: System<C>, a: Stamp, b: Stamp)
    requires ElectionInv(y) && a in y.leaders && b in y.leaders && a.term == b.term
    ensures a == b
  {
    assert Won(y, a) && Won(y, b);
    var p :| Supported(y, a.peer, a.term, p) && |p| > |y.nodes| / 2;
    var q :| Supported(y, b.peer, b.term, q) && |q| > |y.nodes| / 2;
    var v := Meeting(p, q, |y.nodes|);
    assert Ballot(v, a.peer, a.term) in y.ballots && Ballot(v, b.peer, b.term) in y.ballots;
  }

  lemma Meeting(p: set<int>, q: set<int>, n: nat) returns (v: int)
    requires |p| > n / 2 && |q| > n / 2
    requires (forall v :: v in p ==> 0 <= v < n) && forall v :: v in q ==> 0 <= v < n
    ensures v in p && v in q
  {
    Counting.SubsetSize(p + q, Counting.Indices(n));
    assert |p + q| == |p| + |q| - |p * q|;
    v := Counting.Pick(p * q);
  }

  /** The peer keeps its term and vote, or enters a later term without a vote; it gains no role. */
  ghost predicate Passive<C>(n: Node<C>, m: Node<C>) {
    || (m.currentTerm > n.currentTerm && m.state == Follower)
    || (&& m.currentTerm == n.currentTerm && m.votedFor == n.votedFor
        && (m.state == Follower || (m.state == n.state && m.votes == n.votes)))
  }

  /** What a system keeps of its election record when nothing is added to it. */
  lemma PassiveStep<C>(y: System<C>, z: System<C>, i: nat)
    requires ElectionInv(y) && i < |y.nodes| == |z.nodes| && NodeOk(z.nodes[i], |y.nodes|)
    requires Passive(y.nodes[i], z.nodes[i])
    requires z.nodes == y.nodes[i := z.nodes[i]]
    requires z.ballots == y.ballots && z.accepted == y.accepted && z.leaders == y.leaders && AnswersOk(z)
    ensures ElectionInv(z)
  {
    hide Valid;
    forall b | b in z.ballots ensures Binding(z, b) { assert Binding(y, b); }
    forall s | s in z.leaders ensures Won(z, s) {
      assert Won(y, s);
      var q :| Supported(y, s.peer, s.term, q) && |q| > |y.nodes| / 2;
      assert Supported(z, s.peer, s.term, q);
    }
    forall j | 0 <= j < |z.nodes|
      ensures z.nodes[j].state == Candidate ==> Supported(z, j, z.nodes[j].currentTerm, z.nodes[j].votes)
    {
      if z.nodes[j].state == Candidate { assert Supported(y, j, y.nodes[j].currentTerm, y.nodes[j].votes); }
    }
  }

  /** A handler other than a vote, an election or AppendEntries leaves the peer passive. */
  lemma PassiveHandler<C>(n: Node<C>, me: nat, e: Input<C>, peers: nat)
    requires NodeOk(n, peers) && Possible(n, me, e)
    requires !e.RequestVote? && !e.StartElection? && !e.AppendEntries? && !e.ReceiveVote?
    ensures NodeOk(After(n, me, e), peers) && Passive(n, After(n, me, e))
  {
    StaysValid(n, me, e);
  }

  lemma RequestVoteFacts<C>(n: Node<C>, args: VoteArgs, peers: nat)
    requires NodeOk(n, peers)
    ensures var (m, reply) := OnRequestVote(n, args);
      && NodeOk(m, peers)
      && (!reply.granted ==> Passive(n, m))
      && (reply.granted ==>
            m.state == Follower && m.currentTerm == args.term >= n.currentTerm && m.votedFor == args.candidateId)
      && (reply.granted && args.term == n.currentTerm ==> n.votedFor == args.candidateId || n.votedFor == -1)
  {
    VoteValid(n, args);
  }

  /** One more ballot, by a voter that has cast none in this term for anybody else. */
  lemma NewBallot<C>(y: System<C>, z: System<C>, i: nat, b: Ballot)
    requires ElectionInv(y) && i < |y.nodes| == |z.nodes| && z.nodes == y.nodes[i := z.nodes[i]]
    requires b.voter == i && b.candidate >= 0 && z.ballots == y.ballots + {b} && z.accepted == y.accepted
    requires z.leaders == y.leaders
    requires z.nodes[i].currentTerm == b.term >= y.nodes[i].currentTerm && z.nodes[i].votedFor == b.candidate
    requires Stamp(i, b.term) !in y.accepted || b.term > y.nodes[i].currentTerm
    requires b.term == y.nodes[i].currentTerm ==> y.nodes[i].votedFor == b.candidate || y.nodes[i].votedFor == -1
    ensures BallotsOk(z)
  {
    forall c | c in z.ballots
      ensures Binding(z, c) && (c.voter == i && c.term == b.term ==> c.candidate == b.candidate)
    {
      if c in y.ballots { assert Binding(y, c); }
    }
  }

  lemma LeadersKept<C>(y: System<C>, z: System<C>, i: nat)
    requires LeadersOk(y) && i < |y.nodes| == |z.nodes| && z.nodes == y.nodes[i := z.nodes[i]]
    requires y.ballots <= z.ballots && z.leaders == y.leaders && z.nodes[i].currentTerm >= y.nodes[i].currentTerm
    requires z.nodes[i].state == Candidate ==>
      z.nodes[i].currentTerm > y.nodes[i].currentTerm || z.nodes[i].state == y.nodes[i].state
    ensures LeadersOk(z)
  {
    forall s | s in z.leaders ensures Won(z, s) {
      assert Won(y, s);
      var q :| Supported(y, s.peer, s.term, q) && |q| > |y.nodes| / 2;
      assert Supported(z, s.peer, s.term, q);
    }
  }

  lemma CandidatesKept<C>(y: System<C>, z: System<C>, i: nat)
    requires CandidatesOk(y) && i < |y.nodes| == |z.nodes| && z.nodes == y.nodes[i := z.nodes[i]]
    requires y.ballots <= z.ballots && y.leaders <= z.leaders
    requires z.nodes[i].state == Candidate ==>
      z.nodes[i].currentTerm >= 1 && Supported(z, i, z.nodes[i].currentTerm, z.nodes[i].votes)
    requires z.nodes[i].state == Leader ==> Stamp(i, z.nodes[i].currentTerm) in z.leaders
    ensures CandidatesOk(z)
  {
    forall j | 0 <= j < |z.nodes| && z.nodes[j].state == Candidate
      ensures Supported(z, j, z.nodes[j].currentTerm, z.nodes[j].votes)
    {
      if j != i { assert Supported(y, j, y.nodes[j].currentTerm, y.nodes[j].votes); }
    }
  }

  lemma ElectionElects<C>(y: System<C>, i: nat)
    requires ElectionInv(y) && Enabled(y, Election(i))
    ensures ElectionInv(Next(y, Election(i)))
  {
    hide EndOf;
    var z := Next(y, Election(i));
    StaysValid(y.nodes[i], i, StartElection);
    hide Valid;
    NewBallot(y, z, i, Ballot(i, i, z.nodes[i].currentTerm));
    LeadersKept(y, z, i);
    CandidatesKept(y, z, i);
  }

  lemma VoteElects<C>(y: System<C>, i: nat, args: VoteArgs)
    requires ElectionInv(y) && Enabled(y, Vote(i, args)) && NoLateVote(y, Vote(i, args))
    ensures ElectionInv(Next(y, Vote(i, args)))
  {
    hide EndOf;
    var z := Next(y, Vote(i, args));
    RequestVoteFacts(y.nodes[i], args, |y.nodes|);
    var (m, reply) := OnRequestVote(y.nodes[i], args);
    hide OnRequestVote, Valid;
    assert VoteRequest(args) in y.messages;
    if reply.granted {
      NewBallot(y, z, i, Ballot(i, args.candidateId, args.term));
      LeadersKept(y, z, i);
      CandidatesKept(y, z, i);
    } else {
      PassiveStep(y, z, i);
    }
  }

  /** What counting an answer can change. */
  lemma CountFacts<C>(y: System<C>, i: nat, server: nat, term: int, reply: VoteReply)
    requires Enabled(y, Count(i, server, term, reply))
    ensures var z := Next(y, Count(i, server, term, reply));
      && |z.nodes| == |y.nodes| && z.nodes == y.nodes[i := z.nodes[i]]
      && z.nodes[i] == OnVoteReply(y.nodes[i], i, server, term, reply)
      && z == y.(nodes := z.nodes, leaders := z.leaders, winners := z.winners)
      && z.nodes[i].logs == y.nodes[i].logs && z.nodes[i].lastIncludedIndex == y.nodes[i].lastIncludedIndex
      && (if y.nodes[i].state != Leader && z.nodes[i].state == Leader
          then && y.nodes[i].state == Candidate && z.nodes[i].currentTerm == y.nodes[i].currentTerm == term
               && z.leaders == y.leaders + {Stamp(i, term)} && z.winners == y.winners[term := EndOf(y.nodes[i])]
          else && z.leaders == y.leaders && z.winners == y.winners
               && (z.nodes[i].state == Leader ==> z.nodes[i].currentTerm == y.nodes[i].currentTerm))
  {
    hide EndOf;
  }

  lemma CountElects<C>(y: System<C>, i: nat, server: nat, term: int, reply: VoteReply)
    requires ElectionInv(y) && Enabled(y, Count(i, server, term, reply))
    ensures ElectionInv(Next(y, Count(i, server, term, reply)))
  {
    CountFacts(y, i, server, term, reply);
    hide Next;
    var z := Next(y, Count(i, server, term, reply));
    var n, m := y.nodes[i], z.nodes[i];
    StaysValid(n, i, ReceiveVote(server, term, reply));
    hide Valid;
    if n.state != Candidate || n.currentTerm != term || reply.term > n.currentTerm || !reply.granted {
      PassiveStep(y, z, i);
    } else {
      assert Ballot(server, i, term) in y.ballots;
      assert m.votes == n.votes + {server} && (m.state == Leader <==> |m.votes| > |y.nodes| / 2);
      hide OnVoteReply;
      CountGrant(y, z, i, server);
    }
  }

  lemma CountGrant<C>(y: System<C>, z: System<C>, i: nat, server: nat)
    requires ElectionInv(y) && i < |y.nodes| == |z.nodes| && z.nodes == y.nodes[i := z.nodes[i]]
    requires NodeOk(z.nodes[i], |y.nodes|)
    requires z.ballots == y.ballots && z.accepted == y.accepted && z.messages == y.messages
    requires var n, m := y.nodes[i], z.nodes[i];
      && n.state == Candidate && m.currentTerm == n.currentTerm && m.votedFor == n.votedFor
      && m.votes == n.votes + {server}
      && (if m.state == Leader then |m.votes| > |y.nodes| / 2 && z.leaders == y.leaders + {Stamp(i, n.currentTerm)}
          else m.state == Candidate && z.leaders == y.leaders)
    requires Ballot(server, i, y.nodes[i].currentTerm) in y.ballots
    ensures ElectionInv(z)
  {
    hide Valid;
    var term := y.nodes[i].currentTerm;
    assert Supported(y, i, term, y.nodes[i].votes);
    assert Binding(y, Ballot(server, i, term));
    assert Supported(z, i, term, z.nodes[i].votes);
    if z.nodes[i].state == Leader {
      CountWins(y, z, i, z.nodes[i].votes);
    } else {
      LeadersKept(y, z, i);
    }
    CandidatesKept(y, z, i);
    forall b | b in z.ballots ensures Binding(z, b) { assert Binding(y, b); }
    hide LeadersOk, CandidatesOk, Binding;
  }

  lemma CountWins<C>(y: System<C>, z: System<C>, i: nat, votes: set<int>)
    requires LeadersOk(y) && i < |y.nodes| == |z.nodes| && z.nodes == y.nodes[i := z.nodes[i]] && z.ballots == y.ballots
    requires z.nodes[i].state == Leader && z.nodes[i].currentTerm == y.nodes[i].currentTerm >= 1
    requires z.leaders == y.leaders + {Stamp(i, z.nodes[i].currentTerm)}
    requires Supported(z, i, z.nodes[i].currentTerm, votes) && |votes| > |y.nodes| / 2
    ensures LeadersOk(z)
  {
    LeadersKept(y, z.(leaders := y.leaders), i);
    forall s | s in z.leaders ensures Won(z, s) {
      if s in y.leaders {
        assert Won(z.(leaders := y.leaders), s);
        var q :| Supported(z.(leaders := y.leaders), s.peer, s.term, q) && |q| > |y.nodes| / 2;
        assert Supported(z, s.peer, s.term, q);
      }
    }
  }

  lemma AppendElects<C>(y: System<C>, i: nat, args: AppendArgs<C>)
    requires ElectionInv(y) && Enabled(y, Append(i, args))
    ensures ElectionInv(Next(y, Append(i, args)))
  {
    var z := Next(y, Append(i, args));
    var n, m := y.nodes[i], z.nodes[i];
    StaysValid(n, i, AppendEntries(args));
    hide Valid;
    if args.term < n.currentTerm {
      PassiveStep(y, z, i);
    } else {
      LeadersKept(y, z, i);
      CandidatesKept(y, z, i);
      assert BallotsOk(z) by { forall b | b in z.ballots ensures Binding(z, b) { assert Binding(y, b); } }
    }
  }

  /** The events that neither vote, elect, count votes nor accept entries. */
  predicate Other<C>(e: Event<C>) {
    !e.Election? && !e.Vote? && !e.Count? && !e.Append?
  }

  /** The input that a step is to its peer. */
  ghost function InputOf<C>(e: Event<C>): (r: Input<C>) {
    match e
    case Election(_) => StartElection
    case Vote(_, args) => RequestVote(args)
    case Count(_, server, term, reply) => ReceiveVote(server, term, reply)
    case Submit(_, command) => Start(command)
    case Offer(_, server) => Send(server)
    case Append(_, args) => AppendEntries(args)
    case Learn(_, server, args, answer, agreed) => ReceiveAppend(server, args, answer, agreed)
    case Trim(_, index, data) => Snapshot(index, data)
    case Install(_, args) => InstallSnapshot(args)
    case LearnSnapshot(_, server, args) => ReceiveSnapshot(server, args, NO_TERM)
    case Apply(_) => RaftNode.Apply
    case Crash(_) => Restart
  }

  lemma OtherNext<C>(y: System<C>, e: Event<C>)
    requires Enabled(y, e) && Other(e)
    ensures var z, n := Next(y, e), y.nodes[e.i];
      && Possible(n, e.i, InputOf(e))
      && z == Set(y, e.i, After(n, e.i, InputOf(e))).(messages := z.messages)
      && y.messages <= z.messages
      && (forall m :: m in z.messages && m !in y.messages ==> !m.VoteRequest? && !m.VoteAnswer?)
  {
    hide OnAppendReply, OnStart, OnApply, OnSnapshot, OnInstallSnapshot, OnSnapshotReply, Boot;
  }

  lemma OtherPassive<C>(y: System<C>, e: Event<C>)
    requires NodesOk(y) && Enabled(y, e) && Other(e)
    ensures var z := Next(y, e);
      && |z.nodes| == |y.nodes| && z.nodes == y.nodes[e.i := z.nodes[e.i]] && NodeOk(z.nodes[e.i], |y.nodes|)
      && Passive(y.nodes[e.i], z.nodes[e.i])
      && z == y.(nodes := z.nodes, messages := z.messages)
      && (forall m :: m in z.messages && m !in y.messages ==> !m.VoteRequest? && !m.VoteAnswer?)
  {
    OtherNext(y, e);
    hide Next, After, InputOf, Possible, Valid;
    PassiveHandler(y.nodes[e.i], e.i, InputOf(e), |y.nodes|);
  }

  lemma OtherElects<C>(y: System<C>, e: Event<C>)
    requires ElectionInv(y) && Enabled(y, e) && Other(e)
    ensures ElectionInv(Next(y, e))
  {
    OtherPassive(y, e);
    hide Next, NodeOk, Passive;
    PassiveStep(y, Next(y, e), e.i);
  }

  /** A step changes one peer, and never lowers its term. */
  lemma Rises<C>(y: System<C>, e: Event<C>)
    requires NodesOk(y) && Enabled(y, e)
    ensures var z := Next(y, e);
      && |z.nodes| == |y.nodes| && z.nodes == y.nodes[e.i := z.nodes[e.i]]
      && z.nodes[e.i].currentTerm >= y.nodes[e.i].currentTerm
  {
    if e.Vote? {
      VoteNext(y, e.i, e.v);
      hide Next;
      RequestVoteFacts(y.nodes[e.i], e.v, |y.nodes|);
    } else if e.Count? {
      CountFacts(y, e.i, e.server, e.term, e.reply);
      hide Next;
    } else if e.Append? {
      AppendNext(y, e.i, e.a);
      hide Next, Merge, Rejection;
    } else if !e.Election? {
      OtherPassive(y, e);
      hide Next;
    } else {
      hide EndOf;
    }
  }

  lemma StepElects<C>(y: System<C>, e: Event<C>)
    requires ElectionInv(y) && Enabled(y, e) && NoLateVote(y, e)
    ensures ElectionInv(Next(y, e))
  {
    hide ElectionInv, Next, NoLateVote;
    match e
    case Election(i) => ElectionElects(y, i);
    case Vote(i, args) => VoteElects(y, i, args);
    case Count(i, server, term, reply) => CountElects(y, i, server, term, reply);
    case Append(i, args) => AppendElects(y, i, args);
    case _ => OtherElects(y, e);
  }

  ghost predicate IsRun<C>(run: seq<System<C>>, events: seq<Event<C>>) {
    && |run| == |events| + 1 && Initial(run[0])
    && forall i :: 0 <= i < |events| ==> Enabled(run[i], events[i]) && run[i + 1] == Next(run[i], events[i])
  }

  ghost predicate NoLateVotes<C>(run: seq<System<C>>, events: seq<Event<C>>)
    requires IsRun(run, events)
  {
    forall i :: 0 <= i < |events| ==> NoLateVote(run[i], events[i])
  }

  /** The step hands the entry at this index to the service of its peer. */
  ghost predicate Applies<C>(y: System<C>, e: Event<C>, index: int, entry: Entry<C>) {
    && e.Apply? && e.i < |y.nodes| && CanApply(y.nodes[e.i]) && index == y.nodes[e.i].lastApplied + 1
    && 0 <= index - y.nodes[e.i].lastIncludedIndex < |y.nodes[e.i].logs|
    && y.nodes[e.i].logs[index - y.nodes[e.i].lastIncludedIndex] == entry
  }

  lemma InitialElects<C>(y: System<C>)
    requires Initial(y)
    ensures ElectionInv(y)
  {
  }

  lemma {:induction false} Reachable<C>(run: seq<System<C>>, events: seq<Event<C>>, i: nat)
    requires IsRun(run, events) && NoLateVotes(run, events) && i < |run|
    ensures ElectionInv(run[i])
  {
    hide ElectionInv, Next, Initial, Enabled, NoLateVote;
    if i == 0 {
      InitialElects(run[0]);
    } else {
      Reachable(run, events, i - 1);
      StepElects(run[i - 1], events[i - 1]);
    }
  }

  lemma {:induction false} LeadersGrow<C>(run: seq<System<C>>, events: seq<Event<C>>, i: nat, j: nat)
    requires IsRun(run, events) && i <= j < |run|
    ensures run[i].leaders <= run[j].leaders
  {
    hide OnAppendEntries, OnRequestVote, OnStartElection, OnVoteReply, OnAppendReply, OnSnapshot, OnInstallSnapshot,
      OnSnapshotReply, OnSend, Boot, Initial;
    if i < j { LeadersGrow(run, events, i, j - 1); }
  }

  /** In every run without late votes, two peers that are leader in the same term, at whatever times, are one. */
  lemma AtMostOneLeader<C>(run: seq<System<C>>, events: seq<Event<C>>, i: nat, j: nat, a: nat, b: nat)
    requires IsRun(run, events) && NoLateVotes(run, events) && i <= j < |run|
    requires a < |run[i].nodes| && b < |run[j].nodes| && run[i].nodes[a].state == run[j].nodes[b].state == Leader
    requires run[i].nodes[a].currentTerm == run[j].nodes[b].currentTerm
    ensures a == b
  {
    Reachable(run, events, i);
    Reachable(run, events, j);
    LeadersGrow(run, events, i, j);
    hide IsRun;
    var term := run[i].nodes[a].currentTerm;
    assert Stamp(a, term) in run[i].leaders && Stamp(b, term) in run[j].leaders;
    ElectionSafety(run[j], Stamp(a, term), Stamp(b, term));
  }
}
