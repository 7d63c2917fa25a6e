/** Leader Completeness: an entry that a majority has taken in its own term is in the log of every later leader. */
module RaftCompleteness {
  import opened Options
  import opened RaftNode
  import opened RaftCluster
  import opened RaftBooks
  import RaftLogs
  import RaftRestriction

  ghost predicate Within<K, V>(m: map<K, V>, n: map<K, V>) {
    forall k :: k in m ==> k in n && n[k] == m[k]
  }

  lemma SelfGrows<C>(t: Record<C>)
    ensures Grows(t, t)
  {
  }

  // ---- votes ---------------------------------------------------------------------

  ghost predicate StoodOk<C>(nodes: seq<Node<C>>, b: Books<C>, s: Stamp)
    requires s in b.stood
  {
    && s.peer < |nodes| && s.term <= nodes[s.peer].currentTerm
    && Consistent(b.terms, b.stood[s]) && UpTo(b.stood[s], s.term - 1)
  }

  ghost predicate StoodAll<C>(nodes: seq<Node<C>>, b: Books<C>) {
    forall s :: s in b.stood ==> StoodOk(nodes, b, s)
  }

  ghost predicate RequestOk<C>(m: Message<C>, stood: map<Stamp, seq<Entry<C>>>) {
    m.VoteRequest? ==>
      && 0 <= m.v.candidateId && Stamp(m.v.candidateId, m.v.term) in stood
      && |stood[Stamp(m.v.candidateId, m.v.term)]| > 0
      && End(stood[Stamp(m.v.candidateId, m.v.term)]) == Position(m.v.lastLogTerm, m.v.lastLogIndex)
  }

  ghost predicate RequestsAll<C>(messages: set<Message<C>>, stood: map<Stamp, seq<Entry<C>>>) {
    forall m :: m in messages ==> RequestOk(m, stood)
  }

  /** A ballot that counts: the voter's log was not ahead of the one the candidate stood with. */
  ghost predicate CastOk<C>(nodes: seq<Node<C>>, b: Books<C>, x: Ballot)
    requires x in b.cast
  {
    && x.voter < |nodes| && x.term <= nodes[x.voter].currentTerm && Consistent(b.terms, b.cast[x])
    && 0 <= x.candidate && Stamp(x.candidate, x.term) in b.stood && |b.stood[Stamp(x.candidate, x.term)]| > 0
    && RaftRestriction.NotAhead(End(b.cast[x]), End(b.stood[Stamp(x.candidate, x.term)]))
  }

  ghost predicate CastAll<C>(nodes: seq<Node<C>>, b: Books<C>) {
    forall x :: x in b.cast ==> CastOk(nodes, b, x)
  }

  ghost predicate EarlyAll<C>(ballots: set<Ballot>, b: Books<C>) {
    forall x :: x in ballots ==> x.term in b.won || x in b.cast
  }

  /** A candidate still has the log it stood with, or has lost the term. */
  ghost predicate Stands<C>(n: Node<C>, i: nat, full: seq<Entry<C>>, b: Books<C>, leaders: set<Stamp>) {
    n.state == Candidate ==>
      && Stamp(i, n.currentTerm) in b.stood
      && (full == b.stood[Stamp(i, n.currentTerm)] || RaftLogs.LedBy(leaders, n.currentTerm, i))
  }

  ghost predicate StandsAll<C>(nodes: seq<Node<C>>, b: Books<C>, leaders: set<Stamp>)
    requires |b.whole| == |nodes|
  {
    forall i :: 0 <= i < |nodes| ==> Stands(nodes[i], i, b.whole[i], b, leaders)
  }

  /** A winner won with the log it stood with, and with the ballots of a majority. */
  ghost predicate WonOk<C>(peers: nat, b: Books<C>, s: Stamp) {
    && s in b.stood && s.term in b.won && b.won[s.term] == b.stood[s] && s.term in b.quorum
    && |b.quorum[s.term]| > peers / 2
    && forall v :: v in b.quorum[s.term] ==> 0 <= v < peers && Ballot(v, s.peer, s.term) in b.cast
  }

  ghost predicate WonAll<C>(leaders: set<Stamp>, peers: nat, b: Books<C>) {
    forall s :: s in leaders ==> WonOk(peers, b, s)
  }

  ghost predicate VoteInv<C>(y: System<C>, b: Books<C>) {
    && |b.whole| == |y.nodes|
    && StoodAll(y.nodes, b) && RequestsAll(y.messages, b.stood) && CastAll(y.nodes, b) && EarlyAll(y.ballots, b)
    && StandsAll(y.nodes, b, y.leaders) && WonAll(y.leaders, |y.nodes|, b)
  }

  // What stays as the books grow.

  lemma StoodGrows<C>(ns: seq<Node<C>>, ms: seq<Node<C>>, i: nat, b: Books<C>, c: Books<C>, s: Stamp)
    requires s in b.stood && StoodOk(ns, b, s) && s in c.stood && c.stood[s] == b.stood[s] && Grows(b.terms, c.terms)
    requires i < |ns| == |ms| && ms == ns[i := ms[i]] && ms[i].currentTerm >= ns[i].currentTerm
    ensures StoodOk(ms, c, s)
  {
    ConsistentGrows(b.terms, c.terms, b.stood[s]);
    hide Consistent, UpTo, Grows;
  }

  lemma CastGrows<C>(ns: seq<Node<C>>, ms: seq<Node<C>>, i: nat, b: Books<C>, c: Books<C>, x: Ballot)
    requires x in b.cast && CastOk(ns, b, x) && x in c.cast && c.cast[x] == b.cast[x] && Grows(b.terms, c.terms)
    requires Within(b.stood, c.stood)
    requires i < |ns| == |ms| && ms == ns[i := ms[i]] && ms[i].currentTerm >= ns[i].currentTerm
    ensures CastOk(ms, c, x)
  {
    ConsistentGrows(b.terms, c.terms, b.cast[x]);
    hide Consistent, Grows;
  }

  lemma StoodFrame<C>(ns: seq<Node<C>>, ms: seq<Node<C>>, i: nat, b: Books<C>, c: Books<C>)
    requires StoodAll(ns, b) && Within(b.stood, c.stood) && Grows(b.terms, c.terms)
    requires i < |ns| == |ms| && ms == ns[i := ms[i]] && ms[i].currentTerm >= ns[i].currentTerm
    requires forall s :: s in c.stood && s !in b.stood ==> StoodOk(ms, c, s)
    ensures StoodAll(ms, c)
  {
    hide StoodOk, Grows;
    forall s | s in c.stood ensures StoodOk(ms, c, s) {
      if s in b.stood { StoodGrows(ns, ms, i, b, c, s); }
    }
  }

  lemma CastFrame<C>(ns: seq<Node<C>>, ms: seq<Node<C>>, i: nat, b: Books<C>, c: Books<C>)
    requires CastAll(ns, b) && Within(b.stood, c.stood) && Grows(b.terms, c.terms)
    requires i < |ns| == |ms| && ms == ns[i := ms[i]] && ms[i].currentTerm >= ns[i].currentTerm
    requires forall x :: x in c.cast ==> (x in b.cast && c.cast[x] == b.cast[x]) || CastOk(ms, c, x)
    ensures CastAll(ms, c)
  {
    hide CastOk, Grows, Within;
    forall x | x in c.cast ensures CastOk(ms, c, x) {
      if x in b.cast && c.cast[x] == b.cast[x] { CastGrows(ns, ms, i, b, c, x); }
    }
  }

  lemma RequestsFrame<C>(ms: set<Message<C>>, more: set<Message<C>>, b: map<Stamp, seq<Entry<C>>>,
      c: map<Stamp, seq<Entry<C>>>)
    requires RequestsAll(ms, b) && Within(b, c) && forall m :: m in more && m !in ms ==> RequestOk(m, c)
    ensures RequestsAll(more, c)
  {
    hide End;
    forall m | m in more ensures RequestOk(m, c) {
      if m in ms { assert RequestOk(m, b); }
    }
  }

  lemma StandsFrame<C>(ns: seq<Node<C>>, ms: seq<Node<C>>, i: nat, b: Books<C>, c: Books<C>, leaders: set<Stamp>,
      more: set<Stamp>)
    requires |b.whole| == |ns| && StandsAll(ns, b, leaders) && Within(b.stood, c.stood) && leaders <= more
    requires i < |ns| == |ms| == |c.whole| && ms == ns[i := ms[i]] && c.whole == b.whole[i := c.whole[i]]
    requires Stands(ms[i], i, c.whole[i], c, more)
    ensures StandsAll(ms, c, more)
  {
    forall j | 0 <= j < |ms| ensures Stands(ms[j], j, c.whole[j], c, more) {
      if j != i { assert Stands(ns[j], j, b.whole[j], b, leaders); }
    }
  }

  lemma WonFrame<C>(leaders: set<Stamp>, more: set<Stamp>, peers: nat, b: Books<C>, c: Books<C>)
    requires WonAll(leaders, peers, b) && Within(b.stood, c.stood) && Within(b.won, c.won) && Within(b.quorum, c.quorum)
    requires b.cast.Keys <= c.cast.Keys && forall s :: s in more && s !in leaders ==> WonOk(peers, c, s)
    ensures WonAll(more, peers, c)
  {
    forall s | s in more ensures WonOk(peers, c, s) {
      if s in leaders { assert WonOk(peers, b, s); }
    }
  }

  /** A step of peer `i` that neither asks for votes, casts a ballot nor wins. */
  lemma QuietVotes<C>(y: System<C>, z: System<C>, i: nat, b: Books<C>, c: Books<C>)
    requires VoteInv(y, b) && i < |y.nodes| == |z.nodes| && z.nodes == y.nodes[i := z.nodes[i]]
    requires z.nodes[i].currentTerm >= y.nodes[i].currentTerm && z.leaders == y.leaders && z.ballots == y.ballots
    requires forall m :: m in z.messages && m !in y.messages ==> !m.VoteRequest?
    requires c.stood == b.stood && c.cast == b.cast && c.won == b.won && c.quorum == b.quorum
    requires Grows(b.terms, c.terms) && |c.whole| == |b.whole| && c.whole == b.whole[i := c.whole[i]]
    requires z.nodes[i].state == Candidate ==>
      && y.nodes[i].state == Candidate && z.nodes[i].currentTerm == y.nodes[i].currentTerm
      && (c.whole[i] == b.whole[i] || RaftLogs.LedBy(y.leaders, y.nodes[i].currentTerm, i))
    ensures VoteInv(z, c)
  {
    assert Stands(z.nodes[i], i, c.whole[i], c, z.leaders) by {
      assert Stands(y.nodes[i], i, b.whole[i], b, y.leaders);
      hide RaftLogs.LedBy;
    }
    hide StoodAll, CastAll, RequestsAll, StandsAll, WonAll, Grows, Stands, StoodOk, CastOk, RaftLogs.LedBy;
    StoodFrame(y.nodes, z.nodes, i, b, c);
    CastFrame(y.nodes, z.nodes, i, b, c);
    RequestsFrame(y.messages, z.messages, b.stood, c.stood);
    StandsFrame(y.nodes, z.nodes, i, b, c, y.leaders, z.leaders);
    WonFrame(y.leaders, z.leaders, |y.nodes|, b, c);
  }

  lemma ElectionFacts<C>(y: System<C>, i: nat, b: Books<C>)
    requires Enabled(y, Election(i)) && |b.whole| == |y.nodes| && Whole(y.nodes[i], b.whole[i])
    ensures var z, c := Next(y, Election(i)), Kept(y, Election(i), b);
      var full, term := b.whole[i], y.nodes[i].currentTerm + 1;
      && |z.nodes| == |y.nodes| && z.nodes == y.nodes[i := z.nodes[i]] && z.nodes[i].currentTerm == term
      && z.nodes[i].state == Candidate && z.leaders == y.leaders && z.ballots == y.ballots + {Ballot(i, i, term)}
      && z.messages == y.messages + {VoteRequest(VoteArgs(term, i, End(full).index, End(full).term))}
      && c == b.(stood := b.stood[Stamp(i, term) := full], cast := Cast(b, Ballot(i, i, term), full))
  {
    WholeEnd(y.nodes[i], b.whole[i]);
    hide Whole, End, Cast;
  }

  lemma NotStood<C>(nodes: seq<Node<C>>, i: nat, b: Books<C>, term: int)
    requires StoodAll(nodes, b) && i < |nodes| && term > nodes[i].currentTerm
    ensures Stamp(i, term) !in b.stood
  {
    hide Consistent, UpTo;
  }

  /** Standing in a term in which nobody has heard of the peer. */
  lemma StandVotes<C>(y: System<C>, z: System<C>, i: nat, b: Books<C>, c: Books<C>, term: int)
    requires VoteInv(y, b) && i < |y.nodes| == |z.nodes| && z.nodes == y.nodes[i := z.nodes[i]]
    requires z.leaders == y.leaders
    requires Consistent(b.terms, b.whole[i]) && UpTo(b.whole[i], term - 1) && |b.whole[i]| > 0
    requires term == z.nodes[i].currentTerm > y.nodes[i].currentTerm && z.ballots == y.ballots + {Ballot(i, i, term)}
    requires z.messages == y.messages + {VoteRequest(VoteArgs(term, i, End(b.whole[i]).index, End(b.whole[i]).term))}
    requires c == b.(stood := b.stood[Stamp(i, term) := b.whole[i]], cast := Cast(b, Ballot(i, i, term), b.whole[i]))
    ensures VoteInv(z, c)
  {
    hide StoodAll, CastAll, RequestsAll, StandsAll, WonAll, Grows, Consistent, UpTo;
    var own, full := Ballot(i, i, term), b.whole[i];
    NotStood(y.nodes, i, b, term);
    SelfGrows(b.terms);
    assert StoodOk(z.nodes, c, Stamp(i, term)) && Stands(z.nodes[i], i, full, c, z.leaders);
    assert own in c.cast && c.cast[own] == full ==> CastOk(z.nodes, c, own);
    assert RequestOk(VoteRequest(VoteArgs(term, i, End(full).index, End(full).term)), c.stood);
    hide StoodOk, CastOk, Stands, RequestOk, End;
    StoodFrame(y.nodes, z.nodes, i, b, c);
    CastFrame(y.nodes, z.nodes, i, b, c);
    RequestsFrame(y.messages, z.messages, b.stood, c.stood);
    StandsFrame(y.nodes, z.nodes, i, b, c, y.leaders, z.leaders);
    WonFrame(y.leaders, z.leaders, |y.nodes|, b, c);
  }

  lemma ElectionVotes<C>(y: System<C>, i: nat, b: Books<C>)
    requires VoteInv(y, b) && BookInv(y, b) && Enabled(y, Election(i))
    ensures VoteInv(Next(y, Election(i)), Kept(y, Election(i), b))
  {
    hide BookInv, VoteInv, Next, Kept, Whole, Consistent, UpTo, End, Cast;
    PeerOf(y, b, i);
    NotEmpty(y.nodes[i], b.whole[i]);
    ElectionFacts(y, i, b);
    hide Enabled;
    StandVotes(y, Next(y, Election(i)), i, b, Kept(y, Election(i), b), y.nodes[i].currentTerm + 1);
  }

  lemma NotEmpty<C>(n: Node<C>, full: seq<Entry<C>>)
    requires Whole(n, full)
    ensures |full| > 0
  {
  }

  lemma VoteFacts<C>(y: System<C>, i: nat, args: VoteArgs, b: Books<C>)
    requires Enabled(y, Vote(i, args)) && |b.whole| == |y.nodes|
    ensures var z, c, (m, reply) := Next(y, Vote(i, args)), Kept(y, Vote(i, args), b), OnRequestVote(y.nodes[i], args);
      && z.nodes == y.nodes[i := m] && z.leaders == y.leaders
      && z.messages == y.messages + {VoteAnswer(i, Peer(args.candidateId), args.term, reply)}
      && (if reply.granted
          then && z.ballots == y.ballots + {Ballot(i, args.candidateId, args.term)}
               && c == b.(cast := Cast(b, Ballot(i, args.candidateId, args.term), b.whole[i]))
          else z.ballots == y.ballots && c == b)
  {
    hide OnRequestVote, EndOf, Cast;
  }

  lemma GrantFacts<C>(n: Node<C>, full: seq<Entry<C>>, args: VoteArgs, peers: nat)
    requires NodeOk(n, peers) && Whole(n, full)
    ensures var (m, reply) := OnRequestVote(n, args);
      && m.currentTerm >= n.currentTerm
      && (m.state == Candidate ==> n.state == Candidate && m.currentTerm == n.currentTerm)
      && (reply.granted ==>
            && m.state == Follower && m.currentTerm == args.term
            && |full| > 0 && RaftRestriction.NotAhead(End(full), Position(args.lastLogTerm, args.lastLogIndex)))
  {
    WholeEnd(n, full);
    RequestVoteFacts(n, args, peers);
    VoteRole(n, args);
    if OnRequestVote(n, args).1.granted { RaftRestriction.GrantedNotAhead(n, args); }
    hide OnRequestVote, EndOf, Valid;
  }

  lemma VoteRole<C>(n: Node<C>, args: VoteArgs)
    requires |n.logs| > 0
    ensures var m := OnRequestVote(n, args).0;
      && m.currentTerm >= n.currentTerm
      && (m.state == Candidate ==> n.state == Candidate && m.currentTerm == n.currentTerm)
  {
  }

  lemma RequestOf<C>(y: System<C>, b: Books<C>, m: Message<C>)
    requires VoteInv(y, b) && m in y.messages
    ensures RequestOk(m, b.stood)
  {
    hide StoodAll, CastAll, StandsAll, WonAll, RequestOk;
  }

  lemma VoteVotes<C>(y: System<C>, i: nat, args: VoteArgs, b: Books<C>)
    requires VoteInv(y, b) && BookInv(y, b) && NodesOk(y) && Enabled(y, Vote(i, args))
    ensures VoteInv(Next(y, Vote(i, args)), Kept(y, Vote(i, args), b))
  {
    hide Next, Kept, BookInv, VoteInv, Consistent, Cast, Whole, UpTo, Valid, OnRequestVote, End;
    assert NodeOk(y.nodes[i], |y.nodes|) && VoteRequest(args) in y.messages;
    hide NodesOk;
    PeerOf(y, b, i);
    RequestOf(y, b, VoteRequest(args));
    VoteFacts(y, i, args, b);
    hide Enabled;
    var z, c, n, full := Next(y, Vote(i, args)), Kept(y, Vote(i, args), b), y.nodes[i], b.whole[i];
    GrantFacts(n, full, args, |y.nodes|);
    if OnRequestVote(n, args).1.granted {
      GrantVotes(y, z, i, b, c, Ballot(i, args.candidateId, args.term));
    } else {
      assert b.whole[i := b.whole[i]] == b.whole;
      SelfGrows(b.terms);
      hide Grows;
      QuietVotes(y, z, i, b, c);
    }
  }

  lemma GrantVotes<C>(y: System<C>, z: System<C>, i: nat, b: Books<C>, c: Books<C>, x: Ballot)
    requires VoteInv(y, b) && i < |y.nodes| == |z.nodes| && z.nodes == y.nodes[i := z.nodes[i]]
    requires z.nodes[i].currentTerm >= y.nodes[i].currentTerm && z.leaders == y.leaders && z.ballots == y.ballots + {x}
    requires forall m :: m in z.messages && m !in y.messages ==> !m.VoteRequest?
    requires c == b.(cast := Cast(b, x, b.whole[i])) && Consistent(b.terms, b.whole[i]) && |b.whole[i]| > 0
    requires z.nodes[i].state == Follower && x.voter == i && x.term <= z.nodes[i].currentTerm && x.candidate >= 0
    requires Stamp(x.candidate, x.term) in b.stood && |b.stood[Stamp(x.candidate, x.term)]| > 0
    requires RaftRestriction.NotAhead(End(b.whole[i]), End(b.stood[Stamp(x.candidate, x.term)]))
    ensures VoteInv(z, c)
  {
    hide StoodAll, CastAll, RequestsAll, StandsAll, WonAll, Grows, Consistent, End, RaftRestriction.NotAhead;
    SelfGrows(b.terms);
    assert b.whole[i := b.whole[i]] == b.whole;
    assert x in c.cast && c.cast[x] == b.whole[i] ==> CastOk(z.nodes, c, x);
    assert Stands(z.nodes[i], i, c.whole[i], c, z.leaders);
    hide StoodOk, CastOk, Stands;
    StoodFrame(y.nodes, z.nodes, i, b, c);
    CastFrame(y.nodes, z.nodes, i, b, c);
    RequestsFrame(y.messages, z.messages, b.stood, c.stood);
    StandsFrame(y.nodes, z.nodes, i, b, c, y.leaders, z.leaders);
    WonFrame(y.leaders, z.leaders, |y.nodes|, b, c);
  }

  /** Whoever wins has counted the ballots of a majority. */
  lemma WinSupport<C>(y: System<C>, e: Event<C>)
    requires ElectionInv(y) && Enabled(y, e) && e.Count? && y.nodes[e.i].state != Leader
    requires OnVoteReply(y.nodes[e.i], e.i, e.server, e.term, e.reply).state == Leader
    ensures var m := OnVoteReply(y.nodes[e.i], e.i, e.server, e.term, e.reply);
      |m.votes| > |y.nodes| / 2 && Supported(y, e.i, e.term, m.votes)
  {
    var n, m := y.nodes[e.i], OnVoteReply(y.nodes[e.i], e.i, e.server, e.term, e.reply);
    assert NodeOk(n, |y.nodes|);
    assert Supported(y, e.i, n.currentTerm, n.votes);
    assert VoteAnswer(e.server, e.i, e.term, e.reply) in y.messages;
    assert Ballot(e.server, e.i, e.term) in y.ballots;
    assert Binding(y, Ballot(e.server, e.i, e.term));
  }

  lemma WinVotes<C>(y: System<C>, z: System<C>, i: nat, b: Books<C>)
    requires VoteInv(y, b) && i < |y.nodes| == |z.nodes| && z.nodes == y.nodes[i := z.nodes[i]]
    requires var n, m := y.nodes[i], z.nodes[i];
      && n.state == Candidate && m.state == Leader && m.currentTerm == n.currentTerm
      && (forall j: nat :: Stamp(j, n.currentTerm) !in y.leaders)
      && n.currentTerm !in b.won && n.currentTerm !in b.terms
      && |m.votes| > |y.nodes| / 2 && Supported(y, i, n.currentTerm, m.votes)
      && z.leaders == y.leaders + {Stamp(i, n.currentTerm)}
    requires z.messages == y.messages && z.ballots == y.ballots
    ensures VoteInv(z, Win(b, y.nodes[i].currentTerm, b.whole[i], z.nodes[i].votes))
  {
    hide StoodAll, CastAll, RequestsAll, StoodOk, CastOk, WonAll;
    var term := y.nodes[i].currentTerm;
    var c := Win(b, term, b.whole[i], z.nodes[i].votes);
    assert Stands(y.nodes[i], i, b.whole[i], b, y.leaders) && b.whole[i] == b.stood[Stamp(i, term)];
    assert Stands(z.nodes[i], i, c.whole[i], c, z.leaders);
    WinStamp(y.nodes, y.ballots, b, term, b.whole[i], z.nodes[i].votes, i);
    assert Grows(b.terms, c.terms) && b.whole[i := b.whole[i]] == b.whole;
    hide StandsAll, Stands, Supported, WonOk;
    StandsFrame(y.nodes, z.nodes, i, b, c, y.leaders, z.leaders);
    StoodFrame(y.nodes, z.nodes, i, b, c);
    CastFrame(y.nodes, z.nodes, i, b, c);
    hide Grows;
    WinQuorum(y.leaders, |y.nodes|, b, term, b.whole[i], z.nodes[i].votes, i);
  }

  lemma WinStamp<C>(nodes: seq<Node<C>>, ballots: set<Ballot>, b: Books<C>, term: int, full: seq<Entry<C>>,
      votes: set<int>, i: nat)
    requires EarlyAll(ballots, b) && Stamp(i, term) in b.stood && full == b.stood[Stamp(i, term)] && term !in b.won
    requires |votes| > |nodes| / 2 && forall v :: v in votes ==> 0 <= v < |nodes| && Ballot(v, i, term) in ballots
    ensures WonOk(|nodes|, Win(b, term, full, votes), Stamp(i, term))
  {
  }

  lemma WinQuorum<C>(leaders: set<Stamp>, peers: nat, b: Books<C>, term: int, full: seq<Entry<C>>, votes: set<int>,
      i: nat)
    requires WonAll(leaders, peers, b) && forall j: nat :: Stamp(j, term) !in leaders
    requires WonOk(peers, Win(b, term, full, votes), Stamp(i, term))
    ensures WonAll(leaders + {Stamp(i, term)}, peers, Win(b, term, full, votes))
  {
    var c := Win(b, term, full, votes);
    forall s | s in leaders ensures WonOk(peers, c, s) { assert WonOk(peers, b, s); }
  }

  lemma CountVotes<C>(y: System<C>, e: Event<C>, b: Books<C>)
    requires VoteInv(y, b) && BookInv(y, b) && ElectionInv(y) && Enabled(y, e) && e.Count? && ElectionInv(Next(y, e))
    ensures VoteInv(Next(y, e), Kept(y, e, b))
  {
    hide ElectionInv, BookInv, VoteInv, Next, OnVoteReply, EndOf;
    PeerOf(y, b, e.i);
    CountFacts(y, e.i, e.server, e.term, e.reply);
    CountTerm(y.nodes[e.i], e.i, e.server, e.term, e.reply);
    RaftRestriction.CountRole(y.nodes[e.i], e.i, e.server, e.term, e.reply);
    var z, n, c, i := Next(y, e), y.nodes[e.i], Kept(y, e, b), e.i;
    hide PeerOk;
    if n.state != Leader && z.nodes[i].state == Leader {
      NewlyWon(y, z, i, b);
      WinSupport(y, e);
      hide Enabled;
      WinVotes(y, z, i, b);
    } else {
      assert c == b;
      hide Enabled;
      SelfGrows(b.terms);
      assert b.whole[i := b.whole[i]] == b.whole;
      QuietVotes(y, z, i, b, b);
    }
  }

  lemma NewlyWon<C>(y: System<C>, z: System<C>, i: nat, b: Books<C>)
    requires BookInv(y, b) && ElectionInv(y) && ElectionInv(z) && i < |y.nodes|
    requires y.nodes[i].state == Candidate && z.leaders == y.leaders + {Stamp(i, y.nodes[i].currentTerm)}
    ensures y.nodes[i].currentTerm !in b.terms && y.nodes[i].currentTerm !in b.won
    ensures forall j: nat :: Stamp(j, y.nodes[i].currentTerm) !in y.leaders
  {
    hide PeerOk, MessageOk, ElectionInv;
    RaftLogs.FirstWin(y, z, i);
  }

  lemma OtherBooks<C>(y: System<C>, e: Event<C>, b: Books<C>)
    requires Enabled(y, e) && (Other(e) || e.Append?) && BookInv(y, b)
    ensures var c := Kept(y, e, b);
      && c == b.(terms := c.terms, whole := c.whole)
      && |c.whole| == |b.whole| && c.whole == b.whole[e.i := c.whole[e.i]]
      && Grows(b.terms, c.terms) && (!e.Submit? ==> c.terms == b.terms)
      && (!e.Submit? && !e.Append? && !e.Install? ==> c == b)
      && (e.Submit? && y.nodes[e.i].state != Leader ==> c == b)
  {
    hide BookInv, AfterAppend, AfterInstall, Consistent, Whole, UpTo;
    PeerOf(y, b, e.i);
    assert b.whole[e.i := b.whole[e.i]] == b.whole;
  }

  lemma OtherVotes<C>(y: System<C>, e: Event<C>, b: Books<C>)
    requires VoteInv(y, b) && BookInv(y, b) && ElectionInv(y) && Enabled(y, e) && Other(e)
    ensures VoteInv(Next(y, e), Kept(y, e, b))
  {
    assert NodesOk(y);
    hide Next, Kept, Enabled, BookInv, NodesOk, ElectionInv, VoteInv, Grows, RaftLogs.LedBy, NodeOk;
    OtherPassive(y, e);
    OtherBooks(y, e, b);
    var z, c, i := Next(y, e), Kept(y, e, b), e.i;
    if e.Install? && z.nodes[i].state == Candidate { InstallCandidate(y, i, e.s, b); }
    if e.Submit? && y.nodes[i].state == Leader { LeaderStays(y, i, e.command); }
    QuietVotes(y, z, i, b, c);
  }

  lemma LeaderStays<C>(y: System<C>, i: nat, command: C)
    requires Enabled(y, Submit(i, command)) && y.nodes[i].state == Leader
    ensures Next(y, Submit(i, command)).nodes[i].state == Leader
  {
  }

  /** A candidate whose log a snapshot replaces has lost the term. */
  lemma CandidateKeeps<C>(n: Node<C>, full: seq<Entry<C>>, args: SnapshotArgs, t: Record<C>)
    requires |n.logs| > 0 && OnInstallSnapshot(n, args).0.state == Candidate
    ensures AfterInstall(n, full, args, t) == full || args.term == n.currentTerm
  {
    hide Trimmed, LogTerm;
  }

  lemma InstallCandidate<C>(y: System<C>, i: nat, args: SnapshotArgs, b: Books<C>)
    requires BookInv(y, b) && Enabled(y, Install(i, args)) && Next(y, Install(i, args)).nodes[i].state == Candidate
    ensures Kept(y, Install(i, args), b).whole[i] == b.whole[i] || RaftLogs.LedBy(y.leaders, y.nodes[i].currentTerm, i)
  {
    hide BookInv, OnInstallSnapshot, RaftLogs.LedBy, Snapped, PeerOk;
    PeerOf(y, b, i);
    MessageOf(y, b, SnapshotRequest(i, args));
    CandidateKeeps(y.nodes[i], b.whole[i], args, b.terms);
    hide AfterInstall;
  }

  lemma AppendVotes<C>(y: System<C>, i: nat, args: AppendArgs<C>, b: Books<C>)
    requires VoteInv(y, b) && BookInv(y, b) && NodesOk(y) && Enabled(y, Append(i, args))
    ensures VoteInv(Next(y, Append(i, args)), Kept(y, Append(i, args), b))
  {
    hide Kept, BookInv, NodesOk, VoteInv, Grows, RaftLogs.LedBy, OnAppendEntries, AfterAppend, Next;
    PeerOf(y, b, i);
    var z, c := Next(y, Append(i, args)), Kept(y, Append(i, args), b);
    AppendKept(y, i, args, b);
    AppendNext(y, i, args);
    AppendLeaders(y, i, args);
    AppendBallots(y, i, args);
    OtherBooks(y, Append(i, args), b);
    Rises(y, Append(i, args));
    AppendFollows(y.nodes[i], args, b.whole[i]);
    hide Enabled;
    QuietVotes(y, z, i, b, c);
  }

  lemma AppendKept<C>(y: System<C>, i: nat, args: AppendArgs<C>, b: Books<C>)
    requires Enabled(y, Append(i, args)) && |b.whole| == |y.nodes|
    ensures Kept(y, Append(i, args), b) == b.(whole := b.whole[i := AfterAppend(y.nodes[i], b.whole[i], args)])
  {
    hide AfterAppend;
  }

  lemma AppendBallots<C>(y: System<C>, i: nat, args: AppendArgs<C>)
    requires Enabled(y, Append(i, args))
    ensures Next(y, Append(i, args)).ballots == y.ballots
  {
    hide OnAppendEntries;
  }

  lemma AppendFollows<C>(n: Node<C>, args: AppendArgs<C>, full: seq<Entry<C>>)
    requires |n.logs| > 0
    ensures var m := OnAppendEntries(n, args).0;
      m.state == Follower || (m == n && args.term < n.currentTerm && AfterAppend(n, full, args) == full)
  {
  }

  lemma VotesStep<C>(y: System<C>, e: Event<C>, b: Books<C>)
    requires VoteInv(y, b) && BookInv(y, b) && ElectionInv(y) && Enabled(y, e) && ElectionInv(Next(y, e))
    ensures VoteInv(Next(y, e), Kept(y, e, b))
  {
    assert NodesOk(y);
    hide VoteInv, BookInv, ElectionInv, Next, Kept, NodesOk;
    if e.Election? {
      ElectionVotes(y, e.i, b);
    } else if e.Vote? {
      VoteVotes(y, e.i, e.v, b);
    } else if e.Count? {
      CountVotes(y, e, b);
    } else if e.Append? {
      AppendVotes(y, e.i, e.a, b);
    } else {
      OtherVotes(y, e, b);
    }
  }

  // ---- who has taken what --------------------------------------------------------

  /** The log of a term up to an index. */
  ghost function Past<C>(b: Books<C>, term: int, k: nat): (r: seq<Entry<C>>)
    requires term in b.terms && k < |b.terms[term]|
  {
    b.terms[term][..k + 1]
  }

  ghost predicate IsAck<C>(m: Message<C>, v: nat, term: int, k: nat) {
    m.AppendAnswer? && m.answer.success && m.from == v && m.a.term == term && k <= m.a.prevLogIndex + |m.a.entries|
  }

  /** Peer `v` has had the log of the term up to index `k`: it built it or has acknowledged it. */
  ghost predicate Had<C>(y: System<C>, b: Books<C>, v: nat, term: int, k: nat) {
    && term in b.terms && k < |b.terms[term]|
    && (Stamp(v, term) in y.leaders || exists m :: m in y.messages && IsAck(m, v, term, k))
  }

  /** A leader of a later term, up to `last`, won without it. */
  ghost predicate Overruled<C>(b: Books<C>, term: int, k: nat, last: int)
    requires term in b.terms && k < |b.terms[term]|
  {
    exists u :: term < u <= last && u in b.won && !(Past(b, term, k) <= b.won[u])
  }

  /** It still has it, or a later leader won without it. */
  ghost predicate Holds<C>(nodes: seq<Node<C>>, b: Books<C>, v: nat, term: int, k: nat) {
    && term in b.terms && k < |b.terms[term]| && v < |nodes| == |b.whole| && term <= nodes[v].currentTerm
    && (Past(b, term, k) <= b.whole[v] || Overruled(b, term, k, nodes[v].currentTerm))
  }

  /** It had it when it cast its ballot, or a leader before that ballot's term won without it. */
  ghost predicate CastWith<C>(b: Books<C>, x: Ballot, term: int, k: nat)
    requires x in b.cast
  {
    && term in b.terms && k < |b.terms[term]|
    && (Past(b, term, k) <= b.cast[x] || Overruled(b, term, k, x.term - 1))
  }

  ghost predicate AckInv<C>(y: System<C>, b: Books<C>) {
    && (forall v: nat, term, k: nat :: Had(y, b, v, term, k) ==> Holds(y.nodes, b, v, term, k))
    && (forall x, term, k: nat :: x in b.cast && term < x.term && Had(y, b, x.voter, term, k) ==>
          CastWith(b, x, term, k))
  }

  lemma PastGrows<C>(b: Books<C>, c: Books<C>, term: int, k: nat)
    requires term in b.terms && k < |b.terms[term]| && Grows(b.terms, c.terms)
    ensures term in c.terms && k < |c.terms[term]| && Past(c, term, k) == Past(b, term, k)
  {
    assert b.terms[term] <= c.terms[term];
  }

  lemma OverruledGrows<C>(b: Books<C>, c: Books<C>, term: int, k: nat, last: int, more: int)
    requires term in b.terms && k < |b.terms[term]| && Grows(b.terms, c.terms) && Within(b.won, c.won) && last <= more
    requires Overruled(b, term, k, last)
    ensures term in c.terms && k < |c.terms[term]| && Overruled(c, term, k, more)
  {
    PastGrows(b, c, term, k);
    hide Grows, Past;
    var u :| term < u <= last && u in b.won && !(Past(b, term, k) <= b.won[u]);
    assert u in c.won && !(Past(c, term, k) <= c.won[u]);
  }

  /** What a step of peer `i` does to its whole log: it keeps what the peer has had, unless a later leader lacked it. */
  ghost predicate Loyal<C>(y: System<C>, z: System<C>, i: nat, b: Books<C>, c: Books<C>)
    requires i < |b.whole| == |c.whole| && i < |z.nodes|
  {
    forall term, k: nat :: Had(y, b, i, term, k) && Past(b, term, k) <= b.whole[i] ==>
      Past(b, term, k) <= c.whole[i] || Lost(c, term, k, z.nodes[i].currentTerm)
  }

  ghost predicate Lost<C>(c: Books<C>, term: int, k: nat, last: int) {
    term in c.terms && k < |c.terms[term]| && Overruled(c, term, k, last)
  }

  /** What peers have had only since the step is in the log of peer `i`, which is in that term. */
  ghost predicate Fresh<C>(y: System<C>, z: System<C>, i: nat, b: Books<C>, c: Books<C>)
    requires i < |c.whole| && i < |z.nodes|
  {
    forall v: nat, term, k: nat :: Had(z, c, v, term, k) && !Had(y, b, v, term, k) ==>
      v == i && term == z.nodes[i].currentTerm && Past(c, term, k) <= c.whole[i]
  }

  /** The ballots that count are as before, or are cast by peer `i` with the log it has. */
  ghost predicate Honest<C>(y: System<C>, i: nat, b: Books<C>, c: Books<C>)
    requires i < |b.whole| && i < |y.nodes|
  {
    forall x :: x in c.cast ==>
      || (x in b.cast && c.cast[x] == b.cast[x])
      || (x.voter == i && c.cast[x] == b.whole[i] && x.term >= y.nodes[i].currentTerm && x.term !in b.won)
  }

  lemma HoldsNext<C>(y: System<C>, z: System<C>, i: nat, b: Books<C>, c: Books<C>, v: nat, term: int, k: nat)
    requires i < |y.nodes| == |z.nodes| == |b.whole| == |c.whole| && z.nodes == y.nodes[i := z.nodes[i]]
    requires z.nodes[i].currentTerm >= y.nodes[i].currentTerm && c.whole == b.whole[i := c.whole[i]]
    requires Grows(b.terms, c.terms) && Within(b.won, c.won) && Loyal(y, z, i, b, c)
    requires Had(y, b, v, term, k) && Holds(y.nodes, b, v, term, k)
    ensures Holds(z.nodes, c, v, term, k)
  {
    PastGrows(b, c, term, k);
    hide Grows, Past, Within;
    if Overruled(b, term, k, y.nodes[v].currentTerm) {
      OverruledGrows(b, c, term, k, y.nodes[v].currentTerm, z.nodes[v].currentTerm);
    }
    hide Had, Overruled;
  }

  lemma CastNext<C>(y: System<C>, i: nat, b: Books<C>, c: Books<C>, x: Ballot, term: int, k: nat)
    requires i < |y.nodes| == |b.whole| && Grows(b.terms, c.terms) && Within(b.won, c.won) && Honest(y, i, b, c)
    requires x in c.cast && term < x.term && Had(y, b, x.voter, term, k) && Holds(y.nodes, b, x.voter, term, k)
    requires x in b.cast ==> CastWith(b, x, term, k)
    ensures CastWith(c, x, term, k)
  {
    PastGrows(b, c, term, k);
    hide Grows, Past, Within;
    if x in b.cast && c.cast[x] == b.cast[x] {
      if Overruled(b, term, k, x.term - 1) { OverruledGrows(b, c, term, k, x.term - 1, x.term - 1); }
    } else if Overruled(b, term, k, y.nodes[i].currentTerm) {
      assert Overruled(b, term, k, x.term - 1);
      OverruledGrows(b, c, term, k, x.term - 1, x.term - 1);
    }
  }

  /** A step that is loyal, fresh and honest keeps the record of what peers have. */
  lemma AckStep<C>(y: System<C>, z: System<C>, i: nat, b: Books<C>, c: Books<C>)
    requires AckInv(y, b) && i < |y.nodes| == |z.nodes| == |b.whole| == |c.whole|
    requires z.nodes == y.nodes[i := z.nodes[i]] && z.nodes[i].currentTerm >= y.nodes[i].currentTerm
    requires c.whole == b.whole[i := c.whole[i]] && Grows(b.terms, c.terms) && Within(b.won, c.won)
    requires Loyal(y, z, i, b, c) && Fresh(y, z, i, b, c) && Honest(y, i, b, c)
    requires forall x :: x in c.cast ==> x.voter < |z.nodes| && x.term <= z.nodes[x.voter].currentTerm
    ensures AckInv(z, c)
  {
    forall v: nat, term, k: nat | Had(z, c, v, term, k) ensures Holds(z.nodes, c, v, term, k) {
      if Had(y, b, v, term, k) {
        hide Had, Loyal, Holds, Grows, Within;
        HoldsNext(y, z, i, b, c, v, term, k);
      }
    }
    forall x, term, k: nat | x in c.cast && term < x.term && Had(z, c, x.voter, term, k)
      ensures CastWith(c, x, term, k)
    {
      assert Had(y, b, x.voter, term, k);
      hide Had, Loyal, Holds, Grows, Within, Honest, CastWith;
      CastNext(y, i, b, c, x, term, k);
    }
  }

  // ---- the steps -----------------------------------------------------------------

  lemma SameHad<C>(y: System<C>, z: System<C>, b: Books<C>, c: Books<C>, v: nat, term: int, k: nat)
    requires z.leaders == y.leaders && c.terms == b.terms && Had(z, c, v, term, k)
    requires forall m :: m in z.messages && m !in y.messages ==> !m.AppendAnswer?
    ensures Had(y, b, v, term, k)
  {
    if Stamp(v, term) !in y.leaders {
      var m :| m in z.messages && IsAck(m, v, term, k);
      assert m in y.messages;
    }
  }

  /** A step that leaves the whole logs alone, and at most casts a ballot. */
  lemma PlainAcks<C>(y: System<C>, z: System<C>, i: nat, b: Books<C>, c: Books<C>)
    requires AckInv(y, b) && i < |y.nodes| == |z.nodes| == |b.whole| && c == b.(stood := c.stood, cast := c.cast)
    requires z.nodes == y.nodes[i := z.nodes[i]] && z.nodes[i].currentTerm >= y.nodes[i].currentTerm
    requires z.leaders == y.leaders && forall m :: m in z.messages && m !in y.messages ==> !m.AppendAnswer?
    requires Honest(y, i, b, c) && CastAll(z.nodes, c)
    ensures AckInv(z, c)
  {
    SelfGrows(b.terms);
    assert b.whole[i := b.whole[i]] == b.whole;
    forall v: nat, term, k: nat | Had(z, c, v, term, k)
      ensures Had(y, b, v, term, k)
    {
      SameHad(y, z, b, c, v, term, k);
    }
    forall x | x in c.cast ensures x.voter < |z.nodes| && x.term <= z.nodes[x.voter].currentTerm {
      assert CastOk(z.nodes, c, x);
    }
    hide CastAll, CastOk, Honest, Had, AckInv;
    assert Loyal(y, z, i, b, c) && Fresh(y, z, i, b, c);
    AckStep(y, z, i, b, c);
  }

  /** A follower that takes a leader's entries keeps what it has had, unless that leader won without it. */
  lemma AppendLoyal<C>(n: Node<C>, full: seq<Entry<C>>, args: AppendArgs<C>, b: Books<C>, term: int, k: nat)
    requires PeerOk(n, full, b.terms) && Sent(b.terms, args) && TermOk(b, args.term)
    requires term in b.terms && k < |b.terms[term]| && term <= n.currentTerm && Past(b, term, k) <= full
    ensures Past(b, term, k) <= AfterAppend(n, full, args)
      || (args.term >= n.currentTerm && Overruled(b, term, k, args.term))
  {
    var lead, at, p := b.terms[args.term], args.prevLogIndex + 1, Past(b, term, k);
    hide Consistent, Merge, UpTo, Rising, Whole;
    if args.term >= n.currentTerm && Matches(n, args) {
      if term != args.term && !(p <= b.won[args.term]) {
        assert Overruled(b, term, k, args.term);
      } else {
        assert p <= lead;
        AppendConsistent(b.terms, n, full, args);
        MergeKeeps(b.terms, full, lead, at, args.entries, p);
      }
    }
  }

  /** What it acknowledges it has. */
  lemma MergedPast<C>(t: Record<C>, full: seq<Entry<C>>, lead: seq<Entry<C>>, at: nat, entries: seq<Entry<C>>, k: nat)
    requires Consistent(t, full) && Consistent(t, lead) && 0 < at <= |full| && at + |entries| <= |lead|
    requires full[..at] == lead[..at] && entries == lead[at..at + |entries|] && k < at + |entries|
    ensures lead[..k + 1] <= Merge(full, at, entries)
  {
    hide Consistent, Merge;
    MergeIsEither(t, full, lead, at, entries);
    var r := Merge(full, at, entries);
    assert r[..at + |entries|][..k + 1] == r[..k + 1] && lead[..at + |entries|][..k + 1] == lead[..k + 1];
  }

  lemma AppendFresh<C>(n: Node<C>, full: seq<Entry<C>>, args: AppendArgs<C>, b: Books<C>, k: nat)
    requires PeerOk(n, full, b.terms) && Sent(b.terms, args) && TermOk(b, args.term)
    requires OnAppendEntries(n, args).1.success && k <= args.prevLogIndex + |args.entries|
    ensures OnAppendEntries(n, args).0.currentTerm == args.term && Past(b, args.term, k) <= AfterAppend(n, full, args)
  {
    hide Consistent, Merge, UpTo, Rising, Whole;
    SameMatches(n, args);
    AppendConsistent(b.terms, n, full, args);
    MergedPast(b.terms, full, b.terms[args.term], args.prevLogIndex + 1, args.entries, k);
  }

  lemma AppendAcks<C>(y: System<C>, i: nat, args: AppendArgs<C>, b: Books<C>)
    requires AckInv(y, b) && BookInv(y, b) && NodesOk(y) && Enabled(y, Append(i, args))
    requires CastAll(Next(y, Append(i, args)).nodes, Kept(y, Append(i, args), b))
    ensures AckInv(Next(y, Append(i, args)), Kept(y, Append(i, args), b))
  {
    var z, c, n, full := Next(y, Append(i, args)), Kept(y, Append(i, args), b), y.nodes[i], b.whole[i];
    AppendKept(y, i, args, b);
    assert PeerOk(n, full, b.terms) && AppendRequest(i, args) in y.messages;
    assert MessageOk(AppendRequest(i, args), b.terms, y.leaders) && TermOk(b, args.term);
    hide Kept, BookInv, PeerOk, TermOk, Next, Sent, AfterAppend, OnAppendEntries;
    AppendNext(y, i, args);
    AppendLeaders(y, i, args);
    Rises(y, Append(i, args));
    SelfGrows(b.terms);
    AppendTerm(n, args);
    hide NodesOk, Enabled, Grows;
    assert Loyal(y, z, i, b, c) by { AppendsLoyal(y, z, i, args, b, c); }
    assert Fresh(y, z, i, b, c) by { AppendsFresh(y, z, i, args, b, c); }
    forall x | x in c.cast ensures x.voter < |z.nodes| && x.term <= z.nodes[x.voter].currentTerm {
      assert CastOk(z.nodes, c, x);
    }
    hide CastAll, CastOk, AckInv, Loyal, Fresh;
    AckStep(y, z, i, b, c);
  }

  lemma AppendTerm<C>(n: Node<C>, args: AppendArgs<C>)
    requires |n.logs| > 0
    ensures args.term >= n.currentTerm ==> OnAppendEntries(n, args).0.currentTerm == args.term
  {
  }

  lemma AppendsLoyal<C>(y: System<C>, z: System<C>, i: nat, args: AppendArgs<C>, b: Books<C>, c: Books<C>)
    requires AckInv(y, b) && i < |y.nodes| == |z.nodes| == |b.whole| && PeerOk(y.nodes[i], b.whole[i], b.terms)
    requires Sent(b.terms, args) && TermOk(b, args.term)
    requires c == b.(whole := b.whole[i := AfterAppend(y.nodes[i], b.whole[i], args)])
    requires args.term >= y.nodes[i].currentTerm ==> z.nodes[i].currentTerm == args.term
    ensures Loyal(y, z, i, b, c)
  {
    forall term, k: nat | Had(y, b, i, term, k) && Past(b, term, k) <= b.whole[i]
      ensures Past(b, term, k) <= c.whole[i] || Lost(c, term, k, z.nodes[i].currentTerm)
    {
      assert Holds(y.nodes, b, i, term, k);
      hide AckInv, PeerOk, Sent, TermOk, AfterAppend, Had;
      AppendLoyal(y.nodes[i], b.whole[i], args, b, term, k);
      if args.term >= y.nodes[i].currentTerm && Overruled(b, term, k, args.term) {
        SelfGrows(b.terms);
        OverruledGrows(b, c, term, k, args.term, args.term);
      }
    }
  }

  lemma AppendsFresh<C>(y: System<C>, z: System<C>, i: nat, args: AppendArgs<C>, b: Books<C>, c: Books<C>)
    requires i < |y.nodes| == |z.nodes| == |b.whole| && PeerOk(y.nodes[i], b.whole[i], b.terms)
    requires Sent(b.terms, args) && TermOk(b, args.term) && z.leaders == y.leaders
    requires c == b.(whole := b.whole[i := AfterAppend(y.nodes[i], b.whole[i], args)])
    requires var (m, answer) := OnAppendEntries(y.nodes[i], args);
      z.nodes[i] == m && z.messages == y.messages + {AppendAnswer(i, args, answer)}
    ensures Fresh(y, z, i, b, c)
  {
    hide PeerOk, Sent, TermOk, AfterAppend, OnAppendEntries;
    forall v: nat, term, k: nat | Had(z, c, v, term, k) && !Had(y, b, v, term, k)
      ensures v == i && term == z.nodes[i].currentTerm && Past(c, term, k) <= c.whole[i]
    {
      var m :| m in z.messages && IsAck(m, v, term, k);
      assert m !in y.messages;
      AppendFresh(y.nodes[i], b.whole[i], args, b, k);
    }
  }

  lemma CommonAt<C>(p: seq<Entry<C>>, one: seq<Entry<C>>, other: seq<Entry<C>>, k: nat)
    requires p <= one && p <= other && k < |one| && k < |other|
    ensures k < |p| ==> one[k] == other[k]
  {
    if k < |p| {
      assert one[k] == p[k];
    }
  }

  /** What the peer and the leader have in common ends with the snapshot, where the log could not be kept. */
  lemma InstallCovers<C>(n: Node<C>, full: seq<Entry<C>>, p: seq<Entry<C>>, args: SnapshotArgs, t: Record<C>)
    requires PeerOk(n, full, t) && Snapped(t, args) && Replaces(n, args)
    requires args.lastIncludedIndex > n.lastIncludedIndex && p <= full && p <= t[args.term]
    ensures |p| <= args.lastIncludedIndex + 1
  {
    var index := args.lastIncludedIndex;
    hide Consistent, UpTo, Rising;
    if index <= Last(n) {
      WholeTerm(n, full, index);
      CommonAt(p, full, t[args.term], index);
    }
  }

  /** A snapshot that is not older than the peer's own keeps what it has had, unless that leader won without it. */
  lemma InstallLoyal<C>(n: Node<C>, full: seq<Entry<C>>, args: SnapshotArgs, b: Books<C>, term: int, k: nat)
    requires PeerOk(n, full, b.terms) && Snapped(b.terms, args) && TermOk(b, args.term)
    requires Replaces(n, args) ==> args.lastIncludedIndex > n.lastIncludedIndex
    requires term in b.terms && k < |b.terms[term]| && term <= n.currentTerm && Past(b, term, k) <= full
    ensures Past(b, term, k) <= AfterInstall(n, full, args, b.terms)
      || (args.term >= n.currentTerm && Overruled(b, term, k, args.term))
  {
    var lead, p, index := b.terms[args.term], Past(b, term, k), args.lastIncludedIndex;
    hide Consistent, UpTo, Rising;
    if Replaces(n, args) {
      if term != args.term && !(p <= b.won[args.term]) {
        assert Overruled(b, term, k, args.term);
      } else {
        assert p <= lead;
        InstallCovers(n, full, p, args, b.terms);
      }
    }
  }

  lemma InstallAcks<C>(y: System<C>, i: nat, args: SnapshotArgs, b: Books<C>)
    requires AckInv(y, b) && BookInv(y, b) && NodesOk(y) && Enabled(y, Install(i, args))
    requires Replaces(y.nodes[i], args) ==> args.lastIncludedIndex > y.nodes[i].lastIncludedIndex
    requires CastAll(Next(y, Install(i, args)).nodes, Kept(y, Install(i, args), b))
    ensures AckInv(Next(y, Install(i, args)), Kept(y, Install(i, args), b))
  {
    var e := Install(i, args);
    var z, c, n, full := Next(y, e), Kept(y, e, b), y.nodes[i], b.whole[i];
    InstallFacts(y, i, args, b);
    assert PeerOk(n, full, b.terms) && SnapshotRequest(i, args) in y.messages;
    assert MessageOk(SnapshotRequest(i, args), b.terms, y.leaders) && TermOk(b, args.term);
    hide Kept, BookInv, PeerOk, TermOk, Next, Snapped, AfterInstall, OnInstallSnapshot, RaftLogs.LedBy, Replaces;
    OtherPassive(y, e);
    SelfGrows(b.terms);
    hide NodesOk, Enabled, Grows, NodeOk;
    assert Loyal(y, z, i, b, c) by { InstallsLoyal(y, z, i, args, b, c); }
    forall v: nat, term, k: nat | Had(z, c, v, term, k)
      ensures Had(y, b, v, term, k)
    {
      SameHad(y, z, b, c, v, term, k);
    }
    assert Fresh(y, z, i, b, c);
    forall x | x in c.cast ensures x.voter < |z.nodes| && x.term <= z.nodes[x.voter].currentTerm {
      assert CastOk(z.nodes, c, x);
    }
    hide CastAll, CastOk, AckInv, Loyal, Fresh, Had;
    AckStep(y, z, i, b, c);
  }

  lemma InstallFacts<C>(y: System<C>, i: nat, args: SnapshotArgs, b: Books<C>)
    requires Enabled(y, Install(i, args)) && |b.whole| == |y.nodes|
    ensures var z, c, n := Next(y, Install(i, args)), Kept(y, Install(i, args), b), y.nodes[i];
      && c == b.(whole := b.whole[i := AfterInstall(n, b.whole[i], args, b.terms)])
      && z.messages == y.messages + {SnapshotAnswer(i, args)} && |z.nodes| == |y.nodes|
      && (args.term >= n.currentTerm ==> z.nodes[i].currentTerm == args.term)
  {
    hide AfterInstall, Trimmed;
  }

  lemma InstallsLoyal<C>(y: System<C>, z: System<C>, i: nat, args: SnapshotArgs, b: Books<C>, c: Books<C>)
    requires AckInv(y, b) && i < |y.nodes| == |z.nodes| == |b.whole| && PeerOk(y.nodes[i], b.whole[i], b.terms)
    requires Snapped(b.terms, args) && TermOk(b, args.term)
    requires Replaces(y.nodes[i], args) ==> args.lastIncludedIndex > y.nodes[i].lastIncludedIndex
    requires c == b.(whole := b.whole[i := AfterInstall(y.nodes[i], b.whole[i], args, b.terms)])
    requires args.term >= y.nodes[i].currentTerm ==> z.nodes[i].currentTerm == args.term
    ensures Loyal(y, z, i, b, c)
  {
    forall term, k: nat | Had(y, b, i, term, k) && Past(b, term, k) <= b.whole[i]
      ensures Past(b, term, k) <= c.whole[i] || Lost(c, term, k, z.nodes[i].currentTerm)
    {
      assert Holds(y.nodes, b, i, term, k);
      hide AckInv, PeerOk, Snapped, TermOk, AfterInstall, Had, Replaces;
      InstallLoyal(y.nodes[i], b.whole[i], args, b, term, k);
      if args.term >= y.nodes[i].currentTerm && Overruled(b, term, k, args.term) {
        SelfGrows(b.terms);
        OverruledGrows(b, c, term, k, args.term, args.term);
      }
    }
  }

  lemma ElectionAcks<C>(y: System<C>, i: nat, b: Books<C>)
    requires AckInv(y, b) && BookInv(y, b) && Enabled(y, Election(i))
    requires CastAll(Next(y, Election(i)).nodes, Kept(y, Election(i), b))
    ensures AckInv(Next(y, Election(i)), Kept(y, Election(i), b))
  {
    assert PeerOk(y.nodes[i], b.whole[i], b.terms);
    ElectionFacts(y, i, b);
    hide Next, Kept, AckInv, CastAll, Whole, Consistent, UpTo, End;
    PlainAcks(y, Next(y, Election(i)), i, b, Kept(y, Election(i), b));
  }

  lemma VoteAcks<C>(y: System<C>, i: nat, args: VoteArgs, b: Books<C>)
    requires AckInv(y, b) && BookInv(y, b) && NodesOk(y) && Enabled(y, Vote(i, args))
    requires CastAll(Next(y, Vote(i, args)).nodes, Kept(y, Vote(i, args), b))
    ensures AckInv(Next(y, Vote(i, args)), Kept(y, Vote(i, args), b))
  {
    VoteFacts(y, i, args, b);
    assert NodeOk(y.nodes[i], |y.nodes|);
    hide Next, Kept, AckInv, CastAll, NodesOk, Enabled, BookInv, Valid;
    RequestVoteFacts(y.nodes[i], args, |y.nodes|);
    VoteRole(y.nodes[i], args);
    hide OnRequestVote;
    PlainAcks(y, Next(y, Vote(i, args)), i, b, Kept(y, Vote(i, args), b));
  }

  /** What is acknowledged is in the books. */
  lemma AckKnown<C>(y: System<C>, b: Books<C>, v: nat, term: int, k: nat)
    requires BookInv(y, b)
    ensures Stamp(v, term) in y.leaders ==> term in b.terms
    ensures (exists m :: m in y.messages && IsAck(m, v, term, k)) ==> term in b.terms && k < |b.terms[term]|
  {
    if exists m :: m in y.messages && IsAck(m, v, term, k) {
      var m :| m in y.messages && IsAck(m, v, term, k);
      assert MessageOk(m, b.terms, y.leaders);
    }
  }

  /** The winner has the log of the term that it has won. */
  lemma WinAcks<C>(y: System<C>, z: System<C>, i: nat, b: Books<C>, c: Books<C>)
    requires AckInv(y, b) && BookInv(y, b) && i < |y.nodes| == |z.nodes| && z.nodes == y.nodes[i := z.nodes[i]]
    requires var term := y.nodes[i].currentTerm;
      && z.nodes[i].currentTerm == term && term !in b.terms && z.leaders == y.leaders + {Stamp(i, term)}
      && c == Win(b, term, b.whole[i], z.nodes[i].votes)
    requires z.messages == y.messages && CastAll(z.nodes, c)
    ensures AckInv(z, c)
  {
    var term := y.nodes[i].currentTerm;
    assert Grows(b.terms, c.terms) && Within(b.won, c.won) && b.whole[i := b.whole[i]] == b.whole;
    forall v: nat, t, k: nat | Had(z, c, v, t, k) && !Had(y, b, v, t, k)
      ensures v == i && t == term && Past(c, t, k) <= c.whole[i]
    {
      AckKnown(y, b, v, t, k);
    }
    forall x | x in c.cast ensures x.voter < |z.nodes| && x.term <= z.nodes[x.voter].currentTerm {
      assert CastOk(z.nodes, c, x);
    }
    hide CastAll, CastOk, Had, AckInv, BookInv, Grows;
    assert Loyal(y, z, i, b, c) && Fresh(y, z, i, b, c);
    AckStep(y, z, i, b, c);
  }

  lemma CountAcks<C>(y: System<C>, e: Event<C>, b: Books<C>)
    requires AckInv(y, b) && BookInv(y, b) && ElectionInv(y) && Enabled(y, e) && e.Count? && ElectionInv(Next(y, e))
    requires CastAll(Next(y, e).nodes, Kept(y, e, b))
    ensures AckInv(Next(y, e), Kept(y, e, b))
  {
    CountFacts(y, e.i, e.server, e.term, e.reply);
    CountTerm(y.nodes[e.i], e.i, e.server, e.term, e.reply);
    var z, n, c, i := Next(y, e), y.nodes[e.i], Kept(y, e, b), e.i;
    hide Next, EndOf, AckInv, CastAll;
    if n.state != Leader && z.nodes[i].state == Leader {
      RaftLogs.FirstWin(y, z, i);
      assert n.currentTerm !in b.terms;
      hide ElectionInv, BookInv, OnVoteReply, Enabled;
      WinAcks(y, z, i, b, c);
    } else {
      assert c == b;
      hide ElectionInv, BookInv, OnVoteReply, Enabled;
      PlainAcks(y, z, i, b, b);
    }
  }

  /** A leader's new entry: only the leader has it. */
  lemma SubmitAcks<C>(y: System<C>, z: System<C>, i: nat, entry: Entry<C>, b: Books<C>, c: Books<C>)
    requires AckInv(y, b) && BookInv(y, b) && ElectionInv(y)
    requires i < |y.nodes| == |z.nodes| && z.nodes == y.nodes[i := z.nodes[i]]
    requires z.messages == y.messages && z.leaders == y.leaders && y.nodes[i].state == Leader
    requires z.nodes[i].currentTerm == y.nodes[i].currentTerm == entry.term
    requires var more := b.whole[i] + [entry];
      c == b.(whole := b.whole[i := more], terms := b.terms[entry.term := more])
    requires CastAll(z.nodes, c)
    ensures AckInv(z, c)
  {
    var term, full := entry.term, b.whole[i];
    assert PeerOk(y.nodes[i], full, b.terms) && Stamp(i, term) in y.leaders;
    assert Grows(b.terms, c.terms);
    forall v: nat, t, k: nat | Had(z, c, v, t, k) && !Had(y, b, v, t, k)
      ensures v == i && t == term && Past(c, t, k) <= c.whole[i]
    {
      AckKnown(y, b, v, t, k);
      assert Stamp(v, t) in y.leaders && t == term;
      ElectionSafety(y, Stamp(i, term), Stamp(v, t));
    }
    forall x | x in c.cast ensures x.voter < |z.nodes| && x.term <= z.nodes[x.voter].currentTerm {
      assert CastOk(z.nodes, c, x);
    }
    hide CastAll, CastOk, Had, AckInv, BookInv, ElectionInv, Grows, PeerOk;
    assert Loyal(y, z, i, b, c) && Fresh(y, z, i, b, c);
    AckStep(y, z, i, b, c);
  }

  lemma OtherAcks<C>(y: System<C>, e: Event<C>, b: Books<C>)
    requires AckInv(y, b) && BookInv(y, b) && ElectionInv(y) && Enabled(y, e) && Other(e) && !e.Install?
    requires CastAll(Next(y, e).nodes, Kept(y, e, b))
    ensures AckInv(Next(y, e), Kept(y, e, b))
  {
    assert NodesOk(y);
    hide Next, Kept, BookInv, NodesOk, ElectionInv, Grows, NodeOk, AckInv, CastAll;
    OtherPassive(y, e);
    OtherBooks(y, e, b);
    var z, c, i := Next(y, e), Kept(y, e, b), e.i;
    if e.Submit? && y.nodes[i].state == Leader {
      SubmitFacts(y, i, e.command, b);
      hide Enabled;
      SubmitAcks(y, z, i, Entry(y.nodes[i].currentTerm, Some(e.command)), b, c);
    } else {
      OtherAnswers(y, e);
      hide Enabled;
      PlainAcks(y, z, i, b, c);
    }
  }

  lemma SubmitFacts<C>(y: System<C>, i: nat, command: C, b: Books<C>)
    requires Enabled(y, Submit(i, command)) && |b.whole| == |y.nodes| && y.nodes[i].state == Leader
    ensures var z, c, n := Next(y, Submit(i, command)), Kept(y, Submit(i, command), b), y.nodes[i];
      && z.messages == y.messages && z.leaders == y.leaders && z.nodes[i].currentTerm == n.currentTerm
      && (var more := b.whole[i] + [Entry(n.currentTerm, Some(command))];
          c == b.(whole := b.whole[i := more], terms := b.terms[n.currentTerm := more]))
  {
  }

  lemma OtherAnswers<C>(y: System<C>, e: Event<C>)
    requires Enabled(y, e) && Other(e)
    ensures forall m :: m in Next(y, e).messages && m !in y.messages ==> !m.AppendAnswer?
  {
    hide OnAppendReply, OnStart, OnApply, OnSnapshot, OnInstallSnapshot, OnSnapshotReply, Boot;
  }

  lemma AcksStep<C>(y: System<C>, e: Event<C>, b: Books<C>)
    requires AckInv(y, b) && BookInv(y, b) && ElectionInv(y) && Enabled(y, e) && ElectionInv(Next(y, e))
    requires VoteInv(Next(y, e), Kept(y, e, b))
    requires e.Install? && Replaces(y.nodes[e.i], e.s) ==> e.s.lastIncludedIndex > y.nodes[e.i].lastIncludedIndex
    ensures AckInv(Next(y, e), Kept(y, e, b))
  {
    assert NodesOk(y) && CastAll(Next(y, e).nodes, Kept(y, e, b));
    hide AckInv, BookInv, ElectionInv, VoteInv, CastAll, Next, Kept, NodesOk, Replaces;
    if e.Election? {
      ElectionAcks(y, e.i, b);
    } else if e.Vote? {
      VoteAcks(y, e.i, e.v, b);
    } else if e.Count? {
      CountAcks(y, e, b);
    } else if e.Append? {
      AppendAcks(y, e.i, e.a, b);
    } else if e.Install? {
      InstallAcks(y, e.i, e.s, b);
    } else {
      OtherAcks(y, e, b);
    }
  }

  // ---- Leader Completeness -------------------------------------------------------

  /** A majority has had the log of the term up to an entry of the term itself. */
  ghost predicate Chosen<C>(y: System<C>, b: Books<C>, term: int, k: nat) {
    && term in b.terms && k < |b.terms[term]| && b.terms[term][k].term == term
    && exists q: set<int> :: |q| > |y.nodes| / 2 && AllHad(y, b, q, term, k)
  }

  ghost predicate AllHad<C>(y: System<C>, b: Books<C>, q: set<int>, term: int, k: nat) {
    forall v :: v in q ==> 0 <= v < |y.nodes| && Had(y, b, v, term, k)
  }

  ghost predicate AllInv<C>(y: System<C>, b: Books<C>) {
    BookInv(y, b) && VoteInv(y, b) && AckInv(y, b)
  }

  /** The log of a candidate that is not behind has all that the voter has of the term, or follows a leader between. */
  lemma NotBehind<C>(b: Books<C>, term: int, k: nat, u: int, cast: seq<Entry<C>>, stood: seq<Entry<C>>)
    requires TermsOk(b) && term in b.terms && k < |b.terms[term]| && b.terms[term][k].term == term
    requires Consistent(b.terms, cast) && Consistent(b.terms, stood) && UpTo(stood, u - 1)
    requires Past(b, term, k) <= cast && RaftRestriction.NotAhead(End(cast), End(stood))
    requires forall w :: term < w < u && w in b.won ==> Past(b, term, k) <= b.won[w]
    ensures Past(b, term, k) <= stood
  {
    var last, mine := stood[|stood| - 1].term, cast[|cast| - 1].term;
    assert TermOk(b, term);
    assert cast[k] == Past(b, term, k)[k];
    assert forall t :: t in b.terms ==> TermOk(b, t);
    RisingOf(b.terms, cast);
    assert mine >= term;
    if last == mine {
      assert Anchored(b.terms, cast, |cast| - 1) && Anchored(b.terms, stood, |stood| - 1);
      assert cast == b.terms[mine][..|cast|] && stood == b.terms[mine][..|stood|];
      assert cast <= stood;
    } else {
      assert Anchored(b.terms, stood, |stood| - 1) && TermOk(b, last);
      LaterLog(b, last, stood);
      assert Past(b, term, k) <= b.won[last];
    }
  }

  /** A log that ends with an entry of a term has all that the term was won with. */
  lemma LaterLog<C>(b: Books<C>, term: int, log: seq<Entry<C>>)
    requires term in b.terms && TermOk(b, term) && |log| > 1 && log[|log| - 1].term == term
    requires |log| <= |b.terms[term]| && log == b.terms[term][..|log|]
    ensures b.won[term] <= log
  {
    var won, lead := b.won[term], b.terms[term];
    assert forall j :: 0 <= j < |won| ==> won[j] == lead[j];
    assert |won| < |log|;
  }

  /** A voter of the winner of a later term has had what is chosen. */
  lemma Winner<C>(y: System<C>, b: Books<C>, u: int) returns (winner: nat)
    requires AllInv(y, b) && u in b.won
    ensures Stamp(winner, u) in y.leaders && WonOk(|y.nodes|, b, Stamp(winner, u))
  {
    assert u in b.terms && Known(y.leaders, b.terms.Keys);
    hide WonOk;
    winner :| Stamp(winner, u) in y.leaders;
  }

  lemma Witness<C>(y: System<C>, b: Books<C>, term: int, k: nat, u: int) returns (x: Ballot)
    requires AllInv(y, b) && Chosen(y, b, term, k) && u in b.won && u > term
    ensures x.term == u && x in b.cast && x.candidate >= 0 && Stamp(x.candidate, u) in y.leaders
    ensures x.voter < |y.nodes| && Had(y, b, x.voter, term, k)
  {
    hide AllInv, AckInv, BookInv, VoteInv, Had;
    var winner := Winner(y, b, u);
    var q: set<int> :| |q| > |y.nodes| / 2 && AllHad(y, b, q, term, k);
    var v := Meeting(q, b.quorum[u], |y.nodes|);
    x := Ballot(v, winner, u);
  }

  lemma WitnessFacts<C>(y: System<C>, b: Books<C>, term: int, k: nat, x: Ballot)
    requires AllInv(y, b) && x in b.cast && term < x.term && x.candidate >= 0 && Stamp(x.candidate, x.term) in y.leaders
    requires Had(y, b, x.voter, term, k)
    ensures CastWith(b, x, term, k) && Consistent(b.terms, b.cast[x])
    ensures var s := Stamp(x.candidate, x.term);
      && s in b.stood && Consistent(b.terms, b.stood[s]) && UpTo(b.stood[s], x.term - 1) && x.term in b.won
      && b.won[x.term] == b.stood[s] && RaftRestriction.NotAhead(End(b.cast[x]), End(b.stood[s]))
  {
    var s := Stamp(x.candidate, x.term);
    assert WonOk(|y.nodes|, b, s) && CastOk(y.nodes, b, x);
    assert StoodOk(y.nodes, b, s);
    hide BookInv, Had, Consistent, UpTo, CastWith, End;
  }

  lemma {:induction false} LeaderCompleteness<C>(y: System<C>, b: Books<C>, term: int, k: nat, u: int)
    requires AllInv(y, b) && Chosen(y, b, term, k) && u in b.won && u > term
    ensures Past(b, term, k) <= b.won[u]
    decreases u
  {
    forall w | term < w < u && w in b.won ensures Past(b, term, k) <= b.won[w] {
      LeaderCompleteness(y, b, term, k, w);
    }
    var x := Witness(y, b, term, k, u);
    assert TermsOk(b);
    hide AllInv, Had, Consistent, UpTo, Past, End, RaftRestriction.NotAhead, AllHad;
    WitnessFacts(y, b, term, k, x);
    assert Past(b, term, k) <= b.cast[x];
    NotBehind(b, term, k, u, b.cast[x], b.stood[Stamp(x.candidate, u)]);
  }
}
