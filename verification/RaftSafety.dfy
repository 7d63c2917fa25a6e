/** State Machine Safety: no two peers apply different entries at the same index. It holds in runs without late votes
    in which leaders do not use answers to messages of an earlier term, the services take snapshots of what they have
    applied, and no peer drops its log for a snapshot that is not beyond its own. */
module RaftSafety {
  import opened Options
  import opened RaftNode
  import opened RaftCluster
  import opened RaftBooks
  import opened RaftCompleteness
  import RaftLogs

  // ---- what is committed ---------------------------------------------------------

  ghost predicate CoveredBy<C>(y: System<C>, b: Books<C>, log: seq<Entry<C>>, index: int, last: int, term: int,
      k: nat) {
    && term <= last && Chosen(y, b, term, k) && 0 <= index <= k && index < |log|
    && log[..index + 1] <= Past(b, term, k)
  }

  /** The log up to the index has been chosen in a term up to `last`. */
  ghost predicate Covered<C>(y: System<C>, b: Books<C>, log: seq<Entry<C>>, index: int, last: int) {
    index == 0 || exists term, k: nat :: CoveredBy(y, b, log, index, last, term, k)
  }

  lemma HadGrows<C>(y: System<C>, z: System<C>, b: Books<C>, c: Books<C>, v: nat, term: int, k: nat)
    requires Had(y, b, v, term, k) && Grows(b.terms, c.terms) && y.leaders <= z.leaders && y.messages <= z.messages
    ensures Had(z, c, v, term, k)
  {
    PastGrows(b, c, term, k);
    if Stamp(v, term) !in y.leaders {
      var m :| m in y.messages && IsAck(m, v, term, k);
      assert m in z.messages;
    }
  }

  /** What is chosen stays chosen. */
  lemma ChosenGrows<C>(y: System<C>, z: System<C>, b: Books<C>, c: Books<C>, term: int, k: nat)
    requires Chosen(y, b, term, k) && Grows(b.terms, c.terms) && y.leaders <= z.leaders && y.messages <= z.messages
    requires |z.nodes| == |y.nodes|
    ensures Chosen(z, c, term, k) && Past(c, term, k) == Past(b, term, k)
  {
    PastGrows(b, c, term, k);
    assert b.terms[term] <= c.terms[term];
    var q: set<int> :| |q| > |y.nodes| / 2 && AllHad(y, b, q, term, k);
    hide Grows, Had;
    assert AllHad(z, c, q, term, k) by {
      forall v | v in q ensures 0 <= v < |z.nodes| && Had(z, c, v, term, k) { HadGrows(y, z, b, c, v, term, k); }
    }
  }

  lemma CoveredGrows<C>(y: System<C>, z: System<C>, b: Books<C>, c: Books<C>, log: seq<Entry<C>>, more: seq<Entry<C>>,
      index: int, low: int, last: int, later: int)
    requires Covered(y, b, log, index, last) && Grows(b.terms, c.terms) && y.leaders <= z.leaders
    requires y.messages <= z.messages && |z.nodes| == |y.nodes| && last <= later && 0 <= low <= index
    requires index < |log| ==> |more| > low && more[..low + 1] == log[..low + 1]
    ensures Covered(z, c, more, low, later)
  {
    if low > 0 {
      var term, k: nat :| CoveredBy(y, b, log, index, last, term, k);
      ChosenGrows(y, z, b, c, term, k);
      hide Chosen, Past, Grows;
      assert log[..index + 1][..low + 1] == log[..low + 1];
      assert CoveredBy(z, c, more, low, later, term, k);
    }
  }

  ghost predicate NodeSafe<C>(y: System<C>, b: Books<C>, n: Node<C>, full: seq<Entry<C>>) {
    && 0 <= n.commitIndex && 0 <= n.lastApplied
    && Covered(y, b, full, n.commitIndex, n.currentTerm) && Covered(y, b, full, n.lastApplied, n.currentTerm)
  }

  /** A leader that led when the snapshot was sent has committed it, or had it when it won. */
  ghost predicate Old<C>(y: System<C>, b: Books<C>, s: SnapshotArgs) {
    && 0 <= s.leaderId < |y.nodes| && Stamp(s.leaderId, s.term) in y.leaders && s.term in b.won
    && (y.nodes[s.leaderId].state == Leader && y.nodes[s.leaderId].currentTerm == s.term ==>
          s.lastIncludedIndex <= y.nodes[s.leaderId].commitIndex || s.lastIncludedIndex < |b.won[s.term]|)
  }

  ghost predicate MessageSafe<C>(y: System<C>, b: Books<C>, m: Message<C>) {
    match m
    case AppendRequest(_, a) =>
      0 <= a.leaderCommit && a.term in b.terms && Covered(y, b, b.terms[a.term], a.leaderCommit, a.term)
    case SnapshotRequest(_, s) =>
      0 <= s.lastIncludedIndex && s.term in b.terms && Covered(y, b, b.terms[s.term], s.lastIncludedIndex, s.term)
      && Old(y, b, s)
    case SnapshotAnswer(_, s) => Old(y, b, s)
    case _ => true
  }

  /** What a leader believes that a peer holds it has committed, had when it won, or knows from an acknowledgement. */
  ghost predicate MatchOk<C>(messages: set<Message<C>>, b: Books<C>, n: Node<C>, i: nat, server: nat, known: int) {
    || known <= n.commitIndex
    || (n.currentTerm in b.won && known < |b.won[n.currentTerm]|)
    || (server == i && known <= Last(n))
    || (known >= 0 && exists m :: m in messages && IsAck(m, server, n.currentTerm, known))
  }

  ghost predicate LeaderSafe<C>(messages: set<Message<C>>, b: Books<C>, n: Node<C>, i: nat) {
    n.state == Leader ==>
      && (forall server :: 0 <= server < |n.matchIndex| ==> MatchOk(messages, b, n, i, server, n.matchIndex[server]))
      && n.currentTerm in b.won
      && (n.lastIncludedIndex <= n.commitIndex || n.lastIncludedIndex < |b.won[n.currentTerm]|)
  }

  ghost predicate SafeInv<C>(y: System<C>, b: Books<C>) {
    && |b.whole| == |y.nodes|
    && (forall i :: 0 <= i < |y.nodes| ==> NodeSafe(y, b, y.nodes[i], b.whole[i]))
    && (forall i :: 0 <= i < |y.nodes| ==> LeaderSafe(y.messages, b, y.nodes[i], i))
    && (forall m :: m in y.messages ==> MessageSafe(y, b, m))
  }

  /** What the invariants say of one peer. */
  lemma OfPeer<C>(y: System<C>, b: Books<C>, i: nat)
    requires SafeInv(y, b) && BookInv(y, b) && ElectionInv(y) && i < |y.nodes|
    ensures |b.whole| == |y.nodes| && PeerOk(y.nodes[i], b.whole[i], b.terms) && NodeSafe(y, b, y.nodes[i], b.whole[i])
    ensures LeaderSafe(y.messages, b, y.nodes[i], i) && NodeOk(y.nodes[i], |y.nodes|)
    ensures |y.nodes[i].nextIndex| == |y.nodes[i].matchIndex| == |y.nodes|
    ensures y.nodes[i].state == Leader ==> Stamp(i, y.nodes[i].currentTerm) in y.leaders
    ensures |y.nodes[i].logs| > 0 && 0 <= y.nodes[i].commitIndex && 0 <= y.nodes[i].lastApplied
  {
    hide Consistent, Covered, MessageOk, MessageSafe, TermsOk, BallotsOk, AnswersOk, LeadersOk;
  }

  /** What they say of one message. */
  lemma OfMessage<C>(y: System<C>, b: Books<C>, m: Message<C>)
    requires SafeInv(y, b) && BookInv(y, b) && m in y.messages
    ensures MessageOk(m, b.terms, y.leaders) && MessageSafe(y, b, m)
  {
    hide MessageOk, MessageSafe, NodeSafe, LeaderSafe, PeerOk, TermsOk;
  }

  // ---- frames --------------------------------------------------------------------

  /** Whoever leads after the step has led before and has not lost anything. */
  ghost predicate Steady<C>(n: Node<C>, m: Node<C>) {
    m.state == Leader ==> n.state == Leader && m.currentTerm == n.currentTerm && m.commitIndex >= n.commitIndex
  }

  /** What grows from one state to a later one. */
  ghost predicate Later<C>(y: System<C>, z: System<C>, b: Books<C>, c: Books<C>) {
    && |z.nodes| == |y.nodes| && y.leaders <= z.leaders && y.messages <= z.messages
    && Grows(b.terms, c.terms) && Within(b.won, c.won)
  }

  lemma NodeLater<C>(y: System<C>, z: System<C>, b: Books<C>, c: Books<C>, n: Node<C>, full: seq<Entry<C>>)
    requires NodeSafe(y, b, n, full) && Later(y, z, b, c)
    ensures NodeSafe(z, c, n, full)
  {
    CoveredGrows(y, z, b, c, full, full, n.commitIndex, n.commitIndex, n.currentTerm, n.currentTerm);
    CoveredGrows(y, z, b, c, full, full, n.lastApplied, n.lastApplied, n.currentTerm, n.currentTerm);
    hide Covered;
  }

  lemma LeaderLater<C>(ms: set<Message<C>>, more: set<Message<C>>, b: Books<C>, c: Books<C>, n: Node<C>, i: nat)
    requires LeaderSafe(ms, b, n, i) && ms <= more && Within(b.won, c.won)
    ensures LeaderSafe(more, c, n, i)
  {
    if n.state == Leader {
      forall server | 0 <= server < |n.matchIndex| ensures MatchOk(more, c, n, i, server, n.matchIndex[server]) {
        MatchLater(ms, more, b, c, n, n, i, server, n.matchIndex[server]);
      }
    }
  }

  lemma MatchLater<C>(ms: set<Message<C>>, more: set<Message<C>>, b: Books<C>, c: Books<C>, n: Node<C>, m: Node<C>,
      i: nat, server: nat, known: int)
    requires MatchOk(ms, b, n, i, server, known) && ms <= more && Within(b.won, c.won)
    requires m.currentTerm == n.currentTerm && m.commitIndex >= n.commitIndex && Last(m) >= Last(n)
    ensures MatchOk(more, c, m, i, server, known)
  {
    if known >= 0 && exists x :: x in ms && IsAck(x, server, n.currentTerm, known) {
      var x :| x in ms && IsAck(x, server, n.currentTerm, known);
      assert x in more;
    }
  }

  lemma OldLater<C>(y: System<C>, z: System<C>, i: nat, b: Books<C>, c: Books<C>, s: SnapshotArgs)
    requires Old(y, b, s) && Later(y, z, b, c) && i < |y.nodes| && z.nodes == y.nodes[i := z.nodes[i]]
    requires Steady(y.nodes[i], z.nodes[i]) || Stamp(i, z.nodes[i].currentTerm) !in y.leaders
    ensures Old(z, c, s)
  {
  }

  lemma MessageLater<C>(y: System<C>, z: System<C>, i: nat, b: Books<C>, c: Books<C>, m: Message<C>)
    requires MessageSafe(y, b, m) && MessageOk(m, b.terms, y.leaders) && Later(y, z, b, c)
    requires i < |y.nodes| && z.nodes == y.nodes[i := z.nodes[i]]
    requires Steady(y.nodes[i], z.nodes[i]) || Stamp(i, z.nodes[i].currentTerm) !in y.leaders
    ensures MessageSafe(z, c, m)
  {
    hide Covered;
    if m.AppendRequest? {
      TermCovered(y, z, b, c, m.a.term, m.a.leaderCommit);
    } else if m.SnapshotRequest? {
      TermCovered(y, z, b, c, m.s.term, m.s.lastIncludedIndex);
      OldLater(y, z, i, b, c, m.s);
    } else if m.SnapshotAnswer? {
      OldLater(y, z, i, b, c, m.s);
    }
  }

  lemma TermCovered<C>(y: System<C>, z: System<C>, b: Books<C>, c: Books<C>, term: int, index: int)
    requires term in b.terms && index >= 0 && Covered(y, b, b.terms[term], index, term) && Later(y, z, b, c)
    ensures term in c.terms && Covered(z, c, c.terms[term], index, term)
  {
    assert b.terms[term] <= c.terms[term];
    if index < |b.terms[term]| {
      assert b.terms[term][..index + 1] == c.terms[term][..index + 1];
    }
    CoveredGrows(y, z, b, c, b.terms[term], c.terms[term], index, index, term, term);
  }

  /** A step of peer `i` that leaves it safe. */
  lemma SafeStep<C>(y: System<C>, z: System<C>, i: nat, b: Books<C>, c: Books<C>)
    requires SafeInv(y, b) && BookInv(y, b) && Later(y, z, b, c)
    requires i < |y.nodes| == |c.whole| && z.nodes == y.nodes[i := z.nodes[i]] && c.whole == b.whole[i := c.whole[i]]
    requires NodeSafe(z, c, z.nodes[i], c.whole[i]) && LeaderSafe(z.messages, c, z.nodes[i], i)
    requires Steady(y.nodes[i], z.nodes[i]) || Stamp(i, z.nodes[i].currentTerm) !in y.leaders
    requires forall m :: m in z.messages && m !in y.messages ==> MessageSafe(z, c, m)
    ensures SafeInv(z, c)
  {
    forall m | m in z.messages ensures MessageSafe(z, c, m) {
      if m in y.messages {
        assert MessageSafe(y, b, m) && MessageOk(m, b.terms, y.leaders);
        hide SafeInv, BookInv, MessageSafe, MessageOk, Steady, Later;
        MessageLater(y, z, i, b, c, m);
      }
    }
    hide MessageSafe, BookInv, Steady;
    forall j | 0 <= j < |z.nodes|
      ensures NodeSafe(z, c, z.nodes[j], c.whole[j]) && LeaderSafe(z.messages, c, z.nodes[j], j)
    {
      if j != i {
        assert NodeSafe(y, b, y.nodes[j], b.whole[j]) && LeaderSafe(y.messages, b, y.nodes[j], j);
        LeaderLater(y.messages, z.messages, b, c, y.nodes[j], j);
        hide NodeSafe, LeaderSafe, Later;
        NodeLater(y, z, b, c, y.nodes[j], b.whole[j]);
      }
    }
  }

  /** Time and the books only go forward. */
  lemma GoesLater<C>(y: System<C>, e: Event<C>, b: Books<C>)
    requires BookInv(y, b) && ElectionInv(y) && Enabled(y, e) && ElectionInv(Next(y, e))
    ensures var z, c := Next(y, e), Kept(y, e, b);
      && Later(y, z, b, c) && z.nodes == y.nodes[e.i := z.nodes[e.i]]
      && |c.whole| == |b.whole| && c.whole == b.whole[e.i := c.whole[e.i]]
  {
    hide BookInv, Next, Kept, Grows, BallotsOk, AnswersOk, CandidatesOk, LeadersOk, NodesOk;
    assert NodesOk(y);
    hide ElectionInv;
    PeerOf(y, b, e.i);
    hide PeerOk;
    Rises(y, e);
    SelfGrows(b.terms);
    assert b.whole[e.i := b.whole[e.i]] == b.whole;
    if e.Count? {
      CountLater(y, e, b);
    } else if e.Election? || e.Vote? {
      IdleBooks(y, e, b);
      VotingLater(y, e);
    } else {
      OtherBooks(y, e, b);
      OtherLater(y, e);
    }
  }

  lemma VotingLater<C>(y: System<C>, e: Event<C>)
    requires Enabled(y, e) && (e.Election? || e.Vote?)
    ensures Next(y, e).leaders == y.leaders && y.messages <= Next(y, e).messages
  {
    hide OnRequestVote, OnStartElection, EndOf;
  }

  lemma OtherLater<C>(y: System<C>, e: Event<C>)
    requires Enabled(y, e) && (Other(e) || e.Append?)
    ensures Next(y, e).leaders == y.leaders && y.messages <= Next(y, e).messages
  {
    hide OnAppendReply, OnStart, OnApply, OnSnapshot, OnInstallSnapshot, OnSnapshotReply, Boot, OnAppendEntries, OnSend;
  }

  lemma CountLater<C>(y: System<C>, e: Event<C>, b: Books<C>)
    requires BookInv(y, b) && ElectionInv(y) && Enabled(y, e) && e.Count? && ElectionInv(Next(y, e))
    ensures var z, c := Next(y, e), Kept(y, e, b);
      Later(y, z, b, c) && c.whole == b.whole && b.whole[e.i := b.whole[e.i]] == b.whole
  {
    hide ElectionInv, BookInv, Next, EndOf, OnVoteReply;
    PeerOf(y, b, e.i);
    hide PeerOk;
    CountFacts(y, e.i, e.server, e.term, e.reply);
    var z, n, c, i := Next(y, e), y.nodes[e.i], Kept(y, e, b), e.i;
    hide Enabled;
    if n.state != Leader && z.nodes[i].state == Leader { NewlyWon(y, z, i, b); }
  }

  // ---- steps that commit nothing -------------------------------------------------

  /** The peer counts nothing more as committed or applied than before. */
  ghost predicate Modest<C>(n: Node<C>, m: Node<C>) {
    var most := Max(n.commitIndex, n.lastApplied);
    m.currentTerm >= n.currentTerm && 0 <= m.commitIndex <= most && 0 <= m.lastApplied <= most
  }

  lemma ModestSafe<C>(y: System<C>, z: System<C>, b: Books<C>, c: Books<C>, n: Node<C>, m: Node<C>, full: seq<Entry<C>>,
      more: seq<Entry<C>>)
    requires NodeSafe(y, b, n, full) && Later(y, z, b, c) && Modest(n, m) && full <= more
    ensures NodeSafe(z, c, m, more)
  {
    var most := Max(n.commitIndex, n.lastApplied);
    assert Covered(y, b, full, most, n.currentTerm);
    forall low | 0 <= low <= most ensures Covered(z, c, more, low, m.currentTerm) {
      if most < |full| {
        assert more[..low + 1] == full[..low + 1];
      }
      CoveredGrows(y, z, b, c, full, more, most, low, n.currentTerm, m.currentTerm);
    }
    hide Covered;
  }

  /** If the peer leads, it believes what it believed before. */
  ghost predicate SameBelief<C>(n: Node<C>, m: Node<C>) {
    m.state == Leader ==>
      && n.state == Leader && m.currentTerm == n.currentTerm && m.commitIndex >= n.commitIndex && Last(m) >= Last(n)
      && m.matchIndex == n.matchIndex
      && (m.lastIncludedIndex == n.lastIncludedIndex || m.lastIncludedIndex <= m.commitIndex)
  }

  lemma BeliefSafe<C>(ms: set<Message<C>>, more: set<Message<C>>, b: Books<C>, c: Books<C>, n: Node<C>, m: Node<C>,
      i: nat)
    requires LeaderSafe(ms, b, n, i) && ms <= more && Within(b.won, c.won) && SameBelief(n, m)
    ensures LeaderSafe(more, c, m, i)
  {
    if m.state == Leader {
      forall server | 0 <= server < |m.matchIndex| ensures MatchOk(more, c, m, i, server, m.matchIndex[server]) {
        MatchLater(ms, more, b, c, n, m, i, server, m.matchIndex[server]);
      }
    }
  }

  lemma CalmStep<C>(y: System<C>, z: System<C>, i: nat, b: Books<C>, c: Books<C>)
    requires SafeInv(y, b) && BookInv(y, b) && Later(y, z, b, c)
    requires i < |y.nodes| == |c.whole| && z.nodes == y.nodes[i := z.nodes[i]] && c.whole == b.whole[i := c.whole[i]]
    requires b.whole[i] <= c.whole[i] && Modest(y.nodes[i], z.nodes[i]) && SameBelief(y.nodes[i], z.nodes[i])
    requires forall m :: m in z.messages && m !in y.messages ==> MessageSafe(z, c, m)
    ensures SafeInv(z, c)
  {
    assert NodeSafe(y, b, y.nodes[i], b.whole[i]) && LeaderSafe(y.messages, b, y.nodes[i], i);
    BeliefSafe(y.messages, z.messages, b, c, y.nodes[i], z.nodes[i], i);
    hide SafeInv, BookInv, MessageSafe, LeaderSafe;
    ModestSafe(y, z, b, c, y.nodes[i], z.nodes[i], b.whole[i], c.whole[i]);
    hide NodeSafe, Later;
    SafeStep(y, z, i, b, c);
  }

  lemma IdleModest<C>(y: System<C>, e: Event<C>)
    requires NodesOk(y) && Enabled(y, e) && (e.Election? || e.Vote? || e.Apply? || e.Crash?)
    requires 0 <= y.nodes[e.i].commitIndex && 0 <= y.nodes[e.i].lastApplied && 0 <= y.nodes[e.i].lastIncludedIndex
    ensures var z := Next(y, e);
      |z.nodes| == |y.nodes| && Modest(y.nodes[e.i], z.nodes[e.i]) && SameBelief(y.nodes[e.i], z.nodes[e.i])
  {
    assert NodeOk(y.nodes[e.i], |y.nodes|);
    hide LogTerm, EndOf;
  }

  lemma IdleSafe<C>(y: System<C>, e: Event<C>, b: Books<C>)
    requires SafeInv(y, b) && BookInv(y, b) && ElectionInv(y) && Enabled(y, e) && ElectionInv(Next(y, e))
    requires e.Election? || e.Vote? || e.Apply? || e.Crash?
    ensures SafeInv(Next(y, e), Kept(y, e, b))
  {
    assert NodesOk(y) && NodeSafe(y, b, y.nodes[e.i], b.whole[e.i]) && PeerOk(y.nodes[e.i], b.whole[e.i], b.terms);
    GoesLater(y, e, b);
    IdleModest(y, e);
    IdleBooks(y, e, b);
    var z, c := Next(y, e), Kept(y, e, b);
    hide SafeInv, BookInv, ElectionInv, NodesOk, Next, Kept, Later, NodeSafe, Consistent, MessageSafe;
    forall m | m in z.messages && m !in y.messages ensures MessageSafe(z, c, m) {
      IdleMessages(y, e, m, b.terms);
      VoteSafe(z, c, m);
    }
    hide Modest, SameBelief, Enabled, PeerOk;
    CalmStep(y, z, e.i, b, c);
  }

  lemma VoteSafe<C>(z: System<C>, c: Books<C>, m: Message<C>)
    requires m.VoteRequest? || m.VoteAnswer? || m.AppendAnswer?
    ensures MessageSafe(z, c, m)
  {
  }

  lemma OfferSafe<C>(y: System<C>, i: nat, server: nat, b: Books<C>)
    requires SafeInv(y, b) && BookInv(y, b) && ElectionInv(y) && Enabled(y, Offer(i, server))
    requires ElectionInv(Next(y, Offer(i, server)))
    ensures SafeInv(Next(y, Offer(i, server)), Kept(y, Offer(i, server), b))
  {
    var e := Offer(i, server);
    var z, n := Next(y, e), y.nodes[i];
    GoesLater(y, e, b);
    IdleBooks(y, e, b);
    assert PeerOk(n, b.whole[i], b.terms) && NodeSafe(y, b, n, b.whole[i]) && LeaderSafe(y.messages, b, n, i);
    assert NodeOk(n, |y.nodes|) && (n.state == Leader ==> Stamp(i, n.currentTerm) in y.leaders);
    assert z.messages == y.messages + Outgoing(server, OnSend(n, i, server).1) && z.nodes[i] == OnSend(n, i, server).0;
    hide SafeInv, BookInv, ElectionInv, Next, Kept, Consistent, Whole;
    OfferModest(n, i, server);
    forall m | m in z.messages && m !in y.messages ensures MessageSafe(z, b, m) { OfferedSafe(y, z, i, server, b, m); }
    hide Modest, SameBelief, OnSend, MessageSafe, PeerOk, NodeSafe, LeaderSafe, Later, Enabled;
    CalmStep(y, z, i, b, b);
  }

  lemma OfferModest<C>(n: Node<C>, me: nat, server: nat)
    requires server < |n.nextIndex| && |n.logs| > 0 && 0 <= n.commitIndex && 0 <= n.lastApplied
    ensures Modest(n, OnSend(n, me, server).0) && SameBelief(n, OnSend(n, me, server).0)
  {
  }

  /** A leader offers what it has committed of its term's log. */
  lemma OfferedSafe<C>(y: System<C>, z: System<C>, i: nat, server: nat, b: Books<C>, m: Message<C>)
    requires i < |y.nodes| == |z.nodes| == |b.whole| && Later(y, z, b, b) && server < |y.nodes[i].nextIndex|
    requires var n := y.nodes[i];
      && PeerOk(n, b.whole[i], b.terms) && NodeSafe(y, b, n, b.whole[i]) && LeaderSafe(y.messages, b, n, i) && Valid(n)
      && (n.state == Leader ==> Stamp(i, n.currentTerm) in y.leaders)
      && z.nodes[i] == OnSend(n, i, server).0 && m in Outgoing(server, OnSend(n, i, server).1)
    ensures MessageSafe(z, b, m)
  {
    hide Consistent, Covered, Later, UpTo;
    var n, term := y.nodes[i], y.nodes[i].currentTerm;
    assert b.whole[i] == b.terms[term];
    if m.AppendRequest? {
      TermCovered(y, z, b, b, term, n.commitIndex);
    } else {
      LaterParts(y, z, b, b);
      assert 0 <= n.lastIncludedIndex <= n.lastApplied;
      CoveredGrows(y, z, b, b, b.whole[i], b.whole[i], n.lastApplied, n.lastIncludedIndex, term, term);
    }
  }

  lemma LaterParts<C>(y: System<C>, z: System<C>, b: Books<C>, c: Books<C>)
    requires Later(y, z, b, c)
    ensures |z.nodes| == |y.nodes| && y.leaders <= z.leaders && y.messages <= z.messages
    ensures Grows(b.terms, c.terms) && Within(b.won, c.won)
  {
  }

  /** The service has applied what its snapshot holds. */
  lemma TrimSafe<C>(y: System<C>, i: nat, index: int, data: string, b: Books<C>)
    requires SafeInv(y, b) && BookInv(y, b) && ElectionInv(y) && Enabled(y, Trim(i, index, data))
    requires ElectionInv(Next(y, Trim(i, index, data))) && index <= y.nodes[i].lastApplied
    ensures SafeInv(Next(y, Trim(i, index, data)), Kept(y, Trim(i, index, data), b))
  {
    var e := Trim(i, index, data);
    var z, n := Next(y, e), y.nodes[i];
    GoesLater(y, e, b);
    IdleBooks(y, e, b);
    assert PeerOk(n, b.whole[i], b.terms) && NodeSafe(y, b, n, b.whole[i]);
    assert z.messages == y.messages && z.nodes[i] == OnSnapshot(n, index, data);
    hide SafeInv, BookInv, ElectionInv, Next, Kept, Consistent;
    TrimModest(n, index, data);
    hide Modest, SameBelief, OnSnapshot, PeerOk, NodeSafe, Later, Enabled;
    CalmStep(y, z, i, b, b);
  }

  lemma TrimModest<C>(n: Node<C>, index: int, data: string)
    requires |n.logs| > 0 && 0 <= n.commitIndex && 0 <= n.lastApplied && 0 <= n.lastIncludedIndex
    requires index <= n.lastApplied
    ensures Modest(n, OnSnapshot(n, index, data)) && SameBelief(n, OnSnapshot(n, index, data))
  {
  }

  /** What has been applied is in the log. */
  lemma AppliedInLog<C>(y: System<C>, b: Books<C>, i: nat)
    requires SafeInv(y, b) && BookInv(y, b) && i < |y.nodes|
    ensures y.nodes[i].lastApplied <= Last(y.nodes[i]) && y.nodes[i].commitIndex <= Last(y.nodes[i])
  {
    assert NodeSafe(y, b, y.nodes[i], b.whole[i]) && PeerOk(y.nodes[i], b.whole[i], b.terms);
    hide SafeInv, BookInv, Consistent, Chosen;
  }

  // ---- steps of leaders ----------------------------------------------------------

  lemma CountSafe<C>(y: System<C>, e: Event<C>, b: Books<C>)
    requires SafeInv(y, b) && BookInv(y, b) && ElectionInv(y) && Enabled(y, e) && e.Count? && ElectionInv(Next(y, e))
    ensures SafeInv(Next(y, e), Kept(y, e, b))
  {
    var z, c, n, i := Next(y, e), Kept(y, e, b), y.nodes[e.i], e.i;
    GoesLater(y, e, b);
    CountLater(y, e, b);
    CountFacts(y, i, e.server, e.term, e.reply);
    assert PeerOk(n, b.whole[i], b.terms) && NodeSafe(y, b, n, b.whole[i]) && NodeOk(n, |y.nodes|);
    hide Next;
    if n.state != Leader && z.nodes[i].state == Leader {
      RaftLogs.FirstWin(y, z, i);
      assert c.won == b.won[n.currentTerm := b.whole[i]];
      hide SafeInv, BookInv, ElectionInv, Kept, Later, Consistent;
      WinModest(n, i, e.server, e.term, e.reply, b.whole[i], c, z.messages);
      hide OnVoteReply, Enabled, PeerOk, Modest, LeaderSafe;
      ModestSafe(y, z, b, c, n, z.nodes[i], b.whole[i], b.whole[i]);
      hide NodeSafe;
      SafeStep(y, z, i, b, c);
    } else {
      assert c == b;
      hide SafeInv, BookInv, ElectionInv, Kept, Later, Consistent;
      CountModest(n, i, e.server, e.term, e.reply);
      hide OnVoteReply, Enabled, PeerOk, Modest, SameBelief, NodeSafe;
      CalmStep(y, z, i, b, c);
    }
  }

  lemma CountModest<C>(n: Node<C>, me: nat, server: nat, term: int, reply: VoteReply)
    requires me < |n.nextIndex| == |n.matchIndex| && 0 <= n.commitIndex && 0 <= n.lastApplied
    ensures var m := OnVoteReply(n, me, server, term, reply);
      Modest(n, m) && (n.state == Leader || m.state != Leader ==> SameBelief(n, m))
  {
  }

  /** A new leader believes nothing of the others. */
  lemma WinModest<C>(n: Node<C>, me: nat, server: nat, term: int, reply: VoteReply, full: seq<Entry<C>>, c: Books<C>,
      messages: set<Message<C>>)
    requires me < |n.nextIndex| == |n.matchIndex| && 0 <= n.commitIndex && 0 <= n.lastApplied && Whole(n, full)
    requires n.currentTerm in c.won && c.won[n.currentTerm] == full && n.state != Leader
    requires OnVoteReply(n, me, server, term, reply).state == Leader
    ensures var m := OnVoteReply(n, me, server, term, reply); Modest(n, m) && LeaderSafe(messages, c, m, me)
  {
    var m := OnVoteReply(n, me, server, term, reply);
    forall v | 0 <= v < |m.matchIndex| ensures MatchOk(messages, c, m, me, v, m.matchIndex[v]) {}
  }

  lemma SubmitSafe<C>(y: System<C>, i: nat, command: C, b: Books<C>)
    requires SafeInv(y, b) && BookInv(y, b) && ElectionInv(y) && Enabled(y, Submit(i, command))
    requires ElectionInv(Next(y, Submit(i, command)))
    ensures SafeInv(Next(y, Submit(i, command)), Kept(y, Submit(i, command), b))
  {
    hide SafeInv, BookInv, ElectionInv, Next, Kept, Later, PeerOk, NodeSafe, LeaderSafe, Valid, MessageOk, TermsOk;
    var e := Submit(i, command);
    OfPeer(y, b, i);
    var z, c, n := Next(y, e), Kept(y, e, b), y.nodes[i];
    GoesLater(y, e, b);
    StartFacts(y, i, command, b);
    hide Enabled;
    if n.state == Leader {
      OfBooks(y, b);
      SubmitBelief(y.messages, n, i, command, b, b.whole[i], y.leaders);
      hide OnStart;
      BeliefFrame(y.messages, z.messages, b, c, z.nodes[i], i);
      ModestSafe(y, z, b, c, n, z.nodes[i], b.whole[i], c.whole[i]);
      SafeStep(y, z, i, b, c);
    } else {
      hide OnStart;
      CalmStep(y, z, i, b, c);
    }
  }

  lemma OfBooks<C>(y: System<C>, b: Books<C>)
    requires BookInv(y, b)
    ensures TermsOk(b) && forall m :: m in y.messages ==> MessageOk(m, b.terms, y.leaders)
  {
    hide PeerOk, MessageOk, TermsOk;
  }

  lemma StartFacts<C>(y: System<C>, i: nat, command: C, b: Books<C>)
    requires Enabled(y, Submit(i, command)) && |b.whole| == |y.nodes|
    ensures var z, c, n := Next(y, Submit(i, command)), Kept(y, Submit(i, command), b), y.nodes[i];
      && |z.nodes| == |y.nodes| && z.nodes[i] == OnStart(n, i, command).0 && z == y.(nodes := z.nodes)
      && |c.whole| == |b.whole| && b.whole[i] <= c.whole[i] && c.won == b.won
      && (if n.state == Leader then Steady(n, z.nodes[i]) else z.nodes[i] == n)
  {
  }

  lemma BeliefFrame<C>(ms: set<Message<C>>, more: set<Message<C>>, b: Books<C>, c: Books<C>, n: Node<C>, i: nat)
    requires LeaderSafe(ms, b, n, i) && ms == more && c.won == b.won
    ensures LeaderSafe(more, c, n, i)
  {
    LeaderLater(ms, more, b, c, n, i);
  }

  /** Whatever a leader believes that a peer holds is in its log. */
  lemma BeliefInLog<C>(ms: set<Message<C>>, n: Node<C>, i: nat, server: nat, known: int, b: Books<C>,
      full: seq<Entry<C>>,
      leaders: set<Stamp>)
    requires MatchOk(ms, b, n, i, server, known) && PeerOk(n, full, b.terms) && n.state == Leader
    requires n.commitIndex <= Last(n)
    requires n.currentTerm in b.terms && TermOk(b, n.currentTerm)
    requires forall m :: m in ms ==> MessageOk(m, b.terms, leaders)
    ensures known <= Last(n)
  {
    hide Consistent, Rising, UpTo;
    if known >= 0 && exists m :: m in ms && IsAck(m, server, n.currentTerm, known) {
      var m :| m in ms && IsAck(m, server, n.currentTerm, known);
      assert MessageOk(m, b.terms, leaders);
    }
  }

  lemma SubmitBelief<C>(ms: set<Message<C>>, n: Node<C>, i: nat, command: C, b: Books<C>, full: seq<Entry<C>>,
      leaders: set<Stamp>)
    requires LeaderSafe(ms, b, n, i) && PeerOk(n, full, b.terms) && n.state == Leader && Valid(n) && i < |n.matchIndex|
    requires TermsOk(b) && forall m :: m in ms ==> MessageOk(m, b.terms, leaders)
    ensures LeaderSafe(ms, b, OnStart(n, i, command).0, i)
    ensures Modest(n, OnStart(n, i, command).0) || n.commitIndex < 0 || n.lastApplied < 0
  {
    var m := OnStart(n, i, command).0;
    assert TermOk(b, n.currentTerm);
    hide TermsOk;
    BeliefInLog(ms, n, i, i, n.matchIndex[i], b, full, leaders);
    hide PeerOk, TermOk, MessageOk, Valid;
    forall v | 0 <= v < |m.matchIndex| ensures MatchOk(ms, b, m, i, v, m.matchIndex[v]) {
      if v != i {
        assert MatchOk(ms, b, n, i, v, n.matchIndex[v]);
        MatchLater(ms, ms, b, b, n, m, i, v, n.matchIndex[v]);
      }
    }
  }

  lemma LearnSnapshotFacts<C>(y: System<C>, e: Event<C>)
    requires Enabled(y, e) && e.LearnSnapshot?
    ensures e.i < |y.nodes| && e.s.leaderId == e.i
    ensures var z, n := Next(y, e), y.nodes[e.i];
      && z == y.(nodes := z.nodes) && |z.nodes| == |y.nodes| && e.server < |n.nextIndex| == |n.matchIndex|
      && z.nodes[e.i] == OnSnapshotReply(n, e.server, e.s, NO_TERM) && SnapshotAnswer(e.server, e.s) in y.messages
  {
    hide OnSnapshotReply;
  }

  lemma LearnSnapshotSafe<C>(y: System<C>, e: Event<C>, b: Books<C>)
    requires SafeInv(y, b) && BookInv(y, b) && ElectionInv(y) && Enabled(y, e) && ElectionInv(Next(y, e))
    requires e.LearnSnapshot? && e.s.term == y.nodes[e.i].currentTerm
    ensures SafeInv(Next(y, e), Kept(y, e, b))
  {
    hide SafeInv, BookInv, ElectionInv, Next, Kept, Later, LeaderSafe, OnSnapshotReply, Modest, Steady, Valid, Enabled,
      NodeSafe, PeerOk;
    LearnSnapshotFacts(y, e);
    var z, n, i := Next(y, e), y.nodes[e.i], e.i;
    OfPeer(y, b, i);
    OfMessage(y, b, SnapshotAnswer(e.server, e.s));
    assert Old(y, b, e.s);
    GoesLater(y, e, b);
    IdleBooks(y, e, b);
    SnapshotBelief(y.messages, n, i, e.server, e.s, b);
    ModestSafe(y, z, b, b, n, z.nodes[i], b.whole[i], b.whole[i]);
    SafeStep(y, z, i, b, b);
  }

  lemma SnapshotBelief<C>(ms: set<Message<C>>, n: Node<C>, i: nat, server: nat, s: SnapshotArgs, b: Books<C>)
    requires LeaderSafe(ms, b, n, i) && Valid(n) && server < |n.nextIndex| && s.term == n.currentTerm && s.term in b.won
    requires 0 <= n.commitIndex && 0 <= n.lastApplied
    requires n.state == Leader ==> s.lastIncludedIndex <= n.commitIndex || s.lastIncludedIndex < |b.won[s.term]|
    ensures var m := OnSnapshotReply(n, server, s, NO_TERM); LeaderSafe(ms, b, m, i) && Modest(n, m) && Steady(n, m)
  {
    var m := OnSnapshotReply(n, server, s, NO_TERM);
    if m.state == Leader {
      forall v | 0 <= v < |m.matchIndex| ensures MatchOk(ms, b, m, i, v, m.matchIndex[v]) {
        if v != server || m == n {
          assert MatchOk(ms, b, n, i, v, n.matchIndex[v]);
          MatchLater(ms, ms, b, b, n, m, i, v, n.matchIndex[v]);
        }
      }
    }
  }

  // ---- committing ----------------------------------------------------------------

  lemma {:induction false} HoldingSet(known: seq<int>, index: int) returns (q: set<int>)
    ensures |q| == Holding(known, index) && forall v :: v in q ==> 0 <= v < |known| && known[v] >= index
  {
    if known == [] {
      q := {};
    } else {
      q := HoldingSet(known[..|known| - 1], index);
      if known[|known| - 1] >= index { q := q + {|known| - 1}; }
    }
  }

  /** An index that a majority holds, in the leader's belief, with an entry of the leader's term is chosen. */
  lemma CommitChosen<C>(y: System<C>, b: Books<C>, i: nat, known: seq<int>, agreed: int)
    requires i < |y.nodes| == |known| == |b.whole| && PeerOk(y.nodes[i], b.whole[i], b.terms)
    requires var n := y.nodes[i];
      && n.state == Leader && Stamp(i, n.currentTerm) in y.leaders
      && n.currentTerm in b.terms && TermOk(b, n.currentTerm)
      && (forall v :: 0 <= v < |known| ==> MatchOk(y.messages, b, n, i, v, known[v]))
      && Holding(known, agreed) > |known| / 2 && agreed > n.commitIndex >= 0 && LogTerm(n, agreed) == n.currentTerm
    ensures 0 <= agreed < |b.whole[i]| && Chosen(y, b, y.nodes[i].currentTerm, agreed)
  {
    var n, full, term := y.nodes[i], b.whole[i], y.nodes[i].currentTerm;
    hide Consistent, Holding;
    WholeTerm(n, full, agreed);
    var q := HoldingSet(known, agreed);
    forall v | v in q ensures 0 <= v < |y.nodes| && Had(y, b, v, term, agreed) {
      assert MatchOk(y.messages, b, n, i, v, known[v]);
      if v != i {
        assert b.won[term] <= full;
        var m :| m in y.messages && IsAck(m, v, term, known[v]);
        assert IsAck(m, v, term, agreed);
      }
    }
    assert AllHad(y, b, q, term, agreed);
  }

  /** What a leader believes after an answer to a message of its term. */
  lemma LearnBelief<C>(ms: set<Message<C>>, b: Books<C>, n: Node<C>, i: nat, server: nat, args: AppendArgs<C>,
      reply: AppendReply, known: seq<int>)
    requires LeaderSafe(ms, b, n, i) && n.state == Leader && server < |n.matchIndex|
    requires AppendAnswer(server, args, reply) in ms && args.term == n.currentTerm && reply.success
    requires args.prevLogIndex >= 0
    requires known == n.matchIndex[server := args.prevLogIndex + |args.entries|]
    ensures forall v :: 0 <= v < |known| ==> MatchOk(ms, b, n, i, v, known[v])
  {
    forall v | 0 <= v < |known| ensures MatchOk(ms, b, n, i, v, known[v]) {
      if v == server {
        assert IsAck(AppendAnswer(server, args, reply), server, n.currentTerm, known[v]);
      } else {
        assert MatchOk(ms, b, n, i, v, n.matchIndex[v]);
      }
    }
  }

  lemma LearnQuiet<C>(n: Node<C>, server: nat, args: AppendArgs<C>, reply: AppendReply, agreed: int)
    requires server < |n.nextIndex| == |n.matchIndex| && |n.logs| > 0 && 0 <= n.commitIndex && 0 <= n.lastApplied
    requires !Moves(n, server, args, reply) || n.state != Leader
    ensures var m := OnAppendReply(n, server, args, reply, agreed); Modest(n, m) && SameBelief(n, m)
  {
  }

  lemma LearnMoves<C>(n: Node<C>, server: nat, args: AppendArgs<C>, reply: AppendReply, agreed: int)
    requires server < |n.nextIndex| == |n.matchIndex| && |n.logs| > 0 && Moves(n, server, args, reply)
    requires n.state == Leader
    ensures var m := OnAppendReply(n, server, args, reply, agreed);
      var known := n.matchIndex[server := args.prevLogIndex + |args.entries|];
      && m.state == Leader && m.currentTerm == n.currentTerm && m.matchIndex == known && m.lastApplied == n.lastApplied
      && m.lastIncludedIndex == n.lastIncludedIndex && Last(m) == Last(n) && m.commitIndex >= n.commitIndex
      && (m.commitIndex == n.commitIndex ||
          (m.commitIndex == agreed > n.commitIndex && LogTerm(n, agreed) == n.currentTerm))
  {
  }

  lemma LearnSafe<C>(y: System<C>, e: Event<C>, b: Books<C>)
    requires SafeInv(y, b) && BookInv(y, b) && ElectionInv(y) && Enabled(y, e) && ElectionInv(Next(y, e))
    requires e.Learn? && e.a.term == y.nodes[e.i].currentTerm
    ensures SafeInv(Next(y, e), Kept(y, e, b))
  {
    hide SafeInv, BookInv, ElectionInv, Next, Kept, Later, OnAppendReply, PeerOk, NodeSafe, LeaderSafe, AgreedAfter,
      Valid, Covered, Chosen, Agreed, Holding, MessageSafe, MessageOk;
    LearnFacts(y, e);
    var z, n, i := Next(y, e), y.nodes[e.i], e.i;
    OfPeer(y, b, i);
    GoesLater(y, e, b);
    IdleBooks(y, e, b);
    if Moves(n, e.server, e.a, e.answer) && n.state == Leader {
      LearnMoves(n, e.server, e.a, e.answer, e.agreed);
      LearnCommits(y, z, i, b, e.server, e.a, e.answer, e.agreed);
    } else {
      LearnQuiet(n, e.server, e.a, e.answer, e.agreed);
      hide Modest, SameBelief, Enabled;
      CalmStep(y, z, i, b, b);
    }
  }

  lemma LearnFacts<C>(y: System<C>, e: Event<C>)
    requires Enabled(y, e) && e.Learn?
    ensures var z, n := Next(y, e), y.nodes[e.i];
      && z == y.(nodes := z.nodes) && |z.nodes| == |y.nodes| && e.server < |y.nodes|
      && e.server < |n.nextIndex| == |n.matchIndex| && |n.logs| > 0
      && z.nodes[e.i] == OnAppendReply(n, e.server, e.a, e.answer, e.agreed)
      && AppendAnswer(e.server, e.a, e.answer) in y.messages
      && (Moves(n, e.server, e.a, e.answer) ==>
            Agreed(n.matchIndex[e.server := e.a.prevLogIndex + |e.a.entries|], e.agreed))
  {
    hide OnAppendReply, Agreed;
  }

  lemma LearnCommits<C>(y: System<C>, z: System<C>, i: nat, b: Books<C>, server: nat, args: AppendArgs<C>,
      reply: AppendReply, agreed: int)
    requires SafeInv(y, b) && BookInv(y, b) && ElectionInv(y) && Later(y, z, b, b) && z == y.(nodes := z.nodes)
    requires i < |y.nodes| == |z.nodes| == |b.whole| && z.nodes == y.nodes[i := z.nodes[i]] && server < |y.nodes|
    requires AppendAnswer(server, args, reply) in y.messages && reply.success
    requires var n, m := y.nodes[i], z.nodes[i];
      && NodeOk(n, |y.nodes|) && n.state == Leader && Stamp(i, n.currentTerm) in y.leaders && args.term == n.currentTerm
      && m.state == Leader && m.currentTerm == n.currentTerm && m.lastApplied == n.lastApplied
      && m.matchIndex == n.matchIndex[server := args.prevLogIndex + |args.entries|]
      && m.lastIncludedIndex == n.lastIncludedIndex && Last(m) == Last(n) && m.commitIndex >= n.commitIndex
      && Agreed(m.matchIndex, agreed)
      && (m.commitIndex == n.commitIndex ||
          (m.commitIndex == agreed > n.commitIndex && LogTerm(n, agreed) == n.currentTerm))
    ensures SafeInv(z, b)
  {
    hide SafeInv, BookInv, TermOk, Consistent, Valid, ElectionInv, Later;
    var n, m, full := y.nodes[i], z.nodes[i], b.whole[i];
    OfPeer(y, b, i);
    OfMessage(y, b, AppendAnswer(server, args, reply));
    TermOf(y, b, n.currentTerm);
    assert |n.matchIndex| == |y.nodes|;
    LearnBelief(y.messages, b, n, i, server, args, reply, m.matchIndex);
    assert LeaderSafe(z.messages, b, m, i) by { KnownSafe(y.messages, b, n, m, i); }
    ModestSafe(y, z, b, b, n, n, full, full);
    if m.commitIndex != n.commitIndex {
      assert Holding(m.matchIndex, agreed) > |m.matchIndex| / 2;
      hide Agreed, Holding;
      CommitChosen(y, b, i, m.matchIndex, agreed);
      hide LeaderSafe, MatchOk;
      assert full[..agreed + 1] == Past(b, n.currentTerm, agreed);
      assert CoveredBy(y, b, full, agreed, n.currentTerm, n.currentTerm, agreed);
      LaterParts(y, z, b, b);
      CoveredGrows(y, z, b, b, full, full, agreed, agreed, n.currentTerm, n.currentTerm);
    }
    hide Covered, Chosen, LeaderSafe, PeerOk, MessageOk, Later;
    assert b.whole[i := b.whole[i]] == b.whole;
    SafeStep(y, z, i, b, b);
  }

  lemma KnownSafe<C>(ms: set<Message<C>>, b: Books<C>, n: Node<C>, m: Node<C>, i: nat)
    requires LeaderSafe(ms, b, n, i) && n.state == Leader && m.currentTerm == n.currentTerm
    requires m.commitIndex >= n.commitIndex
    requires Last(m) == Last(n) && m.lastIncludedIndex == n.lastIncludedIndex
    requires forall v :: 0 <= v < |m.matchIndex| ==> MatchOk(ms, b, n, i, v, m.matchIndex[v])
    ensures LeaderSafe(ms, b, m, i)
  {
    forall v | 0 <= v < |m.matchIndex| ensures MatchOk(ms, b, m, i, v, m.matchIndex[v]) {
      MatchLater(ms, ms, b, b, n, m, i, v, m.matchIndex[v]);
    }
  }

  // ---- followers -----------------------------------------------------------------

  /** What a peer has applied is in the log of the leader whose entries it takes. */
  lemma AppliedInTerm<C>(y: System<C>, b: Books<C>, n: Node<C>, full: seq<Entry<C>>, u: int, index: int)
    requires AllInv(y, b) && Covered(y, b, full, index, n.currentTerm) && 0 < index && u >= n.currentTerm
    requires u in b.terms
    ensures index < |full| && full[..index + 1] <= b.terms[u]
  {
    hide BookInv, VoteInv, AckInv, AllHad;
    var term, k: nat :| CoveredBy(y, b, full, index, n.currentTerm, term, k);
    TermOf(y, b, u);
    hide AllInv, BookInv, Chosen, Consistent, Rising, UpTo;
    if term < u { LeaderCompleteness(y, b, term, k, u); }
  }

  /** The commit index that comes with entries. */
  lemma MergeCommits<C>(y: System<C>, z: System<C>, b: Books<C>, c: Books<C>, n: Node<C>, full: seq<Entry<C>>,
      args: AppendArgs<C>)
    requires PeerOk(n, full, b.terms) && Later(y, z, b, c) && Sent(b.terms, args) && TermOk(b, args.term)
    requires args.term >= n.currentTerm && Matches(n, args) && 0 <= args.leaderCommit && args.prevLogIndex < |full|
    requires Covered(y, b, b.terms[args.term], args.leaderCommit, args.term)
    ensures var more := Merge(full, args.prevLogIndex + 1, args.entries);
      Covered(z, c, more, Min(args.leaderCommit, args.prevLogIndex + |args.entries|), args.term)
  {
    hide Later, Consistent, Merge, Whole, UpTo, Rising, Covered, Grows, LogTerm, Within;
    var lead, at, more := b.terms[args.term], args.prevLogIndex + 1, Merge(full, args.prevLogIndex + 1, args.entries);
    LaterParts(y, z, b, c);
    AppendConsistent(b.terms, n, full, args);
    hide Matches;
    MergeIsEither(b.terms, full, lead, at, args.entries);
    var low := Min(args.leaderCommit, args.prevLogIndex + |args.entries|);
    assert more[..at + |args.entries|][..low + 1] == more[..low + 1];
    assert lead[..at + |args.entries|][..low + 1] == lead[..low + 1];
    CoveredGrows(y, z, b, c, lead, more, args.leaderCommit, low, args.term, args.term);
  }

  /** Entries do not touch what has been applied. */
  lemma MergeApplied<C>(y: System<C>, z: System<C>, b: Books<C>, c: Books<C>, n: Node<C>, full: seq<Entry<C>>,
      args: AppendArgs<C>)
    requires AllInv(y, b) && PeerOk(n, full, b.terms) && Later(y, z, b, c) && Sent(b.terms, args)
    requires TermOk(b, args.term)
    requires args.term >= n.currentTerm && Matches(n, args) && args.prevLogIndex < |full| && n.lastApplied > 0
    requires Covered(y, b, full, n.lastApplied, n.currentTerm)
    ensures Covered(z, c, Merge(full, args.prevLogIndex + 1, args.entries), n.lastApplied, args.term)
  {
    hide Later, Consistent, Merge, Whole, UpTo, Rising, Covered, Grows, LogTerm, AllInv, Within;
    var lead, at, more := b.terms[args.term], args.prevLogIndex + 1, Merge(full, args.prevLogIndex + 1, args.entries);
    LaterParts(y, z, b, c);
    AppendConsistent(b.terms, n, full, args);
    AppliedInTerm(y, b, n, full, args.term, n.lastApplied);
    var p := full[..n.lastApplied + 1];
    MergeKeeps(b.terms, full, lead, at, args.entries, p);
    assert more[..n.lastApplied + 1] == p;
    CoveredGrows(y, z, b, c, full, more, n.lastApplied, n.lastApplied, n.currentTerm, args.term);
  }

  lemma AppendNodeSafe<C>(y: System<C>, z: System<C>, b: Books<C>, c: Books<C>, n: Node<C>, full: seq<Entry<C>>,
      args: AppendArgs<C>)
    requires AllInv(y, b) && NodeSafe(y, b, n, full) && PeerOk(n, full, b.terms) && Later(y, z, b, c)
    requires Sent(b.terms, args) && TermOk(b, args.term) && 0 <= args.leaderCommit
    requires Covered(y, b, b.terms[args.term], args.leaderCommit, args.term)
    ensures NodeSafe(z, c, OnAppendEntries(n, args).0, AfterAppend(n, full, args))
  {
    hide AllInv, Covered, Later, Merge, Consistent, UpTo, LogTerm, OnAppendEntries, TermOk, Sent;
    SameMatches(n, args);
    AppendCommits(n, args);
    var m := OnAppendEntries(n, args).0;
    if args.term >= n.currentTerm && Matches(n, args) {
      InWhole(n, full, args.prevLogIndex);
      hide Whole, Matches;
      MergeCommits(y, z, b, c, n, full, args);
      if n.lastApplied > 0 { MergeApplied(y, z, b, c, n, full, args); }
      NothingCovered(z, c, AfterAppend(n, full, args), args.term);
      hide PeerOk;
    } else {
      SafeParts(y, b, n, full);
      hide NodeSafe, PeerOk, Whole, Matches;
      ModestSafe(y, z, b, c, n, m, full, full);
    }
  }

  lemma NothingCovered<C>(y: System<C>, b: Books<C>, log: seq<Entry<C>>, last: int)
    ensures Covered(y, b, log, 0, last)
  {
  }

  lemma AppendCommits<C>(n: Node<C>, args: AppendArgs<C>)
    requires |n.logs| > 0
    ensures var m := OnAppendEntries(n, args).0;
      && m.lastApplied == n.lastApplied && m.currentTerm == Max(n.currentTerm, args.term)
      && m.commitIndex == if args.term >= n.currentTerm && Matches(n, args)
                          then Min(args.leaderCommit, args.prevLogIndex + |args.entries|) else n.commitIndex
  {
    SameMatches(n, args);
    hide Merge, Rejection, LogTerm;
  }

  lemma SafeParts<C>(y: System<C>, b: Books<C>, n: Node<C>, full: seq<Entry<C>>)
    requires NodeSafe(y, b, n, full)
    ensures 0 <= n.commitIndex && 0 <= n.lastApplied
  {
  }

  lemma InWhole<C>(n: Node<C>, full: seq<Entry<C>>, index: int)
    requires Whole(n, full) && n.lastIncludedIndex <= index <= Last(n)
    ensures 0 <= index < |full|
  {
  }

  lemma AppendSafe<C>(y: System<C>, i: nat, args: AppendArgs<C>, b: Books<C>)
    requires SafeInv(y, b) && AllInv(y, b) && ElectionInv(y) && Enabled(y, Append(i, args))
    requires ElectionInv(Next(y, Append(i, args)))
    ensures SafeInv(Next(y, Append(i, args)), Kept(y, Append(i, args), b))
  {
    hide SafeInv, BookInv, VoteInv, AckInv, OnAppendEntries, AfterAppend, ElectionInv, Kept, Next;
    var e := Append(i, args);
    assert BookInv(y, b) && AppendRequest(i, args) in y.messages;
    hide AllInv, SafeInv, BookInv, ElectionInv, Next, Kept, Later, PeerOk, NodeSafe, Covered, Sent, LeaderSafe, TermOk,
      OnAppendEntries, AfterAppend;
    OfPeer(y, b, i);
    var z, c, n, full := Next(y, e), Kept(y, e, b), y.nodes[i], b.whole[i];
    GoesLater(y, e, b);
    AppendKept(y, i, args, b);
    AppendNext(y, i, args);
    hide Enabled;
    OfMessage(y, b, AppendRequest(i, args));
    TermOf(y, b, args.term);
    AppendNodeSafe(y, z, b, c, n, full, args);
    AppendSteady(n, args);
    LaterParts(y, z, b, c);
    BeliefSafe(y.messages, z.messages, b, c, n, z.nodes[i], i);
    forall m | m in z.messages && m !in y.messages ensures MessageSafe(z, c, m) { VoteSafe(z, c, m); }
    hide MessageSafe, SameBelief, MessageOk, Steady;
    SafeStep(y, z, i, b, c);
  }

  lemma AppendSteady<C>(n: Node<C>, args: AppendArgs<C>)
    requires |n.logs| > 0
    ensures Steady(n, OnAppendEntries(n, args).0) && SameBelief(n, OnAppendEntries(n, args).0)
  {
  }

  // ---- snapshots -----------------------------------------------------------------

  lemma InstallNodeSafe<C>(y: System<C>, z: System<C>, b: Books<C>, c: Books<C>, n: Node<C>, full: seq<Entry<C>>,
      args: SnapshotArgs)
    requires NodeSafe(y, b, n, full) && PeerOk(n, full, b.terms) && Later(y, z, b, c) && Snapped(b.terms, args)
    requires TermOk(b, args.term) && Covered(y, b, b.terms[args.term], args.lastIncludedIndex, args.term)
    ensures NodeSafe(z, c, OnInstallSnapshot(n, args).0, AfterInstall(n, full, args, b.terms))
  {
    var m, index, lead := OnInstallSnapshot(n, args).0, args.lastIncludedIndex, b.terms[args.term];
    var more := AfterInstall(n, full, args, b.terms);
    LaterParts(y, z, b, c);
    InstallCommits(n, args);
    if args.term >= n.currentTerm && index > n.commitIndex {
      assert more[..index + 1] == lead[..index + 1] && |more| > index by {
        if !Replaces(n, args) {
          WholeTerm(n, full, index);
          SamePast(b.terms, full, lead, index);
        }
      }
      hide OnInstallSnapshot, AfterInstall, Consistent, Later;
      CoveredGrows(y, z, b, c, lead, more, index, index, args.term, args.term);
    } else {
      hide OnInstallSnapshot, Consistent, Later;
      ModestSafe(y, z, b, c, n, m, full, full);
    }
  }

  lemma InstallCommits<C>(n: Node<C>, args: SnapshotArgs)
    requires |n.logs| > 0
    ensures var m := OnInstallSnapshot(n, args).0;
      if args.term >= n.currentTerm && args.lastIncludedIndex > n.commitIndex
      then m.commitIndex == m.lastApplied == args.lastIncludedIndex && m.currentTerm == args.term
      else m.commitIndex == n.commitIndex && m.lastApplied == n.lastApplied && m.currentTerm >= n.currentTerm
    ensures n.state != Leader || n.currentTerm != args.term ==>
      Steady(n, OnInstallSnapshot(n, args).0) && SameBelief(n, OnInstallSnapshot(n, args).0)
  {
    hide Trimmed, LogTerm;
  }

  lemma InstallNext<C>(y: System<C>, i: nat, args: SnapshotArgs)
    requires Enabled(y, Install(i, args))
    ensures var z := Next(y, Install(i, args)); i < |z.nodes| && z.nodes[i] == OnInstallSnapshot(y.nodes[i], args).0
  {
    hide OnInstallSnapshot;
  }

  lemma InstallSafe<C>(y: System<C>, i: nat, args: SnapshotArgs, b: Books<C>)
    requires SafeInv(y, b) && BookInv(y, b) && ElectionInv(y) && Enabled(y, Install(i, args))
    requires ElectionInv(Next(y, Install(i, args)))
    ensures SafeInv(Next(y, Install(i, args)), Kept(y, Install(i, args), b))
  {
    hide SafeInv, BookInv, OnInstallSnapshot, AfterInstall, ElectionInv, Kept, Next;
    var e := Install(i, args);
    assert SnapshotRequest(i, args) in y.messages;
    InstallNext(y, i, args);
    hide SafeInv, BookInv, ElectionInv, Next, Kept, Later, PeerOk, NodeSafe, Covered, Snapped, TermOk, RaftLogs.LedBy,
      LeaderSafe, OnInstallSnapshot, AfterInstall, Old;
    OfPeer(y, b, i);
    var z, c, n, full := Next(y, e), Kept(y, e, b), y.nodes[i], b.whole[i];
    GoesLater(y, e, b);
    InstallFacts(y, i, args, b);
    hide Enabled;
    OfMessage(y, b, SnapshotRequest(i, args));
    TermOf(y, b, args.term);
    RaftLogs.NotToLeader(y, i, args);
    InstallNodeSafe(y, z, b, c, n, full, args);
    InstallCommits(n, args);
    LaterParts(y, z, b, c);
    BeliefSafe(y.messages, z.messages, b, c, n, z.nodes[i], i);
    OldLater(y, z, i, b, c, args);
    assert MessageSafe(z, c, SnapshotAnswer(i, args));
    hide MessageSafe, SameBelief, MessageOk, Steady;
    SafeStep(y, z, i, b, c);
  }

  // ---- runs ----------------------------------------------------------------------

  /** An orderly step in which no peer gives up its log for a snapshot that is not beyond its own. */
  ghost predicate Careful<C>(y: System<C>, e: Event<C>)
    requires Enabled(y, e)
  {
    && Orderly(y, e)
    && (e.Install? && Replaces(y.nodes[e.i], e.s) ==> e.s.lastIncludedIndex > y.nodes[e.i].lastIncludedIndex)
  }

  ghost predicate CarefulRun<C>(run: seq<System<C>>, events: seq<Event<C>>)
    requires RaftCluster.IsRun(run, events)
  {
    forall i :: 0 <= i < |events| ==> Careful(run[i], events[i])
  }

  lemma SafeNext<C>(y: System<C>, e: Event<C>, b: Books<C>)
    requires SafeInv(y, b) && AllInv(y, b) && ElectionInv(y) && Enabled(y, e) && ElectionInv(Next(y, e))
    requires Careful(y, e)
    ensures SafeInv(Next(y, e), Kept(y, e, b))
  {
    assert BookInv(y, b);
    hide SafeInv, AllInv, BookInv, ElectionInv, Next, Kept, NoLateVote, Replaces, Enabled;
    match e
    case Count(_, _, _, _) => CountSafe(y, e, b);
    case Submit(i, command) => SubmitSafe(y, i, command, b);
    case Offer(i, server) => OfferSafe(y, i, server, b);
    case Append(i, args) => AppendSafe(y, i, args, b);
    case Learn(_, _, _, _, _) => LearnSafe(y, e, b);
    case Trim(i, index, data) => TrimSafe(y, i, index, data, b);
    case Install(i, args) => InstallSafe(y, i, args, b);
    case LearnSnapshot(_, _, _) => LearnSnapshotSafe(y, e, b);
    case _ => IdleSafe(y, e, b);
  }

  lemma InvariantStep<C>(y: System<C>, e: Event<C>, b: Books<C>)
    requires SafeInv(y, b) && AllInv(y, b) && ElectionInv(y) && Enabled(y, e) && ElectionInv(Next(y, e))
    requires Careful(y, e)
    ensures |b.whole| == |y.nodes| && SafeInv(Next(y, e), Kept(y, e, b)) && AllInv(Next(y, e), Kept(y, e, b))
  {
    assert BookInv(y, b) && VoteInv(y, b) && AckInv(y, b) && |b.whole| == |y.nodes|;
    hide SafeInv, BookInv, VoteInv, AckInv, ElectionInv, Next, Kept, NoLateVote, Replaces, Enabled;
    if e.Trim? { AppliedInLog(y, b, e.i); }
    BooksStep(y, e, b);
    VotesStep(y, e, b);
    AcksStep(y, e, b);
    SafeNext(y, e, b);
  }

  /** The books of a run. */
  ghost function BooksAt<C>(run: seq<System<C>>, events: seq<Event<C>>, i: nat): (r: Books<C>)
    requires RaftCluster.IsRun(run, events) && i < |run|
    ensures |r.whole| == |run[0].nodes| && |run[i].nodes| == |run[0].nodes|
  {
    if i == 0 then Books(map[], map[], map[], seq(|run[0].nodes|, _ => [Entry(0, None)]), map[], map[])
    else
      SameSize(run[i - 1], events[i - 1]);
      var b := BooksAt(run, events, i - 1);
      SameBooks(run[i - 1], events[i - 1], b);
      Kept(run[i - 1], events[i - 1], b)
  }

  lemma SameSize<C>(y: System<C>, e: Event<C>)
    requires Enabled(y, e)
    ensures |Next(y, e).nodes| == |y.nodes|
  {
    hide OnAppendReply, OnStart, OnApply, OnSnapshot, OnInstallSnapshot, OnSnapshotReply, Boot, OnAppendEntries, OnSend,
      OnVoteReply, OnRequestVote, OnStartElection, EndOf;
  }

  lemma SameBooks<C>(y: System<C>, e: Event<C>, b: Books<C>)
    requires Enabled(y, e) && |b.whole| == |y.nodes|
    ensures |Kept(y, e, b).whole| == |b.whole|
  {
    hide AfterAppend, AfterInstall, Cast, OnRequestVote, OnVoteReply;
  }

  lemma InitialSafe<C>(y: System<C>, b: Books<C>)
    requires Initial(y) && b == Books(map[], map[], map[], seq(|y.nodes|, _ => [Entry(0, None)]), map[], map[])
    ensures SafeInv(y, b) && AllInv(y, b)
  {
  }

  lemma CarefulVotes<C>(run: seq<System<C>>, events: seq<Event<C>>)
    requires RaftCluster.IsRun(run, events) && CarefulRun(run, events)
    ensures NoLateVotes(run, events)
  {
    hide Next, Initial, NoLateVote, NoOldAnswer, Replaces;
    forall i | 0 <= i < |events| ensures NoLateVote(run[i], events[i]) { assert Careful(run[i], events[i]); }
  }

  lemma {:induction false} Reachable<C>(run: seq<System<C>>, events: seq<Event<C>>, i: nat)
    requires RaftCluster.IsRun(run, events) && CarefulRun(run, events) && i < |run|
    ensures ElectionInv(run[i])
    ensures SafeInv(run[i], BooksAt(run, events, i)) && AllInv(run[i], BooksAt(run, events, i))
  {
    hide SafeInv, AllInv, ElectionInv, Next, Initial, Enabled, Careful, NoLateVotes, Kept;
    CarefulVotes(run, events);
    RaftCluster.Reachable(run, events, i);
    if i == 0 {
      InitialSafe(run[0], BooksAt(run, events, 0));
    } else {
      Reachable(run, events, i - 1);
      InvariantStep(run[i - 1], events[i - 1], BooksAt(run, events, i - 1));
    }
  }

  lemma {:induction false} LaterRun<C>(run: seq<System<C>>, events: seq<Event<C>>, s: nat, t: nat)
    requires RaftCluster.IsRun(run, events) && CarefulRun(run, events) && s <= t < |run|
    ensures Later(run[s], run[t], BooksAt(run, events, s), BooksAt(run, events, t))
  {
    hide SafeInv, ElectionInv, Next, Initial, Enabled, Careful, Kept, BookInv, VoteInv, AckInv;
    if s < t {
      LaterRun(run, events, s, t - 1);
      Reachable(run, events, t - 1);
      Reachable(run, events, t);
      GoesLater(run[t - 1], events[t - 1], BooksAt(run, events, t - 1));
      var a, b, c := BooksAt(run, events, s), BooksAt(run, events, t - 1), BooksAt(run, events, t);
      LaterTwice(run[s], run[t - 1], run[t], a, b, c);
    }
  }

  lemma LaterTwice<C>(x: System<C>, y: System<C>, z: System<C>, a: Books<C>, b: Books<C>, c: Books<C>)
    requires Later(x, y, a, b) && Later(y, z, b, c)
    ensures Later(x, z, a, c)
  {
    forall t | t in a.terms ensures t in c.terms && a.terms[t] <= c.terms[t] {
      assert a.terms[t] <= b.terms[t] && b.terms[t] <= c.terms[t];
    }
  }

  /** An entry that is applied is chosen. */
  lemma AppliedIsChosen<C>(y: System<C>, b: Books<C>, e: Event<C>, index: int, entry: Entry<C>)
      returns (term: int, k: nat)
    requires SafeInv(y, b) && BookInv(y, b) && ElectionInv(y) && Applies(y, e, index, entry)
    ensures Chosen(y, b, term, k) && 0 <= index <= k && Past(b, term, k)[index] == entry
  {
    hide SafeInv, BookInv, ElectionInv, Chosen;
    OfPeer(y, b, e.i);
    var n, full := y.nodes[e.i], b.whole[e.i];
    hide Consistent;
    WholeTerm(n, full, index);
    var t, j: nat :| CoveredBy(y, b, full, n.commitIndex, n.currentTerm, t, j);
    term, k := t, j;
    assert full[..n.commitIndex + 1][index] == full[index];
  }

  /** Two entries chosen at the same index are the same. */
  lemma ChosenOnce<C>(y: System<C>, b: Books<C>, t1: int, k1: nat, t2: int, k2: nat, index: int)
    requires AllInv(y, b) && Chosen(y, b, t1, k1) && Chosen(y, b, t2, k2) && 0 <= index <= k1 && index <= k2 && t1 <= t2
    ensures Past(b, t1, k1)[index] == Past(b, t2, k2)[index]
  {
    assert t2 in b.won && TermOk(b, t2) by { assert TermsOk(b); }
    if t1 < t2 { LeaderCompleteness(y, b, t1, k1, t2); }
    hide AllInv, AllHad, Consistent, Rising, UpTo;
  }

  /** In every careful run, two peers that apply an entry at the same index, at whatever times, apply the same. */
  lemma StateMachineSafety<C>(run: seq<System<C>>, events: seq<Event<C>>, s: nat, t: nat, index: int, p: Entry<C>,
      q: Entry<C>)
    requires RaftCluster.IsRun(run, events) && CarefulRun(run, events) && s <= t < |events|
    requires Applies(run[s], events[s], index, p) && Applies(run[t], events[t], index, q)
    ensures p == q
  {
    hide SafeInv, ElectionInv, Applies, CarefulRun, BooksAt, VoteInv, AckInv, BookInv, Chosen;
    var b, c := BooksAt(run, events, s), BooksAt(run, events, t);
    Reachable(run, events, s);
    Reachable(run, events, t);
    LaterRun(run, events, s, t);
    hide RaftCluster.IsRun;
    var t1, k1 := AppliedIsChosen(run[s], b, events[s], index, p);
    var t2, k2 := AppliedIsChosen(run[t], c, events[t], index, q);
    ChosenGrows(run[s], run[t], b, c, t1, k1);
    hide AllInv, Later;
    if t1 <= t2 {
      ChosenOnce(run[t], c, t1, k1, t2, k2, index);
    } else {
      ChosenOnce(run[t], c, t2, k2, t1, k1, index);
    }
  }
}
