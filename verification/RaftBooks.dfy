/** The books of a cluster: the whole log of every peer, as if nobody ever trimmed it, and the log that the leader of
    each term built. Every entry comes from the log of its term and is only ever copied with all of its past. */
module RaftBooks {
  import opened Options
  import opened RaftNode
  import opened RaftCluster
  import RaftLogs

  type Record<C> = map<int, seq<Entry<C>>>

  /** `terms`: the log of each term as far as its leader got; `won`: the log with which it won; `quorum`: the peers
      whose votes it had then; `whole`: the whole log of each peer; `stood`: the whole log with which a peer stood;
      `cast`: the whole log with which it cast a ballot before the term was won. */
  datatype Books<+C> = Books(terms: map<int, seq<Entry<C>>>, won: map<int, seq<Entry<C>>>, quorum: map<int, set<int>>,
    whole: seq<seq<Entry<C>>>, stood: map<Stamp, seq<Entry<C>>>, cast: map<Ballot, seq<Entry<C>>>)

  // ---- logs and the logs of terms ------------------------------------------------

  /** Up to each of its entries, the log is a piece of the log of that entry's term. */
  ghost predicate Consistent<C>(t: Record<C>, log: seq<Entry<C>>) {
    && |log| > 0 && log[0] == Entry(0, None)
    && forall k :: 0 < k < |log| ==> Anchored(t, log, k)
  }

  ghost predicate Anchored<C>(t: Record<C>, log: seq<Entry<C>>, k: nat)
    requires k < |log|
  {
    var term := log[k].term;
    term >= 1 && term in t && k < |t[term]| && log[..k + 1] == t[term][..k + 1]
  }

  ghost predicate Grows<C>(t: Record<C>, u: Record<C>) {
    forall term :: term in t ==> term in u && t[term] <= u[term]
  }

  lemma ConsistentGrows<C>(t: Record<C>, u: Record<C>, log: seq<Entry<C>>)
    requires Consistent(t, log) && Grows(t, u)
    ensures Consistent(u, log)
  {
    forall k | 0 < k < |log| ensures Anchored(u, log, k) {
      assert Anchored(t, log, k);
      var term := log[k].term;
      assert t[term][..k + 1] == u[term][..k + 1];
    }
  }

  lemma SamePast<C>(t: Record<C>, a: seq<Entry<C>>, b: seq<Entry<C>>, k: nat)
    requires Consistent(t, a) && Consistent(t, b) && k < |a| && k < |b| && a[k].term == b[k].term
    ensures a[..k + 1] == b[..k + 1]
  {
    if k > 0 {
      assert Anchored(t, a, k) && Anchored(t, b, k);
    }
  }

  lemma ConsistentPrefix<C>(t: Record<C>, log: seq<Entry<C>>, n: nat)
    requires Consistent(t, log) && 0 < n <= |log|
    ensures Consistent(t, log[..n])
  {
    forall k | 0 < k < n ensures Anchored(t, log[..n], k) {
      assert Anchored(t, log, k);
      assert log[..n][..k + 1] == log[..k + 1];
    }
  }

  lemma ExtendedConsistent<C>(t: Record<C>, log: seq<Entry<C>>, entry: Entry<C>)
    requires Consistent(t, log) && entry.term >= 1 && entry.term in t && t[entry.term] == log + [entry]
    ensures Consistent(t, log + [entry])
  {
    var more := log + [entry];
    forall k | 0 < k < |more| ensures Anchored(t, more, k) {
      if k < |log| {
        assert Anchored(t, log, k);
        assert more[..k + 1] == log[..k + 1];
      }
    }
  }

  /** Entries of a log that has none of a term come from other terms. */
  lemma NoneOf<C>(t: Record<C>, log: seq<Entry<C>>, term: int)
    requires Consistent(t, log) && term !in t && term != 0
    ensures forall k :: 0 <= k < |log| ==> log[k].term != term
  {
    forall k | 0 <= k < |log| ensures log[k].term != term {
      if k > 0 { assert Anchored(t, log, k); }
    }
  }

  // ---- merging -------------------------------------------------------------------

  /** A log that has the entries already stays as it is. */
  lemma {:induction false} MergeSame<C>(log: seq<Entry<C>>, at: nat, entries: seq<Entry<C>>)
    requires at + |entries| <= |log| && entries == log[at..at + |entries|]
    ensures Merge(log, at, entries) == log
    decreases |entries|
  {
    if entries != [] {
      assert entries[0] == log[at] && entries[1..] == log[at + 1..at + |entries|];
      MergeSame(log, at + 1, entries[1..]);
    }
  }

  /** Merging a stretch of the leader's log gives the follower's own log or a piece of the leader's; either has all of
      the stretch and its past. */
  lemma {:induction false} MergeIsEither<C>(t: Record<C>, log: seq<Entry<C>>, lead: seq<Entry<C>>, at: nat,
      entries: seq<Entry<C>>)
    requires Consistent(t, log) && Consistent(t, lead)
    requires 0 < at <= |log| && at + |entries| <= |lead|
    requires entries == lead[at..at + |entries|] && log[..at] == lead[..at]
    ensures var r := Merge(log, at, entries);
      && (r == log || r == lead[..at + |entries|])
      && |r| >= at + |entries| && r[..at + |entries|] == lead[..at + |entries|]
    decreases |entries|
  {
    if entries != [] {
      if at < |log| && log[at].term == entries[0].term {
        assert entries[0] == lead[at];
        SamePast(t, log, lead, at);
        MergeIsEither(t, log, lead, at + 1, entries[1..]);
      } else {
        assert log[..at] + entries == lead[..at + |entries|];
      }
    }
  }

  /** Merging keeps what the follower's log and the leader's log have in common. */
  lemma MergeKeeps<C>(t: Record<C>, log: seq<Entry<C>>, lead: seq<Entry<C>>, at: nat, entries: seq<Entry<C>>,
      p: seq<Entry<C>>)
    requires Consistent(t, log) && Consistent(t, lead)
    requires 0 < at <= |log| && at + |entries| <= |lead|
    requires entries == lead[at..at + |entries|] && log[..at] == lead[..at] && p <= log && p <= lead
    ensures p <= Merge(log, at, entries)
  {
    MergeIsEither(t, log, lead, at, entries);
    hide Consistent;
    if |p| > at + |entries| {
      assert log[at..at + |entries|] == p[at..at + |entries|] == lead[at..at + |entries|];
      MergeSame(log, at, entries);
    }
  }

  // ---- trimmed logs and whole logs -----------------------------------------------

  ghost predicate Whole<C>(n: Node<C>, full: seq<Entry<C>>) {
    && 0 <= n.lastIncludedIndex && |n.logs| > 0 && |full| == Last(n) + 1
    && full[n.lastIncludedIndex].term == n.logs[0].term && full[n.lastIncludedIndex + 1..] == n.logs[1..]
  }

  lemma WholeTerm<C>(n: Node<C>, full: seq<Entry<C>>, index: int)
    requires Whole(n, full) && n.lastIncludedIndex <= index <= Last(n)
    ensures 0 <= index < |full| && LogTerm(n, index) == full[index].term
    ensures index > n.lastIncludedIndex ==> n.logs[index - n.lastIncludedIndex] == full[index]
  {
    var first := n.lastIncludedIndex;
    if index > first {
      assert n.logs[1..][index - first - 1] == full[first + 1..][index - first - 1];
    }
  }

  lemma SameWhole<C>(n: Node<C>, m: Node<C>, full: seq<Entry<C>>)
    requires Whole(n, full) && m.logs == n.logs && m.lastIncludedIndex == n.lastIncludedIndex
    ensures Whole(m, full)
  {
  }

  lemma WholeEnd<C>(n: Node<C>, full: seq<Entry<C>>)
    requires Whole(n, full)
    ensures EndOf(n) == End(full)
  {
    WholeTerm(n, full, Last(n));
  }

  ghost function End<C>(log: seq<Entry<C>>): (r: Position)
    requires |log| > 0
  {
    Position(log[|log| - 1].term, |log| - 1)
  }

  /** Merging into what is kept is merging into the whole log. */
  lemma MergeWhole<C>(log: seq<Entry<C>>, full: seq<Entry<C>>, first: nat, at: nat, entries: seq<Entry<C>>)
    requires 0 < at <= |log| && |full| == first + |log| && full[first + 1..] == log[1..]
    ensures var m, w := Merge(log, at, entries), Merge(full, first + at, entries);
      |m| > 0 && m[0] == log[0] && |w| == first + |m| && w[..first + 1] == full[..first + 1] && w[first + 1..] == m[1..]
  {
    hide Merge;
    var m := Merge(log, at, entries);
    assert m[0] == m[..at][0] == log[..at][0];
    assert full == full[..first + 1] + log[1..];
    MergeBehind(full[..first + 1], log, at, entries);
  }

  lemma MergedWhole<C>(n: Node<C>, full: seq<Entry<C>>, at: int, entries: seq<Entry<C>>)
    requires Whole(n, full) && n.lastIncludedIndex < at <= Last(n) + 1
    ensures Whole(n.(logs := Merge(n.logs, at - n.lastIncludedIndex, entries)), Merge(full, at, entries))
  {
    hide Merge;
    var first, r := n.lastIncludedIndex, Merge(full, at, entries);
    MergeWhole(n.logs, full, first, at - first, entries);
    assert r[first] == r[..first + 1][first] == full[first];
  }

  lemma TrimWhole<C>(n: Node<C>, full: seq<Entry<C>>, index: int)
    requires Whole(n, full) && n.lastIncludedIndex < index <= Last(n)
    ensures var logs := Trimmed(n, index);
      |logs| > 0 && logs[0].term == full[index].term && full[index + 1..] == logs[1..] && |full| == index + |logs|
  {
    WholeTerm(n, full, index);
    var first := n.lastIncludedIndex;
    assert n.logs[1..][index - first..] == n.logs[index - first + 1..];
    assert full[first + 1..][index - first..] == full[index + 1..];
  }

  lemma LongerWhole<C>(n: Node<C>, m: Node<C>, full: seq<Entry<C>>, entry: Entry<C>)
    requires Whole(n, full) && m.logs == n.logs + [entry] && m.lastIncludedIndex == n.lastIncludedIndex
    ensures Whole(m, full + [entry])
  {
    var first := n.lastIncludedIndex;
    assert (full + [entry])[first + 1..] == full[first + 1..] + [entry];
    assert (n.logs + [entry])[1..] == n.logs[1..] + [entry];
  }

  lemma SliceWhole<C>(n: Node<C>, full: seq<Entry<C>>, from: int, end: int)
    requires Whole(n, full) && n.lastIncludedIndex < from <= end <= Last(n) + 1
    ensures n.logs[from - n.lastIncludedIndex..end - n.lastIncludedIndex] == full[from..end]
  {
    forall k | from <= k < end ensures n.logs[k - n.lastIncludedIndex] == full[k] { WholeTerm(n, full, k); }
  }

  // ---- keeping the books ---------------------------------------------------------

  /** The whole log after AppendEntries. */
  ghost function AfterAppend<C>(n: Node<C>, full: seq<Entry<C>>, args: AppendArgs<C>): (r: seq<Entry<C>>)
    requires |n.logs| > 0
  {
    if args.term >= n.currentTerm && Matches(n, args) && 0 <= args.prevLogIndex < |full|
    then Merge(full, args.prevLogIndex + 1, args.entries) else full
  }

  /** The whole log after a leader's snapshot: as it was, or what the leader had. */
  ghost function AfterInstall<C>(n: Node<C>, full: seq<Entry<C>>, args: SnapshotArgs, t: Record<C>)
    : (r: seq<Entry<C>>)
    requires |n.logs| > 0
  {
    if Replaces(n, args) && args.term in t && 0 <= args.lastIncludedIndex < |t[args.term]|
    then t[args.term][..args.lastIncludedIndex + 1] else full
  }

  predicate Replaces<C>(n: Node<C>, args: SnapshotArgs)
    requires |n.logs| > 0
  {
    var index := args.lastIncludedIndex;
    && args.term >= n.currentTerm && index > n.commitIndex
    && !(n.lastIncludedIndex < index <= Last(n) && LogTerm(n, index) == args.lastIncludedTerm)
  }

  ghost function Cast<C>(b: Books<C>, ballot: Ballot, full: seq<Entry<C>>): (r: map<Ballot, seq<Entry<C>>>) {
    if ballot.term in b.won then b.cast else b.cast[ballot := full]
  }

  ghost function Win<C>(b: Books<C>, term: int, full: seq<Entry<C>>, votes: set<int>): (r: Books<C>) {
    b.(terms := b.terms[term := full], won := b.won[term := full], quorum := b.quorum[term := votes])
  }

  ghost function Kept<C>(y: System<C>, e: Event<C>, b: Books<C>): (r: Books<C>)
    requires Enabled(y, e) && |b.whole| == |y.nodes|
  {
    var n, full := y.nodes[e.i], b.whole[e.i];
    match e
    case Election(i) =>
      var term := n.currentTerm + 1;
      b.(stood := b.stood[Stamp(i, term) := full], cast := Cast(b, Ballot(i, i, term), full))
    case Vote(i, args) =>
      if OnRequestVote(n, args).1.granted
      then b.(cast := Cast(b, Ballot(i, args.candidateId, args.term), full)) else b
    case Count(i, server, term, reply) =>
      var m := OnVoteReply(n, i, server, term, reply);
      if n.state != Leader && m.state == Leader then Win(b, term, full, m.votes) else b
    case Submit(i, command) =>
      var more := full + [Entry(n.currentTerm, Some(command))];
      if n.state == Leader then b.(whole := b.whole[i := more], terms := b.terms[n.currentTerm := more]) else b
    case Append(i, args) => b.(whole := b.whole[i := AfterAppend(n, full, args)])
    case Install(i, args) => b.(whole := b.whole[i := AfterInstall(n, full, args, b.terms)])
    case _ => b
  }

  // ---- the invariant of the logs -------------------------------------------------

  ghost predicate Rising<C>(log: seq<Entry<C>>) {
    forall j, k :: 0 <= j < k < |log| ==> log[j].term <= log[k].term
  }

  ghost predicate UpTo<C>(log: seq<Entry<C>>, term: int) {
    forall k :: 0 <= k < |log| ==> log[k].term <= term
  }

  /** The log of a term is what its leader won with and what it added. */
  ghost predicate TermOk<C>(b: Books<C>, term: int)
    requires term in b.terms
  {
    && term >= 1 && term in b.won && Consistent(b.terms, b.terms[term]) && Rising(b.terms[term])
    && UpTo(b.terms[term], term) && 0 < |b.won[term]| && b.won[term] <= b.terms[term] && UpTo(b.won[term], term - 1)
  }

  ghost predicate TermsOk<C>(b: Books<C>) {
    b.won.Keys == b.terms.Keys && forall term :: term in b.terms ==> TermOk(b, term)
  }

  ghost predicate PeerOk<C>(n: Node<C>, full: seq<Entry<C>>, t: Record<C>) {
    && Whole(n, full) && Consistent(t, full) && UpTo(full, n.currentTerm)
    && (n.state == Leader ==> n.currentTerm in t && full == t[n.currentTerm])
  }

  ghost predicate Known(leaders: set<Stamp>, terms: set<int>) {
    && (forall s :: s in leaders ==> s.term in terms)
    && (forall term :: term in terms ==> exists i: nat :: Stamp(i, term) in leaders)
  }

  /** The message holds a stretch of its term's log. */
  ghost predicate Sent<C>(t: Record<C>, a: AppendArgs<C>) {
    && a.term in t && 0 <= a.prevLogIndex && a.prevLogIndex + |a.entries| < |t[a.term]|
    && a.prevLogTerm == t[a.term][a.prevLogIndex].term
    && a.entries == t[a.term][a.prevLogIndex + 1..a.prevLogIndex + 1 + |a.entries|]
  }

  /** The snapshot ends with an entry of its term's log. */
  ghost predicate Snapped<C>(t: Record<C>, s: SnapshotArgs) {
    s.term in t && 0 <= s.lastIncludedIndex < |t[s.term]| && s.lastIncludedTerm == t[s.term][s.lastIncludedIndex].term
  }

  ghost predicate MessageOk<C>(m: Message<C>, t: Record<C>, leaders: set<Stamp>) {
    && (m.AppendRequest? ==> Sent(t, m.a))
    && (m.AppendAnswer? ==> Sent(t, m.a))
    && (m.SnapshotRequest? ==> Snapped(t, m.s) && RaftLogs.LedBy(leaders, m.s.term, m.to))
  }

  ghost predicate BookInv<C>(y: System<C>, b: Books<C>) {
    && |b.whole| == |y.nodes| && TermsOk(b) && Known(y.leaders, b.terms.Keys)
    && (forall i :: 0 <= i < |y.nodes| ==> PeerOk(y.nodes[i], b.whole[i], b.terms))
    && (forall m :: m in y.messages ==> MessageOk(m, b.terms, y.leaders))
  }

  // What the invariant says of one peer, one message and one term.

  lemma PeerOf<C>(y: System<C>, b: Books<C>, i: nat)
    requires BookInv(y, b) && i < |y.nodes|
    ensures |b.whole| == |y.nodes| && PeerOk(y.nodes[i], b.whole[i], b.terms)
  {
    hide PeerOk, MessageOk, TermsOk;
  }

  lemma MessageOf<C>(y: System<C>, b: Books<C>, m: Message<C>)
    requires BookInv(y, b) && m in y.messages
    ensures MessageOk(m, b.terms, y.leaders)
  {
    hide PeerOk, MessageOk, TermsOk;
  }

  lemma TermOf<C>(y: System<C>, b: Books<C>, term: int)
    requires BookInv(y, b) && term in b.terms
    ensures TermOk(b, term) && term in b.won
  {
    hide PeerOk, MessageOk, Consistent, Rising, UpTo;
  }

  lemma SentGrows<C>(t: Record<C>, u: Record<C>, a: AppendArgs<C>)
    requires Sent(t, a) && Grows(t, u)
    ensures Sent(u, a)
  {
    var p, q := t[a.term], u[a.term];
    assert p == q[..|p|];
    assert p[a.prevLogIndex] == q[a.prevLogIndex];
    var from, end := a.prevLogIndex + 1, a.prevLogIndex + 1 + |a.entries|;
    assert p[from..end] == q[from..end];
  }

  lemma MessageGrows<C>(m: Message<C>, t: Record<C>, u: Record<C>, leaders: set<Stamp>, more: set<Stamp>)
    requires MessageOk(m, t, leaders) && Grows(t, u) && leaders <= more
    ensures MessageOk(m, u, more)
  {
    if m.AppendRequest? { SentGrows(t, u, m.a); }
    if m.AppendAnswer? { SentGrows(t, u, m.a); }
  }

  /** A step of peer `i` after which the logs of the terms are as before and nobody is a new leader. */
  lemma QuietBooks<C>(y: System<C>, z: System<C>, i: nat, b: Books<C>, c: Books<C>)
    requires BookInv(y, b) && i < |y.nodes| == |z.nodes| && z.nodes == y.nodes[i := z.nodes[i]]
    requires z.leaders == y.leaders
    requires c.terms == b.terms && c.won == b.won && |c.whole| == |b.whole| && c.whole == b.whole[i := c.whole[i]]
    requires PeerOk(z.nodes[i], c.whole[i], b.terms)
    requires forall m :: m in z.messages && m !in y.messages ==> MessageOk(m, b.terms, y.leaders)
    ensures BookInv(z, c)
  {
    hide PeerOk, MessageOk, Known, Consistent, Rising, UpTo;
    forall term | term in c.terms ensures TermOk(c, term) { assert TermOk(b, term); }
  }

  // ---- what a step makes of a peer and its whole log -----------------------------

  lemma SamePeer<C>(n: Node<C>, m: Node<C>, full: seq<Entry<C>>, t: Record<C>)
    requires PeerOk(n, full, t) && RaftLogs.PieceOf(m) == RaftLogs.PieceOf(n) && m.currentTerm >= n.currentTerm
    requires m.state == Leader ==> n.state == Leader && m.currentTerm == n.currentTerm
    ensures PeerOk(m, full, t)
  {
    hide Consistent;
    SameWhole(n, m, full);
  }

  lemma AppendConsistent<C>(t: Record<C>, n: Node<C>, full: seq<Entry<C>>, args: AppendArgs<C>)
    requires Whole(n, full) && Consistent(t, full) && Sent(t, args) && Consistent(t, t[args.term]) && Matches(n, args)
    ensures 0 <= args.prevLogIndex < |full| && full[..args.prevLogIndex + 1] == t[args.term][..args.prevLogIndex + 1]
    ensures Consistent(t, Merge(full, args.prevLogIndex + 1, args.entries))
  {
    var lead, at := t[args.term], args.prevLogIndex + 1;
    WholeTerm(n, full, args.prevLogIndex);
    SamePast(t, full, lead, args.prevLogIndex);
    hide Consistent, Merge;
    MergeIsEither(t, full, lead, at, args.entries);
    ConsistentPrefix(t, lead, at + |args.entries|);
  }

  lemma AppendUpTo<C>(t: Record<C>, full: seq<Entry<C>>, args: AppendArgs<C>, term: int)
    requires Consistent(t, full) && Sent(t, args) && Consistent(t, t[args.term])
    requires args.prevLogIndex < |full| && full[..args.prevLogIndex + 1] == t[args.term][..args.prevLogIndex + 1]
    requires UpTo(full, term) && term <= args.term && UpTo(t[args.term], args.term)
    ensures UpTo(Merge(full, args.prevLogIndex + 1, args.entries), args.term)
  {
    hide Consistent, Merge;
    MergeIsEither(t, full, t[args.term], args.prevLogIndex + 1, args.entries);
  }

  lemma AppendPeer<C>(n: Node<C>, full: seq<Entry<C>>, args: AppendArgs<C>, t: Record<C>)
    requires PeerOk(n, full, t) && Sent(t, args) && Consistent(t, t[args.term]) && UpTo(t[args.term], args.term)
    ensures PeerOk(OnAppendEntries(n, args).0, AfterAppend(n, full, args), t)
  {
    hide Consistent, Merge, Sent, Rejection, UpTo, LogTerm;
    var m := OnAppendEntries(n, args).0;
    if args.term >= n.currentTerm {
      var d := SteppedDown(n, args.term);
      SameMatches(n, args);
      if Matches(n, args) {
        var at := args.prevLogIndex + 1;
        AppendConsistent(t, n, full, args);
        AppendUpTo(t, full, args, n.currentTerm);
        MergedWhole(n, full, at, args.entries);
        SameWhole(n.(logs := Merge(n.logs, at - n.lastIncludedIndex, args.entries)), m, Merge(full, at, args.entries));
      } else {
        SameWhole(n, d, full);
        UpToMore(full, n.currentTerm, args.term);
      }
      hide Whole;
    }
  }

  lemma SameMatches<C>(n: Node<C>, args: AppendArgs<C>)
    requires |n.logs| > 0
    ensures Matches(SteppedDown(n, args.term), args) == Matches(n, args)
  {
  }

  lemma UpToMore<C>(log: seq<Entry<C>>, a: int, b: int)
    requires UpTo(log, a) && a <= b
    ensures UpTo(log, b)
  {
  }

  lemma InstallPeer<C>(n: Node<C>, full: seq<Entry<C>>, args: SnapshotArgs, t: Record<C>)
    requires PeerOk(n, full, t) && Snapped(t, args) && Consistent(t, t[args.term]) && UpTo(t[args.term], args.term)
    requires n.state == Leader ==> n.currentTerm != args.term
    ensures PeerOk(OnInstallSnapshot(n, args).0, AfterInstall(n, full, args, t), t)
  {
    hide Consistent, Trimmed, LogTerm;
    InstallWhole(n, full, args, t);
    InstallFollows(n, args);
    var m := OnInstallSnapshot(n, args).0;
    if Replaces(n, args) {
      ConsistentPrefix(t, t[args.term], args.lastIncludedIndex + 1);
    } else {
      UpToMore(full, n.currentTerm, m.currentTerm);
    }
    hide OnInstallSnapshot, Whole;
  }

  lemma InstallFollows<C>(n: Node<C>, args: SnapshotArgs)
    requires |n.logs| > 0 && (n.state == Leader ==> n.currentTerm != args.term)
    ensures var m := OnInstallSnapshot(n, args).0;
      && m.currentTerm == Max(n.currentTerm, args.term) && (m.state == Leader ==> m == n && args.term < n.currentTerm)
  {
    hide Trimmed, LogTerm;
  }

  lemma InstallForm<C>(n: Node<C>, args: SnapshotArgs)
    requires |n.logs| > 0
    ensures var m, index := OnInstallSnapshot(n, args).0, args.lastIncludedIndex;
      if args.term >= n.currentTerm && index > n.commitIndex
      then && m.lastIncludedIndex == index
           && m.logs == if Replaces(n, args) then [Entry(args.lastIncludedTerm, None)] else Trimmed(n, index)
      else RaftLogs.PieceOf(m) == RaftLogs.PieceOf(n)
  {
    var index := args.lastIncludedIndex;
    if n.lastIncludedIndex < index <= Last(n) { RaftLogs.SameTrimmed(n, args.term, index); }
    hide Trimmed;
  }

  lemma InstallWhole<C>(n: Node<C>, full: seq<Entry<C>>, args: SnapshotArgs, t: Record<C>)
    requires Whole(n, full) && Snapped(t, args)
    ensures Whole(OnInstallSnapshot(n, args).0, AfterInstall(n, full, args, t))
  {
    hide OnInstallSnapshot, LogTerm, Trimmed;
    InstallForm(n, args);
    var index := args.lastIncludedIndex;
    if args.term >= n.currentTerm && index > n.commitIndex && !Replaces(n, args) {
      TrimWhole(n, full, index);
    }
  }

  lemma TrimPeer<C>(n: Node<C>, full: seq<Entry<C>>, index: int, data: string, t: Record<C>)
    requires PeerOk(n, full, t) && index <= Last(n)
    ensures PeerOk(OnSnapshot(n, index, data), full, t)
  {
    hide Consistent, UpTo, Trimmed;
    if index > n.lastIncludedIndex { TrimWhole(n, full, index); }
  }

  // ---- steps ---------------------------------------------------------------------

  lemma ElectBooks<C>(y: System<C>, e: Event<C>, b: Books<C>)
    requires BookInv(y, b) && NodesOk(y) && Enabled(y, e) && RaftLogs.Idle(e)
    ensures BookInv(Next(y, e), Kept(y, e, b))
  {
    RaftLogs.IdleEvent(y, e);
    Rises(y, e);
    IdleBooks(y, e, b);
    hide NodesOk, Next, Kept, MessageOk, Consistent;
    var z, c := Next(y, e), Kept(y, e, b);
    assert PeerOk(y.nodes[e.i], b.whole[e.i], b.terms);
    SamePeer(y.nodes[e.i], z.nodes[e.i], b.whole[e.i], b.terms);
    forall m | m in z.messages && m !in y.messages ensures MessageOk(m, b.terms, y.leaders) {
      IdleMessages(y, e, m, b.terms);
    }
    hide PeerOk;
    assert b.whole[e.i := b.whole[e.i]] == b.whole;
    QuietBooks(y, z, e.i, b, c);
  }

  lemma IdleBooks<C>(y: System<C>, e: Event<C>, b: Books<C>)
    requires Enabled(y, e) && |b.whole| == |y.nodes| && (RaftLogs.Idle(e) || e.Trim? || e.Offer?)
    ensures var c := Kept(y, e, b); c == b.(stood := c.stood, cast := c.cast)
    ensures !e.Election? && !e.Vote? ==> Kept(y, e, b) == b
  {
    hide OnRequestVote, Cast;
  }

  lemma IdleMessages<C>(y: System<C>, e: Event<C>, m: Message<C>, t: Record<C>)
    requires Enabled(y, e) && RaftLogs.Idle(e) && m in Next(y, e).messages && m !in y.messages
    ensures MessageOk(m, t, y.leaders) && (m.VoteRequest? || m.VoteAnswer?)
  {
    hide OnRequestVote, OnStartElection, OnAppendReply, OnSnapshotReply, OnApply, Boot, EndOf;
  }

  lemma OfferBooks<C>(y: System<C>, i: nat, server: nat, b: Books<C>)
    requires BookInv(y, b) && ElectionInv(y) && Enabled(y, Offer(i, server))
    ensures BookInv(Next(y, Offer(i, server)), Kept(y, Offer(i, server), b))
  {
    var z, n := Next(y, Offer(i, server)), y.nodes[i];
    assert PeerOk(n, b.whole[i], b.terms) && NodeOk(n, |y.nodes|);
    assert n.state == Leader ==> Stamp(i, n.currentTerm) in y.leaders;
    hide BookInv, ElectionInv, Consistent, Valid;
    RaftLogs.OfferRole(n, i, server);
    forall m | m in Outgoing(server, OnSend(n, i, server).1) ensures MessageOk(m, b.terms, y.leaders) {
      OfferSent(n, i, server, b.whole[i], b.terms, y.leaders, m);
    }
    SamePeer(n, z.nodes[i], b.whole[i], b.terms);
    hide OnSend, PeerOk, MessageOk, Whole;
    assert b.whole[i := b.whole[i]] == b.whole;
    QuietBooks(y, z, i, b, b);
  }

  lemma OfferSent<C>(n: Node<C>, i: nat, server: nat, full: seq<Entry<C>>, t: Record<C>, leaders: set<Stamp>,
      m: Message<C>)
    requires PeerOk(n, full, t) && server < |n.nextIndex| && server != i && n.logs[0].term == n.lastIncludedTerm
    requires n.state == Leader ==> Stamp(i, n.currentTerm) in leaders
    requires m in Outgoing(server, OnSend(n, i, server).1)
    ensures MessageOk(m, t, leaders)
  {
    hide Consistent, UpTo;
    var next, first := Max(n.nextIndex[server], 1), n.lastIncludedIndex;
    if next <= first {
      WholeTerm(n, full, first);
    } else {
      WholeTerm(n, full, next - 1);
      SliceWhole(n, full, next, next + Min(200, Last(n) + 1 - next));
    }
  }

  lemma AppendBooks<C>(y: System<C>, i: nat, args: AppendArgs<C>, b: Books<C>)
    requires BookInv(y, b) && Enabled(y, Append(i, args))
    ensures BookInv(Next(y, Append(i, args)), Kept(y, Append(i, args), b))
  {
    AppendNext(y, i, args);
    AppendLeaders(y, i, args);
    var z, c := Next(y, Append(i, args)), Kept(y, Append(i, args), b);
    assert c == b.(whole := b.whole[i := AfterAppend(y.nodes[i], b.whole[i], args)]);
    assert MessageOk(AppendRequest(i, args), b.terms, y.leaders);
    assert PeerOk(y.nodes[i], b.whole[i], b.terms) && TermOk(b, args.term);
    hide Next, Kept, Enabled, BookInv, Consistent;
    AppendPeer(y.nodes[i], b.whole[i], args, b.terms);
    hide PeerOk, AfterAppend, OnAppendEntries, Sent;
    QuietBooks(y, z, i, b, c);
  }

  lemma AppendLeaders<C>(y: System<C>, i: nat, args: AppendArgs<C>)
    requires Enabled(y, Append(i, args))
    ensures Next(y, Append(i, args)).leaders == y.leaders
  {
    hide OnAppendEntries;
  }

  lemma InstallBooks<C>(y: System<C>, i: nat, args: SnapshotArgs, b: Books<C>)
    requires BookInv(y, b) && ElectionInv(y) && Enabled(y, Install(i, args))
    ensures BookInv(Next(y, Install(i, args)), Kept(y, Install(i, args), b))
  {
    var z, c := Next(y, Install(i, args)), Kept(y, Install(i, args), b);
    assert MessageOk(SnapshotRequest(i, args), b.terms, y.leaders);
    assert PeerOk(y.nodes[i], b.whole[i], b.terms) && TermOk(b, args.term);
    RaftLogs.NotToLeader(y, i, args);
    hide BookInv, ElectionInv, Consistent, RaftLogs.LedBy;
    InstallPeer(y.nodes[i], b.whole[i], args, b.terms);
    hide PeerOk, AfterInstall, OnInstallSnapshot, Snapped, TermOk;
    QuietBooks(y, z, i, b, c);
  }

  lemma TrimBooks<C>(y: System<C>, i: nat, index: int, data: string, b: Books<C>)
    requires BookInv(y, b) && Enabled(y, Trim(i, index, data)) && index <= Last(y.nodes[i])
    ensures BookInv(Next(y, Trim(i, index, data)), Kept(y, Trim(i, index, data), b))
  {
    var z := Next(y, Trim(i, index, data));
    assert PeerOk(y.nodes[i], b.whole[i], b.terms);
    hide BookInv, Consistent;
    TrimPeer(y.nodes[i], b.whole[i], index, data, b.terms);
    hide PeerOk, OnSnapshot;
    assert b.whole[i := b.whole[i]] == b.whole;
    QuietBooks(y, z, i, b, b);
  }

  lemma RisingOf<C>(t: Record<C>, log: seq<Entry<C>>)
    requires Consistent(t, log) && forall term :: term in t ==> Rising(t[term])
    ensures Rising(log)
  {
    forall j, k | 0 <= j < k < |log| ensures log[j].term <= log[k].term {
      assert Anchored(t, log, k);
      var lead := t[log[k].term];
      assert log[..k + 1][j] == lead[..k + 1][j] && log[..k + 1][k] == lead[..k + 1][k];
    }
  }

  lemma TermGrows<C>(b: Books<C>, c: Books<C>, term: int)
    requires term in b.terms && TermOk(b, term) && Grows(b.terms, c.terms)
    requires term in c.won && c.won[term] == b.won[term] && c.terms[term] == b.terms[term]
    ensures TermOk(c, term)
  {
    ConsistentGrows(b.terms, c.terms, b.terms[term]);
    hide Consistent, Rising, UpTo, Grows;
  }

  lemma PeerGrows<C>(n: Node<C>, full: seq<Entry<C>>, t: Record<C>, u: Record<C>)
    requires PeerOk(n, full, t) && Grows(t, u)
    requires n.state == Leader ==> n.currentTerm in t && n.currentTerm in u && u[n.currentTerm] == t[n.currentTerm]
    ensures PeerOk(n, full, u)
  {
    ConsistentGrows(t, u, full);
    hide Consistent, UpTo, Whole;
  }

  /** The log with which a term is won is the first log of the term. */
  lemma NewTerm<C>(b: Books<C>, full: seq<Entry<C>>, term: int, votes: set<int>)
    requires TermsOk(b) && term !in b.terms && term >= 1 && Consistent(b.terms, full) && UpTo(full, term)
    ensures var c := Win(b, term, full, votes); TermsOk(c) && Grows(b.terms, c.terms)
  {
    var c := Win(b, term, full, votes);
    assert Grows(b.terms, c.terms);
    forall u | u in c.terms ensures TermOk(c, u) {
      if u == term {
        NoneOf(b.terms, full, term);
        assert forall u :: u in b.terms ==> TermOk(b, u);
        RisingOf(b.terms, full);
        ConsistentGrows(b.terms, c.terms, full);
      } else {
        TermGrows(b, c, u);
      }
    }
    assert c.won.Keys == c.terms.Keys;
  }

  lemma KnownMore(leaders: set<Stamp>, terms: set<int>, i: nat, term: int)
    requires Known(leaders, terms)
    ensures Known(leaders + {Stamp(i, term)}, terms + {term})
  {
    forall t | t in terms + {term} ensures exists j: nat :: Stamp(j, t) in leaders + {Stamp(i, term)} {
      if t in terms {
        var j: nat :| Stamp(j, t) in leaders;
        assert Stamp(j, t) in leaders + {Stamp(i, term)};
      } else {
        assert Stamp(i, t) in leaders + {Stamp(i, term)};
      }
    }
  }

  lemma WinBooks<C>(y: System<C>, z: System<C>, i: nat, b: Books<C>)
    requires BookInv(y, b) && ElectionInv(y) && ElectionInv(z)
    requires i < |y.nodes| == |z.nodes| && z.nodes == y.nodes[i := z.nodes[i]] && z.messages == y.messages
    requires var n, m := y.nodes[i], z.nodes[i];
      && n.state == Candidate && m.state == Leader && m.currentTerm == n.currentTerm
      && RaftLogs.PieceOf(m) == RaftLogs.PieceOf(n) && z.leaders == y.leaders + {Stamp(i, n.currentTerm)}
    ensures BookInv(z, Win(b, y.nodes[i].currentTerm, b.whole[i], z.nodes[i].votes))
  {
    hide ElectionInv, PeerOk, MessageOk, TermsOk;
    var n, term, full := y.nodes[i], y.nodes[i].currentTerm, b.whole[i];
    var c := Win(b, term, full, z.nodes[i].votes);
    RaftLogs.FirstWin(y, z, i);
    CandidateTerm(y, i);
    assert term !in b.terms;
    PeerOf(y, b, i);
    WinPeer(n, z.nodes[i], full, b, term, z.nodes[i].votes);
    forall j | 0 <= j < |z.nodes| ensures PeerOk(z.nodes[j], c.whole[j], c.terms) {
      if j != i {
        PeerOf(y, b, j);
        LeaderKnown(y.nodes[j], b.whole[j], b.terms);
        PeerGrows(y.nodes[j], b.whole[j], b.terms, c.terms);
      }
    }
    forall m | m in z.messages ensures MessageOk(m, c.terms, z.leaders) {
      MessageGrows(m, b.terms, c.terms, y.leaders, z.leaders);
    }
    hide Grows;
    KnownMore(y.leaders, b.terms.Keys, i, term);
    assert c.terms.Keys == b.terms.Keys + {term};
  }

  lemma CandidateTerm<C>(y: System<C>, i: nat)
    requires ElectionInv(y) && i < |y.nodes| && y.nodes[i].state == Candidate
    ensures y.nodes[i].currentTerm >= 1
  {
    hide NodesOk, BallotsOk, AnswersOk, LeadersOk, Supported;
  }

  lemma LeaderKnown<C>(n: Node<C>, full: seq<Entry<C>>, t: Record<C>)
    requires PeerOk(n, full, t)
    ensures n.state == Leader ==> n.currentTerm in t
  {
  }

  lemma WinPeer<C>(n: Node<C>, m: Node<C>, full: seq<Entry<C>>, b: Books<C>, term: int, votes: set<int>)
    requires PeerOk(n, full, b.terms) && TermsOk(b) && term == n.currentTerm == m.currentTerm >= 1 && term !in b.terms
    requires RaftLogs.PieceOf(m) == RaftLogs.PieceOf(n)
    ensures var c := Win(b, term, full, votes);
      TermsOk(c) && Grows(b.terms, c.terms) && PeerOk(m, full, c.terms)
  {
    hide Consistent, TermsOk, UpTo;
    NewTerm(b, full, term, votes);
    SameWhole(n, m, full);
    ConsistentGrows(b.terms, Win(b, term, full, votes).terms, full);
    hide Grows, Whole;
  }

  lemma CountBooks<C>(y: System<C>, e: Event<C>, b: Books<C>)
    requires BookInv(y, b) && ElectionInv(y) && Enabled(y, e) && e.Count? && ElectionInv(Next(y, e))
    ensures BookInv(Next(y, e), Kept(y, e, b))
  {
    CountFacts(y, e.i, e.server, e.term, e.reply);
    CountTerm(y.nodes[e.i], e.i, e.server, e.term, e.reply);
    var z, n, c, i := Next(y, e), y.nodes[e.i], Kept(y, e, b), e.i;
    assert PeerOk(n, b.whole[i], b.terms);
    hide Next, EndOf, OnVoteReply, Consistent, Enabled;
    if n.state != Leader && z.nodes[i].state == Leader {
      hide BookInv, ElectionInv, PeerOk;
      WinBooks(y, z, i, b);
    } else {
      hide ElectionInv, BookInv;
      SamePeer(n, z.nodes[i], b.whole[i], b.terms);
      hide PeerOk;
      assert b.whole[i := b.whole[i]] == b.whole;
      QuietBooks(y, z, i, b, b);
    }
  }

  lemma CountTerm<C>(n: Node<C>, me: nat, server: nat, term: int, reply: VoteReply)
    requires me < |n.nextIndex| == |n.matchIndex|
    ensures var m := OnVoteReply(n, me, server, term, reply);
      m.currentTerm >= n.currentTerm && (m.state == Leader && n.state == Leader ==> m.currentTerm == n.currentTerm)
  {
  }

  /** A leader's new entry extends the log of its term. */
  lemma LongerTerm<C>(b: Books<C>, full: seq<Entry<C>>, entry: Entry<C>)
    requires TermsOk(b) && entry.term in b.terms && b.terms[entry.term] == full
    ensures var c := b.terms[entry.term := full + [entry]];
      TermsOk(b.(terms := c)) && Grows(b.terms, c) && Consistent(c, full + [entry])
  {
    var term, more := entry.term, full + [entry];
    var c := b.(terms := b.terms[term := more]);
    assert TermOk(b, term);
    assert Grows(b.terms, c.terms);
    ConsistentGrows(b.terms, c.terms, full);
    ExtendedConsistent(c.terms, full, entry);
    forall u | u in c.terms ensures TermOk(c, u) {
      if u != term {
        assert TermOk(b, u);
        TermGrows(b, c, u);
      }
    }
    assert c.terms.Keys == b.terms.Keys;
  }

  lemma SubmitBooks<C>(y: System<C>, z: System<C>, i: nat, entry: Entry<C>, b: Books<C>)
    requires BookInv(y, b) && ElectionInv(y)
    requires i < |y.nodes| == |z.nodes| && z.nodes == y.nodes[i := z.nodes[i]]
    requires z.messages == y.messages && z.leaders == y.leaders
    requires var n, m := y.nodes[i], z.nodes[i];
      && n.state == m.state == Leader && m.currentTerm == n.currentTerm == entry.term
      && m.logs == n.logs + [entry] && m.lastIncludedIndex == n.lastIncludedIndex
    ensures var more := b.whole[i] + [entry];
      BookInv(z, b.(whole := b.whole[i := more], terms := b.terms[entry.term := more]))
  {
    var n, term, full := y.nodes[i], entry.term, b.whole[i];
    var more := full + [entry];
    var t := b.terms[term := more];
    assert PeerOk(n, full, b.terms);
    LongerTerm(b, full, entry);
    LongerWhole(n, z.nodes[i], full, entry);
    assert PeerOk(z.nodes[i], more, t);
    hide Consistent, MessageOk, Grows, Whole, UpTo;
    forall j | 0 <= j < |z.nodes| && j != i ensures PeerOk(y.nodes[j], b.whole[j], t) {
      assert PeerOk(y.nodes[j], b.whole[j], b.terms);
      if y.nodes[j].state == Leader && y.nodes[j].currentTerm == term {
        assert Stamp(i, term) in y.leaders && Stamp(j, term) in y.leaders;
        ElectionSafety(y, Stamp(i, term), Stamp(j, term));
      }
      PeerGrows(y.nodes[j], b.whole[j], b.terms, t);
    }
    hide ElectionInv, PeerOk;
    var c := b.(whole := b.whole[i := more], terms := t);
    forall m | m in z.messages ensures MessageOk(m, t, z.leaders) { MessageGrows(m, b.terms, t, y.leaders, z.leaders); }
    assert t.Keys == b.terms.Keys;
    assert TermsOk(c) by { SameTermsOk(b.(terms := t), c); }
  }

  lemma SameTermsOk<C>(b: Books<C>, c: Books<C>)
    requires TermsOk(b) && c.terms == b.terms && c.won == b.won
    ensures TermsOk(c)
  {
    forall u | u in c.terms ensures TermOk(c, u) { assert TermOk(b, u); }
  }

  lemma SubmitStep<C>(y: System<C>, i: nat, command: C, b: Books<C>)
    requires BookInv(y, b) && ElectionInv(y) && Enabled(y, Submit(i, command))
    ensures BookInv(Next(y, Submit(i, command)), Kept(y, Submit(i, command), b))
  {
    var z, n := Next(y, Submit(i, command)), y.nodes[i];
    assert PeerOk(n, b.whole[i], b.terms);
    hide ElectionInv, BookInv, PeerOk;
    if n.state == Leader {
      SubmitBooks(y, z, i, Entry(n.currentTerm, Some(command)), b);
    } else {
      assert z.nodes[i] == n && b.whole[i := b.whole[i]] == b.whole;
      QuietBooks(y, z, i, b, b);
    }
  }

  /** Every step keeps the books right, if the service takes snapshots of what is in the log only. */
  lemma BooksStep<C>(y: System<C>, e: Event<C>, b: Books<C>)
    requires BookInv(y, b) && ElectionInv(y) && Enabled(y, e) && ElectionInv(Next(y, e))
    requires e.Trim? ==> e.index <= Last(y.nodes[e.i])
    ensures BookInv(Next(y, e), Kept(y, e, b))
  {
    assert NodesOk(y);
    hide BookInv, ElectionInv, Next, Kept, NodesOk;
    match e
    case Count(_, _, _, _) => CountBooks(y, e, b);
    case Append(i, args) => AppendBooks(y, i, args, b);
    case Install(i, args) => InstallBooks(y, i, args, b);
    case Trim(i, index, data) => TrimBooks(y, i, index, data, b);
    case Offer(i, server) => OfferBooks(y, i, server, b);
    case Submit(i, command) => SubmitStep(y, i, command, b);
    case _ => ElectBooks(y, e, b);
  }
}
