/** How a leader brings a follower up to date: it probes backwards until the logs meet, and then sends forwards. One
    round is a message, its handling and the answer. For a leader that still has the entries, this works exactly if the
    follower's snapshot does not reach the next index; otherwise every round ends where it began. */
module RaftCatchUp {
  import opened RaftNode

  datatype Two<C> = Two(leader: Node<C>, follower: Node<C>)

  ghost predicate Fits<C>(x: Two<C>, server: nat) {
    |x.leader.logs| > 0 && |x.follower.logs| > 0 && server < |x.leader.nextIndex| == |x.leader.matchIndex|
  }

  /** One round of AppendEntries; `agreed` is what the leader then finds that a majority holds. */
  ghost function Round<C>(x: Two<C>, me: nat, server: nat, agreed: int): (r: Two<C>)
    requires Fits(x, server)
    ensures Fits(r, server)
  {
    var (m, sending) := OnSend(x.leader, me, server);
    if !sending.SendAppend? then Two(m, x.follower)
    else
      var (g, answer) := OnAppendEntries(x.follower, sending.a);
      Two(OnAppendReply(m, server, sending.a, answer, agreed), g)
  }

  /** `k` rounds, the first of which finds `agreed(i)`. */
  ghost function Rounds<C>(x: Two<C>, me: nat, server: nat, agreed: nat -> int, i: nat, k: nat): (r: Two<C>)
    requires Fits(x, server)
    ensures Fits(r, server)
    decreases k
  {
    if k == 0 then x else Rounds(Round(x, me, server, agreed(i)), me, server, agreed, i + 1, k - 1)
  }

  /** A leader that still has the follower's next entry, and a follower of no later term. */
  ghost predicate Pair<C>(n: Node<C>, f: Node<C>, server: nat) {
    && |n.logs| > 0 && |f.logs| > 0 && server < |n.nextIndex| == |n.matchIndex|
    && n.state == Leader && f.currentTerm <= n.currentTerm && 0 <= n.lastIncludedIndex && 0 <= f.lastIncludedIndex
    && n.lastIncludedIndex < n.nextIndex[server] <= Last(n) + 1
  }

  /** Both have this index, with the same term. */
  ghost predicate Meet<C>(n: Node<C>, f: Node<C>, index: int)
    requires |n.logs| > 0 && |f.logs| > 0
  {
    && n.lastIncludedIndex <= index <= Last(n) && f.lastIncludedIndex <= index <= Last(f)
    && LogTerm(n, index) == LogTerm(f, index)
  }

  /** The follower has the leader's last entry, and the leader knows it. */
  ghost predicate UpToDateWith<C>(n: Node<C>, f: Node<C>, server: nat)
    requires |n.logs| > 0 && |f.logs| > 0 && server < |n.nextIndex| == |n.matchIndex|
  {
    Meet(n, f, Last(n)) && n.nextIndex[server] == Last(n) + 1 && n.matchIndex[server] == Last(n)
  }

  /** What no round changes of the leader. */
  ghost predicate SameLeader<C>(n: Node<C>, m: Node<C>) {
    && m.state == n.state && m.currentTerm == n.currentTerm && m.logs == n.logs
    && m.lastIncludedIndex == n.lastIncludedIndex && |m.nextIndex| == |n.nextIndex| && |m.matchIndex| == |n.matchIndex|
  }

  /** What the leader sends. */
  lemma Sends<C>(n: Node<C>, f: Node<C>, me: nat, server: nat)
    requires Pair(n, f, server)
    ensures var (m, sending) := OnSend(n, me, server);
      && m == n && sending.SendAppend?
      && (var a := sending.a; var last := a.prevLogIndex + |a.entries|;
          && a.term == n.currentTerm && a.prevLogIndex == n.nextIndex[server] - 1 && last <= Last(n)
          && a.prevLogTerm == LogTerm(n, a.prevLogIndex)
          && (a.entries == [] <==> n.nextIndex[server] > Last(n))
          && (a.entries != [] ==> a.entries[|a.entries| - 1].term == LogTerm(n, last)))
  {
    var next := n.nextIndex[server];
    assert n.nextIndex[server := next] == n.nextIndex;
    var a := OnSend(n, me, server).1.a;
    if a.entries != [] {
      assert a.entries[|a.entries| - 1] == n.logs[a.prevLogIndex + |a.entries| - n.lastIncludedIndex];
    }
  }

  /** What a follower does that has the previous entry. */
  lemma Takes<C>(f: Node<C>, a: AppendArgs<C>)
    requires |f.logs| > 0 && a.term >= f.currentTerm && f.lastIncludedIndex <= a.prevLogIndex <= Last(f)
    requires a.prevLogTerm == LogTerm(f, a.prevLogIndex)
    ensures var (g, answer) := OnAppendEntries(f, a); var last := a.prevLogIndex + |a.entries|;
      && answer.success && answer.term == f.currentTerm && g.currentTerm == a.term && |g.logs| > 0
      && g.lastIncludedIndex == f.lastIncludedIndex && last <= Last(g)
      && LogTerm(g, last) == (if a.entries == [] then a.prevLogTerm else a.entries[|a.entries| - 1].term)
      && LogTerm(g, g.lastIncludedIndex) == LogTerm(f, f.lastIncludedIndex)
  {
    hide Rejection;
    var at := a.prevLogIndex - f.lastIncludedIndex + 1;
    assert Matches(SteppedDown(f, a.term), a);
    Merged(f.logs, at, a.entries);
    var r := Merge(f.logs, at, a.entries);
    assert r[0] == r[..at][0] == f.logs[..at][0];
    hide Merge;
  }

  /** What the leader makes of a success. */
  lemma Moved<C>(n: Node<C>, server: nat, a: AppendArgs<C>, answer: AppendReply, agreed: int)
    requires |n.logs| > 0 && server < |n.nextIndex| == |n.matchIndex| && n.state == Leader
    requires answer.success && answer.term <= n.currentTerm && a.prevLogIndex == n.nextIndex[server] - 1
    ensures var m := OnAppendReply(n, server, a, answer, agreed); var last := a.prevLogIndex + |a.entries|;
      SameLeader(n, m) && m.nextIndex[server] == last + 1 && m.matchIndex[server] == last
  {
    hide LogTerm;
  }

  /** Where the logs meet at the previous index, the round moves the meeting point forward. */
  lemma RoundForward<C>(n: Node<C>, f: Node<C>, me: nat, server: nat, agreed: int)
    requires Pair(n, f, server) && Meet(n, f, n.nextIndex[server] - 1)
    ensures var Two(m, g) := Round(Two(n, f), me, server, agreed);
      && SameLeader(n, m) && Pair(m, g, server) && Meet(m, g, m.nextIndex[server] - 1)
      && m.matchIndex[server] == m.nextIndex[server] - 1
      && (n.nextIndex[server] <= Last(n) ==> m.nextIndex[server] > n.nextIndex[server])
      && (n.nextIndex[server] > Last(n) ==> m.nextIndex[server] == n.nextIndex[server])
      && g.lastIncludedIndex == f.lastIncludedIndex
      && LogTerm(g, g.lastIncludedIndex) == LogTerm(f, f.lastIncludedIndex)
  {
    hide OnSend, OnAppendEntries, OnAppendReply;
    Sends(n, f, me, server);
    var a := OnSend(n, me, server).1.a;
    Takes(f, a);
    var (g, answer) := OnAppendEntries(f, a);
    Moved(n, server, a, answer, agreed);
    var m := OnAppendReply(n, server, a, answer, agreed);
    assert LogTerm(m, m.nextIndex[server] - 1) == LogTerm(n, m.nextIndex[server] - 1);
  }

  /** What is merged is there afterwards, by term. */
  lemma {:induction false} Merged<C>(log: seq<Entry<C>>, at: nat, entries: seq<Entry<C>>)
    requires 0 < at <= |log|
    ensures var r := Merge(log, at, entries);
      && |r| >= at + |entries| && r[at - 1] == log[at - 1]
      && (entries != [] ==> r[at + |entries| - 1].term == entries[|entries| - 1].term)
    decreases |entries|
  {
    assert Merge(log, at, entries)[..at][at - 1] == log[..at][at - 1];
    if entries != [] && at < |log| && log[at].term == entries[0].term {
      Merged(log, at + 1, entries[1..]);
    }
  }

  /** Where they do not, it moves the next index back, but not behind a point where they do. */
  lemma RoundBack<C>(n: Node<C>, f: Node<C>, me: nat, server: nat, agreed: int)
    requires Pair(n, f, server) && Meet(n, f, f.lastIncludedIndex) && n.nextIndex[server] > f.lastIncludedIndex
    requires !Meet(n, f, n.nextIndex[server] - 1)
    ensures var Two(m, g) := Round(Two(n, f), me, server, agreed);
      && SameLeader(n, m) && Pair(m, g, server) && Meet(m, g, g.lastIncludedIndex)
      && g.lastIncludedIndex == f.lastIncludedIndex < m.nextIndex[server] < n.nextIndex[server]
  {
    var next := n.nextIndex[server];
    var (h, sending) := OnSend(n, me, server);
    assert h.nextIndex == n.nextIndex;
    var a := sending.a;
    var d := SteppedDown(f, a.term);
    assert !Matches(d, a);
    if a.prevLogIndex <= Last(d) {
      ConflictRange(d, a.prevLogIndex - 1, LogTerm(d, a.prevLogIndex));
    }
    hide ConflictFrom;
  }

  /** The logs meet where the follower's log begins, and the next index is beyond. */
  ghost predicate Good<C>(n: Node<C>, f: Node<C>, server: nat) {
    Pair(n, f, server) && Meet(n, f, f.lastIncludedIndex) && n.nextIndex[server] > f.lastIncludedIndex
  }

  /** First the probing, and then the sending. */
  ghost function Stage<C>(n: Node<C>, f: Node<C>, server: nat): (r: nat)
    requires Pair(n, f, server)
  {
    if Meet(n, f, n.nextIndex[server] - 1) then 0 else 1
  }

  ghost function Left<C>(n: Node<C>, f: Node<C>, server: nat): (r: nat)
    requires Pair(n, f, server)
  {
    if Stage(n, f, server) == 0 then Last(n) + 1 - n.nextIndex[server] else n.nextIndex[server]
  }

  /** A round gets nearer to the end, or is the end. */
  lemma RoundHelps<C>(n: Node<C>, f: Node<C>, me: nat, server: nat, agreed: int)
    requires Good(n, f, server)
    ensures var Two(m, g) := Round(Two(n, f), me, server, agreed);
      && Good(m, g, server)
      && (|| UpToDateWith(m, g, server)
          || Stage(m, g, server) < Stage(n, f, server)
          || (Stage(m, g, server) == Stage(n, f, server) && Left(m, g, server) < Left(n, f, server)))
  {
    hide Round;
    if Meet(n, f, n.nextIndex[server] - 1) {
      RoundForward(n, f, me, server, agreed);
      var m, g := Round(Two(n, f), me, server, agreed).leader, Round(Two(n, f), me, server, agreed).follower;
      assert LogTerm(m, g.lastIncludedIndex) == LogTerm(n, f.lastIncludedIndex);
      hide LogTerm;
    } else {
      RoundBack(n, f, me, server, agreed);
      hide Meet;
    }
  }

  lemma {:induction false} Onward<C>(x: Two<C>, me: nat, server: nat, agreed: nat -> int, i: nat) returns (k: nat)
    requires Fits(x, server) && Good(x.leader, x.follower, server)
    ensures var y := Rounds(x, me, server, agreed, i, k); UpToDateWith(y.leader, y.follower, server)
    decreases Stage(x.leader, x.follower, server), Left(x.leader, x.follower, server)
  {
    RoundHelps(x.leader, x.follower, me, server, agreed(i));
    var y := Round(x, me, server, agreed(i));
    assert x == Two(x.leader, x.follower);
    hide Round, Good, Stage, Left, UpToDateWith;
    if UpToDateWith(y.leader, y.follower, server) {
      k := 1;
      assert Rounds(y, me, server, agreed, i + 1, 0) == y;
    } else {
      k := Onward(y, me, server, agreed, i + 1);
      k := k + 1;
    }
  }

  /** If the logs meet at the end of the follower's snapshot, and the next index is beyond it, the follower is up to
      date after finitely many rounds. */
  lemma CatchesUp<C>(n: Node<C>, f: Node<C>, me: nat, server: nat, agreed: nat -> int) returns (k: nat)
    requires Pair(n, f, server) && Meet(n, f, f.lastIncludedIndex) && n.nextIndex[server] > f.lastIncludedIndex
    ensures var Two(m, g) := Rounds(Two(n, f), me, server, agreed, 0, k); UpToDateWith(m, g, server)
  {
    hide Round, Rounds;
    k := Onward(Two(n, f), me, server, agreed, 0);
  }

  /** What stays as it is when the follower's snapshot is ahead of the next index. */
  ghost predicate Behind<C>(n: Node<C>, f: Node<C>, m: Node<C>, g: Node<C>, server: nat) {
    && Pair(m, g, server) && SameLeader(n, m) && m.nextIndex == n.nextIndex && m.matchIndex == n.matchIndex
    && g.logs == f.logs && g.lastIncludedIndex == f.lastIncludedIndex
    && m.nextIndex[server] <= g.lastIncludedIndex
  }

  lemma RoundStays<C>(n: Node<C>, f: Node<C>, x: Two<C>, me: nat, server: nat, agreed: int)
    requires Behind(n, f, x.leader, x.follower, server)
    ensures var y := Round(x, me, server, agreed); Behind(n, f, y.leader, y.follower, server)
  {
    hide OnSend;
    var m, g := x.leader, x.follower;
    Sends(m, g, me, server);
    var a := OnSend(m, me, server).1.a;
    assert !Matches(SteppedDown(g, a.term), a);
    hide LogTerm;
    assert m.nextIndex[server := m.nextIndex[server]] == m.nextIndex;
  }

  lemma {:induction false} RoundsStay<C>(n: Node<C>, f: Node<C>, x: Two<C>, me: nat, server: nat, agreed: nat -> int,
      i: nat, k: nat)
    requires Behind(n, f, x.leader, x.follower, server)
    ensures var y := Rounds(x, me, server, agreed, i, k); Behind(n, f, y.leader, y.follower, server)
    decreases k
  {
    if k > 0 {
      RoundStays(n, f, x, me, server, agreed(i));
      hide Round, Behind;
      RoundsStay(n, f, Round(x, me, server, agreed(i)), me, server, agreed, i + 1, k - 1);
    }
  }

  /** If the follower's snapshot reaches the next index, every round ends where it began, however many there are. */
  lemma StaysBehind<C>(n: Node<C>, f: Node<C>, me: nat, server: nat, agreed: nat -> int, k: nat)
    requires Pair(n, f, server) && n.nextIndex[server] <= f.lastIncludedIndex
    ensures var Two(m, g) := Rounds(Two(n, f), me, server, agreed, 0, k); Behind(n, f, m, g, server)
  {
    hide Round, Rounds;
    RoundsStay(n, f, Two(n, f), me, server, agreed, 0, k);
  }

  /** So catching up works exactly if the next index is beyond the follower's snapshot. */
  lemma CatchesUpIff<C>(n: Node<C>, f: Node<C>, me: nat, server: nat, agreed: nat -> int)
    requires Pair(n, f, server) && Meet(n, f, f.lastIncludedIndex)
    ensures (exists k: nat :: Reaches(n, f, me, server, agreed, k)) <==> n.nextIndex[server] > f.lastIncludedIndex
  {
    hide Round, Rounds;
    if n.nextIndex[server] > f.lastIncludedIndex {
      var k := CatchesUp(n, f, me, server, agreed);
      assert Reaches(n, f, me, server, agreed, k);
    } else {
      forall k: nat ensures !Reaches(n, f, me, server, agreed, k) { StaysBehind(n, f, me, server, agreed, k); }
    }
  }

  /** After `k` rounds the follower is up to date. */
  ghost predicate Reaches<C>(n: Node<C>, f: Node<C>, me: nat, server: nat, agreed: nat -> int, k: nat)
    requires Pair(n, f, server)
  {
    var Two(m, g) := Rounds(Two(n, f), me, server, agreed, 0, k);
    UpToDateWith(m, g, server)
  }

  // ---- followers that need the snapshot ------------------------------------------

  /** The leader has trimmed the next entry, and the follower has not committed as far as the leader's snapshot. */
  ghost predicate NeedsSnapshot<C>(n: Node<C>, f: Node<C>, server: nat) {
    && Valid(n) && |f.logs| > 0 && server < |n.nextIndex| && n.state == Leader && f.currentTerm <= n.currentTerm
    && n.nextIndex[server] <= n.lastIncludedIndex && 0 < n.lastIncludedIndex
    && n.matchIndex[server] < n.lastIncludedIndex && f.commitIndex < n.lastIncludedIndex
  }

  /** One round with the leader's snapshot; the answer carries no term. */
  ghost function SnapshotRound<C>(n: Node<C>, f: Node<C>, me: nat, server: nat): (r: Two<C>)
    requires NeedsSnapshot(n, f, server)
    ensures Fits(r, server)
  {
    var (m, sending) := OnSend(n, me, server);
    var s := sending.s;
    Two(OnSnapshotReply(m, server, s, 0), OnInstallSnapshot(f, s).0)
  }

  /** The snapshot makes the logs meet, and the next index is just behind it. */
  lemma SnapshotHelps<C>(n: Node<C>, f: Node<C>, me: nat, server: nat)
    requires NeedsSnapshot(n, f, server)
    ensures var Two(m, g) := SnapshotRound(n, f, me, server);
      && SameLeader(n, m) && Good(m, g, server) && Meet(m, g, m.nextIndex[server] - 1)
      && m.nextIndex[server] == n.lastIncludedIndex + 1 && m.matchIndex[server] == n.lastIncludedIndex
      && g.snapshot == n.snapshot
  {
    var s := OnSend(n, me, server).1.s;
    var g := OnInstallSnapshot(f, s).0;
    assert LogTerm(g, g.lastIncludedIndex) == s.lastIncludedTerm;
  }

  /** So a follower that needs the snapshot is up to date after it and finitely many rounds. */
  lemma CatchesUpWithSnapshot<C>(n: Node<C>, f: Node<C>, me: nat, server: nat, agreed: nat -> int) returns (k: nat)
    requires NeedsSnapshot(n, f, server)
    ensures var Two(m, g) := Rounds(SnapshotRound(n, f, me, server), me, server, agreed, 0, k);
      UpToDateWith(m, g, server)
  {
    SnapshotHelps(n, f, me, server);
    hide Rounds, Round, SnapshotRound, NeedsSnapshot, Good;
    k := Onward(SnapshotRound(n, f, me, server), me, server, agreed, 0);
  }

  // ---- the first message and the last --------------------------------------------

  /** A new leader begins at the end of its log, and thus with no entries. */
  lemma BeginsAtEnd<C>(n: Node<C>, me: nat, server: nat)
    requires |n.logs| > 0 && 0 <= n.lastIncludedIndex && server < |n.nextIndex|
    ensures OnSend(Elected(n, me), me, server).1 ==
      SendAppend(AppendArgs(n.currentTerm, me, Last(n), LogTerm(n, Last(n)), n.commitIndex, []))
  {
  }

  /** A peer with a later term refuses, and its answer makes the leader follow that term; a peer without one takes the
      leader's term, and its answer leaves the leader in office. */
  lemma LaterTermWins<C>(n: Node<C>, f: Node<C>, server: nat, a: AppendArgs<C>, agreed: int)
    requires |n.logs| > 0 && |f.logs| > 0 && server < |n.nextIndex| == |n.matchIndex| && n.state == Leader
    requires a.term == n.currentTerm
    ensures var (g, answer) := OnAppendEntries(f, a); var m := OnAppendReply(n, server, a, answer, agreed);
      if f.currentTerm > n.currentTerm
      then g == f && m.currentTerm == f.currentTerm && m.state == Follower && m.votedFor == -1 && m.logs == n.logs
      else g.currentTerm == n.currentTerm && g.state == Follower && m.currentTerm == n.currentTerm && m.state == Leader
  {
    hide Merge, Rejection, Matches, LogTerm;
  }

  /** The same for a candidate and those that it asks. */
  lemma LaterTermRefuses<C>(n: Node<C>, f: Node<C>, me: nat, server: nat, args: VoteArgs)
    requires |f.logs| > 0 && n.state == Candidate && args.term == n.currentTerm
    ensures var (g, reply) := OnRequestVote(f, args); var m := OnVoteReply(n, me, server, args.term, reply);
      if f.currentTerm > n.currentTerm
      then g == f && m.currentTerm == f.currentTerm && m.state == Follower && m.votes == n.votes
      else
        && g.currentTerm == n.currentTerm && m.currentTerm == n.currentTerm && m.state != Follower
        && m.votes == (if reply.granted then n.votes + {server} else n.votes)
  {
    hide UpToDate;
  }
}
