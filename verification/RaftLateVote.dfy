/** Why election safety needs the assumption on late votes: AppendEntries clears the receiver's vote
    even in the current term, so the receiver can vote again in that term. */
module RaftLateVote {
  import opened Options
  import opened RaftNode
  import opened RaftCluster

  const START: seq<Entry<int>> := [Entry(0, None)]
  const ASK0 := VoteArgs(1, 0, 0, 0)
  const ASK2 := VoteArgs(1, 2, 0, 0)
  const YES := VoteReply(1, true)
  const HELLO: AppendArgs<int> := AppendArgs(1, 0, 0, 0, 0, [])
  const EMPTY: Node<int> := Node(0, -1, START, Follower, 0, 0, [1, 1, 1], [0, 0, 0], 0, 0, {}, None, "")

  /** A peer in term 1, saved, with the given vote and role. */
  function InTerm1(vote: int, role: Role, matchIndex: seq<int>, votes: set<int>): (r: Node<int>) {
    var image := Image(1, vote, START, 0, 0);
    Node(1, vote, START, role, 0, 0, [1, 1, 1], matchIndex, 0, 0, votes, Some(image), "")
  }

  lemma Stand(i: nat)
    requires i < 3
    ensures OnStartElection(EMPTY, i) == (InTerm1(i, Candidate, [0, 0, 0], {i}), VoteArgs(1, i, 0, 0))
  {
  }

  lemma Grant(n: Node<int>, i: nat)
    requires n == EMPTY || n == InTerm1(-1, Follower, [0, 0, 0], {})
    ensures OnRequestVote(n, VoteArgs(1, i, 0, 0)) == (InTerm1(i, Follower, [0, 0, 0], {}), YES)
  {
  }

  lemma Win(i: nat, server: nat)
    requires i < 3 && server != i
    ensures IsLeader(OnVoteReply(InTerm1(i, Candidate, [0, 0, 0], {i}), i, server, 1, YES))
  {
    assert |{i, server}| == 2;
    assert {i} + {server} == {i, server};
  }

  lemma Forget(i: nat)
    ensures OnAppendEntries(InTerm1(i, Follower, [0, 0, 0], {}), HELLO).0 == InTerm1(-1, Follower, [0, 0, 0], {})
  {
  }

  function Events(): (r: seq<Event<int>>) {
    [Election(0), Election(2), Vote(1, ASK0), Count(0, 1, 1, YES),
     Offer(0, 1), Append(1, HELLO), Vote(1, ASK2), Count(2, 1, 1, YES)]
  }

  ghost predicate Steps(run: seq<System<int>>, events: seq<Event<int>>) {
    && |run| == |events| + 1
    && forall i :: 0 <= i < |events| ==> Enabled(run[i], events[i]) && run[i + 1] == Next(run[i], events[i])
  }

  /** Leader 0, elected with the vote of 1; 2 is still waiting for votes. */
  ghost predicate Halfway(y: System<int>) {
    && |y.nodes| == 3 && IsLeader(y.nodes[0])
    && y.nodes[1] == InTerm1(0, Follower, [0, 0, 0], {}) && y.nodes[2] == InTerm1(2, Candidate, [0, 0, 0], {2})
    && VoteRequest(ASK2) in y.messages
  }

  ghost predicate IsLeader(n: Node<int>) {
    && n.state == Leader && n.currentTerm == 1 && n.logs == START && n.commitIndex == 0 && n.lastIncludedIndex == 0
    && n.nextIndex == [1, 1, 1] && |n.matchIndex| == 3
  }

  ghost predicate Three(y: System<int>) {
    |y.nodes| == 3 && Sized(y)
  }

  lemma StandIn(y: System<int>, i: nat)
    requires Three(y) && i < 3 && y.nodes[i] == EMPTY
    ensures Enabled(y, Election(i)) && Three(Next(y, Election(i)))
    ensures Next(y, Election(i)).nodes == y.nodes[i := InTerm1(i, Candidate, [0, 0, 0], {i})]
    ensures Next(y, Election(i)).messages == y.messages + {VoteRequest(VoteArgs(1, i, 0, 0))}
  {
    hide EndOf;
    Stand(i);
    hide OnStartElection;
  }

  lemma GrantIn(y: System<int>, i: nat)
    requires Three(y) && i != 1 && VoteRequest(VoteArgs(1, i, 0, 0)) in y.messages
    requires y.nodes[1] == EMPTY || y.nodes[1] == InTerm1(-1, Follower, [0, 0, 0], {})
    ensures var e := Vote(1, VoteArgs(1, i, 0, 0));
      && Enabled(y, e) && Three(Next(y, e))
      && Next(y, e).nodes == y.nodes[1 := InTerm1(i, Follower, [0, 0, 0], {})]
      && Next(y, e).messages == y.messages + {VoteAnswer(1, i, 1, YES)}
      && (Stamp(1, 1) in y.accepted ==> !NoLateVote(y, e))
  {
    hide Next, Enabled, NoLateVote, OnRequestVote;
    VoteNext(y, 1, VoteArgs(1, i, 0, 0));
    Grant(y.nodes[1], i);
  }

  lemma WinIn(y: System<int>, i: nat)
    requires Three(y) && i < 3 && i != 1 && y.nodes[i] == InTerm1(i, Candidate, [0, 0, 0], {i})
    requires VoteAnswer(1, i, 1, YES) in y.messages
    ensures var e := Count(i, 1, 1, YES);
      && Enabled(y, e) && Three(Next(y, e)) && IsLeader(Next(y, e).nodes[i])
      && Next(y, e).nodes == y.nodes[i := Next(y, e).nodes[i]] && Next(y, e).messages == y.messages
  {
    hide EndOf;
    Win(i, 1);
    hide OnVoteReply;
  }

  lemma HelloIn(y: System<int>)
    requires Three(y) && IsLeader(y.nodes[0])
    ensures Enabled(y, Offer(0, 1)) && Three(Next(y, Offer(0, 1))) && Next(y, Offer(0, 1)).nodes == y.nodes
    ensures Next(y, Offer(0, 1)).messages == y.messages + {AppendRequest(1, HELLO)}
  {
    var n := y.nodes[0];
    assert n.nextIndex[1 := 1] == n.nextIndex && n.logs[1..1] == [];
    assert OnSend(n, 0, 1) == (n, SendAppend(HELLO));
    hide OnSend;
  }

  lemma ForgetIn(y: System<int>)
    requires Three(y) && y.nodes[1] == InTerm1(0, Follower, [0, 0, 0], {}) && AppendRequest(1, HELLO) in y.messages
    ensures var e := Append(1, HELLO);
      && Enabled(y, e) && Three(Next(y, e)) && Stamp(1, 1) in Next(y, e).accepted
      && Next(y, e).nodes == y.nodes[1 := InTerm1(-1, Follower, [0, 0, 0], {})] && y.messages <= Next(y, e).messages
  {
    hide Next, Enabled, OnAppendEntries;
    AppendNext(y, 1, HELLO);
    Forget(0);
  }

  lemma Asleep() returns (y: System<int>)
    ensures Initial(y) && Three(y) && y.nodes == [EMPTY, EMPTY, EMPTY]
  {
    y := System([EMPTY, EMPTY, EMPTY], {}, {}, map[], {}, {}, map[], map[]);
    assert Boot(None, "", 3) == EMPTY;
  }

  lemma Elect0() returns (run: seq<System<int>>)
    ensures Steps(run, Events()[..4]) && Initial(run[0]) && Halfway(run[4]) && Sized(run[4])
  {
    var y0 := Asleep();
    hide Next, InTerm1, Sized, IsLeader, Initial;
    StandIn(y0, 0);
    var y1 := Next(y0, Election(0));
    StandIn(y1, 2);
    var y2 := Next(y1, Election(2));
    GrantIn(y2, 0);
    var y3 := Next(y2, Vote(1, ASK0));
    WinIn(y3, 0);
    var y4 := Next(y3, Count(0, 1, 1, YES));
    run := [y0, y1, y2, y3, y4];
  }

  lemma Elect2(y4: System<int>) returns (run: seq<System<int>>)
    requires Halfway(y4) && Sized(y4)
    ensures Steps(run, Events()[4..]) && run[0] == y4
    ensures |run[4].nodes| == 3 && IsLeader(run[4].nodes[0]) && IsLeader(run[4].nodes[2])
    ensures !NoLateVote(run[2], Vote(1, ASK2))
  {
    hide Next, InTerm1, Sized, IsLeader, NoLateVote;
    HelloIn(y4);
    var y5 := Next(y4, Offer(0, 1));
    ForgetIn(y5);
    var y6 := Next(y5, Append(1, HELLO));
    GrantIn(y6, 2);
    var y7 := Next(y6, Vote(1, ASK2));
    WinIn(y7, 2);
    var y8 := Next(y7, Count(2, 1, 1, YES));
    run := [y4, y5, y6, y7, y8];
  }

  /** Peer 1 votes for 0, hears from leader 0, and then votes for 2: two leaders in term 1. */
  lemma TwoLeaders() returns (run: seq<System<int>>)
    ensures RaftCluster.IsRun(run, Events()) && |run[8].nodes| == 3
    ensures run[8].nodes[0].state == run[8].nodes[2].state == Leader
    ensures run[8].nodes[0].currentTerm == run[8].nodes[2].currentTerm
    ensures !NoLateVote(run[6], Events()[6])
  {
    hide Next, Enabled, NoLateVote;
    var a := Elect0();
    var b := Elect2(a[4]);
    run := a + b[1..];
    forall i | 0 <= i < 8 ensures Enabled(run[i], Events()[i]) && run[i + 1] == Next(run[i], Events()[i]) {
      if i < 4 {
        assert Events()[..4][i] == Events()[i];
      } else {
        assert Events()[4..][i - 4] == Events()[i];
        assert run[i] == b[i - 4] && run[i + 1] == b[i - 3];
      }
    }
    assert run[6] == b[2] && run[8] == b[4];
  }
}
