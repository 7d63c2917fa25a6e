/** Why State Machine Safety needs the assumption on old answers: misled by one, a leader commits an entry that only two
    of five peers have, and the next leader commits another one at the same index. */
module RaftDivergence {
  import opened Options
  import opened RaftNode
  import opened RaftCluster
  import opened RaftOldAnswers
  import opened RaftSteps

  const E3 := Entry(3, Some(9))
  const E4 := Entry(4, Some(10))
  const LOG3: seq<Entry<int>> := [Entry(0, None), E2, E3]
  const LOG4: seq<Entry<int>> := [Entry(0, None), E2, E4]

  lemma ThreeHold()
    ensures Agreed([2, 2, 0, 2, 0], 2) && Agreed([0, 2, 2, 0, 2], 2)
  {
    forall i ensures Holding([2, 2, 0, 2, 0], i) > 2 <==> i <= 2 { HoldingFive(2, 2, 0, 2, 0, i); }
    forall i ensures Holding([0, 2, 2, 0, 2], i) > 2 <==> i <= 2 { HoldingFive(0, 2, 2, 0, 2, i); }
  }

  const OFFER4: AppendArgs<int> := AppendArgs(3, 0, 1, 2, 0, [E3])
  const OFFER5: AppendArgs<int> := AppendArgs(3, 0, 0, 0, 0, [E2, E3])

  /** Peer 0 has applied the entry that peer 3 alone has besides it. */
  ghost predicate Applied3(y: System<int>) {
    && Five(y) && Is(y.nodes[1], Plain(3, LOG1)) && Is(y.nodes[2], Plain(2, LOG2)) && Is(y.nodes[4], Plain(3, START))
    && y.accepted == {Stamp(1, 1), Stamp(0, 2), Stamp(1, 3), Stamp(3, 3)}
  }

  /** Leader 0 has put E3 at index 2, and 3 refused it for want of index 1. */
  ghost predicate Refused3(y: System<int>) {
    && Five(y) && Heads(y.nodes[0], Plain(3, LOG3), [2, 3, 2, 1, 2], [2, 2, 0, 0, 0]) && Is(y.nodes[3], Plain(3, START))
    && Is(y.nodes[1], Plain(3, LOG1)) && Is(y.nodes[2], Plain(2, LOG2)) && Is(y.nodes[4], Plain(3, START))
    && y.accepted == {Stamp(1, 1), Stamp(0, 2), Stamp(1, 3), Stamp(3, 3)}
  }

  lemma Refuse3(run: seq<System<int>>, events: seq<Event<int>>) returns (r: seq<System<int>>, es: seq<Event<int>>)
    requires |run| > 0 && Path(run, events, false) && Misled(Now(run))
    ensures |r| > 0 && Path(r, es, false) && Refused3(Now(r))
  {
    hide Path, Goes, Sized, Is, Heads, Agreed, Applied, Applies;
    var next, known := [2, 3, 2, 2, 2], [2, 2, 0, 0, 0];
    assert [1, 2, 0, 0, 0][0 := 2] == known && LOG2 + [E3] == LOG3 && LOG3[2..] == [E3];
    var z := Put(Now(run), 0, 9, Plain(3, LOG2), next, [1, 2, 0, 0, 0]);
    r, es := Do(run, events, false, Submit(0, 9), z);
    z := Ask(Now(r), 0, 3, Plain(3, LOG3), next, known);
    r, es := Do(r, es, false, Offer(0, 3), z);
    z := RefuseShort(Now(r), 3, OFFER4, Plain(3, START));
    r, es := Do(r, es, false, Append(3, OFFER4), z);
    z := Back(Now(r), 0, 3, OFFER4, AppendReply(3, false, 1, 0), Plain(3, LOG3), next, known);
    r, es := Do(r, es, false, Learn(0, 3, OFFER4, AppendReply(3, false, 1, 0), 0), z);
    assert next[3 := 1] == [2, 3, 2, 1, 2];
  }

  lemma Commit3(run: seq<System<int>>, events: seq<Event<int>>)
      returns (r: seq<System<int>>, es: seq<Event<int>>, s: int)
    requires |run| > 0 && Path(run, events, false) && Refused3(Now(run))
    ensures |r| > 0 && Path(r, es, false) && Applied3(Now(r)) && Applied(r, es, s, E3)
  {
    hide Path, Goes, Sized, Is, Heads, Agreed, Applied, Applies;
    var next, known := [2, 3, 2, 1, 2], [2, 2, 0, 0, 0];
    assert LOG3[1..] == [E2, E3];
    var z := Ask(Now(run), 0, 3, Plain(3, LOG3), next, known);
    r, es := Do(run, events, false, Offer(0, 3), z);
    z := Take(Now(r), 3, OFFER5, Plain(3, START));
    r, es := Do(r, es, false, Append(3, OFFER5), z);
    ThreeHold();
    assert known[3 := 2] == [2, 2, 0, 2, 0];
    z := Forth(Now(r), 0, 3, OFFER5, AppendReply(3, true, 0, 0), Plain(3, LOG3), next, known, 2);
    r, es := Do(r, es, false, Learn(0, 3, OFFER5, AppendReply(3, true, 0, 0), 2), z);
    HasHeaded(z.nodes[0], View(3, LOG3, 0, 2, 0), next[3 := 3], known[3 := 2]);
    r, es, s := HandBoth(r, es, false, 0, View(3, LOG3, 0, 2, 0));
  }

  const OFFER6: AppendArgs<int> := AppendArgs(4, 2, 1, 2, 0, [E4])
  const OFFER7: AppendArgs<int> := AppendArgs(4, 2, 0, 0, 0, [E2, E4])

  /** Leader 2 of term 4, elected by 1 and 4, has entry E4 at index 2, and 1 has taken it. */
  ghost predicate Halfway(y: System<int>) {
    && Five(y) && Heads(y.nodes[2], Plain(4, LOG4), [2, 3, 2, 2, 2], [0, 2, 2, 0, 0]) && Is(y.nodes[4], Plain(4, START))
  }

  /** Leader 2 of term 4 has put E4 at index 2. */
  ghost predicate Led4(y: System<int>) {
    && Five(y) && Heads(y.nodes[2], Plain(4, LOG4), [2, 2, 2, 2, 2], [0, 0, 2, 0, 0])
    && Is(y.nodes[1], Plain(4, LOG1)) && Is(y.nodes[4], Plain(4, START))
  }

  lemma Lead4(run: seq<System<int>>, events: seq<Event<int>>) returns (r: seq<System<int>>, es: seq<Event<int>>)
    requires |run| > 0 && Path(run, events, false) && Applied3(Now(run))
    ensures |r| > 0 && Path(r, es, false) && Led4(Now(r)) && Onward(run, events, r, es)
  {
    hide Path, Goes, Sized, Is, Heads, Applied, Applies;
    var z := Stand(Now(run), 2, Plain(2, LOG2));
    r, es := Do(run, events, false, Election(2), z);
    r, es := Elect(r, es, 2, 1, 4, Plain(3, LOG2), Plain(3, LOG1), Plain(3, START));
    var next := [2, 2, 2, 2, 2];
    assert All(5, 2) == next && All(5, 0)[2 := 1] == [0, 0, 1, 0, 0] && LOG2 + [E4] == LOG4;
    z := Put(Now(r), 2, 10, Plain(4, LOG2), next, [0, 0, 1, 0, 0]);
    r, es := Do(r, es, false, Submit(2, 10), z);
    assert [0, 0, 1, 0, 0][2 := 2] == [0, 0, 2, 0, 0];
  }

  lemma Give1(run: seq<System<int>>, events: seq<Event<int>>, next: seq<int>, known: seq<int>)
      returns (r: seq<System<int>>, es: seq<Event<int>>)
    requires |run| > 0 && Path(run, events, false) && Five(Now(run))
    requires |next| == 5 && next[1] == 1 && known == [0, 0, 2, 0, 0]
    requires Heads(Now(run).nodes[2], Plain(4, LOG4), next, known)
    requires Is(Now(run).nodes[1], Plain(4, LOG1)) && Is(Now(run).nodes[4], Plain(4, START))
    ensures |r| > 0 && Path(r, es, false) && Five(Now(r)) && Is(Now(r).nodes[4], Plain(4, START))
    ensures Heads(Now(r).nodes[2], Plain(4, LOG4), next[1 := 3], known[1 := 2])
    ensures Onward(run, events, r, es)
  {
    hide Path, Goes, Sized, Is, Heads, Agreed, Applied, Applies;
    assert LOG4[1..] == [E2, E4];
    var z := Ask(Now(run), 2, 1, Plain(4, LOG4), next, known);
    r, es := Do(run, events, false, Offer(2, 1), z);
    z := Take(Now(r), 1, OFFER7, Plain(4, LOG1));
    r, es := Do(r, es, false, Append(1, OFFER7), z);
    TwoHold();
    assert known[1 := 2] == [0, 2, 2, 0, 0];
    z := Forth(Now(r), 2, 1, OFFER7, AppendReply(4, true, 0, 0), Plain(4, LOG4), next, known, 0);
    r, es := Do(r, es, false, Learn(2, 1, OFFER7, AppendReply(4, true, 0, 0), 0), z);
  }

  lemma Replace(run: seq<System<int>>, events: seq<Event<int>>) returns (r: seq<System<int>>, es: seq<Event<int>>)
    requires |run| > 0 && Path(run, events, false) && Led4(Now(run))
    ensures |r| > 0 && Path(r, es, false) && Halfway(Now(r)) && Onward(run, events, r, es)
  {
    hide Path, Goes, Sized, Is, Heads, Agreed, Applied, Applies;
    var next, known := [2, 2, 2, 2, 2], [0, 0, 2, 0, 0];
    assert LOG4[2..] == [E4];
    var z := Ask(Now(run), 2, 1, Plain(4, LOG4), next, known);
    r, es := Do(run, events, false, Offer(2, 1), z);
    z := Refuse(Now(r), 1, OFFER6, Plain(4, LOG1));
    r, es := Do(r, es, false, Append(1, OFFER6), z);
    z := Back(Now(r), 2, 1, OFFER6, AppendReply(4, false, 1, 1), Plain(4, LOG4), next, known);
    r, es := Do(r, es, false, Learn(2, 1, OFFER6, AppendReply(4, false, 1, 1), 0), z);
    r, es := Give1(r, es, next[1 := 1], known);
    assert next[1 := 1][1 := 3] == [2, 3, 2, 2, 2] && known[1 := 2] == [0, 2, 2, 0, 0];
  }

  /** Peer 4 has refused E4 for want of index 1. */
  ghost predicate Refused4(y: System<int>) {
    && Five(y) && Heads(y.nodes[2], Plain(4, LOG4), [2, 3, 2, 2, 1], [0, 2, 2, 0, 0]) && Is(y.nodes[4], Plain(4, START))
  }

  lemma Refuse4(run: seq<System<int>>, events: seq<Event<int>>) returns (r: seq<System<int>>, es: seq<Event<int>>)
    requires |run| > 0 && Path(run, events, false) && Halfway(Now(run))
    ensures |r| > 0 && Path(r, es, false) && Refused4(Now(r)) && Onward(run, events, r, es)
  {
    hide Path, Goes, Sized, Is, Heads, Agreed, Applied, Applies;
    var next, known := [2, 3, 2, 2, 2], [0, 2, 2, 0, 0];
    assert LOG4[2..] == [E4];
    var z := Ask(Now(run), 2, 4, Plain(4, LOG4), next, known);
    r, es := Do(run, events, false, Offer(2, 4), z);
    z := RefuseShort(Now(r), 4, OFFER6, Plain(4, START));
    r, es := Do(r, es, false, Append(4, OFFER6), z);
    z := Back(Now(r), 2, 4, OFFER6, AppendReply(4, false, 1, 0), Plain(4, LOG4), next, known);
    r, es := Do(r, es, false, Learn(2, 4, OFFER6, AppendReply(4, false, 1, 0), 0), z);
    assert next[4 := 1] == [2, 3, 2, 2, 1];
  }

  lemma Commit4(run: seq<System<int>>, events: seq<Event<int>>)
      returns (r: seq<System<int>>, es: seq<Event<int>>, t: int)
    requires |run| > 0 && Path(run, events, false) && Refused4(Now(run))
    ensures |r| > 0 && Path(r, es, false) && Applied(r, es, t, E4) && Onward(run, events, r, es)
  {
    hide Path, Goes, Sized, Is, Heads, Agreed, Applied, Applies;
    var next, known := [2, 3, 2, 2, 1], [0, 2, 2, 0, 0];
    assert LOG4[1..] == [E2, E4];
    var z := Ask(Now(run), 2, 4, Plain(4, LOG4), next, known);
    r, es := Do(run, events, false, Offer(2, 4), z);
    z := Take(Now(r), 4, OFFER7, Plain(4, START));
    r, es := Do(r, es, false, Append(4, OFFER7), z);
    ThreeHold();
    assert known[4 := 2] == [0, 2, 2, 0, 2];
    z := Forth(Now(r), 2, 4, OFFER7, AppendReply(4, true, 0, 0), Plain(4, LOG4), next, known, 2);
    r, es := Do(r, es, false, Learn(2, 4, OFFER7, AppendReply(4, true, 0, 0), 2), z);
    HasHeaded(z.nodes[2], View(4, LOG4, 0, 2, 0), next[4 := 3], known[4 := 2]);
    r, es, t := HandBoth(r, es, false, 2, View(4, LOG4, 0, 2, 0));
  }

  /** In a run without late votes, two peers can apply different commands at the same index. */
  lemma TwoCommands() returns (run: seq<System<int>>, events: seq<Event<int>>, s: int, t: int)
    ensures RaftCluster.IsRun(run, events) && NoLateVotes(run, events) && 0 <= s < |events| && 0 <= t < |events|
    ensures Applies(run[s], events[s], 2, E3) && Applies(run[t], events[t], 2, E4) && E3.command != E4.command
  {
    hide Path, Applies;
    run, events := Term1();
    run, events := Term2(run, events);
    run, events := Term3(run, events);
    run, events := Mislead(run, events);
    run, events := Refuse3(run, events);
    run, events, s := Commit3(run, events);
    run, events := Lead4(run, events);
    run, events := Replace(run, events);
    run, events := Refuse4(run, events);
    run, events, t := Commit4(run, events);
    PathIsRun(run, events, false);
  }
}
