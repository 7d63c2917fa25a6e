/** What answers to messages of an earlier term do. A leader takes them for answers to its own, as it compares only the
    previous index: its send can panic, and two peers can come to apply different commands at the same index. */
module RaftOldAnswers {
  import opened Options
  import opened RaftNode
  import opened RaftCluster
  import opened RaftSteps

  ghost predicate Five(y: System<int>) {
    |y.nodes| == 5 && Sized(y)
  }

  /** Peer `c` stands, and peers `p` and `q`, whose logs are not ahead, elect it. */
  lemma Elect(run: seq<System<int>>, events: seq<Event<int>>, c: nat, p: nat, q: nat, v: View, v1: View, v2: View)
      returns (r: seq<System<int>>, es: seq<Event<int>>)
    requires |run| > 0 && Path(run, events, false) && Five(Now(run))
    requires c < 5 && p < 5 && q < 5 && c != p && c != q && p != q
    requires var y := Now(run);
      && Is(y.nodes[c], v) && Is(y.nodes[p], v1) && Is(y.nodes[q], v2) && v1.term <= v.term && v2.term <= v.term
      && |v.logs| > 0 && |v1.logs| > 0 && |v2.logs| > 0
      && Behind(v1, Request(c, v)) && Behind(v2, Request(c, v))
      && Stamp(p, v.term + 1) !in y.accepted && Stamp(q, v.term + 1) !in y.accepted
    ensures |r| > 0 && Path(r, es, false) && Five(Now(r)) && Onward(run, events, r, es)
    ensures Heads(Now(r).nodes[c], v.(term := v.term + 1), All(5, End(v) + 1), All(5, 0)[c := End(v)])
    ensures Is(Now(r).nodes[p], v1.(term := v.term + 1)) && Is(Now(r).nodes[q], v2.(term := v.term + 1))
    ensures forall i :: 0 <= i < 5 && i != c && i != p && i != q ==> Now(r).nodes[i] == Now(run).nodes[i]
    ensures Now(run).messages <= Now(r).messages && Now(r).accepted == Now(run).accepted
  {
    hide Path, Goes, Is, Heads, Sized, Behind, All, Applied, Applies;
    var args, term, yes := Request(c, v), v.term + 1, VoteReply(v.term + 1, true);
    var z := Stand(Now(run), c, v);
    r, es := Do(run, events, false, Election(c), z);
    z := Grant(Now(r), p, args, v1);
    r, es := Do(r, es, false, Vote(p, args), z);
    z := Grant(Now(r), q, args, v2);
    r, es := Do(r, es, false, Vote(q, args), z);
    z := Hear(Now(r), c, p, v.(term := term));
    assert z.nodes[c].votes == {c, p} && |{c, p}| == 2;
    r, es := Do(r, es, false, Count(c, p, term, yes), z);
    z := Hear(Now(r), c, q, v.(term := term));
    assert z.nodes[c].votes == {c, p, q} && |{c, p, q}| == 3;
    r, es := Do(r, es, false, Count(c, q, term, yes), z);
  }

  const E1 := Entry(1, Some(7))
  const E2 := Entry(2, Some(8))
  const LOG1: seq<Entry<int>> := [Entry(0, None), E1, E1]
  const LOG2: seq<Entry<int>> := [Entry(0, None), E2]
  const OFFER1: AppendArgs<int> := AppendArgs(1, 0, 0, 0, 0, [E1, E1])
  const OFFER2: AppendArgs<int> := AppendArgs(2, 2, 0, 0, 0, [E2])
  const OFFER3: AppendArgs<int> := AppendArgs(3, 0, 1, 2, 0, [])
  const TAKEN := AppendReply(0, true, 0, 0)
  const REFUSED := AppendReply(1, false, 1, 1)

  /** Leader 0 of term 1 has two entries, which only 1 has taken; its answer is still on the way. */
  ghost predicate After1(y: System<int>) {
    && Five(y) && Is(y.nodes[0], Plain(1, LOG1)) && Is(y.nodes[1], Plain(1, LOG1))
    && Is(y.nodes[2], Plain(1, START)) && Is(y.nodes[3], Plain(1, START)) && Is(y.nodes[4], Plain(0, START))
    && y.accepted == {Stamp(1, 1)} && AppendAnswer(1, OFFER1, TAKEN) in y.messages
  }

  /** Leader 2 of term 2 has replaced the log of 0 by one entry. */
  ghost predicate After2(y: System<int>) {
    && Five(y) && Is(y.nodes[0], Plain(2, LOG2)) && Is(y.nodes[1], Plain(1, LOG1)) && Is(y.nodes[2], Plain(2, LOG2))
    && Is(y.nodes[3], Plain(2, START)) && Is(y.nodes[4], Plain(2, START))
    && y.accepted == {Stamp(1, 1), Stamp(0, 2)} && AppendAnswer(1, OFFER1, TAKEN) in y.messages
  }

  /** Leader 0 of term 3 has learned that 1 lacks its entry, and gone back to the index before it. */
  ghost predicate After3(y: System<int>) {
    && Five(y) && Heads(y.nodes[0], Plain(3, LOG2), [2, 1, 2, 2, 2], [1, 0, 0, 0, 0])
    && Is(y.nodes[1], Plain(3, LOG1)) && Is(y.nodes[2], Plain(2, LOG2))
    && Is(y.nodes[3], Plain(3, START)) && Is(y.nodes[4], Plain(3, START))
    && y.accepted == {Stamp(1, 1), Stamp(0, 2), Stamp(1, 3)} && AppendAnswer(1, OFFER1, TAKEN) in y.messages
  }

  /** The old answer has moved the next index beyond the end of the log. */
  ghost predicate Misled(y: System<int>) {
    && Five(y) && Heads(y.nodes[0], Plain(3, LOG2), [2, 3, 2, 2, 2], [1, 2, 0, 0, 0])
    && Is(y.nodes[1], Plain(3, LOG1)) && Is(y.nodes[2], Plain(2, LOG2))
    && Is(y.nodes[3], Plain(3, START)) && Is(y.nodes[4], Plain(3, START))
    && y.accepted == {Stamp(1, 1), Stamp(0, 2), Stamp(1, 3)}
  }

  /** Leader 0 of term 1, elected by 2 and 3. */
  lemma Begin() returns (r: seq<System<int>>, es: seq<Event<int>>)
    ensures |r| > 0 && Path(r, es, false) && Five(Now(r)) && Now(r).accepted == {}
    ensures Heads(Now(r).nodes[0], Plain(1, START), [1, 1, 1, 1, 1], [0, 0, 0, 0, 0])
    ensures Is(Now(r).nodes[1], Plain(0, START)) && Is(Now(r).nodes[2], Plain(1, START))
    ensures Is(Now(r).nodes[3], Plain(1, START)) && Is(Now(r).nodes[4], Plain(0, START))
  {
    hide Path, Goes, Sized, Is, Heads, Applied, Applies;
    r := Asleep(5, false);
    r, es := Elect(r, [], 0, 2, 3, Plain(0, START), Plain(0, START), Plain(0, START));
    assert All(5, 1) == [1, 1, 1, 1, 1] && All(5, 0)[0 := 0] == [0, 0, 0, 0, 0];
  }

  lemma Term1() returns (r: seq<System<int>>, es: seq<Event<int>>)
    ensures |r| > 0 && Path(r, es, false) && After1(Now(r))
  {
    hide Path, Goes, Sized, Is, Heads, Applied, Applies;
    r, es := Begin();
    var next := [1, 1, 1, 1, 1];
    var z := Put(Now(r), 0, 7, Plain(1, START), next, [0, 0, 0, 0, 0]);
    r, es := Do(r, es, false, Submit(0, 7), z);
    assert [0, 0, 0, 0, 0][0 := 1] == [1, 0, 0, 0, 0] && [1, 0, 0, 0, 0][0 := 2] == [2, 0, 0, 0, 0];
    z := Put(Now(r), 0, 7, Plain(1, START + [E1]), next, [1, 0, 0, 0, 0]);
    r, es := Do(r, es, false, Submit(0, 7), z);
    assert START + [E1] + [E1] == LOG1 && LOG1[1..] == [E1, E1] && START[..1] + [E1, E1] == LOG1;
    z := Ask(Now(r), 0, 1, Plain(1, LOG1), next, [2, 0, 0, 0, 0]);
    r, es := Do(r, es, false, Offer(0, 1), z);
    z := Take(Now(r), 1, OFFER1, Plain(0, START));
    r, es := Do(r, es, false, Append(1, OFFER1), z);
    HasHeaded(z.nodes[0], Plain(1, LOG1), next, [2, 0, 0, 0, 0]);
  }

  lemma Term2(run: seq<System<int>>, events: seq<Event<int>>) returns (r: seq<System<int>>, es: seq<Event<int>>)
    requires |run| > 0 && Path(run, events, false) && After1(Now(run))
    ensures |r| > 0 && Path(r, es, false) && After2(Now(r))
  {
    hide Path, Goes, Sized, Is, Heads, Applied, Applies;
    r, es := Elect(run, events, 2, 3, 4, Plain(1, START), Plain(1, START), Plain(0, START));
    var z := Put(Now(r), 2, 8, Plain(2, START), All(5, 1), All(5, 0)[2 := 0]);
    r, es := Do(r, es, false, Submit(2, 8), z);
    assert START + [E2] == LOG2 && LOG2[1..] == [E2];
    z := Ask(Now(r), 2, 0, Plain(2, LOG2), All(5, 1), All(5, 0)[2 := 0][2 := 1]);
    r, es := Do(r, es, false, Offer(2, 0), z);
    z := Take(Now(r), 0, OFFER2, Plain(1, LOG1));
    r, es := Do(r, es, false, Append(0, OFFER2), z);
    assert LOG1[..1] + [E2] == LOG2;
    HasHeaded(z.nodes[2], Plain(2, LOG2), All(5, 1), All(5, 0)[2 := 0][2 := 1]);
  }

  lemma Term3(run: seq<System<int>>, events: seq<Event<int>>) returns (r: seq<System<int>>, es: seq<Event<int>>)
    requires |run| > 0 && Path(run, events, false) && After2(Now(run))
    ensures |r| > 0 && Path(r, es, false) && After3(Now(r))
  {
    hide Path, Goes, Sized, Is, Heads, Applied, Applies;
    r, es := Elect(run, events, 0, 3, 4, Plain(2, LOG2), Plain(2, START), Plain(2, START));
    assert All(5, 2) == [2, 2, 2, 2, 2] && All(5, 0)[0 := 1] == [1, 0, 0, 0, 0] && LOG2[2..] == [];
    var z := Ask(Now(r), 0, 1, Plain(3, LOG2), [2, 2, 2, 2, 2], [1, 0, 0, 0, 0]);
    r, es := Do(r, es, false, Offer(0, 1), z);
    z := Refuse(Now(r), 1, OFFER3, Plain(1, LOG1));
    r, es := Do(r, es, false, Append(1, OFFER3), z);
    z := Back(Now(r), 0, 1, OFFER3, REFUSED, Plain(3, LOG2), [2, 2, 2, 2, 2], [1, 0, 0, 0, 0]);
    r, es := Do(r, es, false, Learn(0, 1, OFFER3, REFUSED, 0), z);
    assert [2, 2, 2, 2, 2][1 := 1] == [2, 1, 2, 2, 2];
  }

  lemma TwoHold()
    ensures Agreed([1, 2, 0, 0, 0], 0) && Agreed([0, 2, 2, 0, 0], 0)
  {
    forall i ensures Holding([1, 2, 0, 0, 0], i) > 2 <==> i <= 0 { HoldingFive(1, 2, 0, 0, 0, i); }
    forall i ensures Holding([0, 2, 2, 0, 0], i) > 2 <==> i <= 0 { HoldingFive(0, 2, 2, 0, 0, i); }
  }

  lemma Mislead(run: seq<System<int>>, events: seq<Event<int>>) returns (r: seq<System<int>>, es: seq<Event<int>>)
    requires |run| > 0 && Path(run, events, false) && After3(Now(run))
    ensures |r| > 0 && Path(r, es, false) && Misled(Now(r))
  {
    hide Path, Goes, Sized, Is, Heads, Agreed, Applied, Applies;
    assert [1, 0, 0, 0, 0][1 := 2] == [1, 2, 0, 0, 0] && [2, 1, 2, 2, 2][1 := 3] == [2, 3, 2, 2, 2];
    TwoHold();
    var z := Forth(Now(run), 0, 1, OFFER1, TAKEN, Plain(3, LOG2), [2, 1, 2, 2, 2], [1, 0, 0, 0, 0], 0);
    r, es := Do(run, events, false, Learn(0, 1, OFFER1, TAKEN, 0), z);
  }

  /** In a run without late votes, a leader can come to send to a peer and panic. */
  lemma SendCanPanic() returns (run: seq<System<int>>, events: seq<Event<int>>)
    ensures RaftCluster.IsRun(run, events) && NoLateVotes(run, events)
    ensures var y := run[|run| - 1];
      && |y.nodes| == 5 && |y.nodes[0].logs| > 0 && |y.nodes[0].nextIndex| == 5 && OnSend(y.nodes[0], 0, 1).1.Panic?
  {
    run, events := Term1();
    run, events := Term2(run, events);
    run, events := Term3(run, events);
    run, events := Mislead(run, events);
    PathIsRun(run, events, false);
  }
}
