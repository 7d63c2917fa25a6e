/** Why State Machine Safety needs the assumption on old snapshots. Repeated AppendEntries take a follower's
    commit index back, and then the leader's snapshot, although not beyond the follower's own, drops entries that the
    follower has acknowledged. */
module RaftOldSnapshot {
  import opened Options
  import opened RaftNode
  import opened RaftCluster
  import opened RaftSteps

  ghost predicate Three(y: System<int>) {
    |y.nodes| == 3 && Sized(y)
  }

  // ---- snapshots -----------------------------------------------------------------

  function Cut(v: View, index: int): (r: View)
    requires v.first < index <= End(v)
  {
    var at := index - v.first;
    View(v.term, [Entry(v.logs[at].term, None)] + v.logs[at + 1..], index, Max(v.commit, index), v.applied)
  }

  lemma TrimNode(n: Node<int>, index: int, v: View)
    requires Is(n, v) && v.first < index <= v.applied <= End(v)
    ensures var m := OnSnapshot(n, index, "");
      && Is(m, Cut(v, index)) && m.lastIncludedTerm == v.logs[index - v.first].term && m.snapshot == ""
      && m.state == n.state && m.nextIndex == n.nextIndex && m.matchIndex == n.matchIndex
  {
  }

  /** The service's snapshot of applied entries. */
  lemma Trims(y: System<int>, i: nat, index: int, v: View) returns (z: System<int>)
    requires Among(y, i) && Is(y.nodes[i], v) && v.first < index <= v.applied <= End(v)
    ensures Goes(y, Trim(i, index, ""), z) && Only(y, z, i) && Is(z.nodes[i], Cut(v, index))
    ensures z.nodes[i].lastIncludedTerm == v.logs[index - v.first].term && z.nodes[i].snapshot == ""
    ensures var n, m := y.nodes[i], z.nodes[i];
      m.state == n.state && m.nextIndex == n.nextIndex && m.matchIndex == n.matchIndex
  {
    hide OnSnapshot, Cut;
    TrimNode(y.nodes[i], index, v);
    z := Next(y, Trim(i, index, ""));
  }

  lemma TrimsHead(y: System<int>, i: nat, index: int, v: View, next: seq<int>, known: seq<int>) returns (z: System<int>)
    requires Among(y, i) && Heads(y.nodes[i], v, next, known) && v.first < index <= v.applied <= End(v)
    ensures Goes(y, Trim(i, index, ""), z) && Only(y, z, i) && Heads(z.nodes[i], Cut(v, index), next, known)
    ensures z.nodes[i].lastIncludedTerm == v.logs[index - v.first].term && z.nodes[i].snapshot == ""
  {
    z := Trims(y, i, index, v);
  }

  /** A leader's snapshot that is beyond the commit index, but not beyond the peer's own: the whole log is dropped. */
  lemma Drops(y: System<int>, i: nat, args: SnapshotArgs, v: View) returns (z: System<int>)
    requires Among(y, i) && Is(y.nodes[i], v) && SnapshotRequest(i, args) in y.messages && args.term == v.term
    requires v.commit < args.lastIncludedIndex <= v.first
    ensures Goes(y, Install(i, args), z) && Only(y, z, i)
    ensures var index := args.lastIncludedIndex;
      Is(z.nodes[i], View(v.term, [Entry(args.lastIncludedTerm, None)], index, index, index))
  {
    z := Next(y, Install(i, args));
  }

  // ---- the run -------------------------------------------------------------------

  /** Peer `c` stands, and peer `p`, whose log is not ahead, elects it. */
  lemma Elect(run: seq<System<int>>, events: seq<Event<int>>, c: nat, p: nat, v: View, w: View)
      returns (r: seq<System<int>>, es: seq<Event<int>>)
    requires |run| > 0 && Path(run, events, true) && Three(Now(run)) && c < 3 && p < 3 && c != p
    requires var y := Now(run);
      && Is(y.nodes[c], v) && Is(y.nodes[p], w) && w.term <= v.term && |v.logs| > 0 && |w.logs| > 0
      && Behind(w, Request(c, v)) && Stamp(p, v.term + 1) !in y.accepted
    ensures |r| > 0 && Path(r, es, true) && Three(Now(r)) && Onward(run, events, r, es)
    ensures Heads(Now(r).nodes[c], v.(term := v.term + 1), All(3, End(v) + 1), All(3, 0)[c := End(v)])
    ensures Is(Now(r).nodes[p], w.(term := v.term + 1))
    ensures forall i :: 0 <= i < 3 && i != c && i != p ==> Now(r).nodes[i] == Now(run).nodes[i]
    ensures Now(run).messages <= Now(r).messages && Now(r).accepted == Now(run).accepted
  {
    hide Path, Goes, Is, Heads, Sized, Behind, All, Applied, Applies;
    var args, term, yes := Request(c, v), v.term + 1, VoteReply(v.term + 1, true);
    var z := Stand(Now(run), c, v);
    r, es := Do(run, events, true, Election(c), z);
    z := Grant(Now(r), p, args, w);
    r, es := Do(r, es, true, Vote(p, args), z);
    z := Hear(Now(r), c, p, v.(term := term));
    assert z.nodes[c].votes == {c, p} && |{c, p}| == 2;
    r, es := Do(r, es, true, Count(c, p, term, yes), z);
  }

  const EA := Entry(1, Some(7))
  const EB := Entry(2, Some(8))
  const EC := Entry(3, Some(9))
  const LOGA: seq<Entry<int>> := [Entry(0, None), EA]
  const LOGB: seq<Entry<int>> := [Entry(0, None), EA, EB]
  const LOGC: seq<Entry<int>> := [Entry(0, None), EA, EC]
  const TAILB: seq<Entry<int>> := [Entry(1, None), EB]
  const OFFER1: AppendArgs<int> := AppendArgs(1, 2, 0, 0, 0, [EA])
  const BEAT1: AppendArgs<int> := AppendArgs(1, 2, 1, 1, 1, [])
  const BEAT2: AppendArgs<int> := AppendArgs(2, 0, 1, 1, 0, [])
  const OFFER2: AppendArgs<int> := AppendArgs(2, 0, 0, 0, 0, [EA, EB])
  const SNAPSHOT := SnapshotArgs(2, 0, 1, 1, "")
  const BEAT3: AppendArgs<int> := AppendArgs(2, 0, 2, 2, 2, [])
  const OFFER3: AppendArgs<int> := AppendArgs(3, 2, 1, 1, 1, [EC])
  const TAKEN1 := AppendReply(1, true, 0, 0)
  const TAKEN2 := AppendReply(2, true, 0, 0)
  const TAKEN3 := AppendReply(3, true, 0, 0)
  const REFUSED := AppendReply(0, false, 1, 0)

  lemma TwoHold()
    ensures Agreed([1, 0, 1], 1) && Agreed([2, 2, 0], 2) && Agreed([0, 2, 2], 2)
  {
    forall i ensures Holding([1, 0, 1], i) > 1 <==> i <= 1 { HoldingThree(1, 0, 1, i); }
    forall i ensures Holding([2, 2, 0], i) > 1 <==> i <= 2 { HoldingThree(2, 2, 0, i); }
    forall i ensures Holding([0, 2, 2], i) > 1 <==> i <= 2 { HoldingThree(0, 2, 2, i); }
  }

  /** Leader 2 of term 1 has committed EA, which 0 has taken. */
  ghost predicate Led1(y: System<int>) {
    && Three(y) && Is(y.nodes[0], Plain(1, LOGA)) && Is(y.nodes[1], Plain(0, START))
    && Heads(y.nodes[2], View(1, LOGA, 0, 1, 0), [2, 1, 1], [1, 0, 1])
    && y.accepted == {Stamp(0, 1)} && AppendRequest(0, OFFER1) in y.messages
  }

  lemma Begin() returns (r: seq<System<int>>, es: seq<Event<int>>)
    ensures |r| > 0 && Path(r, es, true) && Three(Now(r)) && Now(r).accepted == {}
    ensures Is(Now(r).nodes[0], Plain(1, START)) && Is(Now(r).nodes[1], Plain(0, START))
    ensures Heads(Now(r).nodes[2], Plain(1, START), [1, 1, 1], [0, 0, 0])
  {
    hide Path, Goes, Sized, Is, Heads, Applied, Applies;
    r := Asleep(3, true);
    r, es := Elect(r, [], 2, 0, Plain(0, START), Plain(0, START));
    assert All(3, 1) == [1, 1, 1] && All(3, 0)[2 := 0] == [0, 0, 0];
  }

  /** Leader 2 has put EA at index 1, and 0 has taken it. */
  ghost predicate Gave1(y: System<int>) {
    && Three(y) && Is(y.nodes[0], Plain(1, LOGA)) && Is(y.nodes[1], Plain(0, START))
    && Heads(y.nodes[2], Plain(1, LOGA), [1, 1, 1], [0, 0, 1])
    && y.accepted == {Stamp(0, 1)}
    && AppendRequest(0, OFFER1) in y.messages && AppendAnswer(0, OFFER1, TAKEN1) in y.messages
  }

  lemma Give1() returns (r: seq<System<int>>, es: seq<Event<int>>)
    ensures |r| > 0 && Path(r, es, true) && Gave1(Now(r))
  {
    hide Path, Goes, Sized, Is, Heads, Applied, Applies;
    r, es := Begin();
    var next := [1, 1, 1];
    var z := Put(Now(r), 2, 7, Plain(1, START), next, [0, 0, 0]);
    r, es := Do(r, es, true, Submit(2, 7), z);
    assert START + [EA] == LOGA && LOGA[1..] == [EA] && START[..1] + [EA] == LOGA && [0, 0, 0][2 := 1] == [0, 0, 1];
    z := Ask(Now(r), 2, 0, Plain(1, LOGA), next, [0, 0, 1]);
    r, es := Do(r, es, true, Offer(2, 0), z);
    z := Take(Now(r), 0, OFFER1, Plain(1, START));
    r, es := Do(r, es, true, Append(0, OFFER1), z);
  }

  lemma Lead1() returns (r: seq<System<int>>, es: seq<Event<int>>)
    ensures |r| > 0 && Path(r, es, true) && Led1(Now(r))
  {
    hide Path, Goes, Sized, Is, Heads, Agreed, Applied, Applies;
    r, es := Give1();
    TwoHold();
    assert [0, 0, 1][0 := 1] == [1, 0, 1] && [1, 1, 1][0 := 2] == [2, 1, 1];
    var z := Forth(Now(r), 2, 0, OFFER1, TAKEN1, Plain(1, LOGA), [1, 1, 1], [0, 0, 1], 1);
    r, es := Do(r, es, true, Learn(2, 0, OFFER1, TAKEN1, 1), z);
  }

  /** Peer 0 has applied EA, but its commit index is back at 0. */
  ghost predicate Fallen1(y: System<int>) {
    && Three(y) && Is(y.nodes[0], View(1, LOGA, 0, 0, 1)) && Is(y.nodes[1], Plain(0, START))
    && Is(y.nodes[2], View(1, LOGA, 0, 1, 0)) && y.accepted == {Stamp(0, 1)}
  }

  lemma Fall1(run: seq<System<int>>, events: seq<Event<int>>) returns (r: seq<System<int>>, es: seq<Event<int>>)
    requires |run| > 0 && Path(run, events, true) && Led1(Now(run))
    ensures |r| > 0 && Path(r, es, true) && Fallen1(Now(r))
  {
    hide Path, Goes, Sized, Is, Heads, Applied, Applies;
    var v := View(1, LOGA, 0, 1, 0);
    assert LOGA[2..] == [];
    var z := Ask(Now(run), 2, 0, v, [2, 1, 1], [1, 0, 1]);
    r, es := Do(run, events, true, Offer(2, 0), z);
    HasHeaded(z.nodes[2], v, [2, 1, 1], [1, 0, 1]);
    z := Take(Now(r), 0, BEAT1, Plain(1, LOGA));
    r, es := Do(r, es, true, Append(0, BEAT1), z);
    z := Hand(Now(r), 0, v);
    r, es := Do(r, es, true, Event.Apply(0), z);
    assert Merge(LOGA, 1, [EA]) == LOGA;
    z := Take(Now(r), 0, OFFER1, v.(applied := 1));
    r, es := Do(r, es, true, Append(0, OFFER1), z);
  }

  /** Leader 0 of term 2 has learned that 1 has nothing; its message is still on the way, too. */
  ghost predicate Led2(y: System<int>) {
    && Three(y) && Heads(y.nodes[0], View(2, LOGA, 0, 0, 1), [2, 1, 2], [1, 0, 0]) && Is(y.nodes[1], Plain(2, START))
    && Is(y.nodes[2], View(2, LOGA, 0, 1, 0)) && y.accepted == {Stamp(0, 1), Stamp(1, 2)}
    && AppendRequest(1, BEAT2) in y.messages
  }

  /** Leader 0 of term 2, elected by 2. */
  lemma Elect2(run: seq<System<int>>, events: seq<Event<int>>) returns (r: seq<System<int>>, es: seq<Event<int>>)
    requires |run| > 0 && Path(run, events, true) && Fallen1(Now(run))
    ensures |r| > 0 && Path(r, es, true) && Three(Now(r)) && Now(r).accepted == {Stamp(0, 1)}
    ensures Heads(Now(r).nodes[0], View(2, LOGA, 0, 0, 1), [2, 2, 2], [1, 0, 0])
    ensures Is(Now(r).nodes[1], Plain(0, START)) && Is(Now(r).nodes[2], View(2, LOGA, 0, 1, 0))
  {
    hide Path, Goes, Sized, Is, Heads, Applied, Applies;
    r, es := Elect(run, events, 0, 2, View(1, LOGA, 0, 0, 1), View(1, LOGA, 0, 1, 0));
    assert All(3, 2) == [2, 2, 2] && All(3, 0)[0 := 1] == [1, 0, 0];
  }

  lemma Lead2(run: seq<System<int>>, events: seq<Event<int>>) returns (r: seq<System<int>>, es: seq<Event<int>>)
    requires |run| > 0 && Path(run, events, true) && Fallen1(Now(run))
    ensures |r| > 0 && Path(r, es, true) && Led2(Now(r))
  {
    hide Path, Goes, Sized, Is, Heads, Applied, Applies;
    var v := View(2, LOGA, 0, 0, 1);
    r, es := Elect2(run, events);
    assert LOGA[2..] == [];
    var z := Ask(Now(r), 0, 1, v, [2, 2, 2], [1, 0, 0]);
    r, es := Do(r, es, true, Offer(0, 1), z);
    z := RefuseShort(Now(r), 1, BEAT2, Plain(0, START));
    r, es := Do(r, es, true, Append(1, BEAT2), z);
    assert [2, 2, 2][1 := 1] == [2, 1, 2];
    z := Back(Now(r), 0, 1, BEAT2, REFUSED, v, [2, 2, 2], [1, 0, 0]);
    r, es := Do(r, es, true, Learn(0, 1, BEAT2, REFUSED, 0), z);
  }

  /** It has sent 1 both its entries and its snapshot. */
  ghost predicate Sent2(y: System<int>) {
    && Three(y) && Heads(y.nodes[0], View(2, TAILB, 1, 1, 1), [2, 1, 2], [2, 0, 0]) && Is(y.nodes[1], Plain(2, START))
    && Is(y.nodes[2], View(2, LOGA, 0, 1, 0)) && y.accepted == {Stamp(0, 1), Stamp(1, 2)}
    && AppendRequest(1, BEAT2) in y.messages && AppendRequest(1, OFFER2) in y.messages
    && SnapshotRequest(1, SNAPSHOT) in y.messages
  }

  lemma Send2(run: seq<System<int>>, events: seq<Event<int>>) returns (r: seq<System<int>>, es: seq<Event<int>>)
    requires |run| > 0 && Path(run, events, true) && Led2(Now(run))
    ensures |r| > 0 && Path(r, es, true) && Sent2(Now(r))
  {
    hide Path, Goes, Sized, Is, Heads, Applied, Applies;
    var next, known, v := [2, 1, 2], [2, 0, 0], View(2, LOGB, 0, 0, 1);
    assert [1, 0, 0][0 := 2] == known && LOGA + [EB] == LOGB && LOGB[1..] == [EA, EB] && LOGB[2..] == [EB];
    var z := Put(Now(run), 0, 8, v.(logs := LOGA), next, [1, 0, 0]);
    r, es := Do(run, events, true, Submit(0, 8), z);
    z := Ask(Now(r), 0, 1, v, next, known);
    r, es := Do(r, es, true, Offer(0, 1), z);
    z := TrimsHead(Now(r), 0, 1, v, next, known);
    r, es := Do(r, es, true, Trim(0, 1, ""), z);
    assert [Entry(1, None)] + [EB] == TAILB;
    z := AskSnapshot(Now(r), 0, 1, View(2, TAILB, 1, 1, 1), next, known);
    r, es := Do(r, es, true, Offer(0, 1), z);
  }

  /** EB is committed by 0 and 1, and 0 has applied it. */
  ghost predicate Committed2(y: System<int>) {
    && Three(y) && Heads(y.nodes[0], View(2, TAILB, 1, 2, 2), [2, 3, 2], [2, 2, 0]) && Is(y.nodes[1], Plain(2, LOGB))
    && Is(y.nodes[2], View(2, LOGA, 0, 1, 0)) && y.accepted == {Stamp(0, 1), Stamp(1, 2)}
    && AppendRequest(1, BEAT2) in y.messages && SnapshotRequest(1, SNAPSHOT) in y.messages
  }

  lemma HandHead(y: System<int>, i: nat, v: View, next: seq<int>, known: seq<int>) returns (z: System<int>)
    requires Among(y, i) && Heads(y.nodes[i], v, next, known) && v.first <= v.applied < v.commit <= End(v)
    ensures Goes(y, Event.Apply(i), z) && Only(y, z, i) && Heads(z.nodes[i], v.(applied := v.applied + 1), next, known)
    ensures Applies(y, Event.Apply(i), v.applied + 1, v.logs[v.applied + 1 - v.first])
  {
    hide Goes, Applies;
    z := Hand(y, i, v);
  }

  lemma Commit2(run: seq<System<int>>, events: seq<Event<int>>)
      returns (r: seq<System<int>>, es: seq<Event<int>>, s: int)
    requires |run| > 0 && Path(run, events, true) && Sent2(Now(run))
    ensures |r| > 0 && Path(r, es, true) && Committed2(Now(r)) && Applied(r, es, s, EB)
  {
    hide Path, Goes, Sized, Is, Heads, Agreed, Applied, Applies;
    var next, known, v := [2, 1, 2], [2, 0, 0], View(2, TAILB, 1, 1, 1);
    assert START[..1] + [EA, EB] == LOGB;
    var z := Take(Now(run), 1, OFFER2, Plain(2, START));
    r, es := Do(run, events, true, Append(1, OFFER2), z);
    TwoHold();
    assert known[1 := 2] == [2, 2, 0] && next[1 := 3] == [2, 3, 2];
    z := Forth(Now(r), 0, 1, OFFER2, TAKEN2, v, next, known, 2);
    r, es := Do(r, es, true, Learn(0, 1, OFFER2, TAKEN2, 2), z);
    z := HandHead(Now(r), 0, v.(commit := 2), [2, 3, 2], [2, 2, 0]);
    s := |es|;
    r, es := Do(r, es, true, Event.Apply(0), z);
  }

  /** What peer 1 is like after term 2, and that it can still hear the leader's first message and snapshot again. */
  ghost predicate After2(y: System<int>, v: View) {
    && Three(y) && Is(y.nodes[1], v) && Is(y.nodes[2], View(2, LOGA, 0, 1, 0))
    && y.accepted == {Stamp(0, 1), Stamp(1, 2)}
    && AppendRequest(1, BEAT2) in y.messages && SnapshotRequest(1, SNAPSHOT) in y.messages
  }

  /** It hears that both entries are committed. */
  lemma Hear2(run: seq<System<int>>, events: seq<Event<int>>) returns (r: seq<System<int>>, es: seq<Event<int>>)
    requires |run| > 0 && Path(run, events, true) && Committed2(Now(run))
    ensures |r| > 0 && Path(r, es, true) && After2(Now(r), View(2, LOGB, 0, 2, 0)) && Onward(run, events, r, es)
  {
    hide Path, Goes, Sized, Is, Heads, Applied, Applies;
    assert TAILB[2..] == [];
    var z := Ask(Now(run), 0, 1, View(2, TAILB, 1, 2, 2), [2, 3, 2], [2, 2, 0]);
    r, es := Do(run, events, true, Offer(0, 1), z);
    z := Take(Now(r), 1, BEAT3, Plain(2, LOGB));
    r, es := Do(r, es, true, Append(1, BEAT3), z);
  }

  /** It applies EA and makes a snapshot of it. */
  lemma Trim2(run: seq<System<int>>, events: seq<Event<int>>) returns (r: seq<System<int>>, es: seq<Event<int>>)
    requires |run| > 0 && Path(run, events, true) && After2(Now(run), View(2, LOGB, 0, 2, 0))
    ensures |r| > 0 && Path(r, es, true) && After2(Now(r), View(2, TAILB, 1, 2, 1)) && Onward(run, events, r, es)
  {
    hide Path, Goes, Sized, Is, Applied, Applies;
    assert LOGB[2..] == [EB] && [Entry(1, None)] + [EB] == TAILB;
    var z := Hand(Now(run), 1, View(2, LOGB, 0, 2, 0));
    r, es := Do(run, events, true, Event.Apply(1), z);
    z := Trims(Now(r), 1, 1, View(2, LOGB, 0, 2, 1));
    r, es := Do(r, es, true, Trim(1, 1, ""), z);
  }

  /** Peer 1 has lost EB. */
  ghost predicate Lost(y: System<int>) {
    && Three(y) && Is(y.nodes[1], View(2, [Entry(1, None)], 1, 1, 1)) && Is(y.nodes[2], View(2, LOGA, 0, 1, 0))
    && y.accepted == {Stamp(0, 1), Stamp(1, 2)}
  }

  /** It hears the leader's first message again, and then the leader's snapshot. */
  lemma Lose(run: seq<System<int>>, events: seq<Event<int>>) returns (r: seq<System<int>>, es: seq<Event<int>>)
    requires |run| > 0 && Path(run, events, true) && After2(Now(run), View(2, TAILB, 1, 2, 1))
    ensures |r| > 0 && Path(r, es, true) && Lost(Now(r)) && Onward(run, events, r, es)
  {
    hide Path, Goes, Sized, Is, Applied, Applies;
    var z := Take(Now(run), 1, BEAT2, View(2, TAILB, 1, 2, 1));
    r, es := Do(run, events, true, Append(1, BEAT2), z);
    z := Drops(Now(r), 1, SNAPSHOT, View(2, TAILB, 1, 0, 1));
    r, es := Do(r, es, true, Install(1, SNAPSHOT), z);
  }

  /** Leader 2 of term 3, elected by 1, has put another entry at the index of EB. */
  ghost predicate Led3(y: System<int>) {
    && Three(y) && Heads(y.nodes[2], View(3, LOGC, 0, 1, 0), [2, 2, 2], [0, 0, 2])
    && Is(y.nodes[1], View(3, [Entry(1, None)], 1, 1, 1))
  }

  lemma Lead3(run: seq<System<int>>, events: seq<Event<int>>) returns (r: seq<System<int>>, es: seq<Event<int>>)
    requires |run| > 0 && Path(run, events, true) && Lost(Now(run))
    ensures |r| > 0 && Path(r, es, true) && Led3(Now(r)) && Onward(run, events, r, es)
  {
    hide Path, Goes, Sized, Is, Heads, Applied, Applies;
    r, es := Elect(run, events, 2, 1, View(2, LOGA, 0, 1, 0), View(2, [Entry(1, None)], 1, 1, 1));
    assert All(3, 2) == [2, 2, 2] && All(3, 0)[2 := 1] == [0, 0, 1] && LOGA + [EC] == LOGC;
    var z := Put(Now(r), 2, 9, View(3, LOGA, 0, 1, 0), [2, 2, 2], [0, 0, 1]);
    r, es := Do(r, es, true, Submit(2, 9), z);
    assert [0, 0, 1][2 := 2] == [0, 0, 2];
  }

  lemma Commit3(run: seq<System<int>>, events: seq<Event<int>>)
      returns (r: seq<System<int>>, es: seq<Event<int>>, t: int)
    requires |run| > 0 && Path(run, events, true) && Led3(Now(run))
    ensures |r| > 0 && Path(r, es, true) && Applied(r, es, t, EC) && Onward(run, events, r, es)
  {
    hide Path, Goes, Sized, Is, Heads, Agreed, Applied, Applies;
    var next, known, v := [2, 2, 2], [0, 0, 2], View(3, LOGC, 0, 1, 0);
    assert LOGC[2..] == [EC];
    var z := Ask(Now(run), 2, 1, v, next, known);
    r, es := Do(run, events, true, Offer(2, 1), z);
    z := Take(Now(r), 1, OFFER3, View(3, [Entry(1, None)], 1, 1, 1));
    r, es := Do(r, es, true, Append(1, OFFER3), z);
    TwoHold();
    assert known[1 := 2] == [0, 2, 2];
    z := Forth(Now(r), 2, 1, OFFER3, TAKEN3, v, next, known, 2);
    r, es := Do(r, es, true, Learn(2, 1, OFFER3, TAKEN3, 2), z);
    HasHeaded(z.nodes[2], v.(commit := 2), next[1 := 3], known[1 := 2]);
    r, es, t := HandBoth(r, es, true, 2, v.(commit := 2));
  }

  lemma PathIsOrderly(run: seq<System<int>>, events: seq<Event<int>>)
    requires Path(run, events, true) && RaftCluster.IsRun(run, events)
    ensures forall i :: 0 <= i < |events| ==> Orderly(run[i], events[i])
  {
    hide NoLateVote, Next, Initial, RaftCluster.IsRun;
    forall i | 0 <= i < |events| ensures Enabled(run[i], events[i]) && Orderly(run[i], events[i]) {
      assert Goes(run[i], events[i], run[i + 1]) && Recent(run[i], events[i]);
    }
  }

  /** In a run in which everything but an old snapshot is as it should be, two peers can apply different commands. */
  lemma TwoCommands() returns (run: seq<System<int>>, events: seq<Event<int>>, s: int, t: int)
    ensures RaftCluster.IsRun(run, events) && 0 <= s < |events| && 0 <= t < |events|
    ensures forall i :: 0 <= i < |events| ==> Orderly(run[i], events[i])
    ensures Applies(run[s], events[s], 2, EB) && Applies(run[t], events[t], 2, EC) && EB.command != EC.command
  {
    hide Path, Applies, Orderly;
    run, events := Lead1();
    run, events := Fall1(run, events);
    run, events := Lead2(run, events);
    run, events := Send2(run, events);
    run, events, s := Commit2(run, events);
    run, events := Hear2(run, events);
    run, events := Trim2(run, events);
    run, events := Lose(run, events);
    run, events := Lead3(run, events);
    run, events, t := Commit3(run, events);
    PathIsRun(run, events, true);
    PathIsOrderly(run, events);
  }
}
