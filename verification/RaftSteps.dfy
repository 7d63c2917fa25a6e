/** Single steps of a cluster, for writing down particular runs. */
module RaftSteps {
  import opened Options
  import opened RaftNode
  import opened RaftCluster

  /** What matters of a peer: its log behind the snapshot that ends at `first`, and its two indices. */
  datatype View = View(term: int, logs: seq<Entry<int>>, first: int, commit: int, applied: int)

  const START: seq<Entry<int>> := [Entry(0, None)]

  /** A peer without snapshot that has committed nothing. */
  function Plain(term: int, logs: seq<Entry<int>>): (r: View) {
    View(term, logs, 0, 0, 0)
  }

  function End(v: View): (r: int) {
    v.first + |v.logs| - 1
  }

  ghost predicate Is(n: Node<int>, v: View) {
    && n.currentTerm == v.term && n.logs == v.logs && |v.logs| > 0 && n.lastIncludedIndex == v.first
    && n.commitIndex == v.commit && n.lastApplied == v.applied
  }

  ghost predicate Heads(n: Node<int>, v: View, next: seq<int>, known: seq<int>) {
    Is(n, v) && n.state == Leader && n.nextIndex == next && n.matchIndex == known
  }

  lemma HasHeaded(n: Node<int>, v: View, next: seq<int>, known: seq<int>)
    requires Heads(n, v, next, known)
    ensures Is(n, v)
  {
  }

  ghost predicate Among(y: System<int>, i: nat) {
    Sized(y) && i < |y.nodes|
  }

  // ---- runs ----------------------------------------------------------------------

  ghost predicate Goes(y: System<int>, e: Event<int>, z: System<int>) {
    && Enabled(y, e) && NoLateVote(y, e) && (e.Trim? ==> e.index <= y.nodes[e.i].lastApplied)
    && z == Next(y, e)
  }

  /** The answer that the step uses, if any, is to a message of the peer's own term. */
  ghost predicate Recent(y: System<int>, e: Event<int>) {
    e.i < |y.nodes| ==>
      && (e.Learn? ==> e.a.term == y.nodes[e.i].currentTerm)
      && (e.LearnSnapshot? ==> e.s.term == y.nodes[e.i].currentTerm)
  }

  /** A run without late votes and, if `recent`, without old answers. */
  ghost predicate Path(run: seq<System<int>>, events: seq<Event<int>>, recent: bool) {
    && |run| == |events| + 1 && Initial(run[0])
    && (forall i :: 0 <= i < |events| ==> Goes(run[i], events[i], run[i + 1]))
    && (recent ==> forall i :: 0 <= i < |events| ==> Recent(run[i], events[i]))
  }

  ghost function Now(run: seq<System<int>>): (r: System<int>)
    requires |run| > 0
  {
    run[|run| - 1]
  }

  /** Step `s` of the run hands out an entry at index 2. */
  ghost predicate Applied(run: seq<System<int>>, events: seq<Event<int>>, s: int, entry: Entry<int>) {
    0 <= s < |events| < |run| && Applies(run[s], events[s], 2, entry)
  }

  /** The longer run has handed out what the shorter one has. */
  ghost predicate Onward(run: seq<System<int>>, events: seq<Event<int>>, r: seq<System<int>>, es: seq<Event<int>>) {
    forall s, entry :: Applied(run, events, s, entry) ==> Applied(r, es, s, entry)
  }

  lemma Do(run: seq<System<int>>, events: seq<Event<int>>, recent: bool, e: Event<int>, z: System<int>)
      returns (r: seq<System<int>>, es: seq<Event<int>>)
    requires |run| > 0 && Path(run, events, recent) && Goes(Now(run), e, z) && (recent ==> Recent(Now(run), e))
    ensures |r| > 0 && Path(r, es, recent) && Now(r) == z && Onward(run, events, r, es)
    ensures forall entry :: Applies(Now(run), e, 2, entry) ==> Applied(r, es, |events|, entry)
  {
    hide Goes, Initial, Applies, Recent;
    r, es := run + [z], events + [e];
  }

  lemma Asleep(peers: nat, recent: bool) returns (run: seq<System<int>>)
    ensures |run| > 0 && Path(run, [], recent)
    ensures |Now(run).nodes| == peers && Sized(Now(run)) && Now(run).accepted == {}
    ensures forall i :: 0 <= i < peers ==> Is(Now(run).nodes[i], Plain(0, START))
  {
    run := [System(seq(peers, _ => Boot(None, "", peers)), {}, {}, map[], {}, {}, map[], map[])];
  }

  lemma PathIsRun(run: seq<System<int>>, events: seq<Event<int>>, recent: bool)
    requires Path(run, events, recent)
    ensures RaftCluster.IsRun(run, events) && NoLateVotes(run, events)
  {
    hide Enabled, NoLateVote, Next, Initial, Recent;
    forall i | 0 <= i < |events|
      ensures Enabled(run[i], events[i]) && NoLateVote(run[i], events[i]) && run[i + 1] == Next(run[i], events[i])
    {
      assert Goes(run[i], events[i], run[i + 1]);
    }
  }

  // ---- elections -----------------------------------------------------------------

  /** What a step of peer `i` leaves alone. */
  ghost predicate Only(y: System<int>, z: System<int>, i: nat) {
    && Among(y, i) && Sized(z) && |z.nodes| == |y.nodes| && z.nodes == y.nodes[i := z.nodes[i]]
    && y.messages <= z.messages && z.accepted == y.accepted
  }

  function Request(c: nat, v: View): (r: VoteArgs)
    requires |v.logs| > 0
  {
    VoteArgs(v.term + 1, c, End(v), v.logs[|v.logs| - 1].term)
  }

  lemma Stand(y: System<int>, c: nat, v: View) returns (z: System<int>)
    requires Among(y, c) && Is(y.nodes[c], v)
    ensures Goes(y, Election(c), z) && Only(y, z, c)
    ensures Is(z.nodes[c], v.(term := v.term + 1)) && z.nodes[c].state == Candidate && z.nodes[c].votes == {c}
    ensures VoteRequest(Request(c, v)) in z.messages
  {
    hide EndOf;
    z := Next(y, Election(c));
  }

  ghost predicate Behind(v: View, args: VoteArgs)
    requires |v.logs| > 0
  {
    var term := v.logs[|v.logs| - 1].term;
    term < args.lastLogTerm || (term == args.lastLogTerm && End(v) <= args.lastLogIndex)
  }

  lemma GrantNode(n: Node<int>, args: VoteArgs, v: View)
    requires Is(n, v) && args.term > v.term && Behind(v, args)
    ensures var (m, reply) := OnRequestVote(n, args);
      && Is(m, v.(term := args.term)) && reply == VoteReply(args.term, true)
      && m.nextIndex == n.nextIndex && m.matchIndex == n.matchIndex
  {
  }

  lemma Grant(y: System<int>, p: nat, args: VoteArgs, v: View) returns (z: System<int>)
    requires Among(y, p) && 0 <= args.candidateId != p && VoteRequest(args) in y.messages
    requires Is(y.nodes[p], v) && args.term > v.term && Stamp(p, args.term) !in y.accepted && Behind(v, args)
    ensures Goes(y, Vote(p, args), z) && Only(y, z, p) && Is(z.nodes[p], v.(term := args.term))
    ensures VoteAnswer(p, args.candidateId, args.term, VoteReply(args.term, true)) in z.messages
  {
    hide Next, Enabled, NoLateVote, OnRequestVote;
    VoteNext(y, p, args);
    z := Next(y, Vote(p, args));
    GrantNode(y.nodes[p], args, v);
  }

  ghost function All(peers: nat, x: int): (r: seq<int>)
    ensures |r| == peers && forall j :: 0 <= j < peers ==> r[j] == x
  {
    seq(peers, _ => x)
  }

  lemma Hear(y: System<int>, c: nat, p: nat, v: View) returns (z: System<int>)
    requires Among(y, c) && Is(y.nodes[c], v) && y.nodes[c].state == Candidate
    requires VoteAnswer(p, c, v.term, VoteReply(v.term, true)) in y.messages
    ensures Goes(y, Count(c, p, v.term, VoteReply(v.term, true)), z) && Only(y, z, c) && Is(z.nodes[c], v)
    ensures z.nodes[c].votes == y.nodes[c].votes + {p}
    ensures var peers := |y.nodes|;
      if |z.nodes[c].votes| > peers / 2
      then Heads(z.nodes[c], v, All(peers, End(v) + 1), All(peers, 0)[c := End(v)])
      else z.nodes[c].state == Candidate
  {
    var e, peers := Count(c, p, v.term, VoteReply(v.term, true)), |y.nodes|;
    assert Enabled(y, e);
    CountFacts(y, c, p, v.term, VoteReply(v.term, true));
    hide Enabled;
    z := Next(y, e);
    hide Next;
    assert seq(peers, (j: int) => if j == c then End(v) else 0) == All(peers, 0)[c := End(v)];
  }

  // ---- leaders -------------------------------------------------------------------

  lemma Put(y: System<int>, c: nat, x: int, v: View, next: seq<int>, known: seq<int>) returns (z: System<int>)
    requires Among(y, c) && c < |known| && Heads(y.nodes[c], v, next, known)
    ensures Goes(y, Submit(c, x), z) && Only(y, z, c)
    ensures Heads(z.nodes[c], v.(logs := v.logs + [Entry(v.term, Some(x))]), next, known[c := known[c] + 1])
  {
    z := Next(y, Submit(c, x));
  }

  /** The entries from the next index on. */
  function Message(c: nat, v: View, next: int): (r: AppendArgs<int>)
    requires v.first < next <= End(v) + 1
  {
    var at := next - v.first;
    AppendArgs(v.term, c, next - 1, v.logs[at - 1].term, v.commit, v.logs[at..])
  }

  lemma Ask(y: System<int>, c: nat, server: nat, v: View, next: seq<int>, known: seq<int>) returns (z: System<int>)
    requires Among(y, c) && server < |y.nodes| == |next| && server != c && Heads(y.nodes[c], v, next, known)
    requires 1 <= next[server] && v.first < next[server] <= End(v) + 1 && |v.logs| <= 200
    ensures Goes(y, Offer(c, server), z) && Only(y, z, c) && z.nodes == y.nodes
    ensures AppendRequest(server, Message(c, v, next[server])) in z.messages
  {
    var n := y.nodes[c];
    var at := next[server] - v.first;
    assert n.nextIndex[server := next[server]] == n.nextIndex && v.logs[at..|v.logs|] == v.logs[at..];
    assert OnSend(n, c, server) == (n, SendAppend(Message(c, v, next[server])));
    hide OnSend;
    z := Next(y, Offer(c, server));
    assert y.nodes[c := n] == y.nodes;
  }

  /** A peer whose next index the leader has trimmed is sent the leader's snapshot. */
  lemma AskSnapshot(y: System<int>, c: nat, server: nat, v: View, next: seq<int>, known: seq<int>)
      returns (z: System<int>)
    requires Among(y, c) && server < |y.nodes| == |next| && server != c && Heads(y.nodes[c], v, next, known)
    requires 1 <= next[server] <= v.first
    ensures Goes(y, Offer(c, server), z) && Only(y, z, c) && z.nodes == y.nodes
    ensures var n := y.nodes[c];
      SnapshotRequest(server, SnapshotArgs(v.term, c, v.first, n.lastIncludedTerm, n.snapshot)) in z.messages
  {
    var n := y.nodes[c];
    assert n.nextIndex[server := next[server]] == n.nextIndex;
    z := Next(y, Offer(c, server));
    assert y.nodes[c := n] == y.nodes;
  }

  // ---- followers -----------------------------------------------------------------

  /** What taking entries leaves alone. */
  ghost predicate OnlyTakes(y: System<int>, z: System<int>, i: nat, term: int) {
    Sized(z) && Only(y, z.(accepted := y.accepted), i) && z.accepted == y.accepted + {Stamp(i, term)}
  }

  function Took(v: View, args: AppendArgs<int>): (r: View)
    requires v.first <= args.prevLogIndex <= End(v)
  {
    View(args.term, Merge(v.logs, args.prevLogIndex - v.first + 1, args.entries), v.first,
         Min(args.leaderCommit, args.prevLogIndex + |args.entries|), v.applied)
  }

  lemma Take(y: System<int>, i: nat, args: AppendArgs<int>, v: View) returns (z: System<int>)
    requires Among(y, i) && Is(y.nodes[i], v) && AppendRequest(i, args) in y.messages && args.term >= v.term
    requires v.first <= args.prevLogIndex <= End(v) && v.logs[args.prevLogIndex - v.first].term == args.prevLogTerm
    ensures Goes(y, Append(i, args), z) && OnlyTakes(y, z, i, args.term) && Is(z.nodes[i], Took(v, args))
    ensures AppendAnswer(i, args, AppendReply(v.term, true, 0, 0)) in z.messages
  {
    hide Merge, Enabled, Next;
    AppendNext(y, i, args);
    z := Next(y, Append(i, args));
  }

  /** A peer whose entry behind the head is of another term refuses, and names index 1. */
  lemma Refuse(y: System<int>, i: nat, args: AppendArgs<int>, v: View) returns (z: System<int>)
    requires Among(y, i) && Is(y.nodes[i], v) && AppendRequest(i, args) in y.messages && args.term >= v.term
    requires v.first == 0 && args.prevLogIndex == 1 < |v.logs| && v.logs[1].term != args.prevLogTerm
    ensures Goes(y, Append(i, args), z) && OnlyTakes(y, z, i, args.term) && Is(z.nodes[i], v.(term := args.term))
    ensures AppendAnswer(i, args, AppendReply(v.term, false, 1, v.logs[1].term)) in z.messages
  {
    hide Merge, Enabled, Next;
    AppendNext(y, i, args);
    z := Next(y, Append(i, args));
    assert ConflictFrom(SteppedDown(y.nodes[i], args.term), 0, v.logs[1].term) == 1;
  }

  /** So does one whose log does not reach the previous entry, and names the index behind its end. */
  lemma RefuseShort(y: System<int>, i: nat, args: AppendArgs<int>, v: View) returns (z: System<int>)
    requires Among(y, i) && Is(y.nodes[i], v) && AppendRequest(i, args) in y.messages && args.term >= v.term
    requires v.first == 0 && args.prevLogIndex >= |v.logs|
    ensures Goes(y, Append(i, args), z) && OnlyTakes(y, z, i, args.term) && Is(z.nodes[i], v.(term := args.term))
    ensures AppendAnswer(i, args, AppendReply(v.term, false, |v.logs|, v.logs[|v.logs| - 1].term)) in z.messages
  {
    hide Merge, Enabled, Next;
    AppendNext(y, i, args);
    z := Next(y, Append(i, args));
  }

  // ---- answers -------------------------------------------------------------------

  lemma Learned(y: System<int>, i: nat, server: nat, args: AppendArgs<int>, answer: AppendReply, agreed: int)
      returns (z: System<int>)
    requires Among(y, i) && server < |y.nodes| && AppendAnswer(server, args, answer) in y.messages && args.leaderId == i
    requires AgreedAfter(y.nodes[i], server, args, answer, agreed)
    ensures Goes(y, Learn(i, server, args, answer, agreed), z)
    ensures z == Set(y, i, OnAppendReply(y.nodes[i], server, args, answer, agreed))
  {
    hide OnAppendReply, AgreedAfter;
    z := Next(y, Learn(i, server, args, answer, agreed));
  }

  /** A refusal moves the next index back. */
  lemma Back(y: System<int>, i: nat, server: nat, args: AppendArgs<int>, answer: AppendReply, v: View,
      next: seq<int>, known: seq<int>) returns (z: System<int>)
    requires Among(y, i) && server < |y.nodes| == |next| && Heads(y.nodes[i], v, next, known)
    requires AppendAnswer(server, args, answer) in y.messages && args.leaderId == i
    requires args.prevLogIndex == next[server] - 1 && answer.term <= v.term && !answer.success
    requires 0 < answer.conflictLogIndex <= next[server]
    ensures Goes(y, Learn(i, server, args, answer, 0), z) && Only(y, z, i) && z.messages == y.messages
    ensures Heads(z.nodes[i], v, next[server := answer.conflictLogIndex], known)
    ensures args.term == v.term ==> Recent(y, Learn(i, server, args, answer, 0))
  {
    z := Learned(y, i, server, args, answer, 0);
    hide Goes;
  }

  ghost predicate OfTerm(v: View, index: int) {
    v.first <= index <= End(v) && v.logs[index - v.first].term == v.term
  }

  /** A success moves the indices forward, and commits what a majority then holds if it is of the leader's term. */
  lemma Forth(y: System<int>, i: nat, server: nat, args: AppendArgs<int>, answer: AppendReply, v: View,
      next: seq<int>, known: seq<int>, agreed: int) returns (z: System<int>)
    requires Among(y, i) && server < |y.nodes| == |next| == |known| && Heads(y.nodes[i], v, next, known)
    requires AppendAnswer(server, args, answer) in y.messages && args.leaderId == i
    requires args.prevLogIndex == next[server] - 1 && answer.term <= v.term && answer.success
    requires Agreed(known[server := args.prevLogIndex + |args.entries|], agreed)
    requires agreed <= v.commit || OfTerm(v, agreed)
    ensures Goes(y, Learn(i, server, args, answer, agreed), z) && Only(y, z, i) && z.messages == y.messages
    ensures var held := args.prevLogIndex + |args.entries|;
      Heads(z.nodes[i], v.(commit := Max(v.commit, agreed)), next[server := held + 1], known[server := held])
    ensures args.term == v.term ==> Recent(y, Learn(i, server, args, answer, agreed))
  {
    z := Learned(y, i, server, args, answer, agreed);
    hide Goes, Agreed;
  }

  // ---- the service ---------------------------------------------------------------

  lemma Hand(y: System<int>, i: nat, v: View) returns (z: System<int>)
    requires Among(y, i) && Is(y.nodes[i], v) && v.first <= v.applied < v.commit <= End(v)
    ensures Goes(y, Event.Apply(i), z) && Only(y, z, i) && Is(z.nodes[i], v.(applied := v.applied + 1))
    ensures z.nodes[i] == y.nodes[i].(lastApplied := v.applied + 1) && z.messages == y.messages
    ensures Applies(y, Event.Apply(i), v.applied + 1, v.logs[v.applied + 1 - v.first])
  {
    z := Next(y, Event.Apply(i));
  }

  /** A peer with two committed entries hands out both. */
  lemma HandBoth(run: seq<System<int>>, events: seq<Event<int>>, recent: bool, i: nat, v: View)
      returns (r: seq<System<int>>, es: seq<Event<int>>, s: int)
    requires |run| > 0 && Path(run, events, recent) && Among(Now(run), i) && Is(Now(run).nodes[i], v)
    requires v.first == v.applied == 0 && v.commit == 2 == End(v)
    ensures |r| > 0 && Path(r, es, recent) && Only(Now(run), Now(r), i) && Onward(run, events, r, es)
    ensures Applied(r, es, s, v.logs[2])
  {
    hide Path, Goes, Sized, Is, Applied, Applies;
    var z := Hand(Now(run), i, v);
    r, es := Do(run, events, recent, Event.Apply(i), z);
    s := |es|;
    z := Hand(Now(r), i, v.(applied := 1));
    r, es := Do(r, es, recent, Event.Apply(i), z);
  }

  // ---- majorities ----------------------------------------------------------------

  function One(x: int, i: int): (r: int) {
    if x >= i then 1 else 0
  }

  lemma HoldingMore(known: seq<int>, x: int, i: int)
    ensures Holding(known + [x], i) == Holding(known, i) + One(x, i)
  {
    assert (known + [x])[..|known|] == known;
  }

  lemma HoldingThree(a: int, b: int, c: int, i: int)
    ensures Holding([a, b, c], i) == One(a, i) + One(b, i) + One(c, i)
  {
    HoldingMore([], a, i);
    HoldingMore([a], b, i);
    HoldingMore([a, b], c, i);
    assert [] + [a] == [a] && [a] + [b] == [a, b] && [a, b] + [c] == [a, b, c];
  }

  lemma HoldingFive(a: int, b: int, c: int, d: int, e: int, i: int)
    ensures Holding([a, b, c, d, e], i) == One(a, i) + One(b, i) + One(c, i) + One(d, i) + One(e, i)
  {
    HoldingThree(a, b, c, i);
    HoldingMore([a, b, c], d, i);
    HoldingMore([a, b, c, d], e, i);
    assert [a, b, c] + [d] == [a, b, c, d] && [a, b, c, d] + [e] == [a, b, c, d, e];
  }
}
