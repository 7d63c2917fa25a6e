/** Start never names the same index twice in a term, so that whoever finds an entry of the term at the index that Start
    named has found the own one. */
module RaftStarts {
  import opened RaftNode
  import opened RaftCluster
  import opened RaftOrigin
  import RaftLogs

  /** A leader of the term whose log reaches `last`. */
  ghost predicate Leads<C>(n: Node<C>, term: int, last: int) {
    n.state == Leader && n.currentTerm == term && Last(n) >= last
  }

  /** A peer that does not lead in the term, and never will again. */
  ghost predicate Fallen<C>(n: Node<C>, term: int) {
    n.currentTerm > term || (n.currentTerm == term && n.state == Follower)
  }

  lemma VoteFalls<C>(n: Node<C>, args: VoteArgs, term: int, last: int)
    requires |n.logs| > 0 && (Leads(n, term, last) || Fallen(n, term))
    ensures var m := OnRequestVote(n, args).0; Leads(m, term, last) || Fallen(m, term)
  {
    hide UpToDate;
  }

  lemma AppendFalls<C>(n: Node<C>, args: AppendArgs<C>, term: int, last: int)
    requires |n.logs| > 0 && (Leads(n, term, last) || Fallen(n, term))
    ensures var m := OnAppendEntries(n, args).0; Leads(m, term, last) || Fallen(m, term)
  {
    hide Merge, Rejection, Matches;
  }

  /** A leader's snapshot comes from another term. */
  lemma InstallFalls<C>(n: Node<C>, args: SnapshotArgs, term: int, last: int)
    requires |n.logs| > 0 && (Leads(n, term, last) || Fallen(n, term))
    requires n.state == Leader ==> n.currentTerm != args.term
    ensures var m := OnInstallSnapshot(n, args).0; Leads(m, term, last) || Fallen(m, term)
  {
    hide Trimmed, LogTerm;
  }

  lemma HandlerFalls<C>(n: Node<C>, me: nat, e: Input<C>, term: int, last: int)
    requires Valid(n) && Possible(n, me, e) && (Leads(n, term, last) || Fallen(n, term))
    requires e.InstallSnapshot? && n.state == Leader ==> n.currentTerm != e.i.term
    ensures var m := After(n, me, e); Leads(m, term, last) || Fallen(m, term)
  {
    hide OnRequestVote, OnAppendEntries, OnInstallSnapshot;
    match e
    case RequestVote(args) => VoteFalls(n, args, term, last);
    case AppendEntries(args) => AppendFalls(n, args, term, last);
    case InstallSnapshot(args) => InstallFalls(n, args, term, last);
    case _ =>
  }

  lemma FromOther<C>(run: seq<System<C>>, events: seq<Event<C>>, t: nat)
    requires RaftCluster.IsRun(run, events) && NoLateVotes(run, events) && t < |events| && events[t].Install?
    ensures events[t].i < |run[t].nodes|
    ensures var n := run[t].nodes[events[t].i]; n.state == Leader ==> n.currentTerm != events[t].s.term
  {
    var pool := RaftLogs.Reachable(run, events, t);
    RaftCluster.Reachable(run, events, t);
    var i, args := events[t].i, events[t].s;
    assert Enabled(run[t], events[t]);
    hide ElectionInv, RaftCluster.IsRun;
    assert RaftLogs.MessageOk(SnapshotRequest(i, args), pool, run[t].leaders);
    hide RaftLogs.LogInv;
    RaftLogs.NotToLeader(run[t], i, args);
  }

  lemma StepFalls<C>(run: seq<System<C>>, events: seq<Event<C>>, t: nat, i: nat, term: int, last: int)
    requires RaftCluster.IsRun(run, events) && NoLateVotes(run, events) && t < |events| && i < |run[t].nodes|
    requires Leads(run[t].nodes[i], term, last) || Fallen(run[t].nodes[i], term)
    ensures |run[t + 1].nodes| == |run[t].nodes|
    ensures Leads(run[t + 1].nodes[i], term, last) || Fallen(run[t + 1].nodes[i], term)
  {
    var e := events[t];
    RaftCluster.Reachable(run, events, t);
    assert Enabled(run[t], e) && run[t + 1] == Next(run[t], e);
    NextIsAfter(run[t], e);
    if e.Install? { FromOther(run, events, t); }
    hide RaftCluster.IsRun, NoLateVotes, Next, Enabled;
    if e.i == i {
      assert NodeOk(run[t].nodes[i], |run[t].nodes|);
      hide ElectionInv, After, Valid, Leads, Fallen;
      HandlerFalls(run[t].nodes[i], i, InputOf(e), term, last);
    }
  }

  lemma {:induction false} LaterFalls<C>(run: seq<System<C>>, events: seq<Event<C>>, s: nat, t: nat, i: nat, term: int,
      last: int)
    requires RaftCluster.IsRun(run, events) && NoLateVotes(run, events) && s <= t < |run| && i < |run[s].nodes|
    requires Leads(run[s].nodes[i], term, last)
    ensures i < |run[t].nodes| && (Leads(run[t].nodes[i], term, last) || Fallen(run[t].nodes[i], term))
  {
    hide RaftCluster.IsRun, NoLateVotes, Leads, Fallen;
    if s < t {
      LaterFalls(run, events, s, t - 1, i, term, last);
      RunFits(run, events);
      StepFalls(run, events, t - 1, i, term, last);
    }
  }

  lemma RunFits<C>(run: seq<System<C>>, events: seq<Event<C>>)
    requires RaftCluster.IsRun(run, events)
    ensures |run| == |events| + 1
  {
  }

  /** In every run without late votes, the indices that Start names in a term increase, whoever is asked. */
  lemma StartedOnce<C>(run: seq<System<C>>, events: seq<Event<C>>, s: nat, t: nat, a: int, b: int, p: Entry<C>,
      q: Entry<C>)
    requires RaftCluster.IsRun(run, events) && NoLateVotes(run, events) && s < t < |events|
    requires StartsEntry(run[s], events[s], a, p) && StartsEntry(run[t], events[t], b, q) && p.term == q.term
    ensures a < b
  {
    var i, n := events[s].i, run[s].nodes[events[s].i];
    AtMostOneLeader(run, events, s, t, i, events[t].i);
    RaftCluster.Reachable(run, events, s);
    assert NodeOk(n, |run[s].nodes|);
    assert Enabled(run[s], events[s]) && run[s + 1] == Next(run[s], events[s]);
    NextIsAfter(run[s], events[s]);
    StartsAt(n, i, events[s].command);
    hide RaftCluster.IsRun, NoLateVotes, Next, Enabled, ElectionInv;
    assert Leads(run[s + 1].nodes[i], p.term, a);
    LaterFalls(run, events, s + 1, t, i, p.term, a);
  }

  /** An entry of the term at the index that Start named is the one that was started. */
  lemma AppliedIsOwn<C>(run: seq<System<C>>, events: seq<Event<C>>, s: nat, t: nat, index: int, p: Entry<C>,
      q: Entry<C>)
    requires RaftCluster.IsRun(run, events) && NoLateVotes(run, events) && s < |events| && t < |events|
    requires StartsEntry(run[s], events[s], index, p) && Applies(run[t], events[t], index, q) && p.term == q.term
    ensures p == q && s < t
  {
    AppliedWasStarted(run, events, t, index, q);
    hide RaftCluster.IsRun, NoLateVotes, Applies, StartsEntry;
    var j: nat :| j < t && j < |events| && StartsEntry(run[j], events[j], index, q);
    if j < s {
      StartedOnce(run, events, j, s, index, index, q, p);
    } else if s < j {
      StartedOnce(run, events, s, j, index, index, p, q);
    }
    SameStart(run[s], events[s], index, p, q);
  }

  lemma SameStart<C>(y: System<C>, e: Event<C>, index: int, p: Entry<C>, q: Entry<C>)
    requires StartsEntry(y, e, index, p)
    ensures StartsEntry(y, e, index, q) ==> p == q
  {
  }

  // ---- a leader counts itself ----------------------------------------------------

  /** A leader knows of itself that it has all of its log. */
  ghost predicate OwnOk<C>(n: Node<C>, me: nat) {
    n.state == Leader ==> me < |n.matchIndex| && n.matchIndex[me] == Last(n)
  }

  /** Nobody sends to itself. */
  ghost predicate ToOthers<C>(m: Message<C>) {
    match m
    case AppendRequest(to, a) => to != a.leaderId
    case AppendAnswer(from, a, _) => from != a.leaderId
    case SnapshotRequest(to, s) => to != s.leaderId
    case SnapshotAnswer(from, s) => from != s.leaderId
    case _ => true
  }

  ghost predicate OwnInv<C>(y: System<C>) {
    && (forall i :: 0 <= i < |y.nodes| ==> OwnOk(y.nodes[i], i))
    && (forall m :: m in y.messages ==> ToOthers(m))
  }

  lemma InstallOwn<C>(n: Node<C>, me: nat, args: SnapshotArgs)
    requires |n.logs| > 0 && OwnOk(n, me) && (n.state == Leader ==> n.currentTerm != args.term)
    ensures OwnOk(OnInstallSnapshot(n, args).0, me)
  {
    hide Trimmed, LogTerm;
  }

  lemma HandlerOwn<C>(n: Node<C>, me: nat, e: Input<C>)
    requires Valid(n) && me < |n.matchIndex| && Possible(n, me, e) && OwnOk(n, me)
    requires e.InstallSnapshot? && n.state == Leader ==> n.currentTerm != e.i.term
    requires e.Snapshot? ==> e.index <= Last(n)
    requires (e.ReceiveAppend? || e.ReceiveSnapshot?) ==> e.server != me
    ensures OwnOk(After(n, me, e), me)
  {
    hide OnInstallSnapshot, Merge, Rejection, UpToDate;
    if e.InstallSnapshot? { InstallOwn(n, me, e.i); }
  }

  lemma NewToOthers<C>(y: System<C>, e: Event<C>, m: Message<C>)
    requires Enabled(y, e) && OwnInv(y) && m in Next(y, e).messages && m !in y.messages
    ensures ToOthers(m)
  {
    hide OnAppendEntries, OnInstallSnapshot, OnSnapshot, OnRequestVote, OnVoteReply, OnAppendReply, OnStart,
      OnStartElection, OnSnapshotReply, OnApply, Boot, EndOf, LogTerm;
    if e.Append? {
      assert ToOthers(AppendRequest(e.i, e.a));
    } else if e.Install? {
      assert ToOthers<C>(SnapshotRequest(e.i, e.s));
    }
  }

  lemma OwnStep<C>(run: seq<System<C>>, events: seq<Event<C>>, t: nat)
    requires RaftCluster.IsRun(run, events) && NoLateVotes(run, events) && t < |events| && OwnInv(run[t])
    requires events[t].Trim? ==> events[t].i < |run[t].nodes| && events[t].index <= Last(run[t].nodes[events[t].i])
    ensures OwnInv(run[t + 1])
  {
    var y, z, e := run[t], run[t + 1], events[t];
    RaftCluster.Reachable(run, events, t);
    assert Enabled(y, e) && z == Next(y, e);
    NextIsAfter(y, e);
    if e.Install? { FromOther(run, events, t); }
    assert e.Learn? ==> ToOthers(AppendAnswer(e.server, e.a, e.answer)) && e.a.leaderId == e.i;
    assert e.LearnSnapshot? ==> ToOthers<C>(SnapshotAnswer(e.server, e.s)) && e.s.leaderId == e.i;
    assert NodeOk(y.nodes[e.i], |y.nodes|);
    hide RaftCluster.IsRun, NoLateVotes, Next, Enabled, ElectionInv, After, OwnOk;
    HandlerOwn(y.nodes[e.i], e.i, InputOf(e));
    forall m | m in z.messages ensures ToOthers(m) {
      if m !in y.messages { NewToOthers(y, e, m); }
    }
  }

  /** In every run without late votes, in which snapshots are of what is in the log, every leader counts its whole log
      as held by itself. */
  lemma {:induction false} CountsItself<C>(run: seq<System<C>>, events: seq<Event<C>>, t: nat)
    requires RaftCluster.IsRun(run, events) && NoLateVotes(run, events) && t < |run|
    requires forall j :: 0 <= j < |events| && events[j].Trim? ==>
      events[j].i < |run[j].nodes| && events[j].index <= Last(run[j].nodes[events[j].i])
    ensures OwnInv(run[t])
  {
    if t > 0 {
      hide OwnInv, Next, Enabled, NoLateVotes, Initial;
      CountsItself(run, events, t - 1);
      OwnStep(run, events, t - 1);
    }
  }
}
