/** A follower can fall behind for good: it takes the leader's entries and makes a snapshot of them while its answer is
    lost. Its snapshot is then ahead of where the leader goes on sending from. */
module RaftBehind {
  import opened Options
  import opened RaftNode
  import opened RaftCluster
  import opened RaftSteps
  import opened RaftOldSnapshot
  import RaftCatchUp

  const OFFER: AppendArgs<int> := AppendArgs(1, 2, 0, 0, 1, [EA])

  /** Peer 1 has taken, applied and compacted EA; leader 2 has not heard of it. */
  ghost predicate Ahead(y: System<int>) {
    && Three(y) && Is(y.nodes[1], View(1, [Entry(1, None)], 1, 1, 1))
    && Heads(y.nodes[2], View(1, LOGA, 0, 1, 0), [2, 1, 1], [1, 0, 1])
  }

  lemma Give(run: seq<System<int>>, events: seq<Event<int>>) returns (r: seq<System<int>>, es: seq<Event<int>>)
    requires |run| > 0 && Path(run, events, true) && Led1(Now(run))
    ensures |r| > 0 && Path(r, es, true) && Three(Now(r)) && Is(Now(r).nodes[1], View(1, LOGA, 0, 1, 0))
    ensures Heads(Now(r).nodes[2], View(1, LOGA, 0, 1, 0), [2, 1, 1], [1, 0, 1])
  {
    hide Path, Goes, Sized, Is, Heads, Applied, Applies;
    assert LOGA[1..] == [EA] && START[..1] + [EA] == LOGA;
    var z := Ask(Now(run), 2, 1, View(1, LOGA, 0, 1, 0), [2, 1, 1], [1, 0, 1]);
    r, es := Do(run, events, true, Offer(2, 1), z);
    z := Take(Now(r), 1, OFFER, Plain(0, START));
    r, es := Do(r, es, true, Append(1, OFFER), z);
  }

  lemma GoAhead(run: seq<System<int>>, events: seq<Event<int>>) returns (r: seq<System<int>>, es: seq<Event<int>>)
    requires |run| > 0 && Path(run, events, true) && Led1(Now(run))
    ensures |r| > 0 && Path(r, es, true) && Ahead(Now(r))
  {
    hide Path, Goes, Sized, Is, Heads, Applied, Applies;
    var v := View(1, LOGA, 0, 1, 0);
    r, es := Give(run, events);
    var z := Hand(Now(r), 1, v);
    r, es := Do(r, es, true, Event.Apply(1), z);
    assert Cut(v.(applied := 1), 1).logs == [Entry(1, None)];
    z := Trims(Now(r), 1, 1, v.(applied := 1));
    r, es := Do(r, es, true, Trim(1, 1, ""), z);
  }

  /** In a run in which everything is as it should be, a leader and a follower whose logs agree come to a point from
      which rounds of AppendEntries never bring the follower up to date. */
  lemma FallsBehind() returns (run: seq<System<int>>, events: seq<Event<int>>)
    ensures RaftCluster.IsRun(run, events) && forall i :: 0 <= i < |events| ==> Orderly(run[i], events[i])
    ensures var y := run[|run| - 1];
      && |y.nodes| == 3 && RaftCatchUp.Pair(y.nodes[2], y.nodes[1], 1)
      && RaftCatchUp.Meet(y.nodes[2], y.nodes[1], y.nodes[1].lastIncludedIndex)
      && forall agreed, k: nat :: !RaftCatchUp.Reaches(y.nodes[2], y.nodes[1], 2, 1, agreed, k)
  {
    run, events := Lead1();
    run, events := GoAhead(run, events);
    PathIsRun(run, events, true);
    PathIsOrderly(run, events);
    hide Path, RaftCluster.IsRun, Orderly, RaftCatchUp.Reaches;
    var y := run[|run| - 1];
    forall agreed, k: nat ensures !RaftCatchUp.Reaches(y.nodes[2], y.nodes[1], 2, 1, agreed, k) {
      RaftCatchUp.CatchesUpIff(y.nodes[2], y.nodes[1], 2, 1, agreed);
    }
  }
}
