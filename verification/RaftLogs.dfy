/** Log Matching: why logs that agree on one entry's term agree on everything before it, as far as neither has
    replaced it by a snapshot. Every log that a peer ever had agrees in this way with every other, as a leader
    creates an entry once and the entry is copied only behind an entry of the right term. */
module RaftLogs {
  import opened Options
  import opened RaftNode
  import opened RaftCluster

  /** The part of a log that a peer keeps: `logs[0]` tells the term of the entry at `first` and no more. */
  datatype Piece<+C> = Piece(first: int, logs: seq<Entry<C>>)

  function PieceOf<C>(n: Node<C>): (r: Piece<C>) {
    Piece(n.lastIncludedIndex, n.logs)
  }

  predicate Covers<C>(p: Piece<C>, k: int) {
    p.first <= k < p.first + |p.logs|
  }

  function At<C>(p: Piece<C>, k: int): (r: Entry<C>)
    requires Covers(p, k)
  {
    p.logs[k - p.first]
  }

  function TermAt<C>(p: Piece<C>, k: int): (r: int)
    requires Covers(p, k)
  {
    At(p, k).term
  }

  ghost predicate SameAt<C>(a: Piece<C>, b: Piece<C>, j: int)
    requires Covers(a, j) && Covers(b, j)
  {
    TermAt(a, j) == TermAt(b, j) && (j > a.first && j > b.first ==> At(a, j) == At(b, j))
  }

  ghost predicate AgreeAt<C>(a: Piece<C>, b: Piece<C>, k: int) {
    Covers(a, k) && Covers(b, k) && TermAt(a, k) == TermAt(b, k) ==>
      forall j :: a.first <= j <= k && b.first <= j ==> SameAt(a, b, j)
  }

  ghost predicate Agree<C>(a: Piece<C>, b: Piece<C>) {
    forall k :: AgreeAt(a, b, k)
  }

  lemma AgreeTwice<C>(a: Piece<C>, b: Piece<C>)
    ensures Agree(a, a) && (Agree(a, b) ==> Agree(b, a))
  {
    if Agree(a, b) {
      forall k ensures AgreeAt(b, a, k) {
        assert AgreeAt(a, b, k);
        if Covers(a, k) && Covers(b, k) && TermAt(a, k) == TermAt(b, k) {
          forall j | b.first <= j <= k && a.first <= j ensures SameAt(b, a, j) { assert SameAt(a, b, j); }
        }
      }
    }
  }

  // ---- how a log changes ---------------------------------------------------------

  /** A log whose entries up to `m` are those of `a` and whose others are those of `p`, where `a` and `p` have the
      same term at `m`. */
  ghost predicate Glued<C>(g: Piece<C>, a: Piece<C>, p: Piece<C>, m: int) {
    && g.first == a.first && Covers(g, m) && Covers(a, m) && Covers(p, m) && TermAt(a, m) == TermAt(p, m)
    && g.first + |g.logs| <= p.first + |p.logs|
    && (forall j :: a.first <= j <= m ==> At(g, j) == At(a, j))
    && (forall j :: m < j < g.first + |g.logs| ==> At(g, j) == At(p, j))
  }

  lemma GluedAgrees<C>(g: Piece<C>, a: Piece<C>, p: Piece<C>, m: int, b: Piece<C>)
    requires Glued(g, a, p, m) && Agree(a, p) && Agree(a, b) && Agree(p, b)
    ensures Agree(g, b)
  {
    forall k ensures AgreeAt(g, b, k) {
      if Covers(g, k) && Covers(b, k) && TermAt(g, k) == TermAt(b, k) {
        assert AgreeAt(a, b, k) && AgreeAt(p, b, k) && AgreeAt(a, p, m);
        forall j | g.first <= j <= k && b.first <= j ensures SameAt(g, b, j) {
          if k <= m {
            assert SameAt(a, b, j);
          } else {
            GluedAbove(g, a, p, m, b, k, j);
          }
        }
      }
    }
  }

  /** Above `m` the glued log is `p`; below `p`, all three have the same term where `p` begins. */
  lemma GluedAbove<C>(g: Piece<C>, a: Piece<C>, p: Piece<C>, m: int, b: Piece<C>, k: int, j: int)
    requires Glued(g, a, p, m) && Agree(a, b) && AgreeAt(p, b, k) && AgreeAt(a, p, m)
    requires k > m && Covers(g, k) && Covers(b, k) && TermAt(g, k) == TermAt(b, k) && g.first <= j <= k && b.first <= j
    ensures SameAt(g, b, j)
  {
    hide Agree;
    if j > p.first {
      assert SameAt(p, b, j);
      if j <= m { assert SameAt(a, p, j); }
    } else {
      assert SameAt(p, b, p.first) && SameAt(a, p, p.first);
      AgreeHere(a, b, p.first, j);
    }
  }

  lemma AgreeHere<C>(a: Piece<C>, b: Piece<C>, k: int, j: int)
    requires Agree(a, b) && Covers(a, k) && Covers(b, k) && TermAt(a, k) == TermAt(b, k)
    requires a.first <= j <= k && b.first <= j
    ensures SameAt(a, b, j)
  {
    assert AgreeAt(a, b, k);
  }

  lemma MergeOnce<C>(log: seq<Entry<C>>, at: nat, entries: seq<Entry<C>>)
    requires at <= |log|
    ensures Merge(log, at, entries) ==
      if entries == [] then log
      else if at < |log| && log[at].term == entries[0].term then Merge(log, at + 1, entries[1..])
      else log[..at] + entries
  {
  }

  /** Merging keeps the log, or cuts it at `cut` and takes the rest of the entries. */
  lemma {:induction false} MergeShape<C>(log: seq<Entry<C>>, at: nat, entries: seq<Entry<C>>) returns (cut: nat)
    requires at <= |log|
    ensures at <= cut <= |log| && cut <= at + |entries|
    ensures forall i :: at <= i < cut ==> log[i].term == entries[i - at].term
    ensures Merge(log, at, entries) == log || Merge(log, at, entries) == log[..cut] + entries[cut - at..]
    decreases |entries|
  {
    hide Merge;
    MergeOnce(log, at, entries);
    cut := at;
    if entries != [] && at < |log| && log[at].term == entries[0].term {
      var rest := entries[1..];
      cut := MergeShape(log, at + 1, rest);
      assert rest[cut - at - 1..] == entries[cut - at..];
      forall i | at <= i < cut ensures log[i].term == entries[i - at].term {
        if i > at { assert rest[i - at - 1] == entries[i - at]; }
      }
    }
  }

  /** The message holds a stretch of the log. */
  ghost predicate Stretch<C>(p: Piece<C>, a: AppendArgs<C>) {
    && Covers(p, a.prevLogIndex) && a.prevLogTerm == TermAt(p, a.prevLogIndex)
    && a.prevLogIndex + |a.entries| < p.first + |p.logs|
    && forall j :: 0 <= j < |a.entries| ==> a.entries[j] == At(p, a.prevLogIndex + 1 + j)
  }

  lemma CutGlues<C>(a: Piece<C>, p: Piece<C>, args: AppendArgs<C>, cut: int)
    requires Stretch(p, args) && args.prevLogIndex < cut <= args.prevLogIndex + 1 + |args.entries|
    requires Covers(a, cut - 1) && Covers(p, cut - 1) && TermAt(a, cut - 1) == TermAt(p, cut - 1)
    ensures Glued(Piece(a.first, a.logs[..cut - a.first] + args.entries[cut - args.prevLogIndex - 1..]), a, p, cut - 1)
  {
    var prev := args.prevLogIndex;
    var head, tail := a.logs[..cut - a.first], args.entries[cut - prev - 1..];
    var g := Piece(a.first, head + tail);
    forall j | a.first <= j <= cut - 1 ensures At(g, j) == At(a, j) {
      assert g.logs[j - a.first] == head[j - a.first];
    }
    forall j | cut - 1 < j < g.first + |g.logs| ensures At(g, j) == At(p, j) {
      assert g.logs[j - a.first] == tail[j - cut] == args.entries[j - prev - 1];
    }
  }

  /** Taking entries: the log stays, or is glued to the log that the entries come from. */
  lemma MergeGlues<C>(a: Piece<C>, p: Piece<C>, args: AppendArgs<C>) returns (m: int)
    requires Stretch(p, args) && Covers(a, args.prevLogIndex) && TermAt(a, args.prevLogIndex) == args.prevLogTerm
    ensures var g := Piece(a.first, Merge(a.logs, args.prevLogIndex + 1 - a.first, args.entries));
      g == a || Glued(g, a, p, m)
  {
    hide Merge, Glued;
    var at := args.prevLogIndex + 1 - a.first;
    var cut := MergeShape(a.logs, at, args.entries);
    m := a.first + cut - 1;
    if cut > at {
      assert TermAt(a, m) == args.entries[cut - 1 - at].term == TermAt(p, m);
    }
    CutGlues(a, p, args, m + 1);
  }

  lemma SuffixAgrees<C>(a: Piece<C>, s: Piece<C>, b: Piece<C>)
    requires Agree(a, b) && Covers(a, s.first) && s.first + |s.logs| == a.first + |a.logs|
    requires TermAt(s, s.first) == TermAt(a, s.first)
    requires forall j :: s.first < j < s.first + |s.logs| ==> At(s, j) == At(a, j)
    ensures Agree(s, b)
  {
    forall k ensures AgreeAt(s, b, k) {
      assert AgreeAt(a, b, k);
      if Covers(s, k) && Covers(b, k) && TermAt(s, k) == TermAt(b, k) {
        forall j | s.first <= j <= k && b.first <= j ensures SameAt(s, b, j) { assert SameAt(a, b, j); }
      }
    }
  }

  lemma SingleAgrees<C>(s: Piece<C>, b: Piece<C>)
    requires |s.logs| == 1
    ensures Agree(s, b)
  {
    forall k ensures AgreeAt(s, b, k) {}
  }

  /** The log has an entry at `k`, and not only its term. */
  predicate Inside<C>(p: Piece<C>, k: int) {
    p.first < k < p.first + |p.logs|
  }

  lemma LongerAgrees<C>(a: Piece<C>, e: Entry<C>, b: Piece<C>)
    requires Agree(a, b) && |a.logs| > 0
    requires var k := a.first + |a.logs|; Inside(b, k) ==> TermAt(b, k) != e.term
    ensures Agree(Piece(a.first, a.logs + [e]), b)
  {
    var l := Piece(a.first, a.logs + [e]);
    forall k ensures AgreeAt(l, b, k) {
      assert AgreeAt(a, b, k);
      if Covers(a, k) && Covers(b, k) && TermAt(a, k) == TermAt(b, k) {
        forall j | l.first <= j <= k && b.first <= j ensures SameAt(l, b, j) { assert SameAt(a, b, j); }
      }
    }
  }

  // ---- the cluster ---------------------------------------------------------------

  /** Somebody other than `not` was elected in the term. */
  ghost predicate LedBy(leaders: set<Stamp>, term: int, not: int) {
    exists j: nat :: j != not && Stamp(j, term) in leaders
  }

  ghost predicate PoolOk<C>(pool: set<Piece<C>>, leaders: set<Stamp>) {
    && (forall a, b :: a in pool && b in pool ==> Agree(a, b))
    && (forall p, k :: p in pool && Inside(p, k) ==> LedBy(leaders, TermAt(p, k), -1))
  }

  ghost predicate NodesIn<C>(nodes: seq<Node<C>>, pool: set<Piece<C>>) {
    forall i :: 0 <= i < |nodes| ==> |nodes[i].logs| > 0 && PieceOf(nodes[i]) in pool
  }

  /** A leader has gone at least as far as every entry of its term. */
  ghost predicate Foremost<C>(n: Node<C>, pool: set<Piece<C>>) {
    n.state == Leader ==> forall p, k :: p in pool && Inside(p, k) && TermAt(p, k) == n.currentTerm ==> k <= Last(n)
  }

  ghost predicate MessageOk<C>(m: Message<C>, pool: set<Piece<C>>, leaders: set<Stamp>) {
    && (m.AppendRequest? ==> exists p :: p in pool && Stretch(p, m.a))
    && (m.SnapshotRequest? ==> LedBy(leaders, m.s.term, m.to))
  }

  /** `pool` holds every log that a peer ever had. */
  ghost predicate LogInv<C>(y: System<C>, pool: set<Piece<C>>) {
    && PoolOk(pool, y.leaders) && NodesIn(y.nodes, pool)
    && (forall i :: 0 <= i < |y.nodes| ==> Foremost(y.nodes[i], pool))
    && (forall m :: m in y.messages ==> MessageOk(m, pool, y.leaders))
  }

  /** Every entry of `q` has the index and the term of an entry in the pool. */
  ghost predicate Derived<C>(q: Piece<C>, pool: set<Piece<C>>) {
    forall k :: Inside(q, k) ==> HasLike(q, k, pool)
  }

  ghost predicate HasLike<C>(q: Piece<C>, k: int, pool: set<Piece<C>>)
    requires Inside(q, k)
  {
    exists p :: p in pool && Inside(p, k) && TermAt(p, k) == TermAt(q, k)
  }

  lemma PoolMore<C>(pool: set<Piece<C>>, leaders: set<Stamp>, q: Piece<C>)
    requires PoolOk(pool, leaders) && forall b :: b in pool ==> Agree(q, b)
    requires forall k :: Inside(q, k) ==> LedBy(leaders, TermAt(q, k), -1)
    ensures PoolOk(pool + {q}, leaders)
  {
    hide Agree, LedBy;
    forall a, b | a in pool + {q} && b in pool + {q} ensures Agree(a, b) {
      AgreeTwice(a, b);
      AgreeTwice(b, a);
    }
  }

  lemma MessageMore<C>(m: Message<C>, pool: set<Piece<C>>, more: set<Piece<C>>, leaders: set<Stamp>, led: set<Stamp>)
    requires MessageOk(m, pool, leaders) && pool <= more && leaders <= led
    ensures MessageOk(m, more, led)
  {
  }

  /** A step of peer `i` after which its log has no new entry and nobody is a new leader. */
  lemma QuietLogs<C>(y: System<C>, z: System<C>, i: nat, pool: set<Piece<C>>)
    requires LogInv(y, pool) && i < |y.nodes| == |z.nodes| && z.nodes == y.nodes[i := z.nodes[i]]
    requires |z.nodes[i].logs| > 0
    requires (forall b :: b in pool ==> Agree(PieceOf(z.nodes[i]), b)) && Derived(PieceOf(z.nodes[i]), pool)
    requires z.leaders == y.leaders
    requires z.nodes[i].state == Leader ==>
      && y.nodes[i].state == Leader && z.nodes[i].currentTerm == y.nodes[i].currentTerm
      && Last(z.nodes[i]) >= Last(y.nodes[i])
    requires forall m :: m in z.messages && m !in y.messages ==> MessageOk(m, pool, y.leaders)
    ensures LogInv(z, pool + {PieceOf(z.nodes[i])})
  {
    var q := PieceOf(z.nodes[i]);
    hide Agree, MessageOk, LedBy;
    forall k | Inside(q, k) ensures LedBy(z.leaders, TermAt(q, k), -1) {
      assert HasLike(q, k, pool);
    }
    PoolMore(pool, z.leaders, q);
    forall j | 0 <= j < |z.nodes| ensures Foremost(z.nodes[j], pool + {q}) {
      assert Foremost(y.nodes[j], pool);
      if z.nodes[j].state == Leader { ForemostMore(z.nodes[j], pool, q); }
    }
    forall m | m in z.messages ensures MessageOk(m, pool + {q}, z.leaders) {
      MessageMore(m, pool, pool + {q}, y.leaders, z.leaders);
    }
  }

  lemma ForemostMore<C>(n: Node<C>, pool: set<Piece<C>>, q: Piece<C>)
    requires Foremost(n, pool) && Derived(q, pool)
    ensures Foremost(n, pool + {q})
  {
    if n.state == Leader {
      forall p, k | p in pool + {q} && Inside(p, k) && TermAt(p, k) == n.currentTerm ensures k <= Last(n) {
        if p == q { assert HasLike(q, k, pool); }
      }
    }
  }

  /** A step that keeps the log of peer `i`. */
  lemma SameLogs<C>(y: System<C>, z: System<C>, i: nat, pool: set<Piece<C>>)
    requires LogInv(y, pool) && i < |y.nodes| == |z.nodes| && z.nodes == y.nodes[i := z.nodes[i]]
    requires PieceOf(z.nodes[i]) == PieceOf(y.nodes[i]) && z.leaders == y.leaders
    requires z.nodes[i].state == Leader ==>
      y.nodes[i].state == Leader && z.nodes[i].currentTerm == y.nodes[i].currentTerm
    requires forall m :: m in z.messages && m !in y.messages ==> MessageOk(m, pool, y.leaders)
    ensures LogInv(z, pool)
  {
    hide Agree, MessageOk, LedBy;
    var q := PieceOf(z.nodes[i]);
    assert PieceOf(y.nodes[i]) in pool;
    assert Derived(q, pool) by {
      forall k | Inside(q, k) ensures HasLike(q, k, pool) {}
    }
    QuietLogs(y, z, i, pool);
    assert pool + {q} == pool;
  }

  /** Nobody has made an entry of the term that `i` has just won. */
  lemma WinLogs<C>(y: System<C>, z: System<C>, i: nat, pool: set<Piece<C>>)
    requires LogInv(y, pool) && ElectionInv(y) && ElectionInv(z)
    requires i < |y.nodes| == |z.nodes| && z.nodes == y.nodes[i := z.nodes[i]]
    requires var n, m := y.nodes[i], z.nodes[i];
      n.state == Candidate && m.state == Leader && m.currentTerm == n.currentTerm && PieceOf(m) == PieceOf(n)
    requires z.leaders == y.leaders + {Stamp(i, y.nodes[i].currentTerm)}
    requires z.messages == y.messages
    ensures LogInv(z, pool)
  {
    FirstWin(y, z, i);
    hide Agree, ElectionInv;
    var term := y.nodes[i].currentTerm;
    forall j | 0 <= j < |z.nodes| ensures Foremost(z.nodes[j], pool) {
      assert Foremost(y.nodes[j], pool);
      if j == i {
        forall p, k | p in pool && Inside(p, k) ensures TermAt(p, k) != term {
          assert LedBy(y.leaders, TermAt(p, k), -1);
        }
      }
    }
    forall m | m in z.messages ensures MessageOk(m, pool, z.leaders) {
      MessageMore(m, pool, pool, y.leaders, z.leaders);
    }
    assert PoolOk(pool, z.leaders) by {
      forall p, k | p in pool && Inside(p, k) ensures LedBy(z.leaders, TermAt(p, k), -1) {
        assert LedBy(y.leaders, TermAt(p, k), -1);
      }
    }
    hide MessageOk, LedBy, Foremost;
  }

  lemma FirstWin<C>(y: System<C>, z: System<C>, i: nat)
    requires ElectionInv(y) && ElectionInv(z) && i < |y.nodes|
    requires y.nodes[i].state == Candidate && z.leaders == y.leaders + {Stamp(i, y.nodes[i].currentTerm)}
    ensures forall j: nat :: Stamp(j, y.nodes[i].currentTerm) !in y.leaders
  {
    var term := y.nodes[i].currentTerm;
    assert Stamp(i, term) !in y.leaders;
    forall j: nat ensures Stamp(j, term) !in y.leaders {
      if Stamp(j, term) in y.leaders { ElectionSafety(z, Stamp(j, term), Stamp(i, term)); }
    }
  }

  /** A leader's new entry is the first one of its term at its index. */
  lemma SubmitLogs<C>(y: System<C>, z: System<C>, i: nat, entry: Entry<C>, pool: set<Piece<C>>)
    requires LogInv(y, pool) && ElectionInv(y)
    requires i < |y.nodes| == |z.nodes| && z.nodes == y.nodes[i := z.nodes[i]]
    requires var n, m := y.nodes[i], z.nodes[i];
      && n.state == m.state == Leader && m.currentTerm == n.currentTerm == entry.term
      && PieceOf(m) == Piece(n.lastIncludedIndex, n.logs + [entry])
    requires z.messages == y.messages && z.leaders == y.leaders
    ensures LogInv(z, pool + {PieceOf(z.nodes[i])})
  {
    var n, a, q := y.nodes[i], PieceOf(y.nodes[i]), PieceOf(z.nodes[i]);
    assert Stamp(i, entry.term) in y.leaders;
    assert LedBy(y.leaders, entry.term, -1);
    hide LedBy, Agree, MessageOk;
    assert Foremost(n, pool) && a in pool;
    forall b | b in pool ensures Agree(q, b) { LongerAgrees(a, entry, b); }
    forall k | Inside(q, k) ensures LedBy(z.leaders, TermAt(q, k), -1) {
      if k <= Last(n) { assert Inside(a, k) && TermAt(a, k) == TermAt(q, k); }
    }
    PoolMore(pool, z.leaders, q);
    forall j | 0 <= j < |z.nodes| ensures Foremost(z.nodes[j], pool + {q}) { SubmitForemost(y, z, i, entry, pool, j); }
    hide PoolOk, Foremost, ElectionInv;
    forall m | m in z.messages ensures MessageOk(m, pool + {q}, z.leaders) {
      MessageMore(m, pool, pool + {q}, y.leaders, z.leaders);
    }
  }

  lemma SubmitForemost<C>(y: System<C>, z: System<C>, i: nat, entry: Entry<C>, pool: set<Piece<C>>, j: nat)
    requires NodesIn(y.nodes, pool) && ElectionInv(y) && j < |z.nodes|
    requires i < |y.nodes| == |z.nodes| && z.nodes == y.nodes[i := z.nodes[i]]
    requires Foremost(y.nodes[i], pool) && Foremost(y.nodes[j], pool)
    requires var n, m := y.nodes[i], z.nodes[i];
      && n.state == m.state == Leader && m.currentTerm == n.currentTerm == entry.term
      && PieceOf(m) == Piece(n.lastIncludedIndex, n.logs + [entry])
    ensures Foremost(z.nodes[j], pool + {PieceOf(z.nodes[i])})
  {
    var a, q := PieceOf(y.nodes[i]), PieceOf(z.nodes[i]);
    if z.nodes[j].state == Leader {
      if j != i && z.nodes[j].currentTerm == entry.term {
        assert Stamp(i, entry.term) in y.leaders && Stamp(j, entry.term) in y.leaders;
        ElectionSafety(y, Stamp(i, entry.term), Stamp(j, entry.term));
        assert false;
      }
      hide ElectionInv;
      forall p, k | p in pool + {q} && Inside(p, k) && TermAt(p, k) == z.nodes[j].currentTerm
        ensures k <= Last(z.nodes[j])
      {
        if p == q && k <= Last(y.nodes[i]) { assert Inside(a, k) && TermAt(a, k) == TermAt(q, k) && a in pool; }
      }
    }
  }

  lemma SubmitStep<C>(y: System<C>, i: nat, command: C, pool: set<Piece<C>>) returns (more: set<Piece<C>>)
    requires LogInv(y, pool) && ElectionInv(y) && Enabled(y, Submit(i, command))
    ensures LogInv(Next(y, Submit(i, command)), more)
  {
    hide ElectionInv, LogInv;
    var z, n := Next(y, Submit(i, command)), y.nodes[i];
    if n.state == Leader {
      more := pool + {PieceOf(z.nodes[i])};
      SubmitLogs(y, z, i, Entry(n.currentTerm, Some(command)), pool);
    } else {
      more := pool;
      SameLogs(y, z, i, pool);
    }
  }

  /** What AppendEntries makes of the log. */
  lemma AppendPiece<C>(n: Node<C>, args: AppendArgs<C>, pool: set<Piece<C>>)
    requires |n.logs| > 0 && PieceOf(n) in pool && (forall a, b :: a in pool && b in pool ==> Agree(a, b))
    requires exists p :: p in pool && Stretch(p, args)
    ensures var q := PieceOf(OnAppendEntries(n, args).0); (forall b :: b in pool ==> Agree(q, b)) && Derived(q, pool)
  {
    hide Agree, Merge, Stretch, Glued, Derived, Rejection;
    var p :| p in pool && Stretch(p, args);
    var a, q := PieceOf(n), PieceOf(OnAppendEntries(n, args).0);
    if args.term >= n.currentTerm && Matches(SteppedDown(n, args.term), args) {
      var m := MergeGlues(a, p, args);
      if q != a {
        hide OnAppendEntries;
        forall b | b in pool ensures Agree(q, b) { GluedAgrees(q, a, p, m, b); }
        GluedDerived(q, a, p, m, pool);
      } else {
        SelfDerived(a, pool);
      }
    } else {
      SelfDerived(a, pool);
    }
  }

  lemma SelfDerived<C>(a: Piece<C>, pool: set<Piece<C>>)
    requires a in pool
    ensures Derived(a, pool)
  {
    forall k | Inside(a, k) ensures HasLike(a, k, pool) {}
  }

  lemma GluedDerived<C>(g: Piece<C>, a: Piece<C>, p: Piece<C>, m: int, pool: set<Piece<C>>)
    requires Glued(g, a, p, m) && a in pool && p in pool
    ensures Derived(g, pool)
  {
    forall k | Inside(g, k) ensures HasLike(g, k, pool) {
      if k <= m {
        assert Inside(a, k) && TermAt(a, k) == TermAt(g, k);
      } else {
        assert Inside(p, k) && TermAt(p, k) == TermAt(g, k);
      }
    }
  }

  lemma AppendLogs<C>(y: System<C>, i: nat, args: AppendArgs<C>, pool: set<Piece<C>>) returns (more: set<Piece<C>>)
    requires LogInv(y, pool) && Enabled(y, Append(i, args))
    ensures LogInv(Next(y, Append(i, args)), more)
  {
    var z, n := Next(y, Append(i, args)), y.nodes[i];
    assert MessageOk(AppendRequest(i, args), pool, y.leaders);
    hide Agree, Stretch, LedBy;
    AppendPiece(n, args, pool);
    AppendRole(n, args);
    hide OnAppendEntries, Derived, LogInv;
    more := pool + {PieceOf(z.nodes[i])};
    QuietLogs(y, z, i, pool);
  }

  lemma AppendRole<C>(n: Node<C>, args: AppendArgs<C>)
    requires |n.logs| > 0
    ensures var m := OnAppendEntries(n, args).0; |m.logs| > 0 && (m.state == Leader ==> m == n)
  {
  }

  /** What trimming makes of the log, at an index that the log has. */
  lemma TrimmedPiece<C>(n: Node<C>, index: int, pool: set<Piece<C>>)
    requires n.lastIncludedIndex < index <= Last(n) && PieceOf(n) in pool
    requires forall b :: b in pool ==> Agree(PieceOf(n), b)
    ensures var q := Piece(index, Trimmed(n, index));
      |q.logs| == Last(n) + 1 - index && (forall b :: b in pool ==> Agree(q, b)) && Derived(q, pool)
  {
    var a, q := PieceOf(n), Piece(index, Trimmed(n, index));
    hide Agree;
    forall b | b in pool ensures Agree(q, b) { SuffixAgrees(a, q, b); }
    forall k | Inside(q, k) ensures HasLike(q, k, pool) { assert Inside(a, k) && TermAt(a, k) == TermAt(q, k); }
  }

  lemma SinglePiece<C>(q: Piece<C>, pool: set<Piece<C>>)
    requires |q.logs| == 1
    ensures (forall b :: b in pool ==> Agree(q, b)) && Derived(q, pool)
  {
    forall b | b in pool ensures Agree(q, b) { SingleAgrees(q, b); }
  }

  lemma TrimLogs<C>(y: System<C>, i: nat, index: int, data: string, pool: set<Piece<C>>) returns (more: set<Piece<C>>)
    requires LogInv(y, pool) && Enabled(y, Trim(i, index, data))
    ensures LogInv(Next(y, Trim(i, index, data)), more)
  {
    var z, n := Next(y, Trim(i, index, data)), y.nodes[i];
    var q := PieceOf(z.nodes[i]);
    assert PieceOf(n) in pool && forall b :: b in pool ==> Agree(PieceOf(n), b);
    hide Agree, MessageOk;
    if index <= n.lastIncludedIndex {
      SelfDerived(q, pool);
    } else if index <= Last(n) {
      TrimmedPiece(n, index, pool);
    } else {
      SinglePiece(q, pool);
    }
    hide Trimmed, Derived, LogInv;
    more := pool + {q};
    QuietLogs(y, z, i, pool);
  }

  /** What a leader's snapshot makes of the log of a peer that is not leader of the same term. */
  lemma InstallPiece<C>(n: Node<C>, args: SnapshotArgs, pool: set<Piece<C>>)
    requires |n.logs| > 0 && PieceOf(n) in pool && (forall b :: b in pool ==> Agree(PieceOf(n), b))
    requires n.state == Leader ==> n.currentTerm != args.term
    ensures var m := OnInstallSnapshot(n, args).0;
      && |m.logs| > 0 && (m.state == Leader ==> m == n)
      && (forall b :: b in pool ==> Agree(PieceOf(m), b)) && Derived(PieceOf(m), pool)
  {
    var q, index := PieceOf(OnInstallSnapshot(n, args).0), args.lastIncludedIndex;
    hide Agree, Derived, Trimmed;
    SelfDerived(PieceOf(n), pool);
    if args.term >= n.currentTerm && index > n.commitIndex {
      if n.lastIncludedIndex < index <= Last(n) && LogTerm(n, index) == args.lastIncludedTerm {
        TrimmedPiece(n, index, pool);
        SameTrimmed(n, args.term, index);
      } else {
        SinglePiece(Piece(index, [Entry(args.lastIncludedTerm, None)]), pool);
      }
    }
  }

  lemma SameTrimmed<C>(n: Node<C>, term: int, index: int)
    requires n.lastIncludedIndex < index <= Last(n)
    ensures Trimmed(SteppedDown(n, term), index) == Trimmed(n, index)
  {
  }

  /** A leader's snapshot never reaches the leader of the same term: there is only one. */
  lemma NotToLeader<C>(y: System<C>, i: nat, args: SnapshotArgs)
    requires ElectionInv(y) && i < |y.nodes| && LedBy(y.leaders, args.term, i)
    ensures y.nodes[i].state == Leader ==> y.nodes[i].currentTerm != args.term
  {
    if y.nodes[i].state == Leader && y.nodes[i].currentTerm == args.term {
      var j: nat :| j != i && Stamp(j, args.term) in y.leaders;
      assert Stamp(i, args.term) in y.leaders;
      ElectionSafety(y, Stamp(i, args.term), Stamp(j, args.term));
    }
  }

  lemma InstallLogs<C>(y: System<C>, i: nat, args: SnapshotArgs, pool: set<Piece<C>>) returns (more: set<Piece<C>>)
    requires LogInv(y, pool) && ElectionInv(y) && Enabled(y, Install(i, args))
    ensures LogInv(Next(y, Install(i, args)), more)
  {
    hide ElectionInv, OnInstallSnapshot, Agree, Derived, LedBy;
    var z, n := Next(y, Install(i, args)), y.nodes[i];
    assert MessageOk(SnapshotRequest(i, args), pool, y.leaders);
    NotToLeader(y, i, args);
    InstallPiece(n, args, pool);
    hide LogInv;
    more := pool + {PieceOf(z.nodes[i])};
    QuietLogs(y, z, i, pool);
  }

  /** What a leader sends is a stretch of its log, or bears its term. */
  lemma OfferSent<C>(y: System<C>, i: nat, server: nat, pool: set<Piece<C>>, m: Message<C>)
    requires LogInv(y, pool) && ElectionInv(y) && Enabled(y, Offer(i, server))
    requires m in Outgoing(server, OnSend(y.nodes[i], i, server).1)
    ensures MessageOk(m, pool, y.leaders)
  {
    var n := y.nodes[i];
    assert Stamp(i, n.currentTerm) in y.leaders && PieceOf(n) in pool;
    hide LogInv, ElectionInv;
    if m.AppendRequest? { assert Stretch(PieceOf(n), m.a); }
  }

  lemma OfferLogs<C>(y: System<C>, i: nat, server: nat, pool: set<Piece<C>>)
    requires LogInv(y, pool) && ElectionInv(y) && Enabled(y, Offer(i, server))
    ensures LogInv(Next(y, Offer(i, server)), pool)
  {
    var z := Next(y, Offer(i, server));
    forall m | m in z.messages && m !in y.messages ensures MessageOk(m, pool, y.leaders) {
      OfferSent(y, i, server, pool, m);
    }
    OfferRole(y.nodes[i], i, server);
    hide LogInv, ElectionInv, OnSend, MessageOk;
    SameLogs(y, z, i, pool);
  }

  lemma OfferRole<C>(n: Node<C>, me: nat, server: nat)
    requires server < |n.nextIndex| && |n.logs| > 0
    ensures var m := OnSend(n, me, server).0;
      PieceOf(m) == PieceOf(n) && m.state == n.state && m.currentTerm == n.currentTerm
  {
  }

  /** The events that touch no log. */
  predicate Idle<C>(e: Event<C>) {
    e.Election? || e.Vote? || e.Learn? || e.LearnSnapshot? || e.Apply? || e.Crash?
  }

  lemma IdleEvent<C>(y: System<C>, e: Event<C>)
    requires NodesOk(y) && Enabled(y, e) && Idle(e)
    ensures var z, n, m := Next(y, e), y.nodes[e.i], Next(y, e).nodes[e.i];
      && |z.nodes| == |y.nodes| && z.nodes == y.nodes[e.i := m] && z.leaders == y.leaders && PieceOf(m) == PieceOf(n)
      && (m.state == Leader ==> n.state == Leader && m.currentTerm == n.currentTerm)
      && (forall m :: m in z.messages && m !in y.messages ==> !m.AppendRequest? && !m.SnapshotRequest?)
  {
    hide LogTerm, EndOf;
    assert NodeOk(y.nodes[e.i], |y.nodes|);
  }

  lemma IdleLogs<C>(y: System<C>, e: Event<C>, pool: set<Piece<C>>)
    requires LogInv(y, pool) && NodesOk(y) && Enabled(y, e) && Idle(e)
    ensures LogInv(Next(y, e), pool)
  {
    IdleEvent(y, e);
    hide NodesOk, Next, LogInv;
    SameLogs(y, Next(y, e), e.i, pool);
  }

  lemma CountLogs<C>(y: System<C>, e: Event<C>, pool: set<Piece<C>>)
    requires LogInv(y, pool) && ElectionInv(y) && Enabled(y, e) && e.Count? && ElectionInv(Next(y, e))
    ensures LogInv(Next(y, e), pool)
  {
    hide ElectionInv, Next, OnVoteReply, LogInv, EndOf;
    CountFacts(y, e.i, e.server, e.term, e.reply);
    var z, n := Next(y, e), y.nodes[e.i];
    if n.state != Leader && z.nodes[e.i].state == Leader {
      WinLogs(y, z, e.i, pool);
    } else {
      SameLogs(y, z, e.i, pool);
    }
  }

  lemma StepLogs<C>(y: System<C>, e: Event<C>, pool: set<Piece<C>>) returns (more: set<Piece<C>>)
    requires LogInv(y, pool) && ElectionInv(y) && Enabled(y, e) && ElectionInv(Next(y, e))
    ensures LogInv(Next(y, e), more)
  {
    more := pool;
    assert NodesOk(y);
    hide LogInv, ElectionInv, Next, NodesOk;
    match e
    case Count(_, _, _, _) => CountLogs(y, e, pool);
    case Append(i, args) => more := AppendLogs(y, i, args, pool);
    case Install(i, args) => more := InstallLogs(y, i, args, pool);
    case Trim(i, index, data) => more := TrimLogs(y, i, index, data, pool);
    case Offer(i, server) => OfferLogs(y, i, server, pool);
    case Submit(i, command) => more := SubmitStep(y, i, command, pool);
    case _ => IdleLogs(y, e, pool);
  }

  lemma InitialOk<C>(y: System<C>) returns (pool: set<Piece<C>>)
    requires Initial(y)
    ensures LogInv(y, pool)
  {
    pool := {Piece(0, [Entry(0, None)])};
    forall a: Piece<C>, b | a in pool && b in pool ensures Agree(a, b) { SingleAgrees(a, b); }
  }

  lemma {:induction false} Reachable<C>(run: seq<System<C>>, events: seq<Event<C>>, i: nat)
      returns (pool: set<Piece<C>>)
    requires RaftCluster.IsRun(run, events) && NoLateVotes(run, events) && i < |run|
    ensures LogInv(run[i], pool)
  {
    hide ElectionInv, LogInv, Next, Initial, Enabled, NoLateVote;
    if i == 0 {
      pool := InitialOk(run[0]);
    } else {
      pool := Reachable(run, events, i - 1);
      RaftCluster.Reachable(run, events, i - 1);
      RaftCluster.Reachable(run, events, i);
      pool := StepLogs(run[i - 1], events[i - 1], pool);
    }
  }

  /** In every run without late votes, two logs with the same term at an index hold the same entries up to it, as
      far as neither has given them up for a snapshot. */
  lemma LogMatching<C>(run: seq<System<C>>, events: seq<Event<C>>, i: nat, a: nat, b: nat, k: int, j: int)
    requires RaftCluster.IsRun(run, events) && NoLateVotes(run, events)
    requires i < |run| && a < |run[i].nodes| && b < |run[i].nodes|
    requires var p, q := run[i].nodes[a], run[i].nodes[b];
      && |p.logs| > 0 && |q.logs| > 0
      && p.lastIncludedIndex < j <= k <= Last(p) && q.lastIncludedIndex < j <= k <= Last(q)
      && LogTerm(p, k) == LogTerm(q, k)
    ensures var p, q := run[i].nodes[a], run[i].nodes[b];
      p.logs[j - p.lastIncludedIndex] == q.logs[j - q.lastIncludedIndex]
  {
    var pool := Reachable(run, events, i);
    hide RaftCluster.IsRun;
    var p, q := PieceOf(run[i].nodes[a]), PieceOf(run[i].nodes[b]);
    assert Agree(p, q);
    AgreeHere(p, q, k, j);
  }
}
