/** The linearizability checker: a depth-first search over the linked event list with an undo
    stack and a memo table. */
module Checker {
  import opened Options
  import opened Linearizability
  import opened Histories
  import opened Bitset
  import opened Counting
  import opened EventList
  import opened EventListBuild
  import opened Search

  datatype CallsEntry<S, V(0)> = CallsEntry(entry: Node<V>, state: S)

  /** The memo table, as buckets by hash. */
  type Cache<S> = map<Hash64, seq<Config<S>>>

  ghost predicate Contains<S>(cache: Cache<S>, c: Config<S>) {
    HashOf(c.words) in cache && c in cache[HashOf(c.words)]
  }

  /** The table holds exactly the configurations in `all`. */
  ghost predicate Holds<S(!new)>(cache: Cache<S>, all: set<Config<S>>) {
    forall c :: c in all <==> Contains(cache, c)
  }

  method CacheContains<S(==)>(cache: Cache<S>, entry: Config<S>) returns (r: bool)
    ensures r <==> Contains(cache, entry)
  {
    var hash := Hash(entry.words);
    var bucket := if hash in cache then cache[hash] else [];
    for i := 0 to |bucket|
      invariant entry !in bucket[..i]
    {
      var same := Equals(entry.words, bucket[i].words);
      if same && entry.state == bucket[i].state {
        return true;
      }
    }
    assert bucket == bucket[..|bucket|];
    return false;
  }

  lemma AddedToBucket<S>(cache: Cache<S>, entry: Config<S>, r: Cache<S>, c: Config<S>)
    requires var k := HashOf(entry.words); r == cache[k := (if k in cache then cache[k] else []) + [entry]]
    ensures Contains(r, c) <==> Contains(cache, c) || c == entry
  {
    hide HashOf;
    var k := HashOf(entry.words);
    var bucket := if k in cache then cache[k] else [];
    assert r[k] == bucket + [entry];
    assert c in bucket + [entry] <==> c in bucket || c == entry;
  }

  method CacheAdd<S(==, !new)>(cache: Cache<S>, entry: Config<S>, ghost all: set<Config<S>>) returns (r: Cache<S>)
    requires Holds(cache, all)
    ensures Holds(r, all + {entry})
  {
    var hash := Hash(entry.words);
    var bucket := if hash in cache then cache[hash] else [];
    r := cache[hash := bucket + [entry]];
    forall c ensures Contains(r, c) <==> c in all || c == entry {
      AddedToBucket(cache, entry, r, c);
    }
  }

  /** The node indices of the events still in the list when the operations in `done` are lifted. */
  ghost function Active<V>(h: seq<Entry<V>>, done: set<int>): (r: set<nat>) {
    set i: nat | i <= |h| && IsActive(h, done, i)
  }

  ghost predicate IsActive<V>(h: seq<Entry<V>>, done: set<int>, i: nat)
    requires i <= |h|
  {
    i == 0 || h[i - 1].id !in done
  }

  ghost function Whole(len: nat): (r: Links) {
    Links(seq(len, i => i + 1), seq(len, i => if i > 0 then i - 1 else 0))
  }

  /** The pointers after each step down the stack, the last being those of now. */
  ghost predicate Undo<S, V>(t: Task<S, V>, s: State<S>, links: seq<Links>)
    requires t.Valid() && t.Path(s.ids, s.configs)
  {
    && |links| == |s.configs|
    && (forall j :: 0 <= j < |links| ==>
      |links[j].next| == |t.h| + 1 && links[j].Chain(Active(t.h, Members(s.configs[j].words))))
    && (forall j :: 0 <= j < |s.ids| ==> Lifts(t, links[j], links[j + 1], s.ids[j]))
  }

  ghost predicate Lifts<S, V>(t: Task<S, V>, a: Links, b: Links, p: int) {
    var c, r := CallPos(t.h, p) + 1, RetPos(t.h, p) + 1;
    && a.Sized(|t.h| + 1) && b.Sized(|t.h| + 1) && c < r <= |t.h|
    && b == a.Lift(c, r) && b.Unlift(c, r) == a && b.next[c] <= |t.h|
  }

  lemma WholeChain<S, V>(t: Task<S, V>)
    requires t.Valid()
    ensures Undo(t, State([], [t.Root()], {}, 0), [Whole(|t.h| + 1)])
  {
    hide Bit;
    MembersOfZeros(t.chunks);
  }

  lemma ActiveAfter<S, V>(t: Task<S, V>, c: Config<S>, p: int)
    requires t.Valid() && t.CanTake(c, p)
    ensures Active(t.h, Members(t.Take(c, p).words))
         == Active(t.h, Members(c.words)) - {CallPos(t.h, p) + 1, RetPos(t.h, p) + 1}
    ensures CallPos(t.h, p) + 1 in Active(t.h, Members(c.words)) && RetPos(t.h, p) + 1 in Active(t.h, Members(c.words))
  {
    hide Members;
    t.TakeMembers(c, p);
    FindFirst(t.h, p, false);
    FindFirst(t.h, p, true);
    forall i | 0 <= i < |t.h| && t.h[i].id == p ensures i == CallPos(t.h, p) || i == RetPos(t.h, p) {
      assert i == Find(t.h, p, t.h[i].isReturn);
    }
  }

  /** Where the list pointer of an active node leads: over events of lifted operations only. */
  lemma GapNext<S, V>(t: Task<S, V>, c: Config<S>, l: Links, i: nat)
    requires t.Valid() && |l.next| == |t.h| + 1 && l.Chain(Active(t.h, Members(c.words)))
    requires i in Active(t.h, Members(c.words))
    ensures i < l.next[i] <= |t.h| + 1 && t.Gap(c, i - 1, l.next[i] - 1)
    ensures l.next[i] <= |t.h| ==> t.h[l.next[i] - 1].id !in Members(c.words)
  {
    hide Members;
    forall j | 0 <= j && i - 1 < j < l.next[i] - 1 ensures t.h[j].id in Members(c.words) {
      assert j + 1 !in Active(t.h, Members(c.words));
    }
    assert l.next[i] <= |t.h| ==> l.next[i] in Active(t.h, Members(c.words));
  }

  /** The list behind an event is not at its end as long as the operation's return is linked. */
  lemma NextBefore<V>(h: seq<Entry<V>>, done: set<int>, l: Links, i: nat, j: nat)
    requires |l.next| == |h| + 1 && l.Chain(Active(h, done))
    requires i in Active(h, done) && j in Active(h, done) && i < j
    ensures l.next[i] <= j
  {
  }

  ghost function Lifted<S, V>(t: Task<S, V>, l: Links, p: int): (r: Links)
    requires t.Valid() && 0 <= p < t.n && l.Sized(|t.h| + 1)
    ensures r.Sized(|t.h| + 1)
  {
    l.Lift(CallPos(t.h, p) + 1, RetPos(t.h, p) + 1)
  }

  lemma LiftStep<S, V>(t: Task<S, V>, c: Config<S>, l: Links, p: int)
    requires t.Valid() && t.CanTake(c, p)
    requires |l.next| == |t.h| + 1 && l.Chain(Active(t.h, Members(c.words)))
    ensures 0 <= p < t.n && l.Sized(|t.h| + 1) && Lifts(t, l, Lifted(t, l, p), p)
    ensures Lifted(t, l, p).Chain(Active(t.h, Members(t.Take(c, p).words)))
    ensures l.next[CallPos(t.h, p) + 1] <= |t.h|
  {
    hide Members, t.Take, Active, l.Chain, l.Lift, l.Unlift, l.Sized;
    var i, j := CallPos(t.h, p) + 1, RetPos(t.h, p) + 1;
    ActiveAfter(t, c, p);
    l.ChainLift(Active(t.h, Members(c.words)), i, j);
  }

  lemma UndoPush<S, V>(t: Task<S, V>, s: State<S>, links: seq<Links>, p: int, to: nat)
    requires t.Inv(s) && Undo(t, s, links) && t.CanTake(s.Top(), p)
    ensures 0 <= p < t.n && t.Path(s.ids + [p], s.configs + [t.Take(s.Top(), p)])
    ensures links[|s.ids|].Sized(|t.h| + 1)
    ensures Undo(t, s.Push(p, t.Take(s.Top(), p), to), links + [Lifted(t, links[|s.ids|], p)])
    ensures links[|s.ids|].next[CallPos(t.h, p) + 1] <= |t.h|
  {
    hide Members, t.Take, t.CanTake, t.Levels, t.OnStack, t.Closed, t.Tried, t.NoneFull, t.Passed, Active, Lifts,
      Lifted, WellFormed;
    t.InRange(s.Top(), p);
    t.PathExtend(s.ids, s.configs, p);
    LiftStep(t, s.Top(), links[|s.ids|], p);
  }

  /** The undo stack holds the nodes of the operations taken and the states they were taken in. */
  ghost predicate Stacked<S, V(0)>(t: Task<S, V>, s: State<S>, calls: seq<CallsEntry<S, V>>, nodes: seq<Node<V>>)
    requires t.Valid() && t.Path(s.ids, s.configs) && |nodes| == |t.h| + 1
  {
    && |calls| == |s.ids|
    && forall j :: 0 <= j < |calls| ==>
      && 0 <= s.ids[j] < t.n
      && calls[j].entry == nodes[CallPos(t.h, s.ids[j]) + 1]
      && calls[j].entry.id == s.ids[j]
      && calls[j].state == s.configs[j].state
  }

  method Ids<S, V(0)>(calls: seq<CallsEntry<S, V>>) returns (ids: seq<int>)
    ensures |ids| == |calls| && forall j :: 0 <= j < |calls| ==> ids[j] == calls[j].entry.id
  {
    ids := [];
    for i := 0 to |calls|
      invariant |ids| == i && forall j :: 0 <= j < i ==> ids[j] == calls[j].entry.id
    {
      ids := ids + [calls[i].entry.id];
    }
  }

  ghost predicate Grown(longest: seq<Option<seq<int>>>, r: seq<Option<seq<int>>>) {
    |r| == |longest| && forall i :: 0 <= i < |longest| && longest[i].Some? ==>
      r[i].Some? && |r[i].value| >= |longest[i].value|
  }

  ghost predicate Covers(r: seq<Option<seq<int>>>, id: int, len: nat) {
    0 <= id < |r| ==> r[id].Some? && |r[id].value| >= len
  }

  /** Notes the stack for each of its operations whose recorded sequence is shorter. */
  method RecordLongest<S, V(0)>(calls: seq<CallsEntry<S, V>>, longest: seq<Option<seq<int>>>, ghost t: Task<S, V>,
      ghost ids: seq<int>)
    returns (r: seq<Option<seq<int>>>)
    requires t.Valid() && t.Sound(longest) && Partial(t.m, t.h, t.n, ids)
    requires |calls| == |ids| && forall j :: 0 <= j < |ids| ==> calls[j].entry.id == ids[j] && 0 <= ids[j] < t.n
    ensures t.Sound(r) && Grown(longest, r)
    ensures forall j :: 0 <= j < |ids| ==> Covers(r, ids[j], |ids|)
  {
    hide Partial;
    var callsLen := |calls|;
    var sq: Option<seq<int>> := None;
    r := longest;
    for i := 0 to |calls|
      invariant t.Sound(r) && Grown(longest, r)
      invariant sq == None || sq == Some(ids)
      invariant forall j :: 0 <= j < i ==> Covers(r, ids[j], |ids|)
    {
      var id := calls[i].entry.id;
      if r[id].None? || callsLen > |r[id].value| {
        if sq == None {
          var all := Ids(calls);
          assert all == ids;
          sq := Some(all);
        }
        assert ids[i] == id;
        r := r[id := sq];
      }
    }
  }

  lemma NotedGrown<S, V>(t: Task<S, V>, c: Config<S>, longest: seq<Option<seq<int>>>, r: seq<Option<seq<int>>>)
    requires t.Noted(c, longest) && Grown(longest, r)
    ensures t.Noted(c, r)
  {
    hide Members;
  }

  /** The stack is recorded for all the operations that its top has taken. */
  lemma TopNoted<S, V>(t: Task<S, V>, s: State<S>, r: seq<Option<seq<int>>>)
    requires t.Inv(s) && forall j :: 0 <= j < |s.ids| ==> Covers(r, s.ids[j], |s.ids|)
    ensures |s.configs| == |s.ids| + 1 && t.Noted(s.configs[|s.ids|], r)
  {
    hide Members, t.CanTake, t.Take, t.Tried, t.Levels, t.Closed, t.OnStack, t.NoneFull, t.Passed, WellFormed;
    t.PathMembers(s.ids, s.configs);
  }

  lemma RecordedPop<S, V>(t: Task<S, V>, s: State<S>, longest: seq<Option<seq<int>>>, r: seq<Option<seq<int>>>, to: nat)
    requires t.Inv(s) && s.ids != [] && t.Recorded(s, longest) && Grown(longest, r)
    requires forall j :: 0 <= j < |s.ids| ==> Covers(r, s.ids[j], |s.ids|)
    ensures t.Recorded(s.Pop(to), r)
  {
    hide t.Inv, t.Noted, Grown, Covers;
    TopNoted(t, s, r);
    var k := |s.ids|;
    assert s.configs == s.configs[..k] + [s.configs[k]];
    forall c | c in s.cache && c !in s.configs[..k] ensures t.Noted(c, r) {
      if c !in s.configs { NotedGrown(t, c, longest, r); }
    }
  }

  /** What the loop of the search maintains, apart from the pointers themselves. */
  ghost predicate SearchInv<S(!new), V(0)>(
    t: Task<S, V>, s: State<S>, links: seq<Links>, nodes: seq<Node<V>>,
    cache: Cache<S>, calls: seq<CallsEntry<S, V>>, words: seq<bv64>, state: S)
  {
    && t.Inv(s) && |nodes| == |t.h| + 1 && Carries(nodes[1..], t.h, t.n, 0)
    && Undo(t, s, links) && Holds(cache, s.cache) && Stacked(t, s, calls, nodes)
    && words == s.Top().words && state == s.Top().state
    && s.cur <= |t.h|
    && (s.cur < |t.h| ==> t.h[s.cur].id !in Members(s.Top().words))
    && (s.cur == |t.h| ==> links[|s.ids|].next[0] == |t.h| + 1)
  }

  /** The node of a call, as the search sees it. */
  ghost predicate IsCall<V(0)>(h: seq<Entry<V>>, n: nat, nodes: seq<Node<V>>, cur: nat, p: int)
    requires WellFormed(h, n) && |nodes| == |h| + 1 && 0 <= p < n
  {
    var r := RetPos(h, p);
    && cur == CallPos(h, p) && cur < r < |h|
    && nodes[cur + 1].id == p && nodes[cur + 1].partner == nodes[r + 1]
    && nodes[cur + 1].value == h[cur].value && nodes[r + 1].value == h[r].value
  }

  lemma CallNode<V(0)>(h: seq<Entry<V>>, n: nat, nodes: seq<Node<V>>, cur: nat)
    requires WellFormed(h, n) && |nodes| == |h| + 1 && Carries(nodes[1..], h, n, 0) && cur < |h|
    ensures nodes[cur + 1].partner == null <==> h[cur].isReturn
    ensures 0 <= h[cur].id < n && cur == Find(h, h[cur].id, h[cur].isReturn)
    ensures !h[cur].isReturn ==> IsCall(h, n, nodes, cur, h[cur].id)
  {
    hide Find;
    var p := h[cur].id;
    assert cur == Find(h, p, h[cur].isReturn);
    assert nodes[1..][cur] == nodes[cur + 1];
    var r := RetPos(h, p);
    assert nodes[1..][r] == nodes[r + 1];
  }

  /** An unlifted call reached by the scan may be taken next, as far as real time goes. */
  lemma CallReady<S, V>(t: Task<S, V>, s: State<S>)
    requires t.Inv(s) && s.cur < |t.h| && !t.h[s.cur].isReturn && t.h[s.cur].id !in Members(s.Top().words)
    ensures Ready(t.h, t.n, Members(s.Top().words), t.h[s.cur].id) && |s.Top().words| == t.chunks
  {
    hide Members, t.CanTake, t.Take, t.Tried, t.Levels, t.Closed, t.OnStack, t.NoneFull;
    t.PathMembers(s.ids, s.configs);
    var p := t.h[s.cur].id;
    assert s.cur == Find(t.h, p, false);
    forall q | 0 <= q < t.n && q !in Members(s.Top().words) ensures CallPos(t.h, p) < RetPos(t.h, q) {
      t.SameCall(p, q);
    }
  }

  /** Behind an unlifted call the list goes on. */
  lemma CallNext<S, V>(t: Task<S, V>, c: Config<S>, l: Links, p: int)
    requires t.Valid() && |l.next| == |t.h| + 1 && l.Chain(Active(t.h, Members(c.words)))
    requires 0 <= p < t.n && p !in Members(c.words)
    ensures CallPos(t.h, p) + 1 < l.next[CallPos(t.h, p) + 1] <= |t.h|
    ensures t.Gap(c, CallPos(t.h, p), l.next[CallPos(t.h, p) + 1] - 1)
    ensures t.h[l.next[CallPos(t.h, p) + 1] - 1].id !in Members(c.words)
  {
    hide Members;
    FindFirst(t.h, p, false);
    FindFirst(t.h, p, true);
    GapNext(t, c, l, CallPos(t.h, p) + 1);
    NextBefore(t.h, Members(c.words), l, CallPos(t.h, p) + 1, RetPos(t.h, p) + 1);
  }

  lemma Advanced<S(!new), V(0)>(t: Task<S, V>, s: State<S>, links: seq<Links>, nodes: seq<Node<V>>,
    cache: Cache<S>, calls: seq<CallsEntry<S, V>>, words: seq<bv64>, state: S)
    requires SearchInv(t, s, links, nodes, cache, calls, words, state)
    requires s.cur < |t.h| && !t.h[s.cur].isReturn
    requires t.CanTake(s.Top(), t.h[s.cur].id) ==> t.Take(s.Top(), t.h[s.cur].id) in s.cache
    ensures s.cur + 1 < links[|s.ids|].next[s.cur + 1] <= |t.h|
    ensures SearchInv(t, s.(cur := links[|s.ids|].next[s.cur + 1] - 1), links, nodes, cache, calls, words, state)
  {
    hide Members, t.CanTake, t.Take, t.Tried, t.Levels, t.Closed, t.OnStack, t.NoneFull, t.Passed, Holds, Carries,
      Active, Lifts;
    var p := t.h[s.cur].id;
    assert s.cur == Find(t.h, p, false);
    CallNext(t, s.Top(), links[|s.ids|], p);
    t.AdvanceKeeps(s, p, links[|s.ids|].next[s.cur + 1] - 1);
  }

  lemma Pushed<S(!new), V(0)>(t: Task<S, V>, s: State<S>, links: seq<Links>, nodes: seq<Node<V>>,
    cache: Cache<S>, calls: seq<CallsEntry<S, V>>, words: seq<bv64>, state: S, newCache: Cache<S>)
    requires SearchInv(t, s, links, nodes, cache, calls, words, state)
    requires s.cur < |t.h| && !t.h[s.cur].isReturn
    requires t.CanTake(s.Top(), t.h[s.cur].id) && t.Take(s.Top(), t.h[s.cur].id) !in s.cache
    requires Holds(newCache, s.cache + {t.Take(s.Top(), t.h[s.cur].id)})
    ensures 0 <= t.h[s.cur].id < t.n && links[|s.ids|].Sized(|t.h| + 1)
    ensures var p := t.h[s.cur].id; var c := t.Take(s.Top(), p); var l := Lifted(t, links[|s.ids|], p);
      && SearchInv(t, s.Push(p, c, l.next[0] - 1), links + [l], nodes, newCache,
           calls + [CallsEntry(nodes[s.cur + 1], state)], c.words, c.state)
      && |t.Levels(t.n) - (s.cache + {c})| < |t.Levels(t.n) - s.cache|
      && links[|s.ids|].next[s.cur + 1] <= |t.h|
  {
    hide Members, t.CanTake, t.Take, t.Tried, t.Levels, t.Closed, t.OnStack, t.NoneFull, t.Passed, Stacked, Holds,
      Carries, Active, Lifts, Lifted;
    var p := t.h[s.cur].id;
    assert s.cur == Find(t.h, p, false);
    var c, l := t.Take(s.Top(), p), Lifted(t, links[|s.ids|], p);
    var to := l.next[0] - 1;
    UndoPush(t, s, links, p, to);
    assert l == (links + [l])[|s.ids| + 1];
    HeadActive(t, c);
    GapNext(t, c, l, 0);
    t.PushKeeps(s, p, to);
    StackPush(t, s, calls, nodes, p, to);
    Shrinks(t.Levels(t.n), s.cache, c);
  }

  lemma HeadActive<S, V>(t: Task<S, V>, c: Config<S>)
    ensures 0 in Active(t.h, Members(c.words))
  {
    hide Members;
    assert IsActive(t.h, Members(c.words), 0);
  }

  lemma Shrinks<T>(a: set<T>, b: set<T>, x: T)
    requires x in a && x !in b
    ensures |a - (b + {x})| < |a - b|
  {
    assert a - (b + {x}) == (a - b) - {x};
  }

  lemma StackPush<S, V(0)>(t: Task<S, V>, s: State<S>, calls: seq<CallsEntry<S, V>>, nodes: seq<Node<V>>, p: int,
      to: nat)
    requires t.Inv(s) && |nodes| == |t.h| + 1 && Carries(nodes[1..], t.h, t.n, 0) && Stacked(t, s, calls, nodes)
    requires s.cur < |t.h| && !t.h[s.cur].isReturn && p == t.h[s.cur].id && t.CanTake(s.Top(), p)
    ensures t.Path(s.ids + [p], s.configs + [t.Take(s.Top(), p)])
    ensures Stacked(t, s.Push(p, t.Take(s.Top(), p), to), calls + [CallsEntry(nodes[s.cur + 1], s.Top().state)], nodes)
  {
    hide Members, t.CanTake, t.Take, t.Tried, t.Levels, t.Closed, t.OnStack, t.NoneFull, t.Passed, Carries, WellFormed;
    t.PathExtend(s.ids, s.configs, p);
    CallNode(t.h, t.n, nodes, s.cur);
  }

  /** Without the last call the search invariant holds again, and the bit set is as before the call. */
  ghost predicate IsPopped<S(!new), V(0)>(t: Task<S, V>, s: State<S>, links: seq<Links>, nodes: seq<Node<V>>,
    cache: Cache<S>, calls: seq<CallsEntry<S, V>>, words: seq<bv64>)
  {
    && t.Valid() && s.ids != [] && |s.configs| == |s.ids| + 1 == |links| && |calls| == |s.ids|
    && var k := |s.ids| - 1; var p := s.ids[k]; var l := links[k];
       && 0 <= p < t.n && |l.next| == |t.h| + 1 && CallPos(t.h, p) + 1 < l.next[CallPos(t.h, p) + 1] <= |t.h|
       && SearchInv(t, s.Pop(l.next[CallPos(t.h, p) + 1] - 1), links[..k + 1], nodes, cache, calls[..k],
            s.configs[k].words, s.configs[k].state)
       && p !in Members(s.configs[k].words) && p < 64 * |s.configs[k].words| == 64 * t.chunks
       && words == SetBit(s.configs[k].words, p)
  }

  lemma Popped<S(!new), V(0)>(t: Task<S, V>, s: State<S>, links: seq<Links>, nodes: seq<Node<V>>,
    cache: Cache<S>, calls: seq<CallsEntry<S, V>>, words: seq<bv64>, state: S)
    requires SearchInv(t, s, links, nodes, cache, calls, words, state)
    requires s.cur < |t.h| && t.h[s.cur].isReturn && s.ids != []
    ensures IsPopped(t, s, links, nodes, cache, calls, words)
  {
    hide Members, SetBit, t.Take, t.CanTake, t.Tried, t.Levels, t.Closed, t.OnStack, t.NoneFull, t.Passed, t.Gap;
    hide Holds, Carries, Active, Lifts, Stacked, Undo, WellFormed;
    Sizes(t, s, links, nodes, cache, calls, words, state);
    var k := |s.ids| - 1;
    LinkAt(t, s, links, k);
    var c, p, l := s.configs[k], s.ids[k], links[k];
    var q := t.h[s.cur].id;
    CallNode(t.h, t.n, nodes, s.cur);
    assert t.CanTake(c, p) && s.configs[k + 1] == t.Take(c, p);
    Takeable(t, c, p);
    CallNext(t, c, l, p);
    t.PopKeeps(s, q, l.next[CallPos(t.h, p) + 1] - 1);
    StackPop(t, s, links, calls, nodes, l.next[CallPos(t.h, p) + 1] - 1);
  }

  lemma StackPop<S, V(0)>(t: Task<S, V>, s: State<S>, links: seq<Links>, calls: seq<CallsEntry<S, V>>,
      nodes: seq<Node<V>>, to: nat)
    requires t.Valid() && t.Path(s.ids, s.configs) && |nodes| == |t.h| + 1 && s.ids != []
    requires Undo(t, s, links) && Stacked(t, s, calls, nodes)
    ensures t.Path(s.Pop(to).ids, s.Pop(to).configs)
    ensures Undo(t, s.Pop(to), links[..|s.ids|]) && Stacked(t, s.Pop(to), calls[..|s.ids| - 1], nodes)
  {
    hide Members, t.CanTake, t.Take, Active, Lifts, WellFormed;
    t.PathPrefix(s.ids, s.configs, |s.ids| - 1);
  }

  lemma LinkAt<S, V>(t: Task<S, V>, s: State<S>, links: seq<Links>, j: nat)
    requires t.Valid() && t.Path(s.ids, s.configs) && Undo(t, s, links) && j <= |s.ids|
    ensures |links| == |s.ids| + 1 && |links[j].next| == |t.h| + 1
    ensures links[j].Chain(Active(t.h, Members(s.configs[j].words)))
  {
    hide Members, t.CanTake, t.Take, Active, Lifts, WellFormed;
  }

  lemma Takeable<S, V>(t: Task<S, V>, c: Config<S>, p: int)
    requires t.Valid() && t.CanTake(c, p)
    ensures 0 <= p < t.n && p !in Members(c.words) && |c.words| == t.chunks && p < 64 * |c.words|
    ensures t.Take(c, p).words == SetBit(c.words, p)
  {
  }

  /** What the model says of the call looked at decides whether it can be taken. */
  lemma Decides<S(!new), V(0)>(t: Task<S, V>, s: State<S>, links: seq<Links>, nodes: seq<Node<V>>,
    cache: Cache<S>, calls: seq<CallsEntry<S, V>>, words: seq<bv64>, state: S)
    requires SearchInv(t, s, links, nodes, cache, calls, words, state)
    requires s.cur < |t.h| && !t.h[s.cur].isReturn
    ensures var p := t.h[s.cur].id;
      && 0 <= p < t.n && p < 64 * |words| && IsCall(t.h, t.n, nodes, s.cur, p)
      && var (ok, u) := t.m.step(state, nodes[s.cur + 1].value, nodes[RetPos(t.h, p) + 1].value);
      && (ok <==> t.CanTake(s.Top(), p))
      && (ok ==> t.Take(s.Top(), p) == Config(SetBit(words, p), u))
  {
    hide Members, SetBit, t.Tried, t.Levels, t.Closed, t.OnStack, t.NoneFull, t.Passed, Holds, Carries, Stacked, Undo;
    CallNode(t.h, t.n, nodes, s.cur);
    CallReady(t, s);
  }

  lemma Initially<S(!new), V(0)>(t: Task<S, V>, nodes: seq<Node<V>>, state: S)
    requires t.Valid() && |nodes| == |t.h| + 1 && Carries(nodes[1..], t.h, t.n, 0) && state == t.m.init
    ensures SearchInv(t, State([], [t.Root()], {}, 0), [Whole(|t.h| + 1)], nodes, map[], [], Zeros(t.chunks), state)
  {
    hide Bit;
    MembersOfZeros(t.chunks);
    WholeChain(t);
  }

  /** With nothing left in the list every operation is on the stack. */
  lemma Finished<S(!new), V(0)>(t: Task<S, V>, s: State<S>, links: seq<Links>, nodes: seq<Node<V>>,
    cache: Cache<S>, calls: seq<CallsEntry<S, V>>, words: seq<bv64>, state: S)
    requires SearchInv(t, s, links, nodes, cache, calls, words, state)
    requires links[|s.ids|].next[0] == |t.h| + 1
    ensures Partial(t.m, t.h, t.n, s.ids) && |s.ids| == t.n && IdSet(s.ids) == Indices(t.n)
  {
    hide Members, t.CanTake, t.Take, t.Tried, t.Levels, t.Closed, t.OnStack, t.NoneFull, t.Passed, Holds, Carries,
      Stacked, Undo, Partial, Active;
    t.PathPartial(s.ids, s.configs);
    t.PathMembers(s.ids, s.configs);
    LinkAt(t, s, links, |s.ids|);
    AllLifted(t, s.Top(), links[|s.ids|]);
    assert Members(words) == Indices(t.n);
  }

  lemma AllLifted<S, V>(t: Task<S, V>, c: Config<S>, l: Links)
    requires t.Valid() && |l.next| == |t.h| + 1 && l.Chain(Active(t.h, Members(c.words))) && l.next[0] == |t.h| + 1
    ensures Indices(t.n) <= Members(c.words)
  {
    hide Members, l.Chain, Active;
    HeadActive(t, c);
    GapNext(t, c, l, 0);
    forall id | id in Indices(t.n) ensures id in Members(c.words) {
      FindFirst(t.h, id, false);
      assert t.h[CallPos(t.h, id)].id in Members(c.words);
    }
  }

  ghost predicate IsComplete<S, V>(m: Model<S, V>, h: seq<Entry<V>>, n: nat, ids: seq<int>)
    requires WellFormed(h, n)
  {
    Partial(m, h, n, ids) && |ids| == n
  }

  ghost predicate AllAre(longest: seq<Option<seq<int>>>, ids: seq<int>) {
    forall i :: 0 <= i < |longest| ==> longest[i] == Some(ids)
  }

  /** A complete linearization is legal, contains every operation, and is as long as any. */
  lemma CompleteRecords<S, V>(m: Model<S, V>, h: seq<Entry<V>>, n: nat, ids: seq<int>, longest: seq<Option<seq<int>>>,
      chunks: nat)
    requires WellFormed(h, n) && Partial(m, h, n, ids) && |ids| == n && IdSet(ids) == Indices(n) && n <= 64 * chunks
    requires |longest| == n && forall i :: 0 <= i < n ==> longest[i] == Some(ids)
    ensures IsComplete(m, h, n, ids) && AllAre(longest, ids)
    ensures LegalRecords(m, h, n, longest) && LongestRecords(m, h, n, longest)
  {
    hide Members, Find;
    var t := Task(m, h, n, chunks);
    forall i | 0 <= i < n ensures i in ids {
      assert i in Indices(n);
    }
    forall other | Partial(m, h, n, other) ensures |other| <= n {
      var configs := t.PartialPath(other);
      t.PathMembers(other, configs);
    }
  }

  lemma Sizes<S(!new), V(0)>(t: Task<S, V>, s: State<S>, links: seq<Links>, nodes: seq<Node<V>>,
    cache: Cache<S>, calls: seq<CallsEntry<S, V>>, words: seq<bv64>, state: S)
    requires SearchInv(t, s, links, nodes, cache, calls, words, state)
    ensures t.Valid() && |nodes| == |t.h| + 1 && Carries(nodes[1..], t.h, t.n, 0) && s.cur <= |t.h|
    ensures |s.configs| == |s.ids| + 1 == |links| && |calls| == |s.ids|
    ensures |links[|s.ids|].next| == |t.h| + 1
    ensures words == s.Top().words && state == s.Top().state
    ensures Holds(cache, s.cache)
    ensures s.cur == |t.h| ==> links[|s.ids|].next[0] == |t.h| + 1
    ensures s.cur < |t.h| ==> t.h[s.cur].id !in Members(s.Top().words)
  {
    hide Members, t.CanTake, t.Take, t.Tried, t.Levels, t.Closed, t.OnStack, t.NoneFull, t.Passed, Active, Lifts,
      WellFormed;
  }

  lemma InTable<S(!new)>(cache: Cache<S>, all: set<Config<S>>, c: Config<S>)
    requires Holds(cache, all)
    ensures Contains(cache, c) <==> c in all
  {
  }

  /** Lifts the call and goes back to the start of the list. */
  method LiftCall<S, V(0)>(entry: Node<V>, headEntry: Node<V>, ghost t: Task<S, V>, ghost l: Links,
      ghost nodes: seq<Node<V>>, ghost p: int)
    returns (entry': Node?<V>)
    requires t.Valid() && 0 <= p < t.n && |nodes| == |t.h| + 1 && Stored(nodes, l)
    requires IsCall(t.h, t.n, nodes, CallPos(t.h, p), p) && entry == nodes[CallPos(t.h, p) + 1] && headEntry == nodes[0]
    requires l.next[CallPos(t.h, p) + 1] <= |t.h|
    modifies nodes
    ensures Stored(nodes, Lifted(t, l, p)) && entry' == At(nodes, Lifted(t, l, p).next[0])
  {
    hide Find, WellFormed, l.Lift, l.Unlink, l.Sized;
    Lift(entry, nodes, l, CallPos(t.h, p) + 1, RetPos(t.h, p) + 1);
    entry' := headEntry.next;
    assert nodes[0] == headEntry;
  }

  /** Puts the call on the stack and lifts it out of the list. */
  method Push<S(==, !new), V(0, !new)>(
    cache: Cache<S>, calls: seq<CallsEntry<S, V>>, linearized: array<bv64>, state: S, entry: Node<V>,
    headEntry: Node<V>,
    newCacheEntry: Config<S>, ghost t: Task<S, V>, ghost s: State<S>, ghost links: seq<Links>,
    ghost nodes: seq<Node<V>>)
    returns (cache': Cache<S>, calls': seq<CallsEntry<S, V>>, state': S, entry': Node?<V>, ghost s': State<S>,
        ghost links': seq<Links>)
    requires SearchInv(t, s, links, nodes, cache, calls, linearized[..], state)
    requires Stored(nodes, links[|s.ids|]) && headEntry == nodes[0]
    requires s.cur < |t.h| && !t.h[s.cur].isReturn && entry == nodes[s.cur + 1]
    requires t.CanTake(s.Top(), t.h[s.cur].id) && t.Take(s.Top(), t.h[s.cur].id) == newCacheEntry
    requires newCacheEntry !in s.cache
    modifies nodes, linearized
    ensures SearchInv(t, s', links', nodes, cache', calls', linearized[..], state')
    ensures Stored(nodes, links'[|s'.ids|]) && entry' == At(nodes, s'.cur + 1)
    ensures s'.cache == s.cache + {newCacheEntry} && s'.configs == s.configs + [newCacheEntry]
    ensures |t.Levels(t.n) - s'.cache| < |t.Levels(t.n) - s.cache|
  {
    hide Members, SetBit, Find, WellFormed, Holds, Lifted, Carries, Contains, SearchInv, Stored;
    hide t.CanTake, t.Take, t.Levels;
    Sizes(t, s, links, nodes, cache, calls, linearized[..], state);
    CallNode(t.h, t.n, nodes, s.cur);
    Takeable(t, s.Top(), t.h[s.cur].id);
    ghost var p := t.h[s.cur].id;
    cache' := CacheAdd(cache, newCacheEntry, s.cache);
    Pushed(t, s, links, nodes, cache, calls, linearized[..], state, cache');
    ghost var l := Lifted(t, links[|s.ids|], p);
    Set(linearized, entry.id);
    entry' := LiftCall(entry, headEntry, t, links[|s.ids|], nodes, p);
    calls' := calls + [CallsEntry(entry, state)];
    state' := newCacheEntry.state;
    s', links' := s.Push(p, newCacheEntry, l.next[0] - 1), links + [l];
    assert linearized[..] == newCacheEntry.words;
    assert links'[|s'.ids|] == l && s'.cur + 1 == l.next[0];
  }

  /** The loop's branch for a call: take it if the model allows it and it leads somewhere new,
      move on otherwise. */
  method Forward<S(==, !new), V(0, !new)>(
    cache: Cache<S>, calls: seq<CallsEntry<S, V>>, linearized: array<bv64>, state: S, entry: Node<V>,
    headEntry: Node<V>,
    model: Model<S, V>, ghost t: Task<S, V>, ghost s: State<S>, ghost links: seq<Links>, ghost nodes: seq<Node<V>>)
    returns (cache': Cache<S>, calls': seq<CallsEntry<S, V>>, state': S, entry': Node?<V>, ghost s': State<S>,
        ghost links': seq<Links>)
    requires SearchInv(t, s, links, nodes, cache, calls, linearized[..], state)
    requires Stored(nodes, links[|s.ids|]) && headEntry == nodes[0] && model == t.m
    requires s.cur < |t.h| && entry == nodes[s.cur + 1] && entry.partner != null
    modifies nodes, linearized
    ensures SearchInv(t, s', links', nodes, cache', calls', linearized[..], state')
    ensures |links'| == |s'.ids| + 1 == |s'.configs| && |calls'| == |s'.ids| && s'.cur <= |t.h|
    ensures Stored(nodes, links'[|s'.ids|]) && entry' == At(nodes, s'.cur + 1)
    ensures || (s'.cache == s.cache && s'.configs == s.configs && calls' == calls && s.cur < s'.cur)
            || (s'.cache == s.cache + {s'.Top()} && s'.configs == s.configs + [s'.Top()]
                && |t.Levels(t.n) - s'.cache| < |t.Levels(t.n) - s.cache|)
  {
    hide Members, SetBit, Find, WellFormed, Holds, Lifted, Carries, Contains, SearchInv, Stored;
    hide t.CanTake, t.Take, t.Levels;
    Sizes(t, s, links, nodes, cache, calls, linearized[..], state);
    StoredNext(nodes, links[|s.ids|], s.cur + 1);
    CallNode(t.h, t.n, nodes, s.cur);
    Decides(t, s, links, nodes, cache, calls, linearized[..], state);
    var matching := entry.partner;
    var (ok, newState) := model.step(state, entry.value, matching.value);
    if ok {
      var newLinearized := Clone(linearized);
      Set(newLinearized, entry.id);
      var newCacheEntry := Config(newLinearized[..], newState);
      var contained := CacheContains(cache, newCacheEntry);
      InTable(cache, s.cache, newCacheEntry);
      if !contained {
        cache', calls', state', entry', s', links' :=
          Push(cache, calls, linearized, state, entry, headEntry, newCacheEntry, t, s, links, nodes);
        Sizes(t, s', links', nodes, cache', calls', linearized[..], state');
        return;
      }
    }
    Advanced(t, s, links, nodes, cache, calls, linearized[..], state);
    cache', calls', state', links' := cache, calls, state, links;
    entry' := entry.next;
    s' := s.(cur := links[|s.ids|].next[s.cur + 1] - 1);
  }

  /** The loop's branch for a return with something on the stack: undo the last call and go on behind it. */
  method Backtrack<S(==, !new), V(0, !new)>(
    cache: Cache<S>, calls: seq<CallsEntry<S, V>>, linearized: array<bv64>, state: S,
    ghost t: Task<S, V>, ghost s: State<S>, ghost links: seq<Links>, ghost nodes: seq<Node<V>>)
    returns (calls': seq<CallsEntry<S, V>>, state': S, entry': Node?<V>, ghost s': State<S>, ghost links': seq<Links>)
    requires SearchInv(t, s, links, nodes, cache, calls, linearized[..], state)
    requires Stored(nodes, links[|s.ids|]) && s.cur < |t.h| && t.h[s.cur].isReturn && calls != []
    modifies nodes, linearized
    ensures SearchInv(t, s', links', nodes, cache, calls', linearized[..], state')
    ensures |links'| == |s'.ids| + 1 == |s'.configs| && |calls'| == |s'.ids| && s'.cur <= |t.h|
    ensures Stored(nodes, links'[|s'.ids|]) && entry' == At(nodes, s'.cur + 1)
    ensures s.ids != [] && s' == s.Pop(s'.cur) && |calls'| < |calls|
  {
    hide Members, SetBit, ClearBit, Find, WellFormed, Holds, Lifted, Carries, Contains, SearchInv, Stored, Lifts,
      IsCall;
    hide t.CanTake, t.Take, t.Levels;
    Sizes(t, s, links, nodes, cache, calls, linearized[..], state);
    Popped(t, s, links, nodes, cache, calls, linearized[..], state);
    ghost var k := |s.ids| - 1;
    ghost var p, l := s.ids[k], links[k];
    TopCall(t, s, links, nodes, cache, calls, linearized[..], state);
    var callsTop := calls[|calls| - 1];
    state' := callsTop.state;
    ClearUndoesSet(s.configs[k].words, p);
    Clear(linearized, callsTop.entry.id);
    calls' := calls[..|calls| - 1];
    entry' := UnliftCall(callsTop.entry, t, l, links[k + 1], nodes, p);
    s', links' := s.Pop(l.next[CallPos(t.h, p) + 1] - 1), links[..k + 1];
    assert linearized[..] == s.configs[k].words;
    assert links'[|s'.ids|] == l;
  }

  /** The top of the stack is the call taken last, with the state before it. */
  ghost predicate IsTop<S(!new), V(0)>(t: Task<S, V>, s: State<S>, links: seq<Links>, nodes: seq<Node<V>>,
    calls: seq<CallsEntry<S, V>>)
    requires t.Valid() && |nodes| == |t.h| + 1 && |s.configs| == |s.ids| + 1 == |links| && |calls| == |s.ids| > 0
  {
    var k := |s.ids| - 1; var p := s.ids[k];
    && 0 <= p < t.n && calls[k].entry == nodes[CallPos(t.h, p) + 1] && calls[k].entry.id == p
    && calls[k].state == s.configs[k].state && IsCall(t.h, t.n, nodes, CallPos(t.h, p), p)
    && Lifts(t, links[k], links[k + 1], p)
  }

  lemma TopCall<S(!new), V(0)>(t: Task<S, V>, s: State<S>, links: seq<Links>, nodes: seq<Node<V>>,
    cache: Cache<S>, calls: seq<CallsEntry<S, V>>, words: seq<bv64>, state: S)
    requires t.Valid() && |nodes| == |t.h| + 1 && |s.configs| == |s.ids| + 1 == |links| && |calls| == |s.ids|
    requires SearchInv(t, s, links, nodes, cache, calls, words, state) && s.ids != []
    ensures IsTop(t, s, links, nodes, calls)
  {
    hide Members, t.CanTake, t.Take, t.Tried, t.Levels, t.Closed, t.OnStack, t.NoneFull, t.Passed, Active, Lifts,
      Holds, Carries;
    var p := s.ids[|s.ids| - 1];
    FindFirst(t.h, p, false);
    CallNode(t.h, t.n, nodes, CallPos(t.h, p));
  }

  method UnliftCall<S, V(0)>(entry: Node<V>, ghost t: Task<S, V>, ghost before: Links, ghost l: Links,
      ghost nodes: seq<Node<V>>, ghost p: int)
    returns (entry': Node?<V>)
    requires t.Valid() && 0 <= p < t.n && |nodes| == |t.h| + 1 && Stored(nodes, l) && Lifts(t, before, l, p)
    requires IsCall(t.h, t.n, nodes, CallPos(t.h, p), p) && entry == nodes[CallPos(t.h, p) + 1]
    modifies nodes
    ensures Stored(nodes, before) && entry' == At(nodes, before.next[CallPos(t.h, p) + 1])
  {
    hide Find, WellFormed, l.Lift, l.Unlift, Stored;
    Unlift(entry, nodes, l, CallPos(t.h, p) + 1, RetPos(t.h, p) + 1);
    StoredNext(nodes, before, CallPos(t.h, p) + 1);
    entry' := entry.next;
  }

  /** The list of all events with a head node, and an empty bit set. */
  method Setup<S(!new), V(0, !new)>(model: Model<S, V>, history: seq<Entry<V>>)
    returns (n: nat, headEntry: Node<V>, entry: Node?<V>, linearized: array<bv64>, ghost nodes: seq<Node<V>>)
    requires WellFormed(history, |history| / 2)
    ensures n == |history| / 2 && n <= 64 * linearized.Length && |nodes| == |history| + 1 && headEntry == nodes[0]
    ensures fresh(nodes) && fresh(linearized)
    ensures var t := Task(model, history, n, linearized.Length);
      SearchInv(t, State([], [t.Root()], {}, 0), [Whole(|history| + 1)], nodes, map[], [], linearized[..], model.init)
    ensures Stored(nodes, Whole(|history| + 1)) && entry == At(nodes, 1)
  {
    hide Members, Find, WellFormed, Carries, SearchInv, Stored, Straight, Zeros, Whole;
    ghost var tail: seq<Node<V>>;
    entry, tail := MakeLinkedEntries(history, |history| / 2);
    var len := Length(entry, tail);
    n := len / 2;
    linearized := New(n);
    headEntry := new Node<V>.Head();
    headEntry := Prepend(headEntry, entry, tail);
    nodes := [headEntry] + tail;
    assert nodes[1..] == tail;
    WholeStored(nodes, headEntry, tail);
    Initially(Task(model, history, n, linearized.Length), nodes, model.init);
  }

  /** One turn of the search: forward over a call, or back over a return with something on the stack. */
  method Step<S(==, !new), V(0, !new)>(
    cache: Cache<S>, calls: seq<CallsEntry<S, V>>, linearized: array<bv64>, state: S, entry: Node<V>,
    headEntry: Node<V>,
    longest: seq<Option<seq<int>>>, model: Model<S, V>, computePartial: bool,
    ghost t: Task<S, V>, ghost s: State<S>, ghost links: seq<Links>, ghost nodes: seq<Node<V>>)
    returns (cache': Cache<S>, calls': seq<CallsEntry<S, V>>, state': S, entry': Node?<V>,
      longest': seq<Option<seq<int>>>, ghost s': State<S>, ghost links': seq<Links>)
    requires SearchInv(t, s, links, nodes, cache, calls, linearized[..], state)
    requires |nodes| == |t.h| + 1 && |links| == |s.ids| + 1 && |calls| == |s.ids|
    requires Stored(nodes, links[|s.ids|]) && headEntry == nodes[0] && model == t.m
    requires s.cur < |t.h| && entry == nodes[s.cur + 1] && (entry.partner != null || |calls| > 0)
    requires t.Sound(longest) && (computePartial ==> t.Recorded(s, longest))
    modifies nodes, linearized
    ensures SearchInv(t, s', links', nodes, cache', calls', linearized[..], state')
    ensures |links'| == |s'.ids| + 1 == |s'.configs| && |calls'| == |s'.ids| && s'.cur <= |t.h|
    ensures Stored(nodes, links'[|s'.ids|]) && entry' == At(nodes, s'.cur + 1)
    ensures t.Sound(longest') && (computePartial ==> t.Recorded(s', longest'))
    ensures var (a, b) := (|t.Levels(t.n) - s'.cache|, |t.Levels(t.n) - s.cache|);
      a < b || (a == b && |calls'| < |calls|) || (a == b && |calls'| == |calls| && s.cur < s'.cur)
  {
    hide Members, Partial, Find, WellFormed, Holds, Carries, SearchInv, Stored, IdSet;
    hide t.Recorded, t.Levels, t.Sound, t.Inv;
    Sizes(t, s, links, nodes, cache, calls, linearized[..], state);
    CallNode(t.h, t.n, nodes, s.cur);
    longest' := longest;
    if entry.partner != null {
      cache', calls', state', entry', s', links' :=
        Forward(cache, calls, linearized, state, entry, headEntry, model, t, s, links, nodes);
      if computePartial { RecordedForward(t, s, s', longest); }
    } else {
      if computePartial {
        SearchFacts(t, s, links, nodes, cache, calls, linearized[..], state);
        longest' := Record(calls, longest, t, s);
      }
      cache' := cache;
      calls', state', entry', s', links' := Backtrack(cache, calls, linearized, state, t, s, links, nodes);
    }
  }

  /** Decides whether the history has a linearization; `kill(i)` is the flag read in round `i`.
      Also records, for each operation, a longest legal start of a linearization that contains it. */
  method CheckSingle<S(==, !new), V(0, !new)>(model: Model<S, V>, history: seq<Entry<V>>, computePartial: bool,
      kill: nat -> bool)
    returns (ok: bool, longest: seq<Option<seq<int>>>, killed: bool)
    requires WellFormed(history, |history| / 2)
    ensures killed ==> !ok && exists i :: kill(i)
    ensures ok ==> exists ids :: IsComplete(model, history, |history| / 2, ids) && AllAre(longest, ids)
    ensures !ok && !killed ==> !HasLinearization(model, history, |history| / 2)
    ensures LegalRecords(model, history, |history| / 2, longest)
    ensures !killed && (ok || computePartial) ==> LongestRecords(model, history, |history| / 2, longest)
  {
    hide Members, Partial, HasLinearization, Find, WellFormed, Holds, Carries, SearchInv, Stored, LegalRecords,
      LongestRecords, IsComplete, AllAre, IdSet;
    var n, headEntry, entry, linearized, nodes := Setup(model, history);
    var cache: Cache<S> := map[];
    var calls: seq<CallsEntry<S, V>> := [];
    longest := seq(n, _ => None);
    var state := model.init;
    ghost var t := Task(model, history, n, linearized.Length);
    ghost var s := State([], [t.Root()], {}, 0);
    ghost var links := [Whole(|history| + 1)];
    hide t.Recorded, t.Levels, t.Sound, t.Inv;
    Sizes(t, s, links, nodes, cache, calls, linearized[..], state);
    NothingRecorded(t, s, longest);
    var loads := 0;
    killed := false;
    while headEntry.next != null
      invariant fresh(nodes) && fresh(linearized) && |nodes| == |history| + 1 && headEntry == nodes[0]
      invariant SearchInv(t, s, links, nodes, cache, calls, linearized[..], state)
      invariant |links| == |s.ids| + 1 == |s.configs| && s.cur <= |history| && |calls| == |s.ids|
      invariant Stored(nodes, links[|s.ids|]) && entry == At(nodes, s.cur + 1)
      invariant t.Sound(longest) && (computePartial ==> t.Recorded(s, longest))
      decreases |t.Levels(n) - s.cache|, |calls|, |history| - s.cur
    {
      if kill(loads) {
        SoundRecords(t, longest);
        return false, longest, true;
      }
      loads := loads + 1;
      Sizes(t, s, links, nodes, cache, calls, linearized[..], state);
      StoredNext(nodes, links[|s.ids|], 0);
      CallNode(history, n, nodes, s.cur);
      if entry.partner == null && |calls| == 0 {
        SearchFacts(t, s, links, nodes, cache, calls, linearized[..], state);
        SoundRecords(t, longest);
        NoneLeft(t, s, history[s.cur].id, longest);
        return false, longest, false;
      }
      cache, calls, state, entry, longest, s, links :=
        Step(cache, calls, linearized, state, entry, headEntry, longest, model, computePartial, t, s, links, nodes);
    }
    StoredNext(nodes, links[|s.ids|], 0);
    Finished(t, s, links, nodes, cache, calls, linearized[..], state);
    SearchFacts(t, s, links, nodes, cache, calls, linearized[..], state);
    longest := Complete(calls, n, t, s.ids);
    ok := true;
  }

  lemma SoundRecords<S, V>(t: Task<S, V>, longest: seq<Option<seq<int>>>)
    requires t.Valid() && t.Sound(longest)
    ensures LegalRecords(t.m, t.h, t.n, longest)
  {
  }

  /** Records the whole stack for every operation. */
  method Complete<S, V(0)>(calls: seq<CallsEntry<S, V>>, n: nat, ghost t: Task<S, V>, ghost ids: seq<int>)
    returns (longest: seq<Option<seq<int>>>)
    requires t.Valid() && n == t.n && Partial(t.m, t.h, n, ids) && |ids| == n && IdSet(ids) == Indices(n)
    requires |calls| == |ids| && forall j :: 0 <= j < |ids| ==> calls[j].entry.id == ids[j]
    ensures IsComplete(t.m, t.h, n, ids) && AllAre(longest, ids)
    ensures LegalRecords(t.m, t.h, n, longest) && LongestRecords(t.m, t.h, n, longest)
  {
    hide Partial, WellFormed, IsComplete, LegalRecords, LongestRecords;
    var all := Ids(calls);
    assert all == ids;
    longest := seq(n, _ => Some(all));
    CompleteRecords(t.m, t.h, n, ids, longest, t.chunks);
  }

  lemma NoneLeft<S, V>(t: Task<S, V>, s: State<S>, q: int, longest: seq<Option<seq<int>>>)
    requires t.Inv(s) && s.ids == [] && 0 <= q < t.n && s.cur == RetPos(t.h, q) && q !in Members(s.Top().words)
    ensures !HasLinearization(t.m, t.h, t.n)
    ensures t.Recorded(s, longest) ==> LongestRecords(t.m, t.h, t.n, longest)
  {
    hide Members, WellFormed, t.Inv, t.Recorded, t.Tried, t.Closed;
    t.Exhausted(s, q);
    if t.Recorded(s, longest) { t.RecordedIsLongest(s, q, longest); }
  }

  method Record<S(==), V(0)>(calls: seq<CallsEntry<S, V>>, longest: seq<Option<seq<int>>>, ghost t: Task<S, V>,
      ghost s: State<S>)
    returns (r: seq<Option<seq<int>>>)
    requires t.Inv(s) && s.ids != [] && t.Sound(longest) && Partial(t.m, t.h, t.n, s.ids) && t.Recorded(s, longest)
    requires |calls| == |s.ids| && forall j :: 0 <= j < |s.ids| ==> calls[j].entry.id == s.ids[j] && 0 <= s.ids[j] < t.n
    ensures t.Sound(r) && forall to: nat :: t.Recorded(s.Pop(to), r)
  {
    hide Partial, WellFormed;
    r := RecordLongest(calls, longest, t, s.ids);
    forall to: nat ensures t.Recorded(s.Pop(to), r) {
      RecordedPop(t, s, longest, r, to);
    }
  }

  lemma WholeStored<V(0)>(nodes: seq<Node<V>>, head: Node<V>, tail: seq<Node<V>>)
    requires nodes == [head] + tail && Straight([head] + tail, 0)
    ensures Stored(nodes, Whole(|nodes|)) && At(tail, 0) == At(nodes, 1)
  {
  }

  lemma NothingRecorded<S, V>(t: Task<S, V>, s: State<S>, longest: seq<Option<seq<int>>>)
    requires t.Valid() && s.cache == {} && |longest| == t.n && forall i :: 0 <= i < |longest| ==> longest[i] == None
    ensures t.Sound(longest) && t.Recorded(s, longest)
  {
  }

  lemma RecordedForward<S, V>(t: Task<S, V>, was: State<S>, s: State<S>, longest: seq<Option<seq<int>>>)
    requires t.Recorded(was, longest) && |s.configs| == |s.ids| + 1
    requires || (s.cache == was.cache && s.configs == was.configs)
             || (s.cache == was.cache + {s.Top()} && s.configs == was.configs + [s.Top()])
    ensures t.Recorded(s, longest)
  {
    hide t.Noted;
  }

  lemma SearchFacts<S(!new), V(0)>(t: Task<S, V>, s: State<S>, links: seq<Links>, nodes: seq<Node<V>>,
    cache: Cache<S>, calls: seq<CallsEntry<S, V>>, words: seq<bv64>, state: S)
    requires SearchInv(t, s, links, nodes, cache, calls, words, state)
    ensures t.Inv(s) && Partial(t.m, t.h, t.n, s.ids)
    ensures |calls| == |s.ids| && forall j :: 0 <= j < |s.ids| ==> calls[j].entry.id == s.ids[j] && 0 <= s.ids[j] < t.n
  {
    hide Members, t.CanTake, t.Take, t.Tried, t.Levels, t.Closed, t.OnStack, t.NoneFull, t.Passed, Active, Lifts,
      Holds, Carries, Partial;
    t.PathPartial(s.ids, s.configs);
  }
}
