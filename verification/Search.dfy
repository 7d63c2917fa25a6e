/** The search for a linearization, step by step on values. A configuration is a set of operations
    already taken, as bit-set words, with the model state they lead to; it is also the key of the
    memo table. */
module Search {
  import opened Options
  import opened Linearizability
  import opened Histories
  import opened Bitset
  import opened Counting

  datatype Config<S> = Config(words: seq<bv64>, state: S)

  datatype State<S(==)> = State(ids: seq<int>, configs: seq<Config<S>>, cache: set<Config<S>>, cur: nat) {
    ghost function Top(): (r: Config<S>)
      requires |configs| == |ids| + 1
    {
      configs[|ids|]
    }

    ghost function Push(p: int, c: Config<S>, to: nat): (r: State<S>) {
      State(ids + [p], configs + [c], cache + {c}, to)
    }

    ghost function Pop(to: nat): (r: State<S>)
      requires ids != [] && |configs| == |ids| + 1
    {
      State(ids[..|ids| - 1], configs[..|ids|], cache, to)
    }
  }

  /** What is searched: a model, a history of `n` operations, and the size of the bit sets. */
  datatype Task<!S(==), !V> = Task(m: Model<S, V>, h: seq<Entry<V>>, n: nat, chunks: nat) {
    ghost predicate Valid() {
      WellFormed(h, n) && n <= 64 * chunks
    }

    ghost function Root(): (r: Config<S>) { Config(Zeros(chunks), m.init) }

    ghost function Outcome(c: Config<S>, p: int): (r: (bool, S))
      requires Valid() && 0 <= p < n
    {
      m.step(c.state, h[CallPos(h, p)].value, h[RetPos(h, p)].value)
    }

    ghost predicate CanTake(c: Config<S>, p: int)
      requires Valid()
    {
      |c.words| == chunks && Ready(h, n, Members(c.words), p) && Outcome(c, p).0
    }

    ghost function Take(c: Config<S>, p: int): (r: Config<S>)
      requires Valid() && CanTake(c, p)
    {
      Config(SetBit(c.words, p), Outcome(c, p).1)
    }

    ghost predicate Full(c: Config<S>) {
      forall id :: 0 <= id < n ==> id in Members(c.words)
    }

    /** Every operation that can be taken from `c` and was called before `upto` leads into `cache`. */
    ghost predicate Tried(c: Config<S>, cache: set<Config<S>>, upto: nat)
      requires Valid()
    {
      forall p {:trigger CanTake(c, p)} :: CanTake(c, p) && CallPos(h, p) < upto ==> Take(c, p) in cache
    }

    /** `configs` are the configurations passed when taking `ids` one by one. */
    ghost predicate Path(ids: seq<int>, configs: seq<Config<S>>)
      requires Valid()
    {
      && |configs| == |ids| + 1
      && configs[0] == Root()
      && forall j :: 0 <= j < |ids| ==> CanTake(configs[j], ids[j]) && configs[j + 1] == Take(configs[j], ids[j])
    }

    lemma TakeMembers(c: Config<S>, p: int)
      requires Valid() && CanTake(c, p)
      ensures Members(Take(c, p).words) == Members(c.words) + {p} && |Take(c, p).words| == chunks
    {
      hide Bit;
      MembersOfSet(c.words, p);
    }

    lemma PathPrefix(ids: seq<int>, configs: seq<Config<S>>, k: nat)
      requires Valid() && Path(ids, configs) && k <= |ids|
      ensures Path(ids[..k], configs[..k + 1])
    {
      hide Root, CanTake, Take;
    }

    lemma PathExtend(ids: seq<int>, configs: seq<Config<S>>, p: int)
      requires Valid() && Path(ids, configs) && CanTake(configs[|ids|], p)
      ensures Path(ids + [p], configs + [Take(configs[|ids|], p)])
    {
      hide Root, CanTake, Take;
    }

    lemma {:induction false} PathMembers(ids: seq<int>, configs: seq<Config<S>>)
      requires Valid() && Path(ids, configs)
      ensures Members(configs[|ids|].words) == IdSet(ids) && |configs[|ids|].words| == chunks
      ensures |Members(configs[|ids|].words)| == |ids| <= n
      ensures Members(configs[|ids|].words) <= Indices(n)
    {
      hide Members, Take, Outcome, Valid, IdSet;
      if ids == [] {
        MembersOfZeros(chunks);
        NoIds();
      } else {
        var k := |ids| - 1;
        PathPrefix(ids, configs, k);
        PathMembers(ids[..k], configs[..k + 1]);
        TakeMembers(configs[k], ids[k]);
        IdSetExtend(ids);
        SubsetSize(IdSet(ids), Indices(n));
      }
    }

    /** A path is exactly a legal start of a linearization. */
    lemma {:induction false} PathPartial(ids: seq<int>, configs: seq<Config<S>>)
      requires Valid() && Path(ids, configs)
      ensures Partial(m, h, n, ids) && RunIds(m, h, n, ids) == Some(configs[|ids|].state)
    {
      hide Members, SetBit, CanTake, Take, WellFormed;
      if ids != [] {
        var k := |ids| - 1;
        PathPrefix(ids, configs, k);
        PathPartial(ids[..k], configs[..k + 1]);
        PathMembers(ids[..k], configs[..k + 1]);
        PartialExtend(ids, configs[k]);
      }
    }

    lemma PartialExtend(ids: seq<int>, c: Config<S>)
      requires Valid() && ids != [] && Partial(m, h, n, ids[..|ids| - 1])
      requires RunIds(m, h, n, ids[..|ids| - 1]) == Some(c.state) && Members(c.words) == IdSet(ids[..|ids| - 1])
      requires CanTake(c, ids[|ids| - 1])
      ensures forall i :: 0 <= i < |ids| ==> 0 <= ids[i] < n
      ensures Partial(m, h, n, ids) && RunIds(m, h, n, ids) == Some(Take(c, ids[|ids| - 1]).state)
    {
      hide Members, SetBit, IdSet, WellFormed, Ready;
      TakesReady(c, ids[|ids| - 1]);
      ReadyExtend(h, n, ids);
      assert forall i :: 0 <= i < |ids| ==> 0 <= ids[i] < n by { ReadyInRange(h, n, ids); }
    }

    lemma TakesReady(c: Config<S>, p: int)
      requires Valid() && CanTake(c, p)
      ensures Ready(h, n, Members(c.words), p) && 0 <= p < n
    {
    }

    lemma LastTakes(ids: seq<int>, c: Config<S>)
      requires Valid() && Partial(m, h, n, ids) && ids != [] && |c.words| == chunks
      requires Members(c.words) == IdSet(ids[..|ids| - 1])
      requires RunIds(m, h, n, ids[..|ids| - 1]) == Some(c.state)
      ensures CanTake(c, ids[|ids| - 1])
    {
      hide Members, WellFormed, IdSet;
      assert Ready(h, n, IdSet(ids[..|ids| - 1]), ids[|ids| - 1]);
    }

    lemma {:induction false} PartialPath(ids: seq<int>) returns (configs: seq<Config<S>>)
      requires Valid() && Partial(m, h, n, ids)
      ensures Path(ids, configs)
    {
      hide Members, Take, CanTake, Partial, IdSet, RunIds, WellFormed;
      configs := [Root()];
      if ids != [] {
        var k := |ids| - 1;
        PartialPrefix(m, h, n, ids);
        configs := PartialPath(ids[..k]);
        PathPartial(ids[..k], configs);
        PathMembers(ids[..k], configs);
        LastTakes(ids, configs[k]);
        PathExtend(ids[..k], configs, ids[k]);
        configs := configs + [Take(configs[k], ids[k])];
        SplitLast(ids);
      }
    }

    /** The configurations that `k` steps can lead to. */
    ghost function Level(k: nat): (r: set<Config<S>>)
      requires Valid()
    {
      if k == 0 then {Root()}
      else set c, p | c in Level(k - 1) && p in Indices(n) && CanTake(c, p) :: Take(c, p)
    }

    ghost function Levels(k: nat): (r: set<Config<S>>)
      requires Valid()
    {
      if k == 0 then Level(0) else Levels(k - 1) + Level(k)
    }

    lemma {:induction false} LevelInLevels(j: nat, k: nat)
      requires Valid() && j <= k
      ensures Level(j) <= Levels(k)
    {
      hide Level;
      if j < k { LevelInLevels(j, k - 1); }
    }

    lemma {:induction false} PathLevel(ids: seq<int>, configs: seq<Config<S>>)
      requires Valid() && Path(ids, configs)
      ensures configs[|ids|] in Level(|ids|) && configs[|ids|] in Levels(n)
    {
      hide CanTake, Take, Levels;
      PathMembers(ids, configs);
      LevelInLevels(|ids|, n);
      if ids != [] {
        var k := |ids| - 1;
        PathPrefix(ids, configs, k);
        PathLevel(ids[..k], configs[..k + 1]);
        InRange(configs[k], ids[k]);
      }
    }

    lemma InRange(c: Config<S>, p: int)
      requires Valid() && CanTake(c, p)
      ensures p in Indices(n)
    {
    }

    /** Each configuration on the stack is memoized, and of what could be taken from it, all that
        was called before the operation that was taken leads into the memo table. */
    ghost predicate OnStack(ids: seq<int>, configs: seq<Config<S>>, cache: set<Config<S>>)
      requires Valid() && |configs| == |ids| + 1
    {
      && (forall j :: 0 < j < |configs| ==> configs[j] in cache)
      && (forall j :: 0 <= j < |ids| ==> Tried(configs[j], cache, CallPos(h, ids[j])))
    }

    /** Whatever is memoized and not on the stack was explored completely. */
    ghost predicate Closed(configs: seq<Config<S>>, cache: set<Config<S>>)
      requires Valid()
    {
      forall c :: c in cache && c !in configs ==> Tried(c, cache, |h|)
    }

    ghost predicate NoneFull(cache: set<Config<S>>, except: Config<S>) {
      forall c :: c in cache && Full(c) ==> c == except
    }

    /** No operation left over at `c` returned before position `cur`. */
    ghost predicate Passed(c: Config<S>, cur: nat) {
      forall q :: 0 <= q < n && q !in Members(c.words) ==> cur <= RetPos(h, q)
    }

    ghost predicate Inv(s: State<S>) {
      && Valid()
      && Path(s.ids, s.configs)
      && s.cache <= Levels(n)
      && OnStack(s.ids, s.configs, s.cache)
      && Closed(s.configs, s.cache)
      && NoneFull(s.cache, s.Top())
      && Tried(s.Top(), s.cache, s.cur)
      && Passed(s.Top(), s.cur)
    }

    lemma TriedMore(c: Config<S>, small: set<Config<S>>, large: set<Config<S>>, upto: nat)
      requires Valid() && Tried(c, small, upto) && small <= large
      ensures Tried(c, large, upto)
    {
    }

    /** The operations left over at `c` between positions `from` and `to` (both excluded) are none. */
    ghost predicate Gap(c: Config<S>, from: int, to: nat) {
      to <= |h| && forall i :: 0 <= i && from < i < to ==> h[i].id in Members(c.words)
    }

    lemma OutsideGap(c: Config<S>, from: int, to: nat, q: int)
      requires Valid() && Gap(c, from, to) && 0 <= q < n && q !in Members(c.words)
      ensures CallPos(h, q) <= from || to <= CallPos(h, q)
      ensures RetPos(h, q) <= from || to <= RetPos(h, q)
    {
      FindFirst(h, q, false);
      FindFirst(h, q, true);
    }

    lemma TriedAcross(c: Config<S>, cache: set<Config<S>>, p: int, to: nat)
      requires Valid() && 0 <= p < n && Tried(c, cache, CallPos(h, p)) && Gap(c, CallPos(h, p), to)
      requires CanTake(c, p) ==> Take(c, p) in cache
      ensures Tried(c, cache, to)
    {
      hide Take, Gap, WellFormed;
      forall q | CanTake(c, q) && CallPos(h, q) < to ensures Take(c, q) in cache {
        OutsideGap(c, CallPos(h, p), to, q);
        SameCall(p, q);
      }
    }

    lemma SameCall(p: int, q: int)
      requires Valid() && 0 <= p < n && 0 <= q < n
      ensures CallPos(h, p) == CallPos(h, q) ==> p == q
      ensures CallPos(h, p) != RetPos(h, q)
    {
      FindFirst(h, p, false);
      FindFirst(h, q, false);
      FindFirst(h, q, true);
    }

    lemma PassedAcross(c: Config<S>, p: int, to: nat)
      requires Valid() && 0 <= p < n && Passed(c, CallPos(h, p)) && Gap(c, CallPos(h, p), to)
      ensures Passed(c, to)
    {
      hide Gap, Members, WellFormed;
      forall q | 0 <= q < n && q !in Members(c.words) ensures to <= RetPos(h, q) {
        OutsideGap(c, CallPos(h, p), to, q);
        SameCall(p, q);
      }
    }

    /** Moving past a call keeps the invariant if the call is refused or leads to a known configuration. */
    lemma AdvanceKeeps(s: State<S>, p: int, to: nat)
      requires Inv(s) && 0 <= p < n && s.cur == CallPos(h, p)
      requires CanTake(s.Top(), p) ==> Take(s.Top(), p) in s.cache
      requires Gap(s.Top(), s.cur, to)
      ensures Inv(s.(cur := to))
    {
      hide Levels, OnStack, Closed, NoneFull, Passed, Tried, Gap, CanTake, Take, WellFormed;
      TriedAcross(s.Top(), s.cache, p, to);
      PassedAcross(s.Top(), p, to);
    }

    /** Taking an operation that leads to a new configuration keeps the invariant. */
    lemma PushKeeps(s: State<S>, p: int, to: nat)
      requires Inv(s) && s.cur == CallPos(h, p) && CanTake(s.Top(), p) && Take(s.Top(), p) !in s.cache
      requires Gap(Take(s.Top(), p), -1, to)
      ensures Inv(s.Push(p, Take(s.Top(), p), to))
      ensures Take(s.Top(), p) in Levels(n)
    {
      hide Levels, Gap, WellFormed, Members, Take, CanTake;
      var c := Take(s.Top(), p);
      var cache := s.cache + {c};
      var configs := s.configs + [c];
      PathExtend(s.ids, s.configs, p);
      PathLevel(s.ids + [p], configs);
      InRange(s.Top(), p);
      PushOnStack(s, p, c);
      TriedFresh(c, cache, to);
      NotFull(s.Top(), p);
      forall x | x in cache && x !in configs ensures Tried(x, cache, |h|) {
        assert x !in s.configs;
        TriedMore(x, s.cache, cache, |h|);
      }
      PassedFresh(c, to);
    }

    lemma NotFull(c: Config<S>, p: int)
      requires Valid() && CanTake(c, p)
      ensures !Full(c)
    {
    }

    lemma PushOnStack(s: State<S>, p: int, c: Config<S>)
      requires Inv(s) && s.cur == CallPos(h, p)
      ensures OnStack(s.ids + [p], s.configs + [c], s.cache + {c})
    {
      hide Levels, WellFormed, Members, Tried, Closed, NoneFull, Passed, CallPos, CanTake, Take;
      var cache, configs, ids := s.cache + {c}, s.configs + [c], s.ids + [p];
      forall j | 0 <= j < |ids| ensures Tried(configs[j], cache, CallPos(h, ids[j])) {
        TriedMore(s.configs[j], s.cache, cache, CallPos(h, ids[j]));
      }
    }

    lemma TriedFresh(c: Config<S>, cache: set<Config<S>>, to: nat)
      requires Valid() && Gap(c, -1, to)
      ensures Tried(c, cache, to)
    {
      hide Take, Gap, WellFormed;
      forall q | CanTake(c, q) ensures to <= CallPos(h, q) {
        OutsideGap(c, -1, to, q);
      }
    }

    lemma PassedFresh(c: Config<S>, to: nat)
      requires Valid() && Gap(c, -1, to)
      ensures Passed(c, to)
    {
      hide Gap, Members, WellFormed;
      forall q | 0 <= q < n && q !in Members(c.words) ensures to <= RetPos(h, q) {
        OutsideGap(c, -1, to, q);
      }
    }

    /** At the return of an operation that is left over, everything that can be taken was tried. */
    lemma TriedAll(c: Config<S>, cache: set<Config<S>>, q: int)
      requires Valid() && 0 <= q < n && q !in Members(c.words) && Tried(c, cache, RetPos(h, q))
      ensures Tried(c, cache, |h|)
    {
      hide Members, WellFormed, Take;
    }

    /** Undoing the last operation at such a return keeps the invariant. */
    lemma PopKeeps(s: State<S>, q: int, to: nat)
      requires Inv(s) && s.ids != [] && 0 <= q < n && s.cur == RetPos(h, q) && q !in Members(s.Top().words)
      requires Gap(s.configs[|s.ids| - 1], CallPos(h, s.ids[|s.ids| - 1]), to)
      ensures Inv(s.Pop(to))
    {
      hide Levels, Gap, WellFormed, Members, Take, Passed;
      var k := |s.ids| - 1;
      var c, p := s.configs[k], s.ids[k];
      TriedAll(s.Top(), s.cache, q);
      PathPrefix(s.ids, s.configs, k);
      InRange(c, p);
      assert Take(c, p) == s.configs[k + 1];
      TriedAcross(c, s.cache, p, to);
      ReadyPassed(c, p);
      PassedAcross(c, p, to);
      assert !Full(s.Top());
      forall x | x in s.cache && x !in s.configs[..k + 1] ensures Tried(x, s.cache, |h|) {
        assert x in s.configs ==> x == s.Top();
      }
    }

    /** When the whole memo table and the root are explored, every path leads into the table. */
    lemma {:induction false} Covered(cache: set<Config<S>>, ids: seq<int>, configs: seq<Config<S>>)
      requires Valid() && Path(ids, configs) && Tried(Root(), cache, |h|) && Closed([Root()], cache)
      ensures ids != [] ==> configs[|ids|] in cache
    {
      hide Take, Members, Root;
      if ids != [] {
        var k := |ids| - 1;
        PathPrefix(ids, configs, k);
        Covered(cache, ids[..k], configs[..k + 1]);
        assert CanTake(configs[k], ids[k]);
        assert Tried(configs[k], cache, |h|);
        InRange(configs[k], ids[k]);
      }
    }

    /** Reaching a return with an empty stack means that there is no linearization. */
    lemma Exhausted(s: State<S>, q: int)
      requires Inv(s) && s.ids == [] && 0 <= q < n && s.cur == RetPos(h, q) && q !in Members(s.Top().words)
      ensures !HasLinearization(m, h, n)
      ensures Tried(Root(), s.cache, |h|) && Closed([Root()], s.cache)
    {
      hide Levels, WellFormed, Members, Take, Passed, CanTake;
      TriedAll(s.Top(), s.cache, q);
      assert s.configs == [Root()];
      forall ids | Partial(m, h, n, ids) ensures |ids| != n {
        var configs := PartialPath(ids);
        Covered(s.cache, ids, configs);
        PathMembers(ids, configs);
        if |ids| == n {
          AllTaken(configs[n]);
        }
      }
    }

    lemma AllTaken(c: Config<S>)
      requires Members(c.words) <= Indices(n) && |Members(c.words)| == n
      ensures Full(c)
    {
      hide Members;
      SubsetSize(Members(c.words), Indices(n));
    }

    ghost predicate Sound(longest: seq<Option<seq<int>>>)
      requires Valid()
    {
      LegalRecords(m, h, n, longest)
    }

    /** Of the operations taken at `c`, each has a recorded sequence at least as long. */
    ghost predicate Noted(c: Config<S>, longest: seq<Option<seq<int>>>) {
      forall i :: 0 <= i < |longest| && i in Members(c.words) ==>
        longest[i].Some? && |longest[i].value| >= |Members(c.words)|
    }

    ghost predicate Recorded(s: State<S>, longest: seq<Option<seq<int>>>) {
      forall c :: c in s.cache && c !in s.configs ==> Noted(c, longest)
    }

    lemma RecordedIsLongest(s: State<S>, q: int, longest: seq<Option<seq<int>>>)
      requires Inv(s) && s.ids == [] && 0 <= q < n && s.cur == RetPos(h, q) && q !in Members(s.Top().words)
      requires Recorded(s, longest)
      ensures LongestRecords(m, h, n, longest)
    {
      hide Levels, WellFormed, Members, Take, Passed, CanTake, Tried;
      Exhausted(s, q);
      assert s.configs == [Root()];
      forall ids, i | Partial(m, h, n, ids) && 0 <= i < |longest| && i in ids
        ensures longest[i].Some? && |longest[i].value| >= |ids|
      {
        var configs := PartialPath(ids);
        Covered(s.cache, ids, configs);
        PathMembers(ids, configs);
        var c := configs[|ids|];
        assert i in IdSet(ids);
        if c == Root() { MembersOfZeros(chunks); }
        assert Noted(c, longest);
      }
    }

    lemma ReadyPassed(c: Config<S>, p: int)
      requires Valid() && CanTake(c, p)
      ensures Passed(c, CallPos(h, p))
    {
      hide Members, WellFormed;
    }
  }

  lemma SplitLast<T>(s: seq<T>)
    requires s != []
    ensures s == s[..|s| - 1] + [s[|s| - 1]]
  {
  }

  lemma NoIds()
    ensures IdSet([]) == {}
  {
  }

  lemma IdSetExtend(ids: seq<int>)
    requires ids != []
    ensures IdSet(ids) == IdSet(ids[..|ids| - 1]) + {ids[|ids| - 1]}
  {
    var k := |ids| - 1;
    forall x | x in IdSet(ids) ensures x in IdSet(ids[..k]) || x == ids[k] {
      var i :| 0 <= i < |ids| && ids[i] == x;
      assert i < k ==> ids[..k][i] == x;
    }
    forall x | x in IdSet(ids[..k]) ensures x in IdSet(ids) {
      var i :| 0 <= i < k && ids[..k][i] == x;
      assert ids[i] == x;
    }
  }

  ghost predicate AllReady<V>(h: seq<Entry<V>>, n: nat, ids: seq<int>) {
    forall i :: 0 <= i < |ids| ==> Ready(h, n, IdSet(ids[..i]), ids[i])
  }

  lemma ReadyExtend<V>(h: seq<Entry<V>>, n: nat, ids: seq<int>)
    requires ids != [] && AllReady(h, n, ids[..|ids| - 1])
    requires Ready(h, n, IdSet(ids[..|ids| - 1]), ids[|ids| - 1])
    ensures AllReady(h, n, ids)
  {
    hide Ready, IdSet;
    var k := |ids| - 1;
    forall i | 0 <= i < |ids| ensures Ready(h, n, IdSet(ids[..i]), ids[i]) {
      if i < k {
        assert ids[..k][..i] == ids[..i];
        assert Ready(h, n, IdSet(ids[..k][..i]), ids[..k][i]);
      }
    }
  }

  lemma ReadyInRange<V>(h: seq<Entry<V>>, n: nat, ids: seq<int>)
    requires AllReady(h, n, ids)
    ensures forall i :: 0 <= i < |ids| ==> 0 <= ids[i] < n
  {
    forall i | 0 <= i < |ids| ensures 0 <= ids[i] < n {
      assert Ready(h, n, IdSet(ids[..i]), ids[i]);
    }
  }

  lemma PartialPrefix<S, V>(m: Model<S, V>, h: seq<Entry<V>>, n: nat, ids: seq<int>)
    requires WellFormed(h, n) && Partial(m, h, n, ids) && ids != []
    ensures Partial(m, h, n, ids[..|ids| - 1])
  {
    hide Ready, WellFormed;
    var k := |ids| - 1;
    forall i | 0 <= i < k ensures Ready(h, n, IdSet(ids[..k][..i]), ids[..k][i]) {
      assert ids[..k][..i] == ids[..i];
    }
  }
}
