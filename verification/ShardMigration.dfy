/** Moving shards between groups: any number of controllers, each driving one configuration change,
    a network that keeps every message and delivers it any number of times in any order, clients
    that use any configuration ever published, and controllers that stop anywhere.

    Each group is one atomic object: its replicas execute one log. The configuration with number `n`
    is fixed once and for all, and a change to `n` starts only while `n - 1` is the published one. */
module ShardMigration {
  import opened VersionedMap
  import opened ShardGroup

  type Gid = int

  /** The world around a run: who owns a shard in which configuration, and where a key lives. */
  datatype World = World(owner: (nat, Shard) -> Gid, shardOf: string -> Shard, shards: nat, first: nat)

  ghost predicate Valid(w: World) {
    forall k :: w.shardOf(k) < w.shards
  }

  datatype Stage = Checking | Freezing | Installing | Deleting

  /** A controller working on configuration `num`, at shard `shard`; `version` is that of "latest" when it began. */
  datatype Controller = Idle | Working(num: nat, version: nat, shard: Shard, stage: Stage)

  datatype Message =
    | FreezeRequest(num: nat, shard: Shard)
    | FreezeAnswer(num: nat, shard: Shard, state: Store)
    | InstallRequest(num: nat, shard: Shard, state: Store)
    | InstallAnswer(num: nat, shard: Shard)
    | DeleteRequest(num: nat, shard: Shard)
    | DeleteAnswer(num: nat, shard: Shard)
    | ClientRequest(gid: Gid, op: Op)

  /** The groups and the number of the published configuration. */
  datatype Cluster = Cluster(groups: map<Gid, Group>, latest: nat)

  datatype System = System(cluster: Cluster, version: nat, controllers: map<int, Controller>, messages: set<Message>)

  function At(x: Cluster, g: Gid): (r: Group) {
    if g in x.groups then x.groups[g] else FRESH
  }

  function Set(x: Cluster, g: Gid, group: Group): (r: Cluster) {
    x.(groups := x.groups[g := group])
  }

  function Controlled(y: System, c: int): (r: Controller) {
    if c in y.controllers then y.controllers[c] else Idle
  }

  /** Configuration `num` gives the shard to another group than its predecessor. */
  predicate Moves(w: World, num: nat, s: Shard) {
    w.first < num && s < w.shards && w.owner(num - 1, s) != w.owner(num, s)
  }

  datatype Event =
    | Begin(c: int)
    | Stop(c: int)
    | Check(c: int)
    | Proceed(c: int, state: Store)
    | Publish(c: int)
    | ServeFreeze(num: nat, shard: Shard)
    | ServeInstall(num: nat, shard: Shard, state: Store)
    | ServeDelete(num: nat, shard: Shard)
    | Send(op: Op)
    | Serve(gid: Gid, op: Op)

  ghost predicate Enabled(w: World, y: System, e: Event) {
    match e
    case Begin(c) => Controlled(y, c).Idle?
    case Stop(c) => true
    case Check(c) => var t := Controlled(y, c); t.Working? && t.stage.Checking? && t.shard < w.shards && t.num > 0
    case Proceed(c, state) =>
      var t := Controlled(y, c);
      && t.Working?
      && (match t.stage
          case Checking => false
          case Freezing => FreezeAnswer(t.num, t.shard, state) in y.messages
          case Installing => InstallAnswer(t.num, t.shard) in y.messages
          case Deleting => DeleteAnswer(t.num, t.shard) in y.messages)
    case Publish(c) => var t := Controlled(y, c); t.Working? && t.stage.Checking? && t.shard >= w.shards
    case ServeFreeze(num, s) => FreezeRequest(num, s) in y.messages && num > 0
    case ServeInstall(num, s, state) => InstallRequest(num, s, state) in y.messages
    case ServeDelete(num, s) => DeleteRequest(num, s) in y.messages && num > 0
    case Send(op) => true
    case Serve(g, op) => ClientRequest(g, op) in y.messages
  }

  function With(y: System, c: int, t: Controller, more: set<Message>): (r: System) {
    y.(controllers := y.controllers[c := t], messages := y.messages + more)
  }

  function Update(y: System, g: Gid, group: Group, more: set<Message>): (r: System) {
    y.(cluster := Set(y.cluster, g, group), messages := y.messages + more)
  }

  ghost function Next(w: World, y: System, e: Event): (r: System)
    requires Enabled(w, y, e)
  {
    match e
    case Begin(c) => With(y, c, Working(y.cluster.latest + 1, y.version, 0, Checking), {})
    case Stop(c) => With(y, c, Idle, {})
    case Check(c) =>
      var t := Controlled(y, c);
      var from := w.owner(t.num - 1, t.shard);
      if from == w.owner(t.num, t.shard) || from != w.owner(y.cluster.latest, t.shard)
      then With(y, c, t.(shard := t.shard + 1), {})
      else With(y, c, t.(stage := Freezing), {FreezeRequest(t.num, t.shard)})
    case Proceed(c, state) =>
      var t := Controlled(y, c);
      (match t.stage
       case Checking => y
       case Freezing => With(y, c, t.(stage := Installing), {InstallRequest(t.num, t.shard, state)})
       case Installing => With(y, c, t.(stage := Deleting), {DeleteRequest(t.num, t.shard)})
       case Deleting => With(y, c, t.(stage := Checking, shard := t.shard + 1), {}))
    case Publish(c) =>
      var t := Controlled(y, c);
      var done := With(y, c, Idle, {});
      if t.version == y.version then done.(cluster := y.cluster.(latest := t.num), version := y.version + 1) else done
    case ServeFreeze(num, s) =>
      var g := w.owner(num - 1, s);
      var (group, reply) := Freeze(At(y.cluster, g), w.shardOf, s, num);
      Update(y, g, group, if reply.err == OK then {FreezeAnswer(num, s, reply.state)} else {})
    case ServeInstall(num, s, state) =>
      var g := w.owner(num, s);
      Update(y, g, Install(At(y.cluster, g), s, state, num).0, {InstallAnswer(num, s)})
    case ServeDelete(num, s) =>
      var g := w.owner(num - 1, s);
      Update(y, g, Delete(At(y.cluster, g), w.shardOf, s, num).0, {DeleteAnswer(num, s)})
    case Send(op) => y.(messages := y.messages + {ClientRequest(w.owner(y.cluster.latest, w.shardOf(op.key)), op)})
    case Serve(g, op) => Update(y, g, Execute(At(y.cluster, g), w.shardOf, op).0, {})
  }

  /** The answer that executing a client's request gives. */
  ghost function Answered(w: World, y: System, e: Event): (r: Reply)
    requires e.Serve?
  {
    Execute(At(y.cluster, e.gid), w.shardOf, e.op).1
  }

  ghost predicate Initial(w: World, y: System) {
    y.cluster == Cluster(map[], w.first) && y.controllers == map[] && y.messages == {}
  }

  // ---- the invariant -------------------------------------------------------------

  /** What a group holds of a shard, and in which condition. */
  datatype View = View(part: Store, frozen: bool, migrated: bool, max: int)

  ghost function ViewOf(w: World, g: Group, s: Shard): (r: View) {
    View(Part(g.kv, w.shardOf, s), Flag(g.frozen, s), Flag(g.migrated, s), MaxNum(g, s))
  }

  ghost function V(w: World, x: Cluster, g: Gid, s: Shard): (r: View) {
    ViewOf(w, At(x, g), s)
  }

  /** A published configuration names the group as the shard's owner. */
  ghost predicate Named(w: World, latest: nat, s: Shard, g: Gid) {
    exists n :: w.first <= n <= latest && w.owner(n, s) == g
  }

  /** The shard has been installed at its next owner, which is not published yet. */
  ghost predicate Moved(w: World, x: Cluster, s: Shard) {
    w.owner(x.latest, s) != w.owner(x.latest + 1, s) && V(w, x, w.owner(x.latest + 1, s), s).max == x.latest + 1
  }

  /** The one group that may serve the shard. */
  ghost function Holder(w: World, x: Cluster, s: Shard): (r: Gid) {
    w.owner(if Moved(w, x, s) then x.latest + 1 else x.latest, s)
  }

  /** Only the two groups of the pending move have seen its number. */
  ghost predicate Bounded(w: World, x: Cluster, s: Shard) {
    forall g :: V(w, x, g, s).max <= x.latest
      || (&& V(w, x, g, s).max == x.latest + 1 && Moves(w, x.latest + 1, s)
          && (g == w.owner(x.latest, s) || g == w.owner(x.latest + 1, s)))
  }

  /** Both groups of every published move have seen its number. */
  ghost predicate Recorded(w: World, x: Cluster, s: Shard) {
    forall n {:trigger Moves(w, n, s)} :: 0 < n <= x.latest && Moves(w, n, s) ==>
      V(w, x, w.owner(n, s), s).max >= n && V(w, x, w.owner(n - 1, s), s).max >= n
  }

  ghost predicate NumbersOk(w: World, x: Cluster, s: Shard) {
    && Bounded(w, x, s) && Recorded(w, x, s)
    && (Moved(w, x, s) ==> V(w, x, w.owner(x.latest, s), s).max == x.latest + 1)
  }

  ghost predicate HolderOk(w: World, x: Cluster, store: Store, s: Shard) {
    var src, h := w.owner(x.latest, s), Holder(w, x, s);
    && V(w, x, h, s).part == Part(store, w.shardOf, s)
    && !V(w, x, h, s).migrated
    && (V(w, x, h, s).frozen <==> h == src && V(w, x, src, s).max == x.latest + 1)
  }

  ghost predicate OthersOk(w: World, x: Cluster, store: Store, s: Shard) {
    && (forall g :: Named(w, x.latest, s, g) && g != Holder(w, x, s) ==> V(w, x, g, s).frozen || V(w, x, g, s).migrated)
    && (forall g :: V(w, x, g, s).part.Keys <= Part(store, w.shardOf, s).Keys)
  }

  /** A group that no published configuration has named has no flag. */
  ghost predicate UnnamedOk(w: World, x: Cluster, s: Shard) {
    forall g :: !Named(w, x.latest, s, g) ==> !V(w, x, g, s).frozen && !V(w, x, g, s).migrated
  }

  ghost predicate ShardOk(w: World, x: Cluster, store: Store, s: Shard) {
    NumbersOk(w, x, s) && HolderOk(w, x, store, s) && OthersOk(w, x, store, s) && UnnamedOk(w, x, s)
  }

  ghost predicate MessageOk(w: World, x: Cluster, store: Store, m: Message) {
    match m
    case FreezeRequest(n, s) => Moves(w, n, s) && n <= x.latest + 1
    case FreezeAnswer(n, s, state) => CarriedOk(w, x, store, n, s, state)
    case InstallRequest(n, s, state) => CarriedOk(w, x, store, n, s, state)
    case InstallAnswer(n, s) => InstalledOk(w, x, n, s)
    case DeleteRequest(n, s) => InstalledOk(w, x, n, s)
    case DeleteAnswer(n, s) => InstalledOk(w, x, n, s)
    case ClientRequest(g, op) => Named(w, x.latest, w.shardOf(op.key), g)
  }

  /** A shard's contents on their way to the next owner are the current ones, unless they are too late. */
  ghost predicate CarriedOk(w: World, x: Cluster, store: Store, n: nat, s: Shard, state: Store) {
    && Moves(w, n, s) && n <= x.latest + 1 && V(w, x, w.owner(n - 1, s), s).max >= n
    && (n == x.latest + 1 && !Moved(w, x, s) ==> state == Part(store, w.shardOf, s))
  }

  ghost predicate InstalledOk(w: World, x: Cluster, n: nat, s: Shard) {
    Moves(w, n, s) && n <= x.latest + 1 && V(w, x, w.owner(n - 1, s), s).max >= n && V(w, x, w.owner(n, s), s).max >= n
  }

  ghost predicate ControllerOk(w: World, x: Cluster, version: nat, t: Controller) {
    t.Working? ==>
      && w.first < t.num <= x.latest + 1
      && t.version <= version && (t.version == version ==> t.num == x.latest + 1)
      && (t.stage != Checking ==> Moves(w, t.num, t.shard))
      && (t.num == x.latest + 1 ==> forall s :: 0 <= s < t.shard && Moves(w, t.num, s) ==> Moved(w, x, s))
  }

  ghost predicate ClusterOk(w: World, x: Cluster, store: Store) {
    w.first <= x.latest && forall s :: 0 <= s < w.shards ==> ShardOk(w, x, store, s)
  }

  ghost predicate Inv(w: World, y: System, store: Store) {
    && ClusterOk(w, y.cluster, store)
    && (forall m :: m in y.messages ==> MessageOk(w, y.cluster, store, m))
    && (forall c :: c in y.controllers ==> ControllerOk(w, y.cluster, y.version, y.controllers[c]))
  }

  // ---- steps of controllers and clients ------------------------------------------

  lemma ControlStep(w: World, y: System, store: Store, c: int, t: Controller, more: set<Message>)
    requires Inv(w, y, store) && ControllerOk(w, y.cluster, y.version, t)
    requires forall m :: m in more ==> MessageOk(w, y.cluster, store, m)
    ensures Inv(w, With(y, c, t, more), store)
  {
    hide MessageOk, ControllerOk, ClusterOk;
  }

  lemma CheckStep(w: World, y: System, store: Store, c: int)
    requires Inv(w, y, store) && Enabled(w, y, Check(c))
    ensures Inv(w, Next(w, y, Check(c)), store)
  {
    hide MessageOk, ClusterOk, Moved, Inv;
    var t := Controlled(y, c);
    Obeys(w, y, store, c);
    var from := w.owner(t.num - 1, t.shard);
    if from == w.owner(t.num, t.shard) || from != w.owner(y.cluster.latest, t.shard) {
      ControlStep(w, y, store, c, t.(shard := t.shard + 1), {});
    } else {
      assert MessageOk(w, y.cluster, store, FreezeRequest(t.num, t.shard)) by {
        Request(w, y.cluster, store, t.num, t.shard);
      }
      ControlStep(w, y, store, c, t.(stage := Freezing), {FreezeRequest(t.num, t.shard)});
    }
  }

  lemma Obeys(w: World, y: System, store: Store, c: int)
    requires Inv(w, y, store)
    ensures ControllerOk(w, y.cluster, y.version, Controlled(y, c))
  {
    hide MessageOk, ClusterOk;
  }

  lemma Request(w: World, x: Cluster, store: Store, n: nat, s: Shard)
    requires Moves(w, n, s) && n <= x.latest + 1
    ensures MessageOk(w, x, store, FreezeRequest(n, s))
  {
  }

  lemma ProceedStep(w: World, y: System, store: Store, c: int, state: Store)
    requires Inv(w, y, store) && Enabled(w, y, Proceed(c, state))
    ensures Inv(w, Next(w, y, Proceed(c, state)), store)
  {
    hide ClusterOk, Inv, Moved, V;
    var t := Controlled(y, c);
    Obeys(w, y, store, c);
    match t.stage
    case Freezing =>
      Received(w, y, store, FreezeAnswer(t.num, t.shard, state));
      ControlStep(w, y, store, c, t.(stage := Installing), {InstallRequest(t.num, t.shard, state)});
    case Installing =>
      Received(w, y, store, InstallAnswer(t.num, t.shard));
      ControlStep(w, y, store, c, t.(stage := Deleting), {DeleteRequest(t.num, t.shard)});
    case Deleting =>
      Received(w, y, store, DeleteAnswer(t.num, t.shard));
      if t.num == y.cluster.latest + 1 { InstalledMoved(w, y.cluster, store, t.shard); }
      ControlStep(w, y, store, c, t.(stage := Checking, shard := t.shard + 1), {});
  }

  lemma Received(w: World, y: System, store: Store, m: Message)
    requires Inv(w, y, store) && m in y.messages
    ensures MessageOk(w, y.cluster, store, m) && ClusterOk(w, y.cluster, store)
  {
    hide MessageOk, ClusterOk, ControllerOk;
  }

  lemma InstalledMoved(w: World, x: Cluster, store: Store, s: Shard)
    requires ClusterOk(w, x, store) && InstalledOk(w, x, x.latest + 1, s)
    ensures Moved(w, x, s)
  {
    assert ShardOk(w, x, store, s);
  }

  lemma NamedGrows(w: World, p: nat, q: nat, s: Shard, g: Gid)
    requires Named(w, p, s, g) && p <= q
    ensures Named(w, q, s, g)
  {
  }

  lemma SendStep(w: World, y: System, store: Store, op: Op)
    requires Inv(w, y, store)
    ensures Inv(w, Next(w, y, Send(op)), store)
  {
    hide ClusterOk, ControllerOk;
    var m := ClientRequest(w.owner(y.cluster.latest, w.shardOf(op.key)), op);
    assert w.first <= y.cluster.latest by { Bounds(w, y.cluster, store); }
    assert MessageOk(w, y.cluster, store, m);
    hide MessageOk;
  }

  lemma Bounds(w: World, x: Cluster, store: Store)
    requires ClusterOk(w, x, store)
    ensures w.first <= x.latest
  {
  }

  // ---- publishing ----------------------------------------------------------------

  lemma SameViews(w: World, x: Cluster, p: nat)
    ensures forall g, s :: V(w, x.(latest := p), g, s) == V(w, x, g, s)
  {
    hide ViewOf;
  }

  lemma PublishBounded(w: World, x: Cluster, s: Shard)
    requires Bounded(w, x, s)
    ensures var x' := x.(latest := x.latest + 1); Bounded(w, x', s) && !Moved(w, x', s)
  {
    SameViews(w, x, x.latest + 1);
    hide V;
    var x' := x.(latest := x.latest + 1);
    forall g ensures V(w, x', g, s).max <= x.latest + 1 {
      assert V(w, x, g, s).max <= x.latest + 1;
    }
  }

  lemma PublishRecorded(w: World, x: Cluster, s: Shard)
    requires NumbersOk(w, x, s) && (Moves(w, x.latest + 1, s) ==> Moved(w, x, s))
    ensures Recorded(w, x.(latest := x.latest + 1), s)
  {
    SameViews(w, x, x.latest + 1);
    hide V, Bounded;
  }

  lemma PublishHolder(w: World, x: Cluster, store: Store, s: Shard)
    requires w.first <= x.latest && s < w.shards && Bounded(w, x, s) && HolderOk(w, x, store, s)
    requires Moves(w, x.latest + 1, s) ==> Moved(w, x, s)
    ensures var x' := x.(latest := x.latest + 1);
      HolderOk(w, x', store, s) && Holder(w, x', s) == Holder(w, x, s) == w.owner(x.latest + 1, s)
  {
    PublishBounded(w, x, s);
    SameViews(w, x, x.latest + 1);
    hide V, Part;
    assert V(w, x, w.owner(x.latest + 1, s), s).max <= x.latest + 1;
  }

  lemma PublishOthers(w: World, x: Cluster, store: Store, s: Shard)
    requires OthersOk(w, x, store, s)
    requires var x' := x.(latest := x.latest + 1); Holder(w, x', s) == Holder(w, x, s) == w.owner(x.latest + 1, s)
    ensures OthersOk(w, x.(latest := x.latest + 1), store, s)
  {
    SameViews(w, x, x.latest + 1);
    hide V, Part, Holder;
    forall g | Named(w, x.latest + 1, s, g) && g != w.owner(x.latest + 1, s) ensures Named(w, x.latest, s, g) {
      var n :| w.first <= n <= x.latest + 1 && w.owner(n, s) == g;
      assert n <= x.latest;
    }
  }

  lemma PublishUnnamed(w: World, x: Cluster, s: Shard)
    requires UnnamedOk(w, x, s)
    ensures UnnamedOk(w, x.(latest := x.latest + 1), s)
  {
    SameViews(w, x, x.latest + 1);
    hide V;
    forall g | !Named(w, x.latest + 1, s, g) ensures !Named(w, x.latest, s, g) {
      if Named(w, x.latest, s, g) { NamedGrows(w, x.latest, x.latest + 1, s, g); }
    }
  }

  /** Once the shard is at its next owner, publishing that owner changes nothing for it. */
  lemma PublishShard(w: World, x: Cluster, store: Store, s: Shard)
    requires w.first <= x.latest && s < w.shards && ShardOk(w, x, store, s)
    requires Moves(w, x.latest + 1, s) ==> Moved(w, x, s)
    ensures ShardOk(w, x.(latest := x.latest + 1), store, s)
  {
    hide Bounded, Recorded, HolderOk, OthersOk, UnnamedOk, Moved, Moves, Holder;
    PublishBounded(w, x, s);
    PublishUnnamed(w, x, s);
    PublishRecorded(w, x, s);
    PublishHolder(w, x, store, s);
    PublishOthers(w, x, store, s);
  }

  lemma PublishMessage(w: World, x: Cluster, store: Store, m: Message)
    requires MessageOk(w, x, store, m)
    ensures MessageOk(w, x.(latest := x.latest + 1), store, m)
  {
    SameViews(w, x, x.latest + 1);
    hide V;
    if m.ClientRequest? { NamedGrows(w, x.latest, x.latest + 1, w.shardOf(m.op.key), m.gid); }
  }

  lemma PublishStep(w: World, y: System, store: Store, c: int)
    requires Inv(w, y, store) && Enabled(w, y, Publish(c))
    ensures Inv(w, Next(w, y, Publish(c)), store)
  {
    hide Moved, ShardOk, MessageOk, V;
    var x, t := y.cluster, Controlled(y, c);
    Obeys(w, y, store, c);
    if t.version != y.version {
      hide ClusterOk, ControllerOk;
      assert ControllerOk(w, x, y.version, Idle) by { IdleOk(w, x, y.version); }
      ControlStep(w, y, store, c, Idle, {});
    } else {
      forall s | 0 <= s < w.shards ensures ShardOk(w, x.(latest := t.num), store, s) {
        PublishShard(w, x, store, s);
      }
      forall m | m in y.messages ensures MessageOk(w, x.(latest := t.num), store, m) {
        PublishMessage(w, x, store, m);
      }
    }
  }

  lemma IdleOk(w: World, x: Cluster, version: nat)
    ensures ControllerOk(w, x, version, Idle)
  {
  }

  // ---- steps of groups -----------------------------------------------------------

  /** From `x` to `y` only shard `s` changes, and no migration number falls. */
  ghost predicate Touches(w: World, x: Cluster, y: Cluster, s: Shard) {
    && y.latest == x.latest
    && (forall g, t :: t != s ==> V(w, y, g, t) == V(w, x, g, t))
    && (forall g :: V(w, y, g, s).max >= V(w, x, g, s).max)
  }

  lemma OtherShard(w: World, x: Cluster, y: Cluster, store: Store, store': Store, t: Shard)
    requires y.latest == x.latest && (forall g :: V(w, y, g, t) == V(w, x, g, t))
    requires Part(store', w.shardOf, t) == Part(store, w.shardOf, t)
    requires ShardOk(w, x, store, t)
    ensures ShardOk(w, y, store', t)
  {
    hide V, Part;
    assert Holder(w, y, t) == Holder(w, x, t);
  }

  lemma MovedStays(w: World, x: Cluster, y: Cluster, s: Shard, t: Shard)
    requires Touches(w, x, y, s) && Moved(w, x, t) && V(w, y, w.owner(y.latest + 1, t), t).max <= y.latest + 1
    ensures Moved(w, y, t)
  {
    hide V;
  }

  /** The contents of the shard are as before, or nobody carries them any more. */
  ghost predicate Settled(w: World, x: Cluster, store: Store, store': Store, s: Shard) {
    || Part(store', w.shardOf, s) == Part(store, w.shardOf, s)
    || Moved(w, x, s)
    || V(w, x, w.owner(x.latest, s), s).max < x.latest + 1
  }

  lemma MessageKept(w: World, x: Cluster, y: Cluster, store: Store, store': Store, s: Shard, m: Message)
    requires MessageOk(w, x, store, m) && Touches(w, x, y, s) && Settled(w, x, store, store', s)
    requires forall t :: t != s ==> Part(store', w.shardOf, t) == Part(store, w.shardOf, t)
    requires Moved(w, x, s) ==> Moved(w, y, s)
    ensures MessageOk(w, y, store', m)
  {
    hide V, Part;
  }

  lemma GroupStep(w: World, y: System, store: Store, store': Store, g: Gid, group: Group, s: Shard, more: set<Message>)
    requires Inv(w, y, store) && s < w.shards
    requires Touches(w, y.cluster, Set(y.cluster, g, group), s) && Settled(w, y.cluster, store, store', s)
    requires forall t :: t != s ==> Part(store', w.shardOf, t) == Part(store, w.shardOf, t)
    requires ShardOk(w, Set(y.cluster, g, group), store', s)
    requires forall m :: m in more ==> MessageOk(w, Set(y.cluster, g, group), store', m)
    ensures Inv(w, Update(y, g, group, more), store')
  {
    var x, x' := y.cluster, Set(y.cluster, g, group);
    forall t | 0 <= t < w.shards && t != s ensures ShardOk(w, x', store', t) {
      hide V, Part, ShardOk;
      OtherShard(w, x, x', store, store', t);
    }
    forall t | 0 <= t < w.shards && Moved(w, x, t) ensures Moved(w, x', t) {
      hide V, Part;
      assert ShardOk(w, x', store', t);
      MovedStays(w, x, x', s, t);
    }
    hide V, Part, ShardOk, Moved, Touches;
    forall m | m in y.messages ensures MessageOk(w, x', store', m) {
      hide Inv, ClusterOk, MessageOk;
      Received(w, y, store, m);
      MessageKept(w, x, x', store, store', s, m);
    }
    hide MessageOk;
    assert x'.latest == x.latest;
  }

  lemma SetView(w: World, x: Cluster, g: Gid, group: Group)
    ensures forall h, t :: V(w, Set(x, g, group), h, t) == if h == g then ViewOf(w, group, t) else V(w, x, h, t)
  {
    hide ViewOf;
  }

  /** A group's step that changes shard `s` only and lets no number fall touches `s` only. */
  lemma SetTouches(w: World, x: Cluster, g: Gid, group: Group, s: Shard)
    requires forall t :: t != s ==> ViewOf(w, group, t) == V(w, x, g, t)
    requires ViewOf(w, group, s).max >= V(w, x, g, s).max
    ensures Touches(w, x, Set(x, g, group), s)
  {
    SetView(w, x, g, group);
    hide V, ViewOf;
  }

  /** What is true of the cluster as a whole is true of shard `s`. */
  lemma ShardFacts(w: World, y: System, store: Store, s: Shard)
    requires Inv(w, y, store) && s < w.shards
    ensures ShardOk(w, y.cluster, store, s) && w.first <= y.cluster.latest
  {
    hide ShardOk, MessageOk, ControllerOk;
  }

  // Freezing

  lemma FreezeView(w: World, g: Group, s: Shard, num: nat)
    ensures var (g', reply) := Freeze(g, w.shardOf, s, num); var v := ViewOf(w, g, s);
      && (forall t :: t != s ==> ViewOf(w, g', t) == ViewOf(w, g, t))
      && ViewOf(w, g', s) == (if num > v.max then v.(frozen := true, max := num) else v)
      && (reply.err == OK <==> num >= v.max)
      && (num > v.max || (num == v.max && !v.migrated) ==> reply.state == v.part)
  {
    hide Part;
  }

  lemma FreezeShardOk(w: World, x: Cluster, store: Store, s: Shard, g: Gid, group: Group, num: nat)
    requires ShardOk(w, x, store, s) && Moves(w, num, s) && num <= x.latest + 1 && g == w.owner(num - 1, s)
    requires var v := V(w, x, g, s); ViewOf(w, group, s) == if num > v.max then v.(frozen := true, max := num) else v
    ensures ShardOk(w, Set(x, g, group), store, s)
  {
    SetView(w, x, g, group);
    hide V, ViewOf, Part;
    if num <= V(w, x, g, s).max {
      OtherShard(w, x, Set(x, g, group), store, store, s);
    } else {
      assert num == x.latest + 1;
      assert !Moved(w, x, s);
      assert Holder(w, Set(x, g, group), s) == Holder(w, x, s) == g;
      assert Named(w, x.latest, s, g);
      hide Moved, Holder, Named;
    }
  }

  lemma FreezeAnswerOk(w: World, x: Cluster, store: Store, s: Shard, g: Gid, group: Group, num: nat, state: Store)
    requires ShardOk(w, x, store, s) && Moves(w, num, s) && num <= x.latest + 1 && g == w.owner(num - 1, s)
    requires var v := V(w, x, g, s); num >= v.max && (num > v.max || !v.migrated ==> state == v.part)
    requires ViewOf(w, group, s).max >= num
    ensures MessageOk(w, Set(x, g, group), store, FreezeAnswer(num, s, state))
  {
    SetView(w, x, g, group);
    hide V, ViewOf, Part, Bounded, Recorded, OthersOk;
  }

  lemma FreezeStep(w: World, y: System, store: Store, num: nat, s: Shard)
    requires Inv(w, y, store) && Enabled(w, y, ServeFreeze(num, s))
    ensures Inv(w, Next(w, y, ServeFreeze(num, s)), store)
  {
    hide ViewOf, Part, Inv, Holder, Moved, ShardOk, ClusterOk, Touches, CarriedOk, InstalledOk, Named, Flag, MaxNum;
    var x, g := y.cluster, w.owner(num - 1, s);
    var (group, reply) := Freeze(At(x, g), w.shardOf, s, num);
    Received(w, y, store, FreezeRequest(num, s));
    ShardFacts(w, y, store, s);
    FreezeView(w, At(x, g), s, num);
    hide Freeze;
    FreezeShardOk(w, x, store, s, g, group, num);
    SetTouches(w, x, g, group, s);
    if reply.err == OK { FreezeAnswerOk(w, x, store, s, g, group, num, reply.state); }
    hide MessageOk;
    GroupStep(w, y, store, store, g, group, s, if reply.err == OK then {FreezeAnswer(num, s, reply.state)} else {});
  }

  // Installing

  lemma InstallView(w: World, g: Group, s: Shard, state: Store, num: nat)
    requires num > MaxNum(g, s) ==> forall k :: k in state ==> w.shardOf(k) == s
    ensures var g' := Install(g, s, state, num).0; var v := ViewOf(w, g, s);
      && (forall t :: t != s ==> ViewOf(w, g', t) == ViewOf(w, g, t))
      && ViewOf(w, g', s) == if num > v.max then View(v.part + state, false, false, num) else v
  {
    var g' := Install(g, s, state, num).0;
    if num > MaxNum(g, s) {
      forall t | t != s ensures Part(g.kv + state, w.shardOf, t) == Part(g.kv, w.shardOf, t) {}
      assert Part(g.kv + state, w.shardOf, s) == Part(g.kv, w.shardOf, s) + state;
    }
  }

  /** An installation that is not a repetition finds the current contents in its hands. */
  lemma InstallIsCurrent(w: World, x: Cluster, store: Store, s: Shard, state: Store, num: nat)
    requires ShardOk(w, x, store, s) && CarriedOk(w, x, store, num, s, state)
    requires num > V(w, x, w.owner(num, s), s).max
    ensures num == x.latest + 1 && !Moved(w, x, s) && state == Part(store, w.shardOf, s)
    ensures V(w, x, w.owner(x.latest, s), s).max == num
  {
    hide V, Part;
  }

  lemma InstallShardOk(w: World, x: Cluster, store: Store, s: Shard, g: Gid, group: Group, state: Store, num: nat)
    requires ShardOk(w, x, store, s) && CarriedOk(w, x, store, num, s, state) && g == w.owner(num, s)
    requires var v := V(w, x, g, s);
      ViewOf(w, group, s) == if num > v.max then View(v.part + state, false, false, num) else v
    ensures ShardOk(w, Set(x, g, group), store, s)
  {
    SetView(w, x, g, group);
    hide V, ViewOf, Part;
    if num <= V(w, x, g, s).max {
      OtherShard(w, x, Set(x, g, group), store, store, s);
    } else {
      InstallIsCurrent(w, x, store, s, state, num);
      assert V(w, x, g, s).part.Keys <= state.Keys;
      assert V(w, x, g, s).part + state == state;
      assert Moved(w, Set(x, g, group), s);
      assert Holder(w, x, s) == w.owner(x.latest, s) && Holder(w, Set(x, g, group), s) == g;
      hide Moved, Holder;
    }
  }

  lemma InstallStep(w: World, y: System, store: Store, num: nat, s: Shard, state: Store)
    requires Inv(w, y, store) && Enabled(w, y, ServeInstall(num, s, state))
    ensures Inv(w, Next(w, y, ServeInstall(num, s, state)), store)
  {
    hide ViewOf, Part, Inv, Holder, Moved, ShardOk, ClusterOk, Touches, Named, Flag, MaxNum, Install;
    var x, g := y.cluster, w.owner(num, s);
    var group := Install(At(x, g), s, state, num).0;
    Received(w, y, store, InstallRequest(num, s, state));
    ShardFacts(w, y, store, s);
    if num > V(w, x, g, s).max {
      InstallIsCurrent(w, x, store, s, state, num);
      PartOf(store, w.shardOf, s);
    }
    Unview(w, x, g, s);
    InstallView(w, At(x, g), s, state, num);
    InstallShardOk(w, x, store, s, g, group, state, num);
    SetTouches(w, x, g, group, s);
    assert InstalledOk(w, Set(x, g, group), num, s) by { SetView(w, x, g, group); }
    assert MessageOk(w, Set(x, g, group), store, InstallAnswer(num, s));
    hide MessageOk;
    GroupStep(w, y, store, store, g, group, s, {InstallAnswer(num, s)});
  }

  lemma PartOf(kv: Store, shardOf: string -> Shard, s: Shard)
    ensures forall k :: k in Part(kv, shardOf, s) ==> shardOf(k) == s
  {
  }

  lemma Unview(w: World, x: Cluster, g: Gid, s: Shard)
    ensures V(w, x, g, s).max == MaxNum(At(x, g), s) && V(w, x, g, s).part == Part(At(x, g).kv, w.shardOf, s)
  {
  }

  // Deleting

  lemma DeleteView(w: World, g: Group, s: Shard, num: nat)
    requires num <= MaxNum(g, s)
    ensures var g' := Delete(g, w.shardOf, s, num).0; var v := ViewOf(w, g, s);
      && (forall t :: t != s ==> ViewOf(w, g', t) == ViewOf(w, g, t))
      && ViewOf(w, g', s) == (if num == v.max then v.(frozen := false, migrated := true) else v)
      && g'.kv == g.kv
  {
    hide Part;
  }

  /** A group that owned a shard, does not own it at `n` and owns it at `p` has been given it in between. */
  lemma {:induction false} Regained(w: World, n: nat, p: nat, s: Shard, g: Gid) returns (m: nat)
    requires w.first <= n < p && w.owner(n, s) != g == w.owner(p, s) && s < w.shards
    ensures n < m <= p && Moves(w, m, s) && w.owner(m, s) == g
  {
    if w.owner(p - 1, s) != g {
      m := p;
    } else {
      m := Regained(w, n, p - 1, s, g);
    }
  }

  /** A group whose last move of the shard was away from it is not the holder. */
  lemma NotHolder(w: World, x: Cluster, store: Store, s: Shard, num: nat)
    requires w.first <= x.latest && ShardOk(w, x, store, s) && InstalledOk(w, x, num, s)
    requires V(w, x, w.owner(num - 1, s), s).max == num
    ensures w.owner(num - 1, s) != Holder(w, x, s)
  {
    hide V, Part, OthersOk, HolderOk;
    var g := w.owner(num - 1, s);
    if num <= x.latest && w.owner(x.latest, s) == g {
      var m := Regained(w, num, x.latest, s, g);
    }
  }

  lemma SameNumbers(w: World, x: Cluster, y: Cluster, s: Shard)
    requires NumbersOk(w, x, s) && y.latest == x.latest && forall g :: V(w, y, g, s).max == V(w, x, g, s).max
    ensures NumbersOk(w, y, s) && Moved(w, y, s) == Moved(w, x, s) && Holder(w, y, s) == Holder(w, x, s)
  {
    hide V, Moves;
  }

  /** A group that does not hold the shard and stays blocked does not matter. */
  lemma BystanderOk(w: World, x: Cluster, store: Store, s: Shard, g: Gid, group: Group)
    requires ShardOk(w, x, store, s) && g != Holder(w, x, s) && Named(w, x.latest, s, g)
    requires var v := V(w, x, g, s); ViewOf(w, group, s) == v.(frozen := false, migrated := true)
    ensures ShardOk(w, Set(x, g, group), store, s)
  {
    SetView(w, x, g, group);
    hide V, ViewOf, Part;
    SameNumbers(w, x, Set(x, g, group), s);
    hide NumbersOk, Moved, Holder;
  }

  lemma DeleteShardOk(w: World, x: Cluster, store: Store, s: Shard, g: Gid, group: Group, num: nat)
    requires w.first <= x.latest && ShardOk(w, x, store, s) && InstalledOk(w, x, num, s) && g == w.owner(num - 1, s)
    requires var v := V(w, x, g, s);
      ViewOf(w, group, s) == if num == v.max then v.(frozen := false, migrated := true) else v
    ensures ShardOk(w, Set(x, g, group), store, s)
  {
    hide ViewOf, Part, ShardOk, Holder;
    if num != V(w, x, g, s).max {
      SetView(w, x, g, group);
      OtherShard(w, x, Set(x, g, group), store, store, s);
    } else {
      NotHolder(w, x, store, s, num);
      assert Named(w, x.latest, s, g);
      BystanderOk(w, x, store, s, g, group);
    }
  }

  lemma DeleteStep(w: World, y: System, store: Store, num: nat, s: Shard)
    requires Inv(w, y, store) && Enabled(w, y, ServeDelete(num, s))
    ensures Inv(w, Next(w, y, ServeDelete(num, s)), store)
    ensures forall g :: At(Next(w, y, ServeDelete(num, s)).cluster, g).kv == At(y.cluster, g).kv
  {
    hide ViewOf, Part, Inv, Holder, Moved, ShardOk, ClusterOk, Touches, Named, Flag, MaxNum, Delete;
    var x, g := y.cluster, w.owner(num - 1, s);
    var group := Delete(At(x, g), w.shardOf, s, num).0;
    Received(w, y, store, DeleteRequest(num, s));
    ShardFacts(w, y, store, s);
    Unview(w, x, g, s);
    DeleteView(w, At(x, g), s, num);
    DeleteShardOk(w, x, store, s, g, group, num);
    SetTouches(w, x, g, group, s);
    assert InstalledOk(w, Set(x, g, group), num, s) by { SetView(w, x, g, group); }
    assert MessageOk(w, Set(x, g, group), store, DeleteAnswer(num, s));
    hide MessageOk;
    GroupStep(w, y, store, store, g, group, s, {DeleteAnswer(num, s)});
  }

  // Serving clients

  lemma AfterParts(kv: Store, shardOf: string -> Shard, op: Op)
    ensures forall t :: t != shardOf(op.key) ==> Part(After(kv, op), shardOf, t) == Part(kv, shardOf, t)
    ensures Part(After(kv, op), shardOf, shardOf(op.key)) == After(Part(kv, shardOf, shardOf(op.key)), op)
    ensures Answer(kv, op) == Answer(Part(kv, shardOf, shardOf(op.key)), op)
    ensures kv.Keys <= After(kv, op).Keys
  {
  }

  /** The only named group that accepts the shard is the holder, and it has the current contents. */
  lemma OnlyHolder(w: World, x: Cluster, store: Store, s: Shard, g: Gid)
    requires ShardOk(w, x, store, s) && Named(w, x.latest, s, g) && Accepts(At(x, g), s)
    ensures g == Holder(w, x, s) && V(w, x, g, s).part == Part(store, w.shardOf, s)
    ensures Moved(w, x, s) || V(w, x, w.owner(x.latest, s), s).max < x.latest + 1
  {
    hide Part;
    assert !V(w, x, g, s).frozen && !V(w, x, g, s).migrated;
    hide V;
  }

  lemma ServeShardOk(w: World, x: Cluster, store: Store, store': Store, s: Shard, g: Gid, group: Group)
    requires ShardOk(w, x, store, s) && g == Holder(w, x, s)
    requires ViewOf(w, group, s) == V(w, x, g, s).(part := Part(store', w.shardOf, s))
    requires Part(store, w.shardOf, s).Keys <= Part(store', w.shardOf, s).Keys
    ensures ShardOk(w, Set(x, g, group), store', s)
  {
    SetView(w, x, g, group);
    hide V, ViewOf, Part;
    SameNumbers(w, x, Set(x, g, group), s);
    hide NumbersOk, Moved, Holder;
  }

  lemma ServeStep(w: World, y: System, store: Store, g: Gid, op: Op)
    requires Valid(w) && Inv(w, y, store) && Enabled(w, y, Serve(g, op))
    ensures var reply := Answered(w, y, Serve(g, op));
      || (reply.err == ErrWrongGroup && Inv(w, Next(w, y, Serve(g, op)), store))
      || (reply == Answer(store, op) && Inv(w, Next(w, y, Serve(g, op)), After(store, op)))
  {
    hide ViewOf, Part, Inv, Holder, Moved, ShardOk, ClusterOk, Touches, Named, Flag, MaxNum, Answer, After;
    var x, s := y.cluster, w.shardOf(op.key);
    var group := Execute(At(x, g), w.shardOf, op).0;
    Received(w, y, store, ClientRequest(g, op));
    ShardFacts(w, y, store, s);
    SetView(w, x, g, group);
    if Accepts(At(x, g), s) {
      var store' := After(store, op);
      OnlyHolder(w, x, store, s, g);
      Unview(w, x, g, s);
      AfterParts(store, w.shardOf, op);
      AfterParts(At(x, g).kv, w.shardOf, op);
      AfterParts(Part(store, w.shardOf, s), w.shardOf, op);
      ExecuteView(w, At(x, g), op);
      ServeShardOk(w, x, store, store', s, g, group);
      SetTouches(w, x, g, group, s);
      hide MessageOk, Accepts;
      GroupStep(w, y, store, store', g, group, s, {});
    } else {
      OtherShard(w, x, Set(x, g, group), store, store, s);
      SetTouches(w, x, g, group, s);
      hide MessageOk, Accepts;
      GroupStep(w, y, store, store, g, group, s, {});
    }
  }

  lemma ExecuteView(w: World, g: Group, op: Op)
    requires Accepts(g, w.shardOf(op.key))
    ensures var g' := Execute(g, w.shardOf, op).0; var s := w.shardOf(op.key);
      && (forall t :: t != s ==> ViewOf(w, g', t) == ViewOf(w, g, t))
      && ViewOf(w, g', s) == ViewOf(w, g, s).(part := After(ViewOf(w, g, s).part, op))
  {
    AfterParts(g.kv, w.shardOf, op);
    hide Part, After;
  }

  // ---- whole runs ----------------------------------------------------------------

  lemma InitialInv(w: World, y: System)
    requires Initial(w, y)
    ensures Inv(w, y, map[])
  {
    forall s | 0 <= s < w.shards ensures ShardOk(w, y.cluster, map[], s) {
      assert forall g :: V(w, y.cluster, g, s) == View(map[], false, false, -1);
      hide V, Part;
      assert Part(map[], w.shardOf, s) == map[] by { PartOfNothing(w.shardOf, s); }
    }
  }

  lemma PartOfNothing(shardOf: string -> Shard, s: Shard)
    ensures Part(map[], shardOf, s) == map[]
  {
  }

  /** The versioned map that the accepted requests of a run have made. */
  ghost function StoreAfter(w: World, run: seq<System>, events: seq<Event>, i: nat): (r: Store)
    requires i <= |events| && |run| > |events|
  {
    if i == 0 then map[]
    else
      var store := StoreAfter(w, run, events, i - 1);
      if events[i - 1].Serve? && Answered(w, run[i - 1], events[i - 1]).err != ErrWrongGroup
      then After(store, events[i - 1].op)
      else store
  }

  ghost predicate IsRun(w: World, run: seq<System>, events: seq<Event>) {
    && |run| == |events| + 1 && Initial(w, run[0])
    && forall i :: 0 <= i < |events| ==> Enabled(w, run[i], events[i]) && run[i + 1] == Next(w, run[i], events[i])
  }

  lemma Step(w: World, y: System, store: Store, e: Event)
    requires Valid(w) && Inv(w, y, store) && Enabled(w, y, e)
    ensures !e.Serve? ==> Inv(w, Next(w, y, e), store)
    ensures e.Serve? && Answered(w, y, e).err == ErrWrongGroup ==> Inv(w, Next(w, y, e), store)
    ensures e.Serve? && Answered(w, y, e).err != ErrWrongGroup ==>
      Answered(w, y, e) == Answer(store, e.op) && Inv(w, Next(w, y, e), After(store, e.op))
  {
    hide Inv;
    match e
    case Begin(c) => BeginStep(w, y, store, c);
    case Stop(c) =>
      IdleOk(w, y.cluster, y.version);
      ControlStep(w, y, store, c, Idle, {});
    case Check(c) => CheckStep(w, y, store, c);
    case Proceed(c, state) => ProceedStep(w, y, store, c, state);
    case Publish(c) => PublishStep(w, y, store, c);
    case ServeFreeze(num, s) => FreezeStep(w, y, store, num, s);
    case ServeInstall(num, s, state) => InstallStep(w, y, store, num, s, state);
    case ServeDelete(num, s) => DeleteStep(w, y, store, num, s);
    case Send(op) => SendStep(w, y, store, op);
    case Serve(g, op) => ServeStep(w, y, store, g, op);
  }

  lemma BeginStep(w: World, y: System, store: Store, c: int)
    requires Inv(w, y, store)
    ensures Inv(w, With(y, c, Working(y.cluster.latest + 1, y.version, 0, Checking), {}), store)
  {
    assert w.first <= y.cluster.latest by { Bounds(w, y.cluster, store); }
    ControlStep(w, y, store, c, Working(y.cluster.latest + 1, y.version, 0, Checking), {});
  }

  /** In every run, after every step, the groups hold exactly the versioned map made by the accepted
      requests: each shard is complete at its holder, and every accepted request was answered as
      that map answers it. */
  lemma {:induction false} Refinement(w: World, run: seq<System>, events: seq<Event>, i: nat)
    requires Valid(w) && IsRun(w, run, events) && i <= |events|
    ensures Inv(w, run[i], StoreAfter(w, run, events, i))
    ensures i < |events| && events[i].Serve? ==>
      var reply := Answered(w, run[i], events[i]);
      reply.err == ErrWrongGroup || reply == Answer(StoreAfter(w, run, events, i), events[i].op)
  {
    hide Inv, Enabled, Next, Answer, After, Answered, Initial;
    if i == 0 {
      InitialInv(w, run[0]);
    } else {
      Refinement(w, run, events, i - 1);
      Step(w, run[i - 1], StoreAfter(w, run, events, i - 1), events[i - 1]);
    }
    if i < |events| {
      Step(w, run[i], StoreAfter(w, run, events, i), events[i]);
    }
  }

  /** In every reachable state at most one group named by a published configuration accepts a shard,
      and it holds the shard's current contents. */
  lemma ExclusiveService(w: World, run: seq<System>, events: seq<Event>, i: nat, s: Shard, g: Gid, h: Gid)
    requires Valid(w) && IsRun(w, run, events) && i <= |events| && s < w.shards
    requires var x := run[i].cluster;
      Named(w, x.latest, s, g) && Named(w, x.latest, s, h) && Accepts(At(x, g), s) && Accepts(At(x, h), s)
    ensures g == h
    ensures Part(At(run[i].cluster, g).kv, w.shardOf, s) == Part(StoreAfter(w, run, events, i), w.shardOf, s)
  {
    hide Inv, ShardOk, Named, Accepts, Part, Holder;
    var store := StoreAfter(w, run, events, i);
    Refinement(w, run, events, i);
    ShardFacts(w, run[i], store, s);
    OnlyHolder(w, run[i].cluster, store, s, g);
    OnlyHolder(w, run[i].cluster, store, s, h);
    Unview(w, run[i].cluster, g, s);
  }

  /** A shard that is never given up is never lost: some group holds all of it in every reachable state,
      and no group has a key of it that the map does not have. */
  lemma Conserved(w: World, run: seq<System>, events: seq<Event>, i: nat, s: Shard) returns (g: Gid)
    requires Valid(w) && IsRun(w, run, events) && i <= |events| && s < w.shards
    ensures g == w.owner(run[i].cluster.latest, s) || g == w.owner(run[i].cluster.latest + 1, s)
    ensures Part(At(run[i].cluster, g).kv, w.shardOf, s) == Part(StoreAfter(w, run, events, i), w.shardOf, s)
    ensures var store := StoreAfter(w, run, events, i);
      forall h :: Part(At(run[i].cluster, h).kv, w.shardOf, s).Keys <= Part(store, w.shardOf, s).Keys
  {
    hide Inv, Part, StoreAfter;
    var store := StoreAfter(w, run, events, i);
    Refinement(w, run, events, i);
    ShardFacts(w, run[i], store, s);
    g := Holder(w, run[i].cluster, s);
    forall h ensures V(w, run[i].cluster, h, s).part == Part(At(run[i].cluster, h).kv, w.shardOf, s) {
      Unview(w, run[i].cluster, h, s);
    }
    hide NumbersOk, V;
  }

  /** In every run a delete request finds the shard's number already recorded, so it erases nothing. */
  lemma DeleteErasesNothing(w: World, run: seq<System>, events: seq<Event>, i: nat, g: Gid)
    requires Valid(w) && IsRun(w, run, events) && i < |events| && events[i].ServeDelete?
    ensures At(run[i + 1].cluster, g).kv == At(run[i].cluster, g).kv
  {
    hide Inv, Enabled, Next;
    Refinement(w, run, events, i);
    DeleteStep(w, run[i], StoreAfter(w, run, events, i), events[i].num, events[i].shard);
  }

  /** The shard's contents are on their way from this group to the next owner. */
  ghost predicate OnItsWay(w: World, x: Cluster, s: Shard, g: Gid) {
    g == w.owner(x.latest, s) && MaxNum(At(x, g), s) == x.latest + 1
  }

  /** In every reachable state a group accepts a shard exactly if no published configuration has named it as the
      shard's owner, or it holds the shard and the shard is not on its way to the next owner. */
  lemma WhoAccepts(w: World, run: seq<System>, events: seq<Event>, i: nat, s: Shard, g: Gid)
    requires Valid(w) && IsRun(w, run, events) && i <= |events| && s < w.shards
    ensures var x := run[i].cluster;
      Accepts(At(x, g), s) <==>
        || !Named(w, x.latest, s, g)
        || (g == Holder(w, x, s) && !OnItsWay(w, x, s, g))
  {
    hide Inv, StoreAfter, Part;
    var x, store := run[i].cluster, StoreAfter(w, run, events, i);
    Refinement(w, run, events, i);
    ShardFacts(w, run[i], store, s);
    Unview(w, x, g, s);
    assert Accepts(At(x, g), s) <==> !V(w, x, g, s).frozen && !V(w, x, g, s).migrated;
    hide V, NumbersOk, Holder, Named, Accepts;
    assert Holder(w, x, s) == g ==> HolderOk(w, x, store, s);
  }

  // ---- what the answers mean -----------------------------------------------------

  /** The accepted requests of a run with their answers, in order. */
  ghost function Exchanges(w: World, run: seq<System>, events: seq<Event>, i: nat): (r: seq<Exchange>)
    requires i <= |events| && |run| > |events|
  {
    if i == 0 then []
    else
      var log := Exchanges(w, run, events, i - 1);
      if events[i - 1].Serve? && Answered(w, run[i - 1], events[i - 1]).err != ErrWrongGroup
      then log + [Exchange(events[i - 1].op, Answered(w, run[i - 1], events[i - 1]))]
      else log
  }

  lemma {:induction false} StoreIsExchanged(w: World, run: seq<System>, events: seq<Event>, i: nat)
    requires Valid(w) && IsRun(w, run, events) && i <= |events|
    ensures Holds(StoreAfter(w, run, events, i), Exchanges(w, run, events, i)) && AllRight(Exchanges(w, run, events, i))
  {
    hide Enabled, Next, Initial, Holds, AllRight, Answered, Answer, After, RightAnswer;
    if i == 0 {
      NothingStored();
    } else {
      StoreIsExchanged(w, run, events, i - 1);
      Refinement(w, run, events, i - 1);
      var store, log, e := StoreAfter(w, run, events, i - 1), Exchanges(w, run, events, i - 1), events[i - 1];
      if e.Serve? && Answered(w, run[i - 1], e).err != ErrWrongGroup {
        HeldAt(store, log, e.op.key);
        AnswerIsRight(store, log, e.op);
        HoldsMore(store, log, e.op);
        AllRightMore(log, Exchange(e.op, Answer(store, e.op)));
      }
    }
  }

  /** In every run a request reaches a group that some published configuration has named. It is refused with
      ErrWrongGroup exactly if the group does not hold the shard or the shard is on its way to the next owner; otherwise
      it gets the right answer after all requests accepted so far, at whatever groups. */
  lemma WhoServes(w: World, run: seq<System>, events: seq<Event>, i: nat)
    requires Valid(w) && IsRun(w, run, events) && i < |events| && events[i].Serve?
    ensures var x, g, op := run[i].cluster, events[i].gid, events[i].op;
      var s, reply := w.shardOf(op.key), Answered(w, run[i], events[i]);
      && Named(w, x.latest, s, g)
      && (reply.err == ErrWrongGroup <==> g != Holder(w, x, s) || OnItsWay(w, x, s, g))
      && (reply.err != ErrWrongGroup ==> reply == RightAnswer(Exchanges(w, run, events, i), op))
  {
    hide Inv, Next, Holder, Named, Holds, StoreAfter, Exchanges, RightAnswer, AllRight;
    var x, g, op := run[i].cluster, events[i].gid, events[i].op;
    var store := StoreAfter(w, run, events, i);
    Refinement(w, run, events, i);
    StoreIsExchanged(w, run, events, i);
    HeldAt(store, Exchanges(w, run, events, i), op.key);
    AnswerIsRight(store, Exchanges(w, run, events, i), op);
    WhoAccepts(w, run, events, i, w.shardOf(op.key), g);
    Received(w, run[i], store, ClientRequest(g, op));
    hide IsRun, Accepts;
  }

  // ---- no change is stuck --------------------------------------------------------

  ghost predicate IsPath(w: World, states: seq<System>, events: seq<Event>) {
    && |states| == |events| + 1
    && forall i :: 0 <= i < |events| ==>
         Enabled(w, states[i], events[i]) && states[i + 1] == Next(w, states[i], events[i])
  }

  ghost function End(states: seq<System>): (r: System)
    requires |states| > 0
  {
    states[|states| - 1]
  }

  /** A path on which no request is served, so that the map stays as it is. */
  ghost predicate Quiet(w: World, store: Store, y: System, states: seq<System>, events: seq<Event>) {
    && |states| > 0 && IsPath(w, states, events) && states[0] == y && Inv(w, End(states), store)
    && End(states).cluster.latest == y.cluster.latest && End(states).version == y.version
    && forall e :: e in events ==> !e.Serve?
  }

  lemma Do(w: World, store: Store, y: System, states: seq<System>, events: seq<Event>, e: Event)
      returns (longer: seq<System>, more: seq<Event>)
    requires Valid(w) && Quiet(w, store, y, states, events) && Enabled(w, End(states), e) && !e.Serve? && !e.Publish?
    ensures Quiet(w, store, y, longer, more) && End(longer) == Next(w, End(states), e)
  {
    hide Inv, Enabled;
    Step(w, End(states), store, e);
    longer, more := states + [Next(w, End(states), e)], events + [e];
    hide Freeze, Install, Delete;
  }

  /** The controller works on the next configuration, at shard `s`. */
  ghost predicate Driving(y: System, c: int, s: Shard, stage: Stage) {
    Controlled(y, c) == Working(y.cluster.latest + 1, y.version, s, stage)
  }

  lemma FreezeAnswers(w: World, y: System, store: Store, s: Shard)
    requires Valid(w) && Inv(w, y, store) && s < w.shards && Enabled(w, y, ServeFreeze(y.cluster.latest + 1, s))
    ensures var num := y.cluster.latest + 1;
      var (_, reply) := Freeze(At(y.cluster, w.owner(num - 1, s)), w.shardOf, s, num);
      FreezeAnswer(num, s, reply.state) in Next(w, y, ServeFreeze(num, s)).messages
  {
    hide Inv, Part;
    ShardFacts(w, y, store, s);
    var g := w.owner(y.cluster.latest, s);
    assert V(w, y.cluster, g, s).max <= y.cluster.latest + 1;
  }

  /** From the request for a freeze to the next shard. */
  lemma Migrate(w: World, store: Store, y: System, c: int, s: Shard) returns (states: seq<System>, events: seq<Event>)
    requires Valid(w) && Inv(w, y, store) && s < w.shards && Driving(y, c, s, Freezing)
    requires FreezeRequest(y.cluster.latest + 1, s) in y.messages
    ensures Quiet(w, store, y, states, events) && Driving(End(states), c, s + 1, Checking)
  {
    hide Inv, IsPath, Freeze, Install, Delete;
    var num := y.cluster.latest + 1;
    states, events := Stand(w, store, y);
    FreezeAnswers(w, y, store, s);
    var state := Freeze(At(y.cluster, w.owner(num - 1, s)), w.shardOf, s, num).1.state;
    states, events := Do(w, store, y, states, events, ServeFreeze(num, s));
    states, events := Do(w, store, y, states, events, Proceed(c, state));
    states, events := Do(w, store, y, states, events, ServeInstall(num, s, state));
    states, events := Do(w, store, y, states, events, Proceed(c, map[]));
    states, events := Do(w, store, y, states, events, ServeDelete(num, s));
    states, events := Do(w, store, y, states, events, Proceed(c, map[]));
  }

  lemma Stand(w: World, store: Store, y: System) returns (states: seq<System>, events: seq<Event>)
    requires Inv(w, y, store)
    ensures Quiet(w, store, y, states, events) && End(states) == y
  {
    states, events := [y], [];
  }

  lemma Join(w: World, store: Store, y: System, states: seq<System>, events: seq<Event>, on: seq<System>,
      more: seq<Event>)
    requires Quiet(w, store, y, states, events) && Quiet(w, store, End(states), on, more)
    ensures Quiet(w, store, y, states + on[1..], events + more) && End(states + on[1..]) == End(on)
  {
    hide Inv, Next, Enabled;
    var all, es := states + on[1..], events + more;
    forall i | 0 <= i < |es| ensures Enabled(w, all[i], es[i]) && all[i + 1] == Next(w, all[i], es[i]) {
      if i >= |events| {
        var j := i - |events|;
        assert all[i] == on[j] && all[i + 1] == on[j + 1] && es[i] == more[j];
      }
    }
  }

  lemma NextShard(w: World, store: Store, y: System, c: int, s: Shard) returns (states: seq<System>, events: seq<Event>)
    requires Valid(w) && Inv(w, y, store) && s < w.shards && Driving(y, c, s, Checking)
    ensures Quiet(w, store, y, states, events) && Driving(End(states), c, s + 1, Checking)
  {
    hide Inv, IsPath;
    states, events := Stand(w, store, y);
    states, events := Do(w, store, y, states, events, Check(c));
    if w.owner(y.cluster.latest, s) != w.owner(y.cluster.latest + 1, s) {
      var on, more := Migrate(w, store, End(states), c, s);
      Join(w, store, y, states, events, on, more);
      states, events := states + on[1..], events + more;
    }
  }

  lemma {:induction false} AllShards(w: World, store: Store, y: System, c: int, s: Shard)
      returns (states: seq<System>, events: seq<Event>)
    requires Valid(w) && Inv(w, y, store) && Driving(y, c, s, Checking)
    ensures Quiet(w, store, y, states, events)
    ensures exists t :: t >= w.shards && Driving(End(states), c, t, Checking)
    decreases w.shards - s
  {
    hide Inv, IsPath;
    if s >= w.shards {
      states, events := Stand(w, store, y);
    } else {
      states, events := NextShard(w, store, y, c, s);
      var on, more := AllShards(w, store, End(states), c, s + 1);
      Join(w, store, y, states, events, on, more);
      states, events := states + on[1..], events + more;
    }
  }

  /** From every reachable state, whatever others have left half done, a controller can carry the next configuration
      through and publish it, and the groups then hold the same map. */
  lemma CanPublish(w: World, run: seq<System>, events: seq<Event>, i: nat, c: int)
      returns (states: seq<System>, more: seq<Event>)
    requires Valid(w) && IsRun(w, run, events) && i <= |events|
    ensures |states| > 0 && IsPath(w, states, more) && states[0] == run[i] && forall e :: e in more ==> !e.Serve?
    ensures End(states).cluster.latest == run[i].cluster.latest + 1
    ensures Inv(w, End(states), StoreAfter(w, run, events, i))
  {
    hide Inv, IsPath, StoreAfter, Initial;
    var y, store := run[i], StoreAfter(w, run, events, i);
    Refinement(w, run, events, i);
    states, more := Stand(w, store, y);
    states, more := Do(w, store, y, states, more, Stop(c));
    states, more := Do(w, store, y, states, more, Begin(c));
    var on, es := AllShards(w, store, End(states), c, 0);
    Join(w, store, y, states, more, on, es);
    states, more := states + on[1..], more + es;
    states, more := Finish(w, store, y, c, states, more);
  }

  lemma Finish(w: World, store: Store, y: System, c: int, states: seq<System>, events: seq<Event>)
      returns (longer: seq<System>, more: seq<Event>)
    requires Valid(w) && Quiet(w, store, y, states, events)
    requires exists t :: t >= w.shards && Driving(End(states), c, t, Checking)
    ensures |longer| > 0 && IsPath(w, longer, more) && longer[0] == y && forall e :: e in more ==> !e.Serve?
    ensures End(longer).cluster.latest == y.cluster.latest + 1 && Inv(w, End(longer), store)
  {
    hide Inv;
    Step(w, End(states), store, Publish(c));
    longer, more := states + [Next(w, End(states), Publish(c))], events + [Publish(c)];
  }
}
